/**
 Selector token lists and what they mean, stated independently of any matching strategy: section 8 of W3C Selectors
 Level 3 as a chain of related elements.
 */
module Selectors {
  import opened Wrappers
  import opened Dom

  /** A simple selector; Other stands for any further test that depends on the node alone. */
  datatype Filter = Tag(name: string) | Id(id: string) | Class(name: string) | Other(holds: Path -> bool)

  datatype Combinator = Child | Descendant | Adjacent | Sibling

  datatype Token = Rel(rel: Combinator) | Simple(filter: Filter)

  predicate Accepts(t: Node, f: Filter, p: Path) {
    match f
    case Tag(name) => name == "*" || (Has(t, p) && Lookup(t, p).value.tag == name)
    case Id(id) => Has(t, p) && Lookup(t, p).value.id == Some(id)
    case Class(name) => Has(t, p) && name in Lookup(t, p).value.classes
    case Other(holds) => holds(p)
  }

  predicate AcceptsAll(t: Node, fs: seq<Filter>, p: Path) {
    forall i :: 0 <= i < |fs| ==> Accepts(t, fs[i], p)
  }

  /** "left combinator right": where the left element must be, seen from the right one. */
  predicate Related(t: Node, c: Combinator, left: Path, right: Path) {
    match c
    case Descendant => |left| < |right| && right[..|left|] == left
    case Child => right != [] && left == Parent(right)
    case Sibling => Siblings(left, right)
    case Adjacent =>
      Siblings(left, right) && forall k :: Last(left) < k < Last(right) ==> !IsElement(t, Parent(right) + [k])
  }

  predicate Siblings(left: Path, right: Path) {
    left != [] && right != [] && Parent(left) == Parent(right) && Last(left) < Last(right)
  }

  /** One compound selector with the combinator on its left. */
  datatype Part = Part(rel: Combinator, filters: seq<Filter>)

  /** es are elements for the parts, each accepted by its part and related to the one before (or to the anchor). */
  ghost predicate Chain(t: Node, anchor: Option<Path>, parts: seq<Part>, es: seq<Path>) {
    && |es| == |parts|
    && (forall i :: 0 <= i < |parts| ==> IsElement(t, es[i]) && AcceptsAll(t, parts[i].filters, es[i]))
    && (forall i :: 1 <= i < |parts| ==> Related(t, parts[i].rel, es[i - 1], es[i]))
    && (parts != [] && anchor.Some? ==> Related(t, parts[0].rel, anchor.value, es[0]))
  }

  ghost predicate Selects(t: Node, anchor: Option<Path>, parts: seq<Part>, e: Path) {
    parts != [] && exists es :: Chain(t, anchor, parts, es) && es[|es| - 1] == e
  }

  /** One more simple selector in the last compound. */
  function Narrow(parts: seq<Part>, f: Filter): (r: seq<Part>)
    requires parts != []
    ensures |r| == |parts|
  {
    var last := parts[|parts| - 1];
    parts[..|parts| - 1] + [Part(last.rel, last.filters + [f])]
  }

  /** The parts a token list spells; a list without a leading combinator is anchored by an implicit descendant one. */
  function PartsOf(tokens: seq<Token>): (r: seq<Part>)
    ensures r != []
  {
    if tokens == [] then [Part(Descendant, [])]
    else
      var before, last := tokens[..|tokens| - 1], tokens[|tokens| - 1];
      match last
      case Rel(c) => if before == [] then [Part(c, [])] else PartsOf(before) + [Part(c, [])]
      case Simple(f) => Narrow(PartsOf(before), f)
  }

  // ---------- how a selection grows with its tokens ----------

  lemma SelectsFirst(t: Node, anchor: Option<Path>, part: Part, e: Path)
    ensures Selects(t, anchor, [part], e)
       <==> (IsElement(t, e) && AcceptsAll(t, part.filters, e)
             && (anchor.Some? ==> Related(t, part.rel, anchor.value, e)))
  {
    if IsElement(t, e) && AcceptsAll(t, part.filters, e) && (anchor.Some? ==> Related(t, part.rel, anchor.value, e)) {
      assert Chain(t, anchor, [part], [e]);
    }
  }

  lemma ChainInit(t: Node, anchor: Option<Path>, parts: seq<Part>, part: Part, es: seq<Path>)
    requires parts != [] && Chain(t, anchor, parts + [part], es)
    ensures Chain(t, anchor, parts, es[..|parts|])
    ensures IsElement(t, es[|parts|]) && AcceptsAll(t, part.filters, es[|parts|])
    ensures Related(t, part.rel, es[|parts| - 1], es[|parts|])
  {
    var all, init := parts + [part], es[..|parts|];
    assert forall i :: 0 <= i < |parts| ==> all[i] == parts[i] && init[i] == es[i];
    assert all[|parts|] == part;
  }

  lemma ChainMore(t: Node, anchor: Option<Path>, parts: seq<Part>, part: Part, es: seq<Path>, e: Path)
    requires parts != [] && Chain(t, anchor, parts, es)
    requires IsElement(t, e) && AcceptsAll(t, part.filters, e) && Related(t, part.rel, es[|es| - 1], e)
    ensures Chain(t, anchor, parts + [part], es + [e])
  {
    var all, es' := parts + [part], es + [e];
    assert forall i :: 0 <= i < |parts| ==> all[i] == parts[i] && es'[i] == es[i];
  }

  lemma SelectsThenOnly(t: Node, anchor: Option<Path>, parts: seq<Part>, part: Part, e: Path)
    requires parts != [] && Selects(t, anchor, parts + [part], e)
    ensures IsElement(t, e) && AcceptsAll(t, part.filters, e)
    ensures exists q :: Selects(t, anchor, parts, q) && Related(t, part.rel, q, e)
  {
    var es :| Chain(t, anchor, parts + [part], es) && es[|es| - 1] == e;
    ChainInit(t, anchor, parts, part, es);
    assert Selects(t, anchor, parts, es[|parts| - 1]);
  }

  lemma SelectsThenIf(t: Node, anchor: Option<Path>, parts: seq<Part>, part: Part, q: Path, e: Path)
    requires parts != [] && Selects(t, anchor, parts, q) && Related(t, part.rel, q, e)
    requires IsElement(t, e) && AcceptsAll(t, part.filters, e)
    ensures Selects(t, anchor, parts + [part], e)
  {
    var es :| Chain(t, anchor, parts, es) && es[|es| - 1] == q;
    ChainMore(t, anchor, parts, part, es, e);
  }

  /** Adding a combinator: some selected element stands in that relation. */
  lemma SelectsThen(t: Node, anchor: Option<Path>, parts: seq<Part>, part: Part, e: Path)
    requires parts != []
    ensures Selects(t, anchor, parts + [part], e)
       <==> IsElement(t, e) && AcceptsAll(t, part.filters, e)
            && exists q :: Selects(t, anchor, parts, q) && Related(t, part.rel, q, e)
  {
    if Selects(t, anchor, parts + [part], e) {
      SelectsThenOnly(t, anchor, parts, part, e);
    }
    if q :| Selects(t, anchor, parts, q) && Related(t, part.rel, q, e) {
      if IsElement(t, e) && AcceptsAll(t, part.filters, e) {
        SelectsThenIf(t, anchor, parts, part, q, e);
      }
    }
  }

  /** Adding a simple selector to the last compound: it must hold as well. */
  lemma SelectsNarrowed(t: Node, anchor: Option<Path>, parts: seq<Part>, f: Filter, e: Path)
    requires parts != []
    ensures Selects(t, anchor, Narrow(parts, f), e) <==> Selects(t, anchor, parts, e) && Accepts(t, f, e)
  {
    var init, last := parts[..|parts| - 1], parts[|parts| - 1];
    var last' := Part(last.rel, last.filters + [f]);
    assert AcceptsAll(t, last'.filters, e) <==> AcceptsAll(t, last.filters, e) && Accepts(t, f, e) by {
      assert last'.filters[|last.filters|] == f;
      assert forall i :: 0 <= i < |last.filters| ==> last'.filters[i] == last.filters[i];
    }
    assert parts == init + [last];
    if init == [] {
      assert parts == [last] && init + [last'] == [last'];
      SelectsFirst(t, anchor, last, e);
      SelectsFirst(t, anchor, last', e);
    } else {
      SelectsThen(t, anchor, init, last, e);
      SelectsThen(t, anchor, init, last', e);
    }
  }
}
