/**
 The selector compiler (addCombinator, elementMatcher and matcherFromTokens in jquery-1.11.1.js): the closures it builds
 as data, what an uncached evaluation of them returns, and that this is the meaning of the tokens.
 */
module Matchers {
  import opened Wrappers
  import opened Dom
  import opened Selectors

  datatype Dir = ToParent | ToPrevious

  /**
   The compiled closures. Comb is addCombinator's function with its captured doneName; Compound is elementMatcher's over
   the head and the filters pushed after it; Base is matcherFromTokens' foundational matcher.
   */
  datatype Matcher =
    | IsContext
    | Base(leading: bool, walk: Matcher)
    | Comb(inner: Matcher, dir: Dir, first: bool, base: bool, done: nat)
    | Compound(head: Matcher, filters: seq<Filter>)

  /** What one run fixes: the document, the context node and the outermost context (none when it is the document). */
  datatype Env = Env(t: Node, context: Path, outermost: Option<Path>)

  function OutermostEnv(t: Node, context: Path): Env {
    Env(t, context, if context == [] then None else Some(context))
  }

  function Move(dir: Dir, p: Path): Option<Path> {
    match dir
    case ToParent => ParentNode(p)
    case ToPrevious => PreviousSibling(p)
  }

  function Rank(dir: Dir, p: Path): nat {
    match dir
    case ToParent => |p|
    case ToPrevious => if p == [] then 0 else Last(p)
  }

  predicate Checked(env: Env, dir: Dir, base: bool, q: Path) {
    IsElement(env.t, q) || (base && dir == ToParent)
  }

  // ---------- evaluation without a cache ----------

  predicate Sem(env: Env, m: Matcher, p: Path)
    decreases m, 0
  {
    match m
    case IsContext => p == env.context
    case Base(leading, walk) => (!leading && Some(env.context) != env.outermost) || Sem(env, walk, p)
    case Comb(_, _, _, _, _) => SemWalk(env, m, p)
    case Compound(head, filters) => AcceptsAll(env.t, filters, p) && Sem(env, head, p)
  }

  /** The plain loop: follow the links from p and ask the inner matcher, at the closest checked node only or at all. */
  predicate SemWalk(env: Env, m: Matcher, p: Path)
    requires m.Comb?
    decreases m, 0, Rank(m.dir, p)
  {
    match Move(m.dir, p)
    case None => false
    case Some(q) =>
      if !Checked(env, m.dir, m.base, q) then SemWalk(env, m, q)
      else if m.first then Sem(env, m.inner, q)
      else Sem(env, m.inner, q) || SemWalk(env, m, q)
  }

  // ---------- what a walk finds ----------

  /** An upward walk over all ancestors. */
  lemma {:induction false} AncestorWalk(env: Env, m: Matcher, p: Path)
    requires m.Comb? && m.dir == ToParent && !m.first
    ensures SemWalk(env, m, p) <==>
              exists n :: 0 <= n < |p| && Checked(env, ToParent, m.base, p[..n]) && Sem(env, m.inner, p[..n])
    decreases |p|
  {
    if p != [] {
      var q := Parent(p);
      AncestorWalk(env, m, q);
      forall n | 0 <= n < |q| ensures q[..n] == p[..n] {
      }
      if SemWalk(env, m, q) {
        var n :| 0 <= n < |q| && Checked(env, ToParent, m.base, q[..n]) && Sem(env, m.inner, q[..n]);
        assert p[..n] == q[..n];
      }
      if n :| 0 <= n < |p| && Checked(env, ToParent, m.base, p[..n]) && Sem(env, m.inner, p[..n]) {
        if n < |q| {
          assert q[..n] == p[..n];
        }
      }
    }
  }

  /** An upward step to the closest ancestor. */
  lemma ParentWalk(env: Env, m: Matcher, p: Path)
    requires m.Comb? && m.dir == ToParent && m.first
    requires WellFormed(env.t) && Has(env.t, p)
    ensures SemWalk(env, m, p) <==> p != [] && Checked(env, ToParent, m.base, Parent(p)) && Sem(env, m.inner, Parent(p))
  {
    if p != [] {
      AncestorsIn(env.t, p, |p| - 1);
      if !Checked(env, ToParent, m.base, Parent(p)) {
        assert Parent(p) == [];
        assert ParentNode([]) == None;
      }
    }
  }

  /** A walk back over all earlier siblings. */
  lemma {:induction false} SiblingWalk(env: Env, m: Matcher, p: Path)
    requires m.Comb? && m.dir == ToPrevious && !m.first
    ensures SemWalk(env, m, p) <==>
              p != [] && exists k ::
                0 <= k < Last(p) && IsElement(env.t, Parent(p) + [k]) && Sem(env, m.inner, Parent(p) + [k])
    decreases Rank(ToPrevious, p)
  {
    if p != [] && Last(p) > 0 {
      var q := Parent(p) + [Last(p) - 1];
      assert Parent(q) == Parent(p);
      SiblingWalk(env, m, q);
    }
  }

  /** A step back to the closest earlier element sibling. */
  lemma {:induction false} AdjacentWalk(env: Env, m: Matcher, p: Path)
    requires m.Comb? && m.dir == ToPrevious && m.first
    ensures SemWalk(env, m, p) <==>
              p != [] && exists k ::
                0 <= k < Last(p) && NearestElement(env.t, Parent(p), k, Last(p)) && Sem(env, m.inner, Parent(p) + [k])
    decreases Rank(ToPrevious, p)
  {
    if p != [] && Last(p) > 0 {
      var q := Parent(p) + [Last(p) - 1];
      assert Parent(q) == Parent(p) && Last(q) == Last(p) - 1;
      AdjacentWalk(env, m, q);
      if IsElement(env.t, q) {
        assert NearestElement(env.t, Parent(p), Last(q), Last(p));
        forall k | 0 <= k < Last(p) && NearestElement(env.t, Parent(p), k, Last(p)) ensures k == Last(q) {
        }
      } else {
        forall k | 0 <= k < Last(q)
          ensures NearestElement(env.t, Parent(p), k, Last(q)) <==> NearestElement(env.t, Parent(p), k, Last(p))
        {
        }
        assert !NearestElement(env.t, Parent(p), Last(q), Last(p));
      }
    }
  }

  predicate NearestElement(t: Node, parent: Path, k: nat, before: nat) {
    IsElement(t, parent + [k]) && forall j :: k < j < before ==> !IsElement(t, parent + [j])
  }

  function DirOf(c: Combinator): Dir {
    if c.Child? || c.Descendant? then ToParent else ToPrevious
  }

  predicate FirstOf(c: Combinator) {
    c.Child? || c.Adjacent?
  }

  predicate Fits(m: Matcher, c: Combinator) {
    m.Comb? && m.dir == DirOf(c) && m.first == FirstOf(c)
  }

  ghost predicate FindsRelated(env: Env, m: Matcher, c: Combinator, p: Path)
    requires m.Comb?
  {
    SemWalk(env, m, p) <==> exists q :: Related(env.t, c, q, p) && IsElement(env.t, q) && Sem(env, m.inner, q)
  }

  lemma AncestorIsRelated(env: Env, m: Matcher, p: Path)
    requires Fits(m, Descendant) && !m.base
    ensures FindsRelated(env, m, Descendant, p)
  {
    AncestorWalk(env, m, p);
    if n :| 0 <= n < |p| && Checked(env, ToParent, m.base, p[..n]) && Sem(env, m.inner, p[..n]) {
      assert Related(env.t, Descendant, p[..n], p);
    }
    if q :| Related(env.t, Descendant, q, p) && IsElement(env.t, q) && Sem(env, m.inner, q) {
      assert p[..|q|] == q;
    }
  }

  lemma ParentIsRelated(env: Env, m: Matcher, p: Path)
    requires Fits(m, Combinator.Child) && !m.base && WellFormed(env.t) && Has(env.t, p)
    ensures FindsRelated(env, m, Combinator.Child, p)
  {
    ParentWalk(env, m, p);
    if p != [] {
      assert Related(env.t, Combinator.Child, Parent(p), p);
    }
  }

  lemma SiblingIsRelated(env: Env, m: Matcher, p: Path)
    requires Fits(m, Sibling) && !m.base
    ensures FindsRelated(env, m, Sibling, p)
  {
    SiblingWalk(env, m, p);
    SiblingPaths(p);
    if q :| Related(env.t, Sibling, q, p) && IsElement(env.t, q) && Sem(env, m.inner, q) {
      assert q == Parent(p) + [Last(q)];
    }
  }

  lemma AdjacentIsRelated(env: Env, m: Matcher, p: Path)
    requires Fits(m, Adjacent) && !m.base
    ensures FindsRelated(env, m, Adjacent, p)
  {
    AdjacentWalk(env, m, p);
    if p != [] {
      forall k: nat | k < Last(p)
        ensures NearestElement(env.t, Parent(p), k, Last(p)) <==>
                  IsElement(env.t, Parent(p) + [k]) && Related(env.t, Adjacent, Parent(p) + [k], p)
      {
        assert Parent(Parent(p) + [k]) == Parent(p);
      }
      forall q | Related(env.t, Adjacent, q, p) ensures Last(q) < Last(p) && q == Parent(p) + [Last(q)] {
      }
    }
  }

  /** The closure built for a combinator accepts p exactly when some related element is accepted by the inner one. */
  lemma CombFindsRelated(env: Env, m: Matcher, c: Combinator, p: Path)
    requires Fits(m, c) && !m.base && WellFormed(env.t) && Has(env.t, p)
    ensures Sem(env, m, p) <==> exists q :: Related(env.t, c, q, p) && IsElement(env.t, q) && Sem(env, m.inner, q)
  {
    assert FindsRelated(env, m, c, p) by {
      match c
      case Descendant => AncestorIsRelated(env, m, p);
      case Child => ParentIsRelated(env, m, p);
      case Sibling => SiblingIsRelated(env, m, p);
      case Adjacent => AdjacentIsRelated(env, m, p);
    }
  }

  lemma SiblingPaths(p: Path)
    ensures p != [] ==> forall k: nat :: Parent(Parent(p) + [k]) == Parent(p) && Last(Parent(p) + [k]) == k
    ensures p != [] ==> forall k: nat :: k < Last(p) ==> Siblings(Parent(p) + [k], p)
  {
    if p != [] {
      forall k: nat ensures Parent(Parent(p) + [k]) == Parent(p) {
      }
    }
  }

  /** The foundational closure accepts p exactly when the context stands in the leading relation to it. */
  lemma BaseFindsContext(env: Env, m: Matcher, c: Combinator, p: Path)
    requires Fits(m, c) && m.base && m.inner == IsContext
    requires WellFormed(env.t) && Has(env.t, p) && (env.context == [] || IsElement(env.t, env.context))
    ensures Sem(env, m, p) <==> Related(env.t, c, env.context, p)
  {
    match c
    case Descendant =>
      AncestorWalk(env, m, p);
      if Related(env.t, c, env.context, p) {
        assert p[..|env.context|] == env.context;
      }
    case Child =>
      ParentWalk(env, m, p);
    case Sibling =>
      SiblingWalk(env, m, p);
      SiblingPaths(p);
      if Related(env.t, c, env.context, p) {
        assert env.context == Parent(p) + [Last(env.context)];
      }
    case Adjacent =>
      AdjacentWalk(env, m, p);
      SiblingPaths(p);
      if Related(env.t, c, env.context, p) {
        assert env.context == Parent(p) + [Last(env.context)];
        assert NearestElement(env.t, Parent(p), Last(env.context), Last(p));
      }
  }

  // ---------- compilation ----------

  /** matchers as the loop of matcherFromTokens holds it: its first entry and the filters pushed since. */
  datatype Building = Building(head: Matcher, filters: seq<Filter>, done: nat)

  predicate LeadsWithRel(tokens: seq<Token>) {
    tokens != [] && tokens[0].Rel?
  }

  function StartOf(leading: bool, c: Combinator, done: nat): Building {
    // addCombinator is called twice: once for a single context node and once for a list of them
    Building(Base(leading, Comb(IsContext, DirOf(c), FirstOf(c), true, done)), [], done + 2)
  }

  function BuildOn(b: Building, token: Token): Building {
    match token
    case Rel(c) => Building(Comb(Compound(b.head, b.filters), DirOf(c), FirstOf(c), false, b.done), [], b.done + 1)
    case Simple(f) => Building(b.head, b.filters + [f], b.done)
  }

  function Compiled(tokens: seq<Token>, done: nat): Building {
    if tokens == [] then StartOf(false, Descendant, done)
    else
      var before, last := tokens[..|tokens| - 1], tokens[|tokens| - 1];
      if before == [] && last.Rel? then StartOf(true, last.rel, done)
      else BuildOn(Compiled(before, done), last)
  }

  function MatcherOf(tokens: seq<Token>, done: nat): Matcher {
    var b := Compiled(tokens, done);
    Compound(b.head, b.filters)
  }

  /** The loop of matcherFromTokens, for token lists without positional selectors. */
  method MatcherFromTokens(tokens: seq<Token>, done: nat) returns (m: Matcher, done': nat)
    requires tokens != []
    ensures m == MatcherOf(tokens, done) && done' == Compiled(tokens, done).done
  {
    var leading := tokens[0].Rel?;
    var implicit := if leading then tokens[0].rel else Descendant;
    var i := if leading then 1 else 0;
    done' := done + 2;
    var head, filters := Base(leading, Comb(IsContext, DirOf(implicit), FirstOf(implicit), true, done)), [];
    assert tokens[..0] == [] && |tokens[..1]| == 1 && tokens[..1][0] == tokens[0] && tokens[..1][..0] == [];
    while i < |tokens|
      invariant 0 <= i <= |tokens| && (leading ==> i > 0)
      invariant Building(head, filters, done') == Compiled(tokens[..i], done)
    {
      assert tokens[..i + 1][..i] == tokens[..i];
      match tokens[i] {
        case Rel(c) =>
          head, filters, done' := Comb(Compound(head, filters), DirOf(c), FirstOf(c), false, done'), [], done' + 1;
        case Simple(f) =>
          filters := filters + [f];
      }
      i := i + 1;
    }
    assert tokens[..i] == tokens;
    m := Compound(head, filters);
  }

  /** Where a compiled list is anchored: nowhere for an absolute selector run on the document, else at the context. */
  function AnchorOf(env: Env, tokens: seq<Token>): Option<Path> {
    if !LeadsWithRel(tokens) && Some(env.context) != env.outermost then None else Some(env.context)
  }

  ghost predicate MeansSelected(env: Env, tokens: seq<Token>, done: nat, e: Path) {
    Sem(env, MatcherOf(tokens, done), e) <==> Selects(env.t, AnchorOf(env, tokens), PartsOf(tokens), e)
  }

  lemma StartMeansSelected(env: Env, tokens: seq<Token>, done: nat, e: Path)
    requires WellFormed(env.t) && IsElement(env.t, e) && (env.context == [] || IsElement(env.t, env.context))
    requires tokens == [] || (|tokens| == 1 && tokens[0].Rel?)
    ensures MeansSelected(env, tokens, done, e)
  {
    var c := if tokens == [] then Descendant else tokens[0].rel;
    BaseFindsContext(env, Compiled(tokens, done).head.walk, c, e);
    assert tokens != [] ==> tokens[..0] == [];
    SelectsFirst(env.t, AnchorOf(env, tokens), Part(c, []), e);
  }

  lemma SimpleMeansSelected(env: Env, before: seq<Token>, f: Filter, tokens: seq<Token>, done: nat, e: Path)
    requires tokens != [] && tokens[..|tokens| - 1] == before && tokens[|tokens| - 1] == Simple(f)
    requires MeansSelected(env, before, done, e)
    ensures MeansSelected(env, tokens, done, e)
  {
    var b := Compiled(before, done);
    assert AnchorOf(env, before) == AnchorOf(env, tokens);
    SelectsNarrowed(env.t, AnchorOf(env, tokens), PartsOf(before), f, e);
    assert AcceptsAll(env.t, b.filters + [f], e) <==> AcceptsAll(env.t, b.filters, e) && Accepts(env.t, f, e) by {
      assert (b.filters + [f])[|b.filters|] == f;
      assert forall i :: 0 <= i < |b.filters| ==> (b.filters + [f])[i] == b.filters[i];
    }
  }

  lemma RelMeansSelected(env: Env, before: seq<Token>, c: Combinator, tokens: seq<Token>, done: nat, e: Path)
    requires WellFormed(env.t) && IsElement(env.t, e) && before != []
    requires tokens != [] && tokens[..|tokens| - 1] == before && tokens[|tokens| - 1] == Rel(c)
    requires forall q :: IsElement(env.t, q) ==> MeansSelected(env, before, done, q)
    ensures MeansSelected(env, tokens, done, e)
  {
    var anchor, m := AnchorOf(env, tokens), Compiled(tokens, done).head;
    assert AnchorOf(env, before) == anchor && m.inner == MatcherOf(before, done);
    CombFindsRelated(env, m, c, e);
    SelectsThen(env.t, anchor, PartsOf(before), Part(c, []), e);
    forall q | Selects(env.t, anchor, PartsOf(before), q) ensures IsElement(env.t, q) {
    }
    if q :| Related(env.t, c, q, e) && IsElement(env.t, q) && Sem(env, m.inner, q) {
      assert MeansSelected(env, before, done, q);
    }
    if q :| Selects(env.t, anchor, PartsOf(before), q) && Related(env.t, c, q, e) {
      assert MeansSelected(env, before, done, q);
    }
    assert Sem(env, MatcherOf(tokens, done), e) == Sem(env, m, e);
  }

  /** Compiler correctness: the compiled matcher accepts an element exactly when the tokens select it. */
  lemma {:induction false} CompiledMeansSelected(env: Env, tokens: seq<Token>, done: nat, e: Path)
    requires WellFormed(env.t) && IsElement(env.t, e) && (env.context == [] || IsElement(env.t, env.context))
    ensures Sem(env, MatcherOf(tokens, done), e) <==> Selects(env.t, AnchorOf(env, tokens), PartsOf(tokens), e)
    decreases |tokens|
  {
    assert MeansSelected(env, tokens, done, e) by {
      if tokens == [] || (|tokens| == 1 && tokens[0].Rel?) {
        StartMeansSelected(env, tokens, done, e);
      } else {
        var before, last := tokens[..|tokens| - 1], tokens[|tokens| - 1];
        match last
        case Simple(f) =>
          CompiledMeansSelected(env, before, done, e);
          SimpleMeansSelected(env, before, f, tokens, done, e);
        case Rel(c) =>
          forall q | IsElement(env.t, q) ensures MeansSelected(env, before, done, q) {
            CompiledMeansSelected(env, before, done, q);
          }
          RelMeansSelected(env, before, c, tokens, done, e);
      }
    }
  }
}
