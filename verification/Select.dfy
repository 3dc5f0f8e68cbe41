/**
 Sizzle's select for one selector group, and compile for several (jquery-1.11.1.js): the shortcut through a leading ID,
 the seed fetched by the rightmost ID, CLASS or TAG token, and the element loop over what is left.
 */
module Select {
  import opened Wrappers
  import opened Dom
  import opened Selectors
  import opened Matchers
  import opened MatcherRun

  /** Proper descendants of ctx. */
  predicate Under(ctx: Path, p: Path) {
    |ctx| < |p| && p[..|ctx|] == ctx
  }

  function All(t: Node): seq<Path> {
    Preorder(t, [])
  }

  /** getElementsByTagName and getElementsByClassName: the accepted elements below ctx, in document order. */
  function Below(t: Node, ctx: Path, f: Filter): seq<Path> {
    Keep(All(t), p => IsElement(t, p) && Under(ctx, p) && Accepts(t, f, p))
  }

  /** getElementById: the first element with that ID, as a list of at most one. */
  function ById(t: Node, id: string): seq<Path> {
    var found := Below(t, [], Id(id));
    if found == [] then [] else found[..1]
  }

  /** Expr.find: only documents can look an ID up, and other simple selectors have no lookup. */
  function Find(t: Node, f: Filter, ctx: Path): Option<seq<Path>> {
    match f
    case Id(id) => if ctx == [] then Some(ById(t, id)) else None
    case Tag(_) => Some(Below(t, ctx, f))
    case Class(_) => Some(Below(t, ctx, f))
    case Other(_) => None
  }

  ghost predicate UniqueIds(t: Node) {
    forall p, q ::
      (IsElement(t, p) && IsElement(t, q) && Lookup(t, p).value.id.Some?
       && Lookup(t, p).value.id == Lookup(t, q).value.id) ==>
      p == q
  }

  /** The tokens, run with ctx as the one context node, select e. */
  ghost predicate SelectsFrom(t: Node, ctx: Path, tokens: seq<Token>, e: Path) {
    Selects(t, AnchorOf(OutermostEnv(t, ctx), tokens), PartsOf(tokens), e)
  }

  ghost function Picks(t: Node, ctx: Path, tokens: seq<Token>): Path -> bool {
    e => IsElement(t, e) && SelectsFrom(t, ctx, tokens, e)
  }

  /**
   What a selector run from root, the document or an element, must return: the selected elements in document order.
   */
  ghost function Selected(t: Node, root: Path, tokens: seq<Token>): seq<Path> {
    Keep(All(t), Picks(t, root, tokens))
  }

  // ---------- where selected elements can be ----------

  predicate Mentions(tokens: seq<Token>) {
    exists i :: 0 <= i < |tokens| && tokens[i].Rel? && (tokens[i].rel.Adjacent? || tokens[i].rel.Sibling?)
  }

  predicate Downward(c: Combinator) {
    c.Child? || c.Descendant?
  }

  /** Every combinator keeps what is inside a subtree inside it; the downward ones enter it from its root. */
  lemma RelatedStaysUnder(t: Node, c: Combinator, root: Path, left: Path, right: Path)
    requires Related(t, c, left, right)
    ensures Under(root, left) ==> Under(root, right)
    ensures left == root && Downward(c) ==> Under(root, right)
    ensures left == root && !Downward(c) ==> root != [] && Under(Parent(root), right)
  {
    if Under(root, left) {
      match c
      case Descendant => assert right[..|root|] == right[..|left|][..|root|];
      case Child => assert right[..|root|] == left[..|root|];
      case Sibling => assert right[..|root|] == Parent(right)[..|root|] == Parent(left)[..|root|];
      case Adjacent => assert right[..|root|] == Parent(right)[..|root|] == Parent(left)[..|root|];
    }
  }

  lemma ChainStaysUnder(t: Node, anchor: Option<Path>, parts: seq<Part>, es: seq<Path>, root: Path, n: nat)
    requires Chain(t, anchor, parts, es) && n < |es| && Under(root, es[0])
    ensures Under(root, es[n])
  {
    if n > 0 {
      ChainStaysUnder(t, anchor, parts, es, root, n - 1);
      RelatedStaysUnder(t, parts[n].rel, root, es[n - 1], es[n]);
    }
  }

  lemma SelectedUnder(t: Node, x: Path, parts: seq<Part>, e: Path)
    requires Selects(t, Some(x), parts, e)
    ensures Downward(parts[0].rel) ==> Under(x, e)
    ensures !Downward(parts[0].rel) ==> x != [] && Under(Parent(x), e)
  {
    var es :| Chain(t, Some(x), parts, es) && es[|es| - 1] == e;
    RelatedStaysUnder(t, parts[0].rel, x, x, es[0]);
    if Downward(parts[0].rel) {
      ChainStaysUnder(t, Some(x), parts, es, x, |es| - 1);
    } else {
      ChainStaysUnder(t, Some(x), parts, es, Parent(x), |es| - 1);
    }
  }

  lemma {:induction false} FirstPartRel(tokens: seq<Token>)
    ensures PartsOf(tokens)[0].rel == if LeadsWithRel(tokens) then tokens[0].rel else Descendant
  {
    if |tokens| > 1 {
      FirstPartRel(tokens[..|tokens| - 1]);
    }
  }

  // ---------- the ID shortcut ----------

  /** The whole list, and the list behind its leading ID run from x, select the same elements. */
  ghost predicate SameFrom(t: Node, x: Path, tokens: seq<Token>, rest: seq<Token>, e: Path) {
    Selects(t, None, PartsOf(tokens), e) <==> Selects(t, Some(x), PartsOf(rest), e)
  }

  lemma SameFromSimple(t: Node, x: Path, tokens: seq<Token>, rest: seq<Token>, f: Filter, e: Path)
    requires SameFrom(t, x, tokens, rest, e)
    ensures SameFrom(t, x, tokens + [Simple(f)], rest + [Simple(f)], e)
  {
    PartsOfMore(tokens, f);
    PartsOfMore(rest, f);
    SelectsNarrowed(t, None, PartsOf(tokens), f, e);
    SelectsNarrowed(t, Some(x), PartsOf(rest), f, e);
  }

  lemma PartsOfThen(tokens: seq<Token>, c: Combinator)
    requires tokens != []
    ensures PartsOf(tokens + [Rel(c)]) == PartsOf(tokens) + [Part(c, [])]
  {
    assert (tokens + [Rel(c)])[..|tokens|] == tokens;
  }

  lemma SameFromRel(t: Node, x: Path, tokens: seq<Token>, rest: seq<Token>, c: Combinator, e: Path)
    requires tokens != [] && rest != [] && forall q :: SameFrom(t, x, tokens, rest, q)
    ensures SameFrom(t, x, tokens + [Rel(c)], rest + [Rel(c)], e)
  {
    PartsOfThen(tokens, c);
    PartsOfThen(rest, c);
    SelectsThen(t, None, PartsOf(tokens), Part(c, []), e);
    SelectsThen(t, Some(x), PartsOf(rest), Part(c, []), e);
    if q :| Selects(t, None, PartsOf(tokens), q) && Related(t, c, q, e) {
      assert SameFrom(t, x, tokens, rest, q);
    }
    if q :| Selects(t, Some(x), PartsOf(rest), q) && Related(t, c, q, e) {
      assert SameFrom(t, x, tokens, rest, q);
    }
  }

  /** With the element that has the leading ID as context, the rest of the list selects what the whole list selects. */
  lemma {:induction false} IdShortcut(t: Node, id: string, x: Path, tokens: seq<Token>, e: Path)
    requires |tokens| >= 2 && tokens[0] == Simple(Id(id)) && tokens[1].Rel?
    requires UniqueIds(t) && IsElement(t, x) && Accepts(t, Id(id), x)
    ensures SameFrom(t, x, tokens, tokens[1..], e)
    decreases |tokens|
  {
    if |tokens| == 2 {
      IdShortcutStart(t, id, x, tokens, e);
    } else {
      var before, last := tokens[..|tokens| - 1], tokens[|tokens| - 1];
      assert tokens == before + [last] && tokens[1..] == before[1..] + [last];
      match last
      case Simple(f) =>
        IdShortcut(t, id, x, before, e);
        SameFromSimple(t, x, before, before[1..], f, e);
      case Rel(c) =>
        forall q ensures SameFrom(t, x, before, before[1..], q) {
          IdShortcut(t, id, x, before, q);
        }
        SameFromRel(t, x, before, before[1..], c, e);
    }
  }

  lemma {:induction false} IdShortcutStart(t: Node, id: string, x: Path, tokens: seq<Token>, e: Path)
    requires |tokens| == 2 && tokens[0] == Simple(Id(id)) && tokens[1].Rel?
    requires UniqueIds(t) && IsElement(t, x) && Accepts(t, Id(id), x)
    ensures SameFrom(t, x, tokens, tokens[1..], e)
  {
    var first, part := Part(Descendant, [Id(id)]), Part(tokens[1].rel, []);
    IdParts(id, tokens);
    SelectsThen(t, None, [first], part, e);
    SelectsFirst(t, Some(x), part, e);
    forall q ensures Selects(t, None, [first], q) <==> q == x {
      SelectsFirst(t, None, first, q);
      assert AcceptsAll(t, first.filters, q) <==> Accepts(t, first.filters[0], q);
    }
  }

  lemma {:induction false} IdParts(id: string, tokens: seq<Token>)
    requires |tokens| == 2 && tokens[0] == Simple(Id(id)) && tokens[1].Rel?
    ensures PartsOf(tokens) == [Part(Descendant, [Id(id)])] + [Part(tokens[1].rel, [])]
    ensures PartsOf(tokens[1..]) == [Part(tokens[1].rel, [])]
  {
    var head := [Simple(Id(id))];
    assert tokens[..|tokens| - 1] == head && tokens[1..] == [tokens[1]];
    assert head[..|head| - 1] == [] && tokens[1..][..0] == [];
    assert PartsOf([]) == [Part(Descendant, [])];
    PartsOfMore([], Id(id));
    assert [] + head == head && [] + [Id(id)] == [Id(id)];
    assert PartsOf(head) == [Part(Descendant, [Id(id)])];
  }

  /** Without such an element nothing is selected. */
  lemma {:induction false} IdMissing(t: Node, id: string, tokens: seq<Token>, e: Path)
    requires |tokens| >= 1 && tokens[0] == Simple(Id(id))
    requires forall x :: IsElement(t, x) ==> !Accepts(t, Id(id), x)
    ensures !Selects(t, None, PartsOf(tokens), e)
    decreases |tokens|
  {
    var before, last := tokens[..|tokens| - 1], tokens[|tokens| - 1];
    if |tokens| == 1 {
      assert before == [];
      SelectsNarrowed(t, None, PartsOf(before), Id(id), e);
      SelectsFirst(t, None, Part(Descendant, []), e);
    } else {
      match last
      case Simple(f) =>
        IdMissing(t, id, before, e);
        SelectsNarrowed(t, None, PartsOf(before), f, e);
      case Rel(c) =>
        SelectsThen(t, None, PartsOf(before), Part(c, []), e);
        forall q ensures !Selects(t, None, PartsOf(before), q) {
          IdMissing(t, id, before, q);
        }
    }
  }

  // ---------- taking the seed's token out ----------

  ghost predicate AllSimple(tokens: seq<Token>) {
    forall i :: 0 <= i < |tokens| ==> tokens[i].Simple?
  }

  /** A simple selector of the last compound can be tested first instead: order inside a compound does not matter. */
  lemma {:induction false} SeedFirst(t: Node, anchor: Option<Path>, pre: seq<Token>, f: Filter, post: seq<Token>,
                                     e: Path)
    requires AllSimple(post)
    ensures Selects(t, anchor, PartsOf(pre + [Simple(f)] + post), e)
       <==> Selects(t, anchor, PartsOf(pre + post), e) && Accepts(t, f, e)
    decreases |post|
  {
    if post == [] {
      assert pre + [Simple(f)] + post == pre + [Simple(f)] && pre + post == pre;
      PartsOfMore(pre, f);
      SelectsNarrowed(t, anchor, PartsOf(pre), f, e);
    } else {
      var before, g := post[..|post| - 1], post[|post| - 1].filter;
      var whole, rest := pre + [Simple(f)] + before, pre + before;
      assert pre + [Simple(f)] + post == whole + [Simple(g)] && pre + post == rest + [Simple(g)];
      SeedFirst(t, anchor, pre, f, before, e);
      PartsOfMore(whole, g);
      PartsOfMore(rest, g);
      SelectsNarrowed(t, anchor, PartsOf(whole), g, e);
      SelectsNarrowed(t, anchor, PartsOf(rest), g, e);
    }
  }

  lemma PartsOfMore(tokens: seq<Token>, f: Filter)
    ensures PartsOf(tokens + [Simple(f)]) == Narrow(PartsOf(tokens), f)
  {
    assert (tokens + [Simple(f)])[..|tokens|] == tokens;
  }

  // ---------- candidates lose nothing ----------

  /** Filtering candidates gives all selected elements, provided every selected element is a candidate. */
  lemma CandidatesSuffice(t: Node, candidates: Path -> bool, accepts: Path -> bool, selected: Path -> bool)
    requires forall e :: e in All(t) ==> (selected(e) <==> candidates(e) && accepts(e))
    ensures Keep(Keep(All(t), candidates), accepts) == Keep(All(t), selected)
  {
    KeepTwice(All(t), candidates, accepts);
    KeepSame(All(t), p => candidates(p) && accepts(p), selected);
  }

  /** The one element a unique ID names, or none: cutting the list after the first loses nothing. */
  lemma ByIdIsAll(t: Node, id: string)
    requires UniqueIds(t)
    ensures ById(t, id) == Below(t, [], Id(id))
  {
    var found := Below(t, [], Id(id));
    KeepMembers(All(t), p => IsElement(t, p) && Under([], p) && Accepts(t, Id(id), p));
    if |found| > 1 {
      assert found[0] in found && found[1] in found;
      PreorderIncreasing(t, []);
      KeepIncreasing(All(t), p => IsElement(t, p) && Under([], p) && Accepts(t, Id(id), p));
      BeforeIrreflexive(found[0]);
    }
  }

  // ---------- one group: select ----------

  /** Starting with ">", "+" or "~", which keeps select from fetching a seed. */
  predicate NeedsContext(tokens: seq<Token>) {
    LeadsWithRel(tokens) && !tokens[0].rel.Descendant?
  }

  /** The node whose descendants are candidates when there is no seed. */
  function OuterContext(ctx: Path, widen: bool): Path {
    if widen && ctx != [] then Parent(ctx) else ctx
  }

  /** A context node: the document or one of its elements. */
  ghost predicate ContextOk(t: Node, ctx: Path, tokens: seq<Token>) {
    tokens != [] && (ctx == [] || IsElement(t, ctx))
  }

  /** What the one compiled matcher accepts. */
  ghost function Accepting(t: Node, ctx: Path, tokens: seq<Token>, done: nat): Path -> bool {
    e => AnyAccepts(OutermostEnv(t, ctx), [MatcherOf(tokens, done)], e)
  }

  lemma SelectedAreCandidates(t: Node, ctx: Path, tokens: seq<Token>, widen: bool, e: Path)
    requires WellFormed(t) && ContextOk(t, ctx, tokens) && SelectsFrom(t, ctx, tokens, e) && IsElement(t, e)
    requires Mentions(tokens) ==> widen
    ensures Under(OuterContext(ctx, widen), e)
    ensures !NeedsContext(tokens) ==> Under(ctx, e)
  {
    assert e != [];
    if ctx != [] {
      FirstPartRel(tokens);
      SelectedUnder(t, ctx, PartsOf(tokens), e);
      if Under(ctx, e) {
        assert e[..|Parent(ctx)|] == e[..|ctx|][..|Parent(ctx)|];
      } else {
        assert Mentions(tokens);
      }
    }
  }

  /** Compiled matching of candidates below outer gives all selected elements. */
  lemma CandidateRun(t: Node, ctx: Path, outer: Path, rest: seq<Token>, f: Filter, done: nat, selected: Path -> bool)
    requires WellFormed(t) && (ctx == [] || IsElement(t, ctx))
    requires forall e :: IsElement(t, e) ==>
               (selected(e) <==> Under(outer, e) && Accepts(t, f, e) && SelectsFrom(t, ctx, rest, e))
    requires forall e :: selected(e) ==> IsElement(t, e)
    ensures Keep(Below(t, outer, f), Accepting(t, ctx, rest, done))
         == Keep(All(t), selected)
  {
    var env, m := OutermostEnv(t, ctx), MatcherOf(rest, done);
    var candidates := p => IsElement(t, p) && Under(outer, p) && Accepts(t, f, p);
    var accepts := Accepting(t, ctx, rest, done);
    forall e | e in All(t) ensures selected(e) <==> candidates(e) && accepts(e) {
      assert accepts(e) == Sem(env, m, e) by {
        assert [m][0] == m;
      }
      if IsElement(t, e) {
        CompiledMeansSelected(env, rest, done, e);
      }
    }
    CandidatesSuffice(t, candidates, accepts, selected);
  }

  lemma SameLead(t: Node, ctx: Path, pre: seq<Token>, f: Filter, post: seq<Token>)
    requires AllSimple(post)
    ensures AnchorOf(OutermostEnv(t, ctx), pre + [Simple(f)] + post) == AnchorOf(OutermostEnv(t, ctx), pre + post)
  {
    if pre == [] {
      assert (pre + [Simple(f)] + post)[0] == Simple(f);
      assert pre + post == post;
    } else {
      assert (pre + [Simple(f)] + post)[0] == pre[0] == (pre + post)[0];
    }
  }

  /** An element is selected by all the tokens exactly when it is in the seed and selected by the rest. */
  lemma SeedPicks(t: Node, ctx: Path, pre: seq<Token>, f: Filter, post: seq<Token>, e: Path)
    requires WellFormed(t) && AllSimple(post) && ContextOk(t, ctx, pre + [Simple(f)] + post) && IsElement(t, e)
    requires !NeedsContext(pre + [Simple(f)] + post)
    ensures Picks(t, ctx, pre + [Simple(f)] + post)(e)
       <==> Under(ctx, e) && Accepts(t, f, e) && SelectsFrom(t, ctx, pre + post, e)
  {
    var tokens := pre + [Simple(f)] + post;
    SameLead(t, ctx, pre, f, post);
    SeedFirst(t, AnchorOf(OutermostEnv(t, ctx), tokens), pre, f, post, e);
    if SelectsFrom(t, ctx, tokens, e) {
      SelectedAreCandidates(t, ctx, tokens, true, e);
    }
  }

  /** No tokens at all select everything below the context. */
  lemma NothingSelectsAll(t: Node, ctx: Path, e: Path)
    requires IsElement(t, e) && Under(ctx, e)
    ensures SelectsFrom(t, ctx, [], e)
  {
    SelectsFirst(t, AnchorOf(OutermostEnv(t, ctx), []), Part(Descendant, []), e);
  }

  /** Running the rest of the tokens over the seed of one of them gives what running all of them gives. */
  lemma SeededRun(t: Node, ctx: Path, pre: seq<Token>, f: Filter, post: seq<Token>, done: nat)
    requires WellFormed(t) && AllSimple(post) && ContextOk(t, ctx, pre + [Simple(f)] + post)
    requires !NeedsContext(pre + [Simple(f)] + post)
    ensures Keep(Below(t, ctx, f), Accepting(t, ctx, pre + post, done))
         == Keep(All(t), Picks(t, ctx, pre + [Simple(f)] + post))
    ensures Below(t, ctx, f) == [] ==> Keep(All(t), Picks(t, ctx, pre + [Simple(f)] + post)) == []
    ensures pre + post == [] ==> Below(t, ctx, f) == Keep(All(t), Picks(t, ctx, pre + [Simple(f)] + post))
  {
    var tokens, rest := pre + [Simple(f)] + post, pre + post;
    var picks := Picks(t, ctx, tokens);
    forall e | IsElement(t, e)
      ensures picks(e) <==> Under(ctx, e) && Accepts(t, f, e) && SelectsFrom(t, ctx, rest, e)
    {
      SeedPicks(t, ctx, pre, f, post, e);
    }
    CandidateRun(t, ctx, ctx, rest, f, done, picks);
    if rest == [] {
      var seeds := p => IsElement(t, p) && Under(ctx, p) && Accepts(t, f, p);
      forall e | e in All(t) ensures picks(e) == seeds(e) {
        if seeds(e) {
          NothingSelectsAll(t, ctx, e);
        }
      }
      KeepSame(All(t), picks, seeds);
    }
  }

  /** Running all the tokens over every element below the outer context gives exactly the selected elements. */
  lemma UnseededRun(t: Node, ctx: Path, tokens: seq<Token>, widen: bool, done: nat)
    requires WellFormed(t) && ContextOk(t, ctx, tokens) && (Mentions(tokens) ==> widen)
    ensures Keep(Below(t, OuterContext(ctx, widen), Tag("*")), Accepting(t, ctx, tokens, done))
         == Keep(All(t), Picks(t, ctx, tokens))
  {
    var picks := Picks(t, ctx, tokens);
    forall e | IsElement(t, e)
      ensures picks(e)
             <==> Under(OuterContext(ctx, widen), e) && Accepts(t, Tag("*"), e) && SelectsFrom(t, ctx, tokens, e)
    {
      if picks(e) {
        SelectedAreCandidates(t, ctx, tokens, widen, e);
      }
    }
    CandidateRun(t, ctx, OuterContext(ctx, widen), tokens, Tag("*"), done, picks);
  }

  /** The leading ID's element as context changes nothing; when there is no such element nothing is selected. */
  lemma ShortcutKeepsPicks(t: Node, id: string, tokens: seq<Token>)
    requires WellFormed(t) && UniqueIds(t)
    requires |tokens| > 2 && tokens[0] == Simple(Id(id)) && tokens[1].Rel?
    ensures ById(t, id) == [] ==> Keep(All(t), Picks(t, [], tokens)) == []
    ensures ById(t, id) != [] ==>
              var x := ById(t, id)[0];
              ContextOk(t, x, tokens[1..])
                  && Keep(All(t), Picks(t, x, tokens[1..])) == Keep(All(t), Picks(t, [], tokens))
  {
    var found := Below(t, [], Id(id));
    KeepMembers(All(t), p => IsElement(t, p) && Under([], p) && Accepts(t, Id(id), p));
    if found == [] {
      forall x | IsElement(t, x) ensures !Accepts(t, Id(id), x) {
        PreorderMembers(t, [], x);
        assert [] + x == x;
      }
      forall e ensures !Picks(t, [], tokens)(e) {
        IdMissing(t, id, tokens, e);
      }
      KeepNone(All(t), Picks(t, [], tokens));
    } else {
      var x := found[0];
      assert x in found;
      forall e ensures Picks(t, x, tokens[1..])(e) == Picks(t, [], tokens)(e) {
        IdShortcut(t, id, x, tokens, e);
        assert SameFrom(t, x, tokens, tokens[1..], e);
      }
      KeepSame(All(t), Picks(t, x, tokens[1..]), Picks(t, [], tokens));
    }
  }

  method CompileAndRun(runner: Runner, t: Node, context: Path, tokens: seq<Token>, done: nat, elems: seq<Path>)
      returns (results: seq<Path>)
    requires runner.Valid() && tokens != []
    modifies runner
    ensures runner.Valid()
    ensures results == Keep(elems, Accepting(t, context, tokens, done))
  {
    var m, done' := MatcherFromTokens(tokens, done);
    CompiledNames(tokens, done);
    results := runner.SuperMatcher(t, context, [m], elems);
  }

  /** Fetch a seed by token i, if it has a lookup, take the token out and run the rest over the seed. */
  method TrySeed(runner: Runner, t: Node, context: Path, tokens: seq<Token>, i: nat, done: nat)
      returns (seeded: bool, results: seq<Path>)
    requires runner.Valid() && WellFormed(t) && UniqueIds(t)
    requires i < |tokens| && tokens[i].Simple? && AllSimple(tokens[i + 1..])
    requires ContextOk(t, context, tokens) && !NeedsContext(tokens)
    modifies runner
    ensures runner.Valid()
    ensures seeded ==> results == Keep(All(t), Picks(t, context, tokens))
  {
    var f := tokens[i].filter;
    var seed := Find(t, f, context);
    if seed.None? {
      return false, [];
    }
    ghost var pre, post := tokens[..i], tokens[i + 1..];
    assert tokens == pre + [Simple(f)] + post;
    if f.Id? {
      ByIdIsAll(t, f.id);
    }
    SeededRun(t, context, pre, f, post, done);
    var rest := tokens[..i] + tokens[i + 1..];
    if seed.value == [] || rest == [] {
      return true, seed.value;
    }
    results := CompileAndRun(runner, t, context, rest, done, seed.value);
    seeded := true;
  }

  /**
   select for one group, run from root: the document or an element. skipSeed: the selector text happens to match the
   needs-context pattern inside a token; widen: it happens to contain "+" or "~", which it does whenever a combinator
   is one of them.
   */
  method SelectOne(runner: Runner, t: Node, root: Path, group: seq<Token>, done: nat, skipSeed: bool, widen: bool)
      returns (results: seq<Path>)
    requires runner.Valid() && WellFormed(t) && UniqueIds(t) && ContextOk(t, root, group)
    requires Mentions(group) ==> widen
    modifies runner
    ensures runner.Valid()
    ensures results == Selected(t, root, group)
  {
    var tokens, context := group, root;
    if root == [] && |tokens| > 2 && tokens[0].Simple? && tokens[0].filter.Id? && tokens[1].Rel? {
      ShortcutKeepsPicks(t, tokens[0].filter.id, tokens);
      var found := ById(t, tokens[0].filter.id);
      if found == [] {
        return [];
      }
      context := found[0];
      tokens := tokens[1..];
      assert Mentions(tokens) ==> widen;
    }
    assert Keep(All(t), Picks(t, context, tokens)) == Selected(t, root, group);
    var i := if skipSeed || NeedsContext(tokens) then 0 else |tokens|;
    while i > 0
      invariant 0 <= i <= |tokens|
      invariant runner.Valid()
      invariant AllSimple(tokens[i..]) || i == 0
      invariant i > 0 ==> !NeedsContext(tokens)
    {
      i := i - 1;
      if tokens[i].Rel? {
        break;
      }
      var seeded;
      seeded, results := TrySeed(runner, t, context, tokens, i, done);
      if seeded {
        return;
      }
      assert tokens[i..] == [tokens[i]] + tokens[i + 1..];
    }
    UnseededRun(t, context, tokens, widen, done);
    results := CompileAndRun(runner, t, context, tokens, done, Below(t, OuterContext(context, widen), Tag("*")));
  }

  // ---------- several groups ----------

  /** Some group of the selector list selects e. */
  ghost predicate SelectedByAny(t: Node, root: Path, groups: seq<seq<Token>>, e: Path) {
    exists g :: 0 <= g < |groups| && SelectsFrom(t, root, groups[g], e)
  }

  /** compile: one matcher per group, from the last group to the first. */
  method Compile(groups: seq<seq<Token>>, done: nat) returns (matchers: seq<Matcher>, ghost dones: seq<nat>)
    requires forall g :: 0 <= g < |groups| ==> groups[g] != []
    ensures OwnNamesAll(matchers) && |matchers| == |dones| == |groups|
    ensures forall j :: 0 <= j < |groups| ==> matchers[j] == MatcherOf(groups[|groups| - 1 - j], dones[j])
  {
    matchers, dones := [], [];
    var i, next := |groups|, done;
    while i > 0
      invariant 0 <= i <= |groups| && |matchers| == |dones| == |groups| - i
      invariant forall j :: 0 <= j < |matchers| ==> matchers[j] == MatcherOf(groups[|groups| - 1 - j], dones[j])
      invariant OwnNamesAll(matchers)
      invariant forall j, n :: 0 <= j < |matchers| && n in Names(matchers[j]) ==> n < next
    {
      i := i - 1;
      CompiledNames(groups[i], next);
      dones := dones + [next];
      var m;
      m, next := MatcherFromTokens(groups[i], next);
      matchers := matchers + [m];
    }
  }

  /** select for any other number of groups: no seed, one pass over all elements below the outer context. */
  method SelectMany(runner: Runner, t: Node, root: Path, groups: seq<seq<Token>>, done: nat, widen: bool)
      returns (results: seq<Path>)
    requires runner.Valid() && WellFormed(t) && (root == [] || IsElement(t, root))
    requires forall g :: 0 <= g < |groups| ==> groups[g] != [] && (Mentions(groups[g]) ==> widen)
    modifies runner
    ensures runner.Valid()
    ensures results == Keep(All(t), e => IsElement(t, e) && SelectedByAny(t, root, groups, e))
  {
    var matchers, dones := Compile(groups, done);
    var outer := OuterContext(root, widen);
    results := runner.SuperMatcher(t, root, matchers, Below(t, outer, Tag("*")));
    ghost var candidates := p => IsElement(t, p) && Under(outer, p) && Accepts(t, Tag("*"), p);
    ghost var accepts := e => AnyAccepts(OutermostEnv(t, root), matchers, e);
    ghost var selected := e => IsElement(t, e) && SelectedByAny(t, root, groups, e);
    forall e | e in All(t) ensures selected(e) <==> candidates(e) && accepts(e) {
      if IsElement(t, e) {
        GroupsAgree(t, root, groups, matchers, dones, e);
        GroupsAreCandidates(t, root, groups, widen, e);
      }
    }
    CandidatesSuffice(t, candidates, accepts, selected);
  }

  lemma GroupsAreCandidates(t: Node, root: Path, groups: seq<seq<Token>>, widen: bool, e: Path)
    requires WellFormed(t) && IsElement(t, e) && (root == [] || IsElement(t, root))
    requires forall g :: 0 <= g < |groups| ==> groups[g] != [] && (Mentions(groups[g]) ==> widen)
    ensures SelectedByAny(t, root, groups, e) ==> Under(OuterContext(root, widen), e)
  {
    if g :| 0 <= g < |groups| && SelectsFrom(t, root, groups[g], e) {
      SelectedAreCandidates(t, root, groups[g], widen, e);
    }
  }

  lemma GroupsAgree(t: Node, root: Path, groups: seq<seq<Token>>, matchers: seq<Matcher>, dones: seq<nat>, e: Path)
    requires WellFormed(t) && IsElement(t, e) && (root == [] || IsElement(t, root))
    requires |matchers| == |dones| == |groups|
    requires forall j :: 0 <= j < |groups| ==> matchers[j] == MatcherOf(groups[|groups| - 1 - j], dones[j])
    ensures AnyAccepts(OutermostEnv(t, root), matchers, e) <==> SelectedByAny(t, root, groups, e)
  {
    var n := |groups|;
    forall j | 0 <= j < n
      ensures Sem(OutermostEnv(t, root), matchers[j], e) <==> SelectsFrom(t, root, groups[n - 1 - j], e)
    {
      CompiledMeansSelected(OutermostEnv(t, root), groups[n - 1 - j], dones[j], e);
    }
    if g :| 0 <= g < n && SelectsFrom(t, root, groups[g], e) {
      assert Sem(OutermostEnv(t, root), matchers[n - 1 - g], e);
    }
  }
}
