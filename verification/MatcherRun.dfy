/**
 Running compiled matchers with their walk caches (addCombinator's cached branch and the element loop of
 matcherFromGroupMatchers in jquery-1.11.1.js). Each node has one cache slot per direction; a slot points to a shared
 entry, because one walk stores the same entry object on every node it passes.
 */
module MatcherRun {
  import opened Wrappers
  import opened Dom
  import opened Selectors
  import opened Matchers

  /** The array [ dirruns, doneName, result ]. */
  datatype Entry = Entry(run: nat, done: nat, result: bool)

  type Slot = (Path, Dir)

  /** The names of the combinators that can write caches while m is evaluated. */
  function Names(m: Matcher): set<nat> {
    match m
    case IsContext => {}
    case Base(_, walk) => Names(walk)
    case Comb(inner, _, _, _, done) => Names(inner) + {done}
    case Compound(head, _) => Names(head)
  }

  /** Every combinator inside has its own name. */
  ghost predicate OwnNames(m: Matcher) {
    match m
    case IsContext => true
    case Base(_, walk) => OwnNames(walk)
    case Comb(inner, _, _, _, done) => done !in Names(inner) && OwnNames(inner)
    case Compound(head, _) => OwnNames(head)
  }

  /** A compiled list uses each of the names from done on once, and none beyond the count it returns. */
  lemma {:induction false} CompiledNames(tokens: seq<Token>, done: nat)
    ensures Compiled(tokens, done).done > done
    ensures OwnNames(MatcherOf(tokens, done))
    ensures forall n :: n in Names(MatcherOf(tokens, done)) ==> done <= n < Compiled(tokens, done).done
  {
    var b := Compiled(tokens, done);
    if tokens == [] || (|tokens| == 1 && tokens[0].Rel?) {
      assert Names(b.head) == Names(b.head.walk) == Names(IsContext) + {done};
      assert OwnNames(b.head.walk);
    } else {
      var before, last := tokens[..|tokens| - 1], tokens[|tokens| - 1];
      CompiledNames(before, done);
      if last.Rel? {
        assert Names(b.head) == Names(MatcherOf(before, done)) + {Compiled(before, done).done};
        assert OwnNames(b.head);
        assert b.done == Compiled(before, done).done + 1;
      } else {
        assert b == Building(Compiled(before, done).head, b.filters, Compiled(before, done).done);
        assert Names(MatcherOf(tokens, done)) == Names(b.head) == Names(MatcherOf(before, done));
      }
    }
  }

  /** What a live entry in a node's slot says: this node or one further along matches. */
  ghost predicate FoundFrom(env: Env, m: Matcher, q: Path)
    requires m.Comb?
  {
    Sem(env, m.inner, q) || SemWalk(env, m, q)
  }

  ghost predicate Accurate(env: Env, m: Matcher, run: nat, slots: map<Slot, nat>, entries: seq<Entry>)
    requires m.Comb?
  {
    forall s ::
      (s in slots && slots[s] < |entries| && entries[slots[s]].run == run && entries[slots[s]].done == m.done) ==>
      s.1 == m.dir && entries[slots[s]].result == FoundFrom(env, m, s.0)
  }

  /** The caches are right about every combinator inside m. */
  ghost predicate CacheOk(env: Env, m: Matcher, run: nat, slots: map<Slot, nat>, entries: seq<Entry>) {
    match m
    case IsContext => true
    case Base(_, walk) => CacheOk(env, walk, run, slots, entries)
    case Comb(inner, _, first, _, _) =>
      CacheOk(env, inner, run, slots, entries) && (!first ==> Accurate(env, m, run, slots, entries))
    case Compound(head, _) => CacheOk(env, head, run, slots, entries)
  }

  /** From one cache state to a later one, only fresh entries were written, all under the given names in this run. */
  ghost predicate Grown(names: set<nat>, run: nat, slots: map<Slot, nat>, entries: seq<Entry>,
                        slots': map<Slot, nat>, entries': seq<Entry>)
  {
    && entries <= entries'
    && (forall i :: |entries| <= i < |entries'| ==> entries'[i].done in names && entries'[i].run == run)
    && (forall s :: s in slots ==> s in slots')
    && (forall s :: s in slots' ==>
        slots'[s] < |entries'| && ((s in slots && slots'[s] == slots[s]) || slots'[s] >= |entries|))
  }

  lemma InnerGrown(names: set<nat>, inner: set<nat>, run: nat, s0: map<Slot, nat>, e0: seq<Entry>, s1: map<Slot, nat>,
                   e1: seq<Entry>, s2: map<Slot, nat>, e2: seq<Entry>)
    requires Grown(names, run, s0, e0, s1, e1) && Grown(inner, run, s1, e1, s2, e2) && inner <= names
    ensures Grown(names, run, s0, e0, s2, e2)
  {
    forall i | |e0| <= i < |e2| ensures e2[i].done in names && e2[i].run == run {
      if i < |e1| {
        assert e2[i] == e1[i];
      }
    }
  }

  /** Every slot reads as it did before, or now holds an entry under one of the given names. */
  ghost predicate Untouched(names: set<nat>, slots: map<Slot, nat>, entries: seq<Entry>, slots': map<Slot, nat>,
                            entries': seq<Entry>) {
    forall s :: s in slots' && slots'[s] < |entries'| ==>
      (s in slots && slots[s] < |entries| && entries[slots[s]] == entries'[slots'[s]])
          || entries'[slots'[s]].done in names
  }

  lemma GrownIsUntouched(names: set<nat>, run: nat, slots: map<Slot, nat>, entries: seq<Entry>, slots': map<Slot, nat>,
                         entries': seq<Entry>)
    requires Grown(names, run, slots, entries, slots', entries')
    ensures Untouched(names, slots, entries, slots', entries')
  {
  }

  /** Other combinators' writes leave the caches of m right. */
  lemma {:induction false} OthersKeepCache(env: Env, m: Matcher, names: set<nat>, run: nat, slots: map<Slot, nat>,
                                           entries: seq<Entry>, slots': map<Slot, nat>, entries': seq<Entry>)
    requires CacheOk(env, m, run, slots, entries) && Untouched(names, slots, entries, slots', entries')
    requires Names(m) !! names
    ensures CacheOk(env, m, run, slots', entries')
  {
    match m
    case IsContext =>
    case Base(_, walk) => OthersKeepCache(env, walk, names, run, slots, entries, slots', entries');
    case Comb(inner, _, first, _, _) =>
      OthersKeepCache(env, inner, names, run, slots, entries, slots', entries');
      if !first {
        assert m.done in Names(m);
        OthersKeepAccurate(env, m, names, run, slots, entries, slots', entries');
      }
    case Compound(head, _) => OthersKeepCache(env, head, names, run, slots, entries, slots', entries');
  }

  lemma OthersKeepAccurate(env: Env, m: Matcher, names: set<nat>, run: nat, slots: map<Slot, nat>, entries: seq<Entry>,
                           slots': map<Slot, nat>, entries': seq<Entry>)
    requires m.Comb? && Accurate(env, m, run, slots, entries) && Untouched(names, slots, entries, slots', entries')
    requires m.done !in names
    ensures Accurate(env, m, run, slots', entries')
  {
  }

  /** Entries of earlier runs are dead, so the caches are right about any matcher when a run starts. */
  lemma {:induction false} NewRunCacheOk(env: Env, m: Matcher, run: nat, slots: map<Slot, nat>, entries: seq<Entry>)
    requires forall i :: 0 <= i < |entries| ==> entries[i].run < run
    ensures CacheOk(env, m, run, slots, entries)
  {
    match m
    case IsContext =>
    case Base(_, walk) => NewRunCacheOk(env, walk, run, slots, entries);
    case Comb(inner, _, _, _, _) => NewRunCacheOk(env, inner, run, slots, entries);
    case Compound(head, _) => NewRunCacheOk(env, head, run, slots, entries);
  }

  /** All slots that point to the walk's own entry, and what it must finally say. */
  ghost predicate OwnSlots(dir: Dir, walked: set<Path>, own: nat, slots: map<Slot, nat>) {
    forall s :: s in slots && slots[s] == own ==> s.1 == dir && s.0 in walked
  }

  /** Like Accurate, but for all entries other than the one a walk still in progress owns. */
  ghost predicate OthersAccurate(env: Env, m: Matcher, own: nat, run: nat, slots: map<Slot, nat>, entries: seq<Entry>)
    requires m.Comb?
  {
    forall s :: s in slots && slots[s] < |entries| && slots[s] != own
                && entries[slots[s]].run == run && entries[slots[s]].done == m.done ==>
      s.1 == m.dir && entries[slots[s]].result == FoundFrom(env, m, s.0)
  }

  /** A walk in progress: elem was the last node visited, and everything but the walk's own entry is in order. */
  ghost predicate Walking(env: Env, m: Matcher, own: nat, walked: set<Path>, elem: Path, run: nat,
                          slots: map<Slot, nat>, entries: seq<Entry>)
    requires m.Comb?
  {
    && own < |entries| && entries[own].run == run && entries[own].done == m.done
    && (forall w :: w in walked ==>
        FoundFrom(env, m, w) == SemWalk(env, m, elem) && Rank(m.dir, w) >= Rank(m.dir, elem))
    && CacheOk(env, m.inner, run, slots, entries)
    && OthersAccurate(env, m, own, run, slots, entries)
    && OwnSlots(m.dir, walked, own, slots)
  }

  /** Storing the walk's entry on the next node, or its result, disturbs nothing else. */
  lemma OwnWrite(env: Env, m: Matcher, own: nat, run: nat, slots: map<Slot, nat>, entries: seq<Entry>,
                 slots': map<Slot, nat>, r: bool)
    requires m.Comb? && own < |entries| && entries[own].done == m.done && OwnNames(m)
    requires CacheOk(env, m.inner, run, slots, entries) && OthersAccurate(env, m, own, run, slots, entries)
    requires forall s :: s in slots' ==> slots'[s] == own || (s in slots && slots'[s] == slots[s])
    ensures CacheOk(env, m.inner, run, slots', entries[own := entries[own].(result := r)])
    ensures OthersAccurate(env, m, own, run, slots', entries[own := entries[own].(result := r)])
  {
    OthersKeepCache(env, m.inner, {m.done}, run, slots, entries, slots', entries[own := entries[own].(result := r)]);
  }

  lemma OwnWriteGrown(names: set<nat>, run: nat, slots0: map<Slot, nat>, entries0: seq<Entry>, slots: map<Slot, nat>,
                      entries: seq<Entry>, own: nat, slots': map<Slot, nat>, r: bool)
    requires Grown(names, run, slots0, entries0, slots, entries) && |entries0| <= own < |entries|
    requires forall s :: s in slots ==> s in slots'
    requires forall s :: s in slots' ==> slots'[s] == own || (s in slots && slots'[s] == slots[s])
    ensures Grown(names, run, slots0, entries0, slots', entries[own := entries[own].(result := r)])
  {
  }

  /** The inner matcher's run in the middle of a walk disturbs nothing but its own caches. */
  lemma InnerRun(env: Env, m: Matcher, own: nat, walked: set<Path>, run: nat, slots: map<Slot, nat>,
                 entries: seq<Entry>, slots': map<Slot, nat>, entries': seq<Entry>)
    requires m.Comb? && OwnNames(m) && own < |entries|
    requires OthersAccurate(env, m, own, run, slots, entries) && OwnSlots(m.dir, walked, own, slots)
    requires Grown(Names(m.inner), run, slots, entries, slots', entries')
    ensures OthersAccurate(env, m, own, run, slots', entries') && OwnSlots(m.dir, walked, own, slots')
    ensures entries'[own] == entries[own]
  {
    forall s | s in slots' && slots'[s] < |entries'| && slots'[s] != own
               && entries'[slots'[s]].run == run && entries'[slots'[s]].done == m.done
      ensures s.1 == m.dir && entries'[slots'[s]].result == FoundFrom(env, m, s.0)
    {
      assert slots'[s] < |entries|;
      assert entries'[slots'[s]] == entries[slots[s]];
    }
  }

  /** Moving on to a node whose inner match is known. */
  lemma NextNode(env: Env, m: Matcher, own: nat, walked: set<Path>, before: Path, elem: Path, run: nat,
                 slots: map<Slot, nat>, entries: seq<Entry>)
    requires m.Comb? && !m.first && own < |entries| && entries[own].run == run && entries[own].done == m.done
    requires Move(m.dir, before) == Some(elem) && Checked(env, m.dir, m.base, elem)
    requires forall w :: w in walked ==>
           FoundFrom(env, m, w) == SemWalk(env, m, before) && Rank(m.dir, w) >= Rank(m.dir, before)
    requires CacheOk(env, m.inner, run, slots, entries) && OthersAccurate(env, m, own, run, slots, entries)
    requires OwnSlots(m.dir, walked + {elem}, own, slots)
    requires entries[own].result == Sem(env, m.inner, elem)
    ensures !entries[own].result ==> Walking(env, m, own, walked + {elem}, elem, run, slots, entries)
    ensures entries[own].result ==> CacheOk(env, m, run, slots, entries)
  {
    assert FoundFrom(env, m, elem) == SemWalk(env, m, before);
  }

  /** Before the inner match: the walk's entry now also sits on elem. */
  lemma EntryStored(env: Env, m: Matcher, own: nat, walked: set<Path>, before: Path, elem: Path, run: nat,
                    slots0: map<Slot, nat>, entries0: seq<Entry>, slots: map<Slot, nat>, entries: seq<Entry>)
    requires m.Comb? && OwnNames(m) && Walking(env, m, own, walked, before, run, slots, entries) && !entries[own].result
    requires |entries0| <= own && Grown(Names(m), run, slots0, entries0, slots, entries)
    ensures var slots1 := slots[(elem, m.dir) := own];
            && CacheOk(env, m.inner, run, slots1, entries) && OthersAccurate(env, m, own, run, slots1, entries)
            && OwnSlots(m.dir, walked + {elem}, own, slots1)
            && Grown(Names(m), run, slots0, entries0, slots1, entries)
  {
    var slots1 := slots[(elem, m.dir) := own];
    OwnWrite(env, m, own, run, slots, entries, slots1, false);
    OwnWriteGrown(Names(m), run, slots0, entries0, slots, entries, own, slots1, false);
    assert entries[own := entries[own].(result := false)] == entries;
  }

  /** After the inner match: its answer is noted in the walk's entry. */
  lemma AnswerNoted(env: Env, m: Matcher, own: nat, walked: set<Path>, before: Path, elem: Path, run: nat,
                    slots0: map<Slot, nat>, entries0: seq<Entry>, slots1: map<Slot, nat>, entries1: seq<Entry>,
                    slots: map<Slot, nat>, entries: seq<Entry>, b: bool)
    requires m.Comb? && !m.first && OwnNames(m) && |entries0| <= own < |entries1|
    requires entries1[own].run == run && entries1[own].done == m.done
    requires Move(m.dir, before) == Some(elem) && Checked(env, m.dir, m.base, elem)
    requires forall w :: w in walked ==>
           FoundFrom(env, m, w) == SemWalk(env, m, before) && Rank(m.dir, w) >= Rank(m.dir, before)
    requires OthersAccurate(env, m, own, run, slots1, entries1) && OwnSlots(m.dir, walked + {elem}, own, slots1)
    requires Grown(Names(m), run, slots0, entries0, slots1, entries1)
    requires Grown(Names(m.inner), run, slots1, entries1, slots, entries)
    requires CacheOk(env, m.inner, run, slots, entries) && b == Sem(env, m.inner, elem)
    ensures own < |entries|
    ensures var entries' := entries[own := entries[own].(result := b)];
            && Grown(Names(m), run, slots0, entries0, slots, entries')
            && (b ==> CacheOk(env, m, run, slots, entries'))
            && (!b ==> Walking(env, m, own, walked + {elem}, elem, run, slots, entries'))
  {
    InnerRun(env, m, own, walked + {elem}, run, slots1, entries1, slots, entries);
    InnerGrown(Names(m), Names(m.inner), run, slots0, entries0, slots1, entries1, slots, entries);
    OwnWrite(env, m, own, run, slots, entries, slots, b);
    OwnWriteGrown(Names(m), run, slots0, entries0, slots, entries, own, slots, b);
    NextNode(env, m, own, walked, before, elem, run, slots, entries[own := entries[own].(result := b)]);
  }

  /** A walk that ends with the right result in its entry leaves every cache of m right. */
  lemma WalkDone(env: Env, m: Matcher, own: nat, walked: set<Path>, elem: Path, run: nat, slots: map<Slot, nat>,
                 entries: seq<Entry>)
    requires m.Comb? && Walking(env, m, own, walked, elem, run, slots, entries)
    requires entries[own].result == SemWalk(env, m, elem)
    ensures CacheOk(env, m, run, slots, entries)
  {
  }

  /** The first node of a walk: a fresh entry on no slot yet. */
  lemma WalkBegins(env: Env, m: Matcher, p: Path, run: nat, slots: map<Slot, nat>, entries: seq<Entry>)
    requires m.Comb? && !m.first && OwnNames(m) && CacheOk(env, m, run, slots, entries)
    requires forall s :: s in slots ==> slots[s] < |entries|
    ensures var entries' := entries + [Entry(run, m.done, false)];
            Grown(Names(m), run, slots, entries, slots, entries')
                && Walking(env, m, |entries|, {}, p, run, slots, entries')
  {
    OthersKeepCache(env, m.inner, {m.done}, run, slots, entries, slots, entries + [Entry(run, m.done, false)]);
  }

  /** A live entry on the next node tells how the walk would end, for that node and all nodes walked so far. */
  lemma Shortcut(env: Env, m: Matcher, own: nat, walked: set<Path>, before: Path, elem: Path, run: nat,
                 slots0: map<Slot, nat>, entries0: seq<Entry>, slots: map<Slot, nat>, entries: seq<Entry>)
    requires m.Comb? && !m.first && OwnNames(m) && Walking(env, m, own, walked, before, run, slots, entries)
    requires Move(m.dir, before) == Some(elem) && Checked(env, m.dir, m.base, elem)
    requires |entries0| <= own && Grown(Names(m), run, slots0, entries0, slots, entries)
    requires (elem, m.dir) in slots && entries[slots[(elem, m.dir)]].run == run
           && entries[slots[(elem, m.dir)]].done == m.done
    ensures var b := entries[slots[(elem, m.dir)]].result;
            var entries' := entries[own := entries[own].(result := b)];
            && b == SemWalk(env, m, before)
            && CacheOk(env, m, run, slots, entries') && Grown(Names(m), run, slots0, entries0, slots, entries')
  {
    var b := entries[slots[(elem, m.dir)]].result;
    assert elem !in walked;
    assert slots[(elem, m.dir)] != own;
    OwnWrite(env, m, own, run, slots, entries, slots, b);
    OwnWriteGrown(Names(m), run, slots0, entries0, slots, entries, own, slots, b);
    WalkDone(env, m, own, walked, before, run, slots, entries[own := entries[own].(result := b)]);
  }

  class Runner {
    var dirruns: nat
    var slots: map<Slot, nat>
    var entries: seq<Entry>

    ghost predicate Valid()
      reads this
    {
      && (forall s :: s in slots ==> slots[s] < |entries|)
      && (forall i :: 0 <= i < |entries| ==> entries[i].run <= dirruns)
    }

    constructor ()
      ensures Valid()
    {
      dirruns := 0;
      slots := map[];
      entries := [];
    }

    /** Evaluate a compiled matcher: the cached run returns what the plain one returns. */
    method Match(env: Env, m: Matcher, p: Path) returns (b: bool)
      requires Valid() && OwnNames(m) && CacheOk(env, m, dirruns, slots, entries)
      modifies this
      ensures Valid() && dirruns == old(dirruns)
      ensures b == Sem(env, m, p)
      ensures CacheOk(env, m, dirruns, slots, entries)
      ensures Grown(Names(m), dirruns, old(slots), old(entries), slots, entries)
      decreases m, 2
    {
      match m {
        case IsContext =>
          b := p == env.context;
        case Base(leading, walk) =>
          if !leading && Some(env.context) != env.outermost {
            b := true;
          } else {
            b := Match(env, walk, p);
          }
        case Comb(inner, dir, first, base, done) =>
          if first {
            b := ClosestOnly(env, m, p);
          } else {
            b := CachedWalk(env, m, p);
          }
        case Compound(head, filters) =>
          var i := |filters|;
          while i > 0
            invariant 0 <= i <= |filters|
            invariant forall j :: i <= j < |filters| ==> Accepts(env.t, filters[j], p)
          {
            i := i - 1;
            if !Accepts(env.t, filters[i], p) {
              return false;
            }
          }
          b := Match(env, head, p);
      }
    }

    /** The "first" branch: ask the closest checked node only. */
    method ClosestOnly(env: Env, m: Matcher, p: Path) returns (b: bool)
      requires m.Comb? && m.first
      requires Valid() && OwnNames(m) && CacheOk(env, m, dirruns, slots, entries)
      modifies this
      ensures Valid() && dirruns == old(dirruns)
      ensures b == SemWalk(env, m, p)
      ensures CacheOk(env, m, dirruns, slots, entries)
      ensures Grown(Names(m), dirruns, old(slots), old(entries), slots, entries)
      decreases m, 1
    {
      var at := Move(m.dir, p);
      while at.Some?
        invariant slots == old(slots) && entries == old(entries) && dirruns == old(dirruns)
        invariant SemWalk(env, m, p) ==
                  (at.Some? && if Checked(env, m.dir, m.base, at.value) then Sem(env, m.inner, at.value)
                   else SemWalk(env, m, at.value))
        decreases at.Some?, if at.Some? then Rank(m.dir, at.value) else 0
      {
        if Checked(env, m.dir, m.base, at.value) {
          b := Match(env, m.inner, at.value);
          return;
        }
        at := Move(m.dir, at.value);
      }
      b := false;
    }

    /** One uncached node of a walk: store the walk's entry on it, then ask the inner matcher and note its answer. */
    method Visit(env: Env, m: Matcher, own: nat, elem: Path, ghost before: Path, ghost walked: set<Path>,
                 ghost slots0: map<Slot, nat>, ghost entries0: seq<Entry>) returns (b: bool)
      requires m.Comb? && !m.first && OwnNames(m) && Valid()
      requires Move(m.dir, before) == Some(elem) && Checked(env, m.dir, m.base, elem)
      requires |entries0| <= own && Grown(Names(m), dirruns, slots0, entries0, slots, entries)
      requires Walking(env, m, own, walked, before, dirruns, slots, entries) && !entries[own].result
      modifies this
      ensures Valid() && dirruns == old(dirruns) && own < |entries|
      ensures b == entries[own].result == Sem(env, m.inner, elem)
      ensures Grown(Names(m), dirruns, slots0, entries0, slots, entries)
      ensures b ==> CacheOk(env, m, dirruns, slots, entries)
      ensures !b ==> Walking(env, m, own, walked + {elem}, elem, dirruns, slots, entries)
      decreases m, 0
    {
      EntryStored(env, m, own, walked, before, elem, dirruns, slots0, entries0, slots, entries);
      slots := slots[(elem, m.dir) := own];
      ghost var slots1, entries1 := slots, entries;
      b := Match(env, m.inner, elem);
      AnswerNoted(env, m, own, walked, before, elem, dirruns, slots0, entries0, slots1, entries1, slots, entries, b);
      entries := entries[own := entries[own].(result := b)];
    }

    /** The cached branch: one shared entry for the whole walk, a shortcut at the first live entry it meets. */
    method CachedWalk(env: Env, m: Matcher, p: Path) returns (b: bool)
      requires m.Comb? && !m.first
      requires Valid() && OwnNames(m) && CacheOk(env, m, dirruns, slots, entries)
      modifies this
      ensures Valid() && dirruns == old(dirruns)
      ensures b == SemWalk(env, m, p)
      ensures CacheOk(env, m, dirruns, slots, entries)
      ensures Grown(Names(m), dirruns, old(slots), old(entries), slots, entries)
      decreases m, 1
    {
      var own := |entries|;
      ghost var slots0, entries0 := slots, entries;
      WalkBegins(env, m, p, dirruns, slots, entries);
      entries := entries + [Entry(dirruns, m.done, false)];
      var elem := p;
      var at := Move(m.dir, p);
      ghost var walked: set<Path> := {};
      while at.Some?
        invariant Valid() && dirruns == old(dirruns)
        invariant Grown(Names(m), dirruns, slots0, entries0, slots, entries)
        invariant at == Move(m.dir, elem)
        invariant SemWalk(env, m, p) == SemWalk(env, m, elem)
        invariant own == |entries0| && Walking(env, m, own, walked, elem, dirruns, slots, entries)
        invariant !entries[own].result
        decreases at.Some?, Rank(m.dir, elem)
      {
        ghost var before := elem;
        elem := at.value;
        if Checked(env, m.dir, m.base, elem) {
          var slot := (elem, m.dir);
          if slot in slots && entries[slots[slot]].run == dirruns && entries[slots[slot]].done == m.done {
            b := entries[slots[slot]].result;
            Shortcut(env, m, own, walked, before, elem, dirruns, slots0, entries0, slots, entries);
            entries := entries[own := entries[own].(result := b)];
            return;
          }
          b := Visit(env, m, own, elem, before, walked, slots0, entries0);
          walked := walked + {elem};
          if b {
            return;
          }
        }
        at := Move(m.dir, elem);
      }
      WalkDone(env, m, own, walked, elem, dirruns, slots, entries);
      b := false;
    }

    /** The element loop: an element is a result when one of the matchers accepts it. */
    method SuperMatcher(t: Node, context: Path, matchers: seq<Matcher>, elems: seq<Path>) returns (results: seq<Path>)
      requires Valid() && OwnNamesAll(matchers)
      modifies this
      ensures Valid()
      ensures results == Keep(elems, e => AnyAccepts(OutermostEnv(t, context), matchers, e))
    {
      var env := OutermostEnv(t, context);
      dirruns := dirruns + 1;
      forall j | 0 <= j < |matchers| ensures CacheOk(env, matchers[j], dirruns, slots, entries) {
        NewRunCacheOk(env, matchers[j], dirruns, slots, entries);
      }
      results := [];
      ghost var accepts := e => AnyAccepts(env, matchers, e);
      for i := 0 to |elems|
        invariant Valid()
        invariant forall j :: 0 <= j < |matchers| ==> CacheOk(env, matchers[j], dirruns, slots, entries)
        invariant results == Keep(elems[..i], accepts)
      {
        assert elems[..i + 1][..i] == elems[..i];
        var accepted := TryMatchers(env, matchers, elems[i]);
        if accepted {
          results := results + [elems[i]];
        }
      }
      assert elems[..|elems|] == elems;
    }

    method TryMatchers(env: Env, matchers: seq<Matcher>, elem: Path) returns (accepted: bool)
      requires Valid() && OwnNamesAll(matchers)
      requires forall j :: 0 <= j < |matchers| ==> CacheOk(env, matchers[j], dirruns, slots, entries)
      modifies this
      ensures Valid() && dirruns == old(dirruns)
      ensures forall j :: 0 <= j < |matchers| ==> CacheOk(env, matchers[j], dirruns, slots, entries)
      ensures accepted == AnyAccepts(env, matchers, elem)
    {
      var j := 0;
      while j < |matchers|
        invariant 0 <= j <= |matchers| && Valid() && dirruns == old(dirruns)
        invariant forall k :: 0 <= k < |matchers| ==> CacheOk(env, matchers[k], dirruns, slots, entries)
        invariant forall k :: 0 <= k < j ==> !Sem(env, matchers[k], elem)
      {
        ghost var slots0, entries0 := slots, entries;
        var b := Match(env, matchers[j], elem);
        GrownIsUntouched(Names(matchers[j]), dirruns, slots0, entries0, slots, entries);
        forall k | 0 <= k < |matchers| && k != j ensures CacheOk(env, matchers[k], dirruns, slots, entries) {
          OthersKeepCache(env, matchers[k], Names(matchers[j]), dirruns, slots0, entries0, slots, entries);
        }
        if b {
          return true;
        }
        j := j + 1;
      }
      return false;
    }
  }

  ghost predicate OwnNamesAll(matchers: seq<Matcher>) {
    && (forall j :: 0 <= j < |matchers| ==> OwnNames(matchers[j]))
    && (forall j, k :: 0 <= j < |matchers| && 0 <= k < |matchers| && j != k ==>
        Names(matchers[j]) !! Names(matchers[k]))
  }

  predicate AnyAccepts(env: Env, matchers: seq<Matcher>, e: Path) {
    exists j :: 0 <= j < |matchers| && Sem(env, matchers[j], e)
  }
}
