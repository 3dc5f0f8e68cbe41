/**
 Whole runs of one callback list whose callbacks may add, remove, fire, empty, disable and lock while they are called,
 in any way and order, and may return false to a stopOnFalse list.
 */
module CallbackRuns {
  import opened Wrappers
  import opened CallbackList

  datatype Event<F, D> =
    | Fire(d: D)
    | Add(fns: seq<F>)
    | Remove(fns: seq<F>)
    | Empty
    | Disable
    | Lock
    | Advance                // the firing loop calls its next callback, or ends
    | Return(isFalse: bool)  // the callback hands control back

  /**
   The list with its history: calling tells whether a callback has control; eligible are the additions the current fire
   is about, called those it called so far; missed are those of them that were put into the list at or before the
   firing index, and emptied tells whether the list was emptied during the fire, which is what makes that possible;
   gone are the additions that removals so far named; accepted, begun and dropped are the fires that fireWith took,
   those of them whose loop has started, and those that disable and lock took out of the queue.
   */
  datatype M<F, D> = M(cb: CB<F, D>, calling: bool, eligible: set<nat>, called: seq<nat>, missed: set<nat>,
                       emptied: bool, gone: set<nat>, accepted: seq<D>, begun: seq<D>, dropped: seq<D>)

  function Start<F, D>(o: Options): M<F, D> {
    M(Fresh(o), false, {}, [], {}, false, {}, [], [], [])
  }

  function Occs<F(==)>(items: seq<Item<F>>): (r: set<nat>)
    ensures forall it :: it in items ==> it.occ in r
    ensures forall n :: n in r ==> exists it :: it in items && it.occ == n
  {
    set it | it in items :: it.occ
  }

  /** The entries of the firing list whose turn is still to come. */
  function Pending<F, D>(s: CB<F, D>, calling: bool): seq<Item<F>> {
    var from := if calling then s.index + 1 else s.index;
    if s.list.Some? && 0 <= from <= |s.list.value| then s.list.value[from..] else []
  }

  ghost predicate Enabled<F(!new), D>(m: M<F, D>, e: Event<F, D>) {
    match e
    case Advance => m.cb.firing && !m.calling
    case Return(_) => m.calling
    case _ => m.cb.firing ==> m.calling
  }

  /** A fire has just begun. */
  function Began<F(==), D>(m: M<F, D>, cb: CB<F, D>): M<F, D> {
    m.(cb := cb, calling := false, eligible := Occs(Pending(cb, false)), called := [], missed := {}, emptied := false)
  }

  /** A fire has just ended, and the next one of the queue has begun if there is one. */
  function Ended<F(==), D>(m: M<F, D>, cb: CB<F, D>): M<F, D> {
    if cb.firing && cb.data.Some? then Began(m, cb).(begun := m.begun + [cb.data.value])
    else m.(cb := cb, calling := false)
  }

  function ListOf<F, D>(s: CB<F, D>): seq<Item<F>> {
    if s.list.Some? then s.list.value else []
  }

  function QueueOf<F, D>(s: CB<F, D>): seq<D> {
    if s.stack.Some? then s.stack.value else []
  }

  /** Of the entries behind the first n, those that the loop has already passed. */
  function Passed<F, D>(s: CB<F, D>, n: nat): seq<Item<F>>
    requires n <= |ListOf(s)|
  {
    var from := s.index + 1;
    if from <= n then [] else if from <= |ListOf(s)| then ListOf(s)[n..from] else ListOf(s)[n..]
  }

  /** The additions an operation is to take out of the list. */
  function Named<F(==), D>(s: CB<F, D>, e: Event<F, D>): set<nat> {
    match e
    case Remove(fns) => set it | it in ListOf(s) && it.fn in fns :: it.occ
    case Empty => Occs(ListOf(s))
    case Disable => Occs(ListOf(s))
    case Lock => if s.memory.None? then Occs(ListOf(s)) else {}
    case _ => {}
  }

  /** The named additions are removed, and the queued fires that cb no longer has are dropped. */
  function Cleared<F(==), D>(m: M<F, D>, cb: CB<F, D>, named: set<nat>): M<F, D> {
    m.(cb := cb, gone := m.gone + named,
       dropped := if cb.stack.Some? then m.dropped else m.dropped + QueueOf(m.cb))
  }

  function Step<F(==), D>(o: Options, m: M<F, D>, e: Event<F, D>): M<F, D> {
    match e
    case Fire(d) =>
      if !Accepts(m.cb) then m
      else if m.cb.firing then m.(cb := FiredWith(o, m.cb, d), accepted := m.accepted + [d])
      else Began(m, FiredWith(o, m.cb, d)).(accepted := m.accepted + [d], begun := m.begun + [d])
    case Add(fns) =>
      var cb := Added(o, m.cb, fns);
      if m.cb.firing then
        m.(cb := cb, eligible := m.eligible + Occs(ListOf(cb)[|ListOf(m.cb)|..]),
           missed := m.missed + Occs(Passed(cb, |ListOf(m.cb)|)))
      else if cb.firing then Began(m, cb)
      else m.(cb := cb)
    case Remove(fns) => Cleared(m, Removed(m.cb, fns), Named(m.cb, e))
    case Empty => Cleared(m, Emptied(m.cb), Named(m.cb, e)).(emptied := m.emptied || m.cb.firing)
    case Disable => Cleared(m, Disabled(m.cb), Named(m.cb, e))
    case Lock => Cleared(m, Locked(m.cb), Named(m.cb, e))
    case Advance =>
      (match Current(m.cb)
       case Some(it) => m.(calling := true, called := m.called + [it.occ])
       case None => Ended(m, Finish(o, m.cb)))
    case Return(isFalse) =>
      if isFalse && o.stopOnFalse then Ended(m, Returned(o, m.cb, true))
      else m.(cb := Returned(o, m.cb, false), calling := false)
  }

  ghost predicate ValidRun<F(!new), D>(o: Options, events: seq<Event<F, D>>)
    decreases |events|, 0
  {
    events == [] ||
    (ValidRun(o, events[..|events| - 1]) && Enabled(Run(o, events[..|events| - 1]), events[|events| - 1]))
  }

  ghost function Run<F(!new), D>(o: Options, events: seq<Event<F, D>>): M<F, D>
    requires ValidRun(o, events)
    decreases |events|, 1
  {
    if events == [] then Start(o)
    else Step(o, Run(o, events[..|events| - 1]), events[|events| - 1])
  }

  // ---------- the invariant ----------

  ghost predicate Increasing<F(!new)>(items: seq<Item<F>>) {
    forall i, j :: 0 <= i < j < |items| ==> items[i].occ < items[j].occ
  }

  ghost predicate IncreasingNats(ns: seq<nat>) {
    forall i, j :: 0 <= i < j < |ns| ==> ns[i] < ns[j]
  }

  /** The firing loop's variables point into the list. */
  ghost predicate LoopOk<F(!new), D>(s: CB<F, D>, calling: bool) {
    && s.list.Some? && s.fired && s.data.Some? && s.length == |s.list.value|
    && (if calling then -1 <= s.index < |s.list.value| else 0 <= s.index <= |s.list.value|)
  }

  ghost predicate ListOk<F(!new), D>(m: M<F, D>) {
    && Increasing(ListOf(m.cb))
    && (forall it :: it in ListOf(m.cb) ==> it.occ < m.cb.next && it.occ !in m.gone)
    && (forall n :: n in m.gone ==> n < m.cb.next)
    && m.cb.start == 0
  }

  /** The current fire calls in list order, and nothing eligible is lost: called, removed or still to come. */
  ghost predicate BatchOk(called: seq<nat>, eligible: set<nat>, gone: set<nat>, pending: set<nat>, next: nat) {
    && IncreasingNats(called)
    && (forall n, k :: n in called && k in pending ==> n < k)
    && (forall n :: n in called ==> n in eligible && n < next)
    && pending <= eligible
    && (forall n :: n in eligible ==> n in called || n in gone || n in pending)
  }

  ghost predicate QueueOk<F(!new), D>(m: M<F, D>) {
    m.accepted == m.begun + QueueOf(m.cb) + m.dropped && (m.dropped != [] ==> m.cb.stack.None? && m.cb.fired)
  }

  /**
   The firing loop's variables point into the list, unless it was emptied meanwhile: then they may point behind it.
   */
  ghost predicate FiringOk<F(!new), D>(s: CB<F, D>, calling: bool, emptied: bool) {
    && s.fired && s.data.Some? && (if calling then -1 <= s.index else 0 <= s.index)
    && (s.list.Some? ==> s.length == |s.list.value| && (!emptied ==> LoopOk(s, calling)))
  }

  /** Missed additions are lost for the fire, and there are none unless the list was emptied. */
  ghost predicate MissedOk(called: seq<nat>, eligible: set<nat>, missed: set<nat>, pending: set<nat>, emptied: bool,
                           next: nat) {
    && (forall n :: n in missed ==> n in eligible && n !in called && n !in pending && n < next)
    && (!emptied ==> missed == {})
  }

  ghost predicate FireOk<F(!new), D>(m: M<F, D>) {
    var pending := Occs(Pending(m.cb, m.calling));
    && FiringOk(m.cb, m.calling, m.emptied)
    && BatchOk(m.called, m.eligible, m.gone + m.missed, pending, m.cb.next)
    && MissedOk(m.called, m.eligible, m.missed, pending, m.emptied, m.cb.next)
  }

  ghost predicate Inv<F(!new), D>(m: M<F, D>) {
    && (m.calling ==> m.cb.firing)
    && (m.cb.firing ==> FireOk(m))
    && (!m.cb.firing ==> QueueOf(m.cb) == []) && (m.cb.list.None? ==> m.cb.stack.None?)
    && ListOk(m) && QueueOk(m)
  }

  // ---------- adding ----------

  lemma {:induction false} AppendedIncreases<F(!new)>(o: Options, items: seq<Item<F>>, fns: seq<F>, next: nat)
    ensures var more := Appended(o, items, fns, next);
            Increasing(more) && forall it :: it in more ==> next <= it.occ < next + |more|
    decreases |fns|
  {
    if fns != [] {
      if o.unique && Has(items, fns[0]) {
        AppendedIncreases(o, items, fns[1..], next);
      } else {
        AppendedIncreases(o, items + [Item(fns[0], next)], fns[1..], next + 1);
        var rest := Appended(o, items + [Item(fns[0], next)], fns[1..], next + 1);
        var more := Appended(o, items, fns, next);
        assert more == [Item(fns[0], next)] + rest;
        forall i, j | 0 <= i < j < |more| ensures more[i].occ < more[j].occ {
          assert more[j] == rest[j - 1] && rest[j - 1] in rest;
          if i > 0 {
            assert more[i] == rest[i - 1];
          }
        }
      }
    }
  }

  lemma AddKeepsList<F(!new), D>(o: Options, m: M<F, D>, fns: seq<F>)
    requires Inv(m) && m.cb.list.Some?
    ensures var more := Appended(o, m.cb.list.value, fns, m.cb.next);
            && Increasing(m.cb.list.value + more)
            && (forall it :: it in more ==> m.cb.next <= it.occ < m.cb.next + |more|)
  {
    AppendedIncreases(o, m.cb.list.value, fns, m.cb.next);
    var items, more := m.cb.list.value, Appended(o, m.cb.list.value, fns, m.cb.next);
    var all: seq<Item<F>> := items + more;
    forall i, j | 0 <= i < j < |all| ensures all[i].occ < all[j].occ {
      if i < |items| {
        assert items[i] in items;
      }
      if j >= |items| {
        assert more[j - |items|] in more;
      }
    }
  }

  lemma OccsConcat<F(!new)>(xs: seq<Item<F>>, ys: seq<Item<F>>)
    ensures Occs(xs + ys) == Occs(xs) + Occs(ys)
  {
    forall n | n in Occs(xs) + Occs(ys) ensures n in Occs(xs + ys) {
      var it :| (it in xs || it in ys) && it.occ == n;
      assert it in xs + ys;
    }
  }

  lemma AddKeepsFiring<F(!new), D>(o: Options, m: M<F, D>, fns: seq<F>)
    requires Inv(m) && m.cb.firing && m.calling && m.cb.list.Some?
    ensures var m' := Step(o, m, Add(fns)); FiringOk(m'.cb, true, m'.emptied) && m'.calling && m'.cb.firing
  {
    if !m.emptied {
      AddedPending(o, m.cb, fns);
    }
  }

  /** What is added during a fire is what the loop has passed and what it has not. */
  lemma AddedOccs<F(!new), D>(o: Options, s: CB<F, D>, fns: seq<F>) returns (passed: set<nat>, rest: set<nat>)
    requires s.firing && s.list.Some? && -1 <= s.index
    requires var more := Appended(o, s.list.value, fns, s.next);
             Increasing(more) && forall it :: it in more ==> s.next <= it.occ < s.next + |more|
    ensures var s', n := Added(o, s, fns), |s.list.value|;
            && Occs(ListOf(s')[n..]) == passed + rest && Occs(Passed(s', n)) == passed
            && Occs(Pending(s', true)) == Occs(Pending(s, true)) + rest && passed !! rest
            && (s.index + 1 <= n ==> passed == {})
  {
    var ps, rs := AddedSplits(o, s, fns);
    passed, rest := Occs(ps), Occs(rs);
    OccsConcat(ps, rs);
    OccsConcat(Pending(s, true), rs);
    SplitOccs(Appended(o, s.list.value, fns, s.next), ps, rs);
  }

  lemma AddedNumbers<F(!new), D>(o: Options, s: CB<F, D>, fns: seq<F>)
    requires s.firing && s.list.Some?
    requires var more := Appended(o, s.list.value, fns, s.next);
             forall it :: it in more ==> s.next <= it.occ < s.next + |more|
    ensures var s' := Added(o, s, fns);
            s.next <= s'.next && forall n :: n in Occs(ListOf(s')[|s.list.value|..]) ==> s.next <= n < s'.next
  {
    var items, more := s.list.value, Appended(o, s.list.value, fns, s.next);
    assert (items + more)[|items|..] == more;
    OccsWithin(more, s.next, s.next + |more|);
  }

  /**
   Adding during a fire extends what the fire is about by the same additions, and what is to come by those not passed.
   */
  lemma AddWhileFiring<F(!new), D>(o: Options, m: M<F, D>, fns: seq<F>)
    requires Inv(m) && m.cb.firing && m.calling && m.cb.list.Some?
    ensures FireOk(Step(o, m, Add(fns)))
  {
    AddKeepsFiring(o, m, fns);
    AddKeepsList(o, m, fns);
    IncreasingTail(m.cb.list.value, Appended(o, m.cb.list.value, fns, m.cb.next));
    AddedNumbers(o, m.cb, fns);
    var passed, rest := AddedOccs(o, m.cb, fns);
    BatchSplits(m.called, m.eligible, m.gone, m.missed, Occs(Pending(m.cb, true)), m.cb.next, passed, rest,
                Step(o, m, Add(fns)).cb.next);
  }

  lemma IncreasingTail<F(!new)>(items: seq<Item<F>>, more: seq<Item<F>>)
    requires Increasing(items + more)
    ensures Increasing(more)
  {
    forall i, j | 0 <= i < j < |more| ensures more[i].occ < more[j].occ {
      assert (items + more)[|items| + i] == more[i] && (items + more)[|items| + j] == more[j];
    }
  }

  lemma OccsWithin<F(!new)>(items: seq<Item<F>>, lo: nat, hi: nat)
    requires forall it :: it in items ==> lo <= it.occ < hi
    ensures forall n :: n in Occs(items) ==> lo <= n < hi
  {
  }

  lemma SplitOccs<F(!new)>(items: seq<Item<F>>, xs: seq<Item<F>>, ys: seq<Item<F>>)
    requires Increasing(items) && items == xs + ys
    ensures Occs(xs) !! Occs(ys)
  {
    forall x, y | x in xs && y in ys ensures x.occ != y.occ {
      var i :| 0 <= i < |xs| && xs[i] == x;
      var j :| 0 <= j < |ys| && ys[j] == y;
      assert items[i] == x && items[|xs| + j] == y;
    }
  }

  /** Entries that a loop at from has passed and those it has not, when more are appended to items. */
  lemma MoreSplits<F(!new)>(items: seq<Item<F>>, more: seq<Item<F>>, from: nat)
      returns (passed: seq<Item<F>>, rest: seq<Item<F>>)
    ensures more == passed + rest && (items + more)[|items|..] == more
    ensures from <= |items| ==> passed == [] && (items + more)[from..] == items[from..] + rest
    ensures |items| < from <= |items + more| ==>
              (items + more)[|items|..from] == passed && (items + more)[from..] == rest
    ensures from > |items + more| ==> passed == more && rest == []
  {
    var all := items + more;
    if from <= |items| {
      passed, rest := [], more;
      assert all[from..] == items[from..] + more;
    } else if from <= |all| {
      passed, rest := more[..from - |items|], more[from - |items|..];
    } else {
      passed, rest := more, [];
    }
  }

  lemma AddedSplits<F(!new), D>(o: Options, s: CB<F, D>, fns: seq<F>) returns (passed: seq<Item<F>>, rest: seq<Item<F>>)
    requires s.firing && s.list.Some? && -1 <= s.index
    ensures var s', more := Added(o, s, fns), Appended(o, s.list.value, fns, s.next);
            && more == passed + rest && ListOf(s') == s.list.value + more && ListOf(s')[|s.list.value|..] == more
            && Passed(s', |s.list.value|) == passed && Pending(s', true) == Pending(s, true) + rest
            && s'.length == |ListOf(s')| && s'.index == s.index && s'.next == s.next + |more|
            && (s.index + 1 <= |s.list.value| ==> passed == [])
  {
    passed, rest := MoreSplits(s.list.value, Appended(o, s.list.value, fns, s.next), s.index + 1);
  }

  lemma BatchSplits(called: seq<nat>, eligible: set<nat>, gone: set<nat>, missed: set<nat>, pending: set<nat>,
                    next: nat, passed: set<nat>, rest: set<nat>, next': nat)
    requires BatchOk(called, eligible, gone + missed, pending, next) && next <= next' && passed !! rest
    requires forall n :: n in passed + rest ==> next <= n < next'
    requires forall n :: n in pending ==> n < next
    requires forall n :: n in missed ==> n in eligible && n !in called && n !in pending && n < next
    ensures BatchOk(called, eligible + (passed + rest), gone + (missed + passed), pending + rest, next')
    ensures forall n :: n in missed + passed ==>
              n in eligible + (passed + rest) && n !in called && n !in pending + rest && n < next'
  {
  }

  lemma AddedPending<F(!new), D>(o: Options, s: CB<F, D>, fns: seq<F>)
    requires s.firing && LoopOk(s, true)
    ensures var s', more := Added(o, s, fns), Appended(o, s.list.value, fns, s.next);
            && LoopOk(s', true) && Pending(s', true) == Pending(s, true) + more
            && ListOf(s')[|ListOf(s)|..] == more && s'.next == s.next + |more|
  {
    var items, more := s.list.value, Appended(o, s.list.value, fns, s.next);
    assert (items + more)[|items|..] == more;
    assert (items + more)[s.index + 1..] == items[s.index + 1..] + more;
  }

  lemma AddKeepsListOk<F(!new), D>(o: Options, m: M<F, D>, fns: seq<F>)
    requires Inv(m) && m.cb.list.Some?
    ensures ListOk(m.(cb := Added(o, m.cb, fns)))
  {
    AddKeepsList(o, m, fns);
    var items, cb := m.cb.list.value, Added(o, m.cb, fns);
    var more := Appended(o, items, fns, m.cb.next);
    assert ListOf(cb) == items + more && cb.next == m.cb.next + |more| && cb.start == 0;
    forall it | it in ListOf(cb) ensures it.occ < cb.next && it.occ !in m.gone {
      assert it in items || it in more;
    }
  }

  lemma AddKeepsInv<F(!new), D>(o: Options, m: M<F, D>, fns: seq<F>)
    requires Inv(m) && Enabled(m, Add(fns))
    ensures Inv(Step(o, m, Add(fns)))
  {
    if m.cb.list.Some? {
      AddKeepsListOk(o, m, fns);
      if m.cb.firing {
        AddWhileFiring(o, m, fns);
      } else if m.cb.memory.Some? {
        AddBegins(o, m, fns);
      }
      AddKeepsRest(o, m, fns);
    } else {
      assert Step(o, m, Add(fns)) == m;
    }
  }

  lemma AddBegins<F(!new), D>(o: Options, m: M<F, D>, fns: seq<F>)
    requires Inv(m) && m.cb.list.Some? && !m.cb.firing && m.cb.memory.Some?
    ensures FireOk(Step(o, m, Add(fns)))
  {
    AddKeepsListOk(o, m, fns);
    BeganOk(m, Added(o, m.cb, fns));
  }

  lemma AddKeepsRest<F(!new), D>(o: Options, m: M<F, D>, fns: seq<F>)
    requires Inv(m) && m.cb.list.Some? && Enabled(m, Add(fns))
    ensures var m' := Step(o, m, Add(fns));
            && m'.cb.list.Some? && m'.cb.stack == m.cb.stack && m'.gone == m.gone
            && m'.accepted == m.accepted && m'.begun == m.begun && m'.dropped == m.dropped
            && (m.cb.fired ==> m'.cb.fired) && m'.cb.start == 0
            && m'.cb.firing == (m.cb.firing || m.cb.memory.Some?) && (m'.calling ==> m'.cb.firing)
            && m'.cb.list == Added(o, m.cb, fns).list && m'.cb.next == Added(o, m.cb, fns).next
  {
  }

  // ---------- removing ----------

  /** A removal while a callback has control keeps the loop's place: what is still to come loses just the removed. */
  lemma RemoveOneKeepsPlace<F(!new), D>(s: CB<F, D>, fn: F, emptied: bool)
    requires s.firing && s.list.Some? && FiringOk(s, true, emptied)
    ensures var s' := Removed1(s, fn);
            && s'.firing && FiringOk(s', true, emptied)
            && Pending(s', true) == Without(Pending(s, true), fn)
            && s'.list == Some(Without(s.list.value, fn))
  {
    var items, k := s.list.value, s.index + 1;
    assert items[..|items|] == items;
    if k <= |items| {
      assert items == items[..k] + items[k..];
      WithoutConcat(items[..k], items[k..], fn);
    }
  }

  lemma {:induction false} WithoutIncreasing<F(!new)>(items: seq<Item<F>>, fn: F)
    requires Increasing(items)
    ensures Increasing(Without(items, fn))
  {
    if items != [] {
      var init, last := items[..|items| - 1], items[|items| - 1];
      WithoutIncreasing(init, fn);
      WithoutMembers(init, fn);
      forall it | it in Without(init, fn) ensures it.occ < last.occ {
        assert it in init;
        var i :| 0 <= i < |init| && init[i] == it;
        assert items[i] == it;
      }
    }
  }

  /** What several removals keep, whether or not a fire is in progress. */
  ghost predicate Thinned<F(!new), D>(s: CB<F, D>, s': CB<F, D>, emptied: bool) {
    && s' == s.(list := s'.list, index := s'.index, length := s'.length)
    && s'.list.Some? == s.list.Some?
    && (Increasing(ListOf(s)) ==> Increasing(ListOf(s')))
    && Occs(ListOf(s')) <= Occs(ListOf(s))
    && (s.firing ==>
          && FiringOk(s', true, emptied)
          && Kept(Occs(Pending(s, true)), Occs(ListOf(s)), Occs(Pending(s', true)), Occs(ListOf(s'))))
  }

  /** Of what was to come, exactly the additions that left the list no longer are. */
  ghost predicate Kept(pending: set<nat>, all: set<nat>, pending': set<nat>, all': set<nat>) {
    pending <= all && pending' <= pending && pending - pending' <= all - all' && pending' <= all'
  }

  lemma WithoutOccs<F(!new)>(items: seq<Item<F>>, fn: F)
    requires Increasing(items)
    ensures Occs(Without(items, fn)) <= Occs(items)
    ensures forall it :: it in items && it.fn == fn ==> it.occ !in Occs(Without(items, fn))
    ensures forall it :: it in items && it.fn != fn ==> it.occ in Occs(Without(items, fn))
  {
    WithoutMembers(items, fn);
    forall it, x | it in items && x in Without(items, fn) && it.occ == x.occ ensures it == x {
      SameOcc(items, it, x);
    }
  }

  lemma SameOcc<F(!new)>(items: seq<Item<F>>, it: Item<F>, x: Item<F>)
    requires Increasing(items) && it in items && x in items && it.occ == x.occ
    ensures it == x
  {
    var i :| 0 <= i < |items| && items[i] == it;
    var j :| 0 <= j < |items| && items[j] == x;
  }

  /** Taking one function's entries out of the list and out of its rest. */
  lemma WithoutKept<F(!new)>(items: seq<Item<F>>, pending: seq<Item<F>>, fn: F)
    requires Increasing(items) && Increasing(pending) && forall it :: it in pending ==> it in items
    ensures Kept(Occs(pending), Occs(items), Occs(Without(pending, fn)), Occs(Without(items, fn)))
  {
    WithoutOccs(items, fn);
    WithoutOccs(pending, fn);
    WithoutMembers(pending, fn);
    WithoutMembers(items, fn);
    forall n | n in Occs(pending) - Occs(Without(pending, fn)) ensures n in Occs(items) - Occs(Without(items, fn)) {
      var it :| it in pending && it.occ == n;
    }
  }

  lemma ThinOne<F(!new), D>(s: CB<F, D>, fn: F, emptied: bool)
    requires Increasing(ListOf(s)) && (s.firing ==> FiringOk(s, true, emptied))
    ensures Thinned(s, Removed1(s, fn), emptied)
  {
    if s.list.None? {
      ThinNone(s, emptied);
    } else {
      WithoutIncreasing(s.list.value, fn);
      WithoutOccs(s.list.value, fn);
      if s.firing {
        RemoveOneKeepsPlace(s, fn, emptied);
        PendingIncreasing(s);
        WithoutKept(s.list.value, Pending(s, true), fn);
      }
    }
  }

  lemma PendingIncreasing<F(!new), D>(s: CB<F, D>)
    requires Increasing(ListOf(s))
    ensures Increasing(Pending(s, true)) && forall it :: it in Pending(s, true) ==> it in ListOf(s)
  {
  }

  lemma ThinMore<F(!new), D>(s: CB<F, D>, s': CB<F, D>, s'': CB<F, D>, emptied: bool)
    requires Thinned(s, s', emptied) && Thinned(s', s'', emptied)
    ensures Thinned(s, s'', emptied)
  {
  }

  lemma ThinNone<F(!new), D>(s: CB<F, D>, emptied: bool)
    requires s.firing ==> FiringOk(s, true, emptied)
    ensures Thinned(s, s, emptied)
  {
    forall it | it in Pending(s, true) ensures it in ListOf(s) {
    }
  }

  lemma {:induction false} RemovalsThin<F(!new), D>(s: CB<F, D>, fns: seq<F>, emptied: bool)
    requires Increasing(ListOf(s)) && (s.firing ==> FiringOk(s, true, emptied))
    ensures Thinned(s, Removed(s, fns), emptied)
    decreases |fns|
  {
    if fns != [] {
      ThinOne(s, fns[0], emptied);
      RemovalsThin(Removed1(s, fns[0]), fns[1..], emptied);
      ThinMore(s, Removed1(s, fns[0]), Removed(s, fns), emptied);
    } else {
      ThinNone(s, emptied);
    }
  }

  lemma BatchThins(called: seq<nat>, eligible: set<nat>, gone: set<nat>, missed: set<nat>, pending: set<nat>, next: nat,
                   all: set<nat>, pending': set<nat>, all': set<nat>)
    requires BatchOk(called, eligible, gone + missed, pending, next) && Kept(pending, all, pending', all')
    ensures BatchOk(called, eligible, gone + (all - all') + missed, pending', next)
  {
    forall n | n in eligible ensures n in called || n in gone + (all - all') + missed || n in pending' {
      if n in pending && n !in pending' {
        assert n in pending - pending';
      }
    }
  }

  /** The named additions are exactly those that left. */
  ghost predicate Left<F(!new), D>(s: CB<F, D>, cb: CB<F, D>, named: set<nat>) {
    Occs(ListOf(cb)) <= Occs(ListOf(s)) && named == Occs(ListOf(s)) - Occs(ListOf(cb))
  }

  lemma RemovedLeft<F(!new), D>(s: CB<F, D>, fns: seq<F>)
    requires Increasing(ListOf(s))
    ensures Left(s, Removed(s, fns), Named(s, Event<F, D>.Remove(fns)))
  {
    var items, items' := ListOf(s), ListOf(Removed(s, fns));
    if s.list.Some? {
      RemovedIs(s, fns);
    } else {
      RemovedFromNothing(s, fns);
    }
    forall it, x | it in items && it.fn in fns && x in items' ensures it.occ != x.occ {
      if it.occ == x.occ {
        SameOcc(items, it, x);
      }
    }
  }

  lemma ClearedListOk<F(!new), D>(m: M<F, D>, cb: CB<F, D>, named: set<nat>)
    requires ListOk(m) && Left(m.cb, cb, named) && Increasing(ListOf(cb)) && Occs(ListOf(cb)) <= Occs(ListOf(m.cb))
    requires cb.next == m.cb.next && cb.start == 0
    ensures ListOk(Cleared(m, cb, named))
  {
    var gone := Cleared(m, cb, named).gone;
    forall it | it in ListOf(cb) ensures it.occ < cb.next && it.occ !in gone {
      assert it.occ in Occs(ListOf(cb));
      var x :| x in ListOf(m.cb) && x.occ == it.occ;
    }
    forall n | n in gone ensures n < cb.next {
      if n !in m.gone {
        var x :| x in ListOf(m.cb) && x.occ == n;
      }
    }
  }

  /** Entries and queued fires leave, the rest stays as it was. */
  lemma ClearedKeepsInv<F(!new), D>(m: M<F, D>, cb: CB<F, D>, named: set<nat>, emptied: bool)
    requires Inv(m) && (m.cb.firing ==> m.calling && FiringOk(cb, true, emptied)) && (m.emptied ==> emptied)
    requires cb.firing == m.cb.firing && cb.next == m.cb.next && cb.start == 0 && cb.fired == m.cb.fired
    requires Increasing(ListOf(cb)) && Left(m.cb, cb, named)
    requires m.cb.firing ==>
               Kept(Occs(Pending(m.cb, true)), Occs(ListOf(m.cb)), Occs(Pending(cb, true)), Occs(ListOf(cb)))
    requires cb.stack == m.cb.stack || cb.stack.None?
    requires cb.list.None? ==> cb.stack.None?
    ensures Inv(Cleared(m, cb, named).(emptied := emptied))
  {
    ClearedListOk(m, cb, named);
    ClearedQueueOk(m, cb, named);
    if m.cb.firing {
      ClearedFireOk(m, cb, named, emptied);
    }
  }

  lemma ClearedQueueOk<F(!new), D>(m: M<F, D>, cb: CB<F, D>, named: set<nat>)
    requires QueueOk(m) && (cb.stack == m.cb.stack || cb.stack.None?) && cb.fired == m.cb.fired
    requires QueueOf(m.cb) != [] ==> m.cb.fired
    ensures QueueOk(Cleared(m, cb, named))
  {
    var queue := QueueOf(m.cb);
    if cb.stack.None? {
      assert m.begun + queue + m.dropped == m.begun + [] + (m.dropped + queue) by {
        assert queue == [] || m.dropped == [];
      }
    }
  }

  lemma ClearedFireOk<F(!new), D>(m: M<F, D>, cb: CB<F, D>, named: set<nat>, emptied: bool)
    requires m.cb.firing && m.calling && FireOk(m) && FiringOk(cb, true, emptied) && (m.emptied ==> emptied)
    requires cb.next == m.cb.next && Left(m.cb, cb, named)
    requires Kept(Occs(Pending(m.cb, true)), Occs(ListOf(m.cb)), Occs(Pending(cb, true)), Occs(ListOf(cb)))
    ensures FireOk(Cleared(m, cb, named).(emptied := emptied))
  {
    BatchThins(m.called, m.eligible, m.gone, m.missed, Occs(Pending(m.cb, true)), m.cb.next,
               Occs(ListOf(m.cb)), Occs(Pending(cb, true)), Occs(ListOf(cb)));
  }

  lemma RemoveKeepsInv<F(!new), D>(o: Options, m: M<F, D>, fns: seq<F>)
    requires Inv(m) && Enabled(m, Event<F, D>.Remove(fns))
    ensures Inv(Step(o, m, Event<F, D>.Remove(fns)))
  {
    RemovalsThin(m.cb, fns, m.emptied);
    RemovedLeft(m.cb, fns);
    ClearedKeepsInv(m, Removed(m.cb, fns), Named(m.cb, Event<F, D>.Remove(fns)), m.emptied);
  }

  /** A list that is emptied or disabled loses everything that was to come. */
  lemma AllCleared<F(!new), D>(m: M<F, D>, cb: CB<F, D>)
    requires Inv(m) && m.calling && ListOf(cb) == []
    ensures Kept(Occs(Pending(m.cb, true)), Occs(ListOf(m.cb)), Occs(Pending(cb, true)), Occs(ListOf(cb)))
  {
    forall it | it in Pending(m.cb, true) ensures it in ListOf(m.cb) {
    }
  }

  lemma EmptyKeepsInv<F(!new), D>(o: Options, m: M<F, D>)
    requires Inv(m) && Enabled(m, Event<F, D>.Empty)
    ensures Inv(Step(o, m, Event<F, D>.Empty))
  {
    if m.cb.firing {
      AllCleared(m, Emptied(m.cb));
    }
    ClearedKeepsInv(m, Emptied(m.cb), Named(m.cb, Event<F, D>.Empty), m.emptied || m.cb.firing);
  }

  lemma DisableKeepsInv<F(!new), D>(o: Options, m: M<F, D>)
    requires Inv(m) && Enabled(m, Event<F, D>.Disable)
    ensures Inv(Step(o, m, Event<F, D>.Disable))
  {
    if m.cb.firing {
      AllCleared(m, Disabled(m.cb));
    }
    ClearedKeepsInv(m, Disabled(m.cb), Named(m.cb, Event<F, D>.Disable), m.emptied);
  }

  lemma LockKeepsInv<F(!new), D>(o: Options, m: M<F, D>)
    requires Inv(m) && Enabled(m, Event<F, D>.Lock)
    ensures Inv(Step(o, m, Event<F, D>.Lock))
  {
    if m.cb.memory.None? {
      DisableKeepsInv(o, m);
      assert Locked(m.cb) == Disabled(m.cb) && Named(m.cb, Event<F, D>.Lock) == Named(m.cb, Event<F, D>.Disable);
    } else {
      if m.cb.firing {
        forall it | it in Pending(m.cb, true) ensures it in ListOf(m.cb) {
        }
      }
      ClearedKeepsInv(m, Locked(m.cb), {}, m.emptied);
    }
  }

  // ---------- firing ----------

  lemma SameFire<F(!new), D>(m: M<F, D>, m': M<F, D>)
    requires FireOk(m) && ListOk(m)
    requires m' == m.(cb := m.cb.(stack := m'.cb.stack), accepted := m'.accepted)
    ensures FireOk(m') && ListOk(m')
  {
    assert Pending(m'.cb, m'.calling) == Pending(m.cb, m.calling);
  }

  lemma QueueGrows<D>(accepted: seq<D>, begun: seq<D>, queue: seq<D>, dropped: seq<D>, d: D)
    requires accepted == begun + queue + dropped && dropped == []
    ensures accepted + [d] == begun + (queue + [d]) + dropped
  {
  }

  lemma FireIsQueued<F(!new), D>(o: Options, m: M<F, D>, d: D)
    requires Inv(m) && m.cb.firing && m.calling && Accepts(m.cb)
    ensures Inv(Step(o, m, Event<F, D>.Fire(d)))
  {
    var m' := Step(o, m, Event<F, D>.Fire(d));
    SameFire(m, m');
    QueueGrows(m.accepted, m.begun, QueueOf(m.cb), m.dropped, d);
  }

  lemma FireBegins<F(!new), D>(o: Options, m: M<F, D>, d: D)
    requires Inv(m) && !m.cb.firing && Accepts(m.cb)
    ensures Inv(Step(o, m, Event<F, D>.Fire(d)))
  {
    var cb := Begin(o, m.cb, d);
    BeganOk(m, cb);
    assert m.dropped == [] && QueueOf(cb) == [];
  }

  lemma FireKeepsInv<F(!new), D>(o: Options, m: M<F, D>, d: D)
    requires Inv(m) && Enabled(m, Event<F, D>.Fire(d))
    ensures Inv(Step(o, m, Event<F, D>.Fire(d)))
  {
    if Accepts(m.cb) {
      if m.cb.firing {
        FireIsQueued(o, m, d);
      } else {
        FireBegins(o, m, d);
      }
    }
  }

  /** Calling the next callback moves it from what is to come to what was called. */
  lemma BatchAdvances(called: seq<nat>, eligible: set<nat>, gone: set<nat>, pending: set<nat>, next: nat, n: nat,
                      rest: set<nat>)
    requires BatchOk(called, eligible, gone, pending, next)
    requires pending == {n} + rest && n < next && forall k :: k in rest ==> n < k
    ensures BatchOk(called + [n], eligible, gone, rest, next)
  {
    assert forall k :: k in called + [n] <==> k in called || k == n;
    assert n in pending;
    forall i | 0 <= i < |called| ensures called[i] < n {
      assert called[i] in called;
    }
  }

  lemma LaterOccs<F(!new)>(items: seq<Item<F>>, it: Item<F>, rest: seq<Item<F>>)
    requires Increasing(items) && items == [it] + rest
    ensures Occs(items) == {it.occ} + Occs(rest)
    ensures forall k :: k in Occs(rest) ==> it.occ < k
  {
    OccsConcat([it], rest);
    assert Occs([it]) == {it.occ};
    forall k | k in Occs(rest) ensures it.occ < k {
      var x :| x in rest && x.occ == k;
      var j :| 0 <= j < |rest| && rest[j] == x;
      assert items[0] == it && items[1 + j] == x;
    }
  }

  lemma CallSplitsPending<F(!new), D>(s: CB<F, D>)
    requires Current(s).Some? && Increasing(ListOf(s))
    ensures Occs(Pending(s, false)) == {Current(s).value.occ} + Occs(Pending(s, true))
    ensures forall k :: k in Occs(Pending(s, true)) ==> Current(s).value.occ < k
    ensures Current(s).value in ListOf(s)
  {
    var items, i := s.list.value, s.index;
    assert items[i..] == [items[i]] + items[i + 1..];
    assert Increasing(items[i..]);
    LaterOccs(items[i..], items[i], items[i + 1..]);
  }

  lemma CallKeepsInv<F(!new), D>(o: Options, m: M<F, D>)
    requires Inv(m) && Enabled(m, Event<F, D>.Advance) && Current(m.cb).Some?
    ensures Inv(Step(o, m, Event<F, D>.Advance))
  {
    CallSplitsPending(m.cb);
    var n := Current(m.cb).value.occ;
    assert forall k :: k in m.called + [n] <==> k in m.called || k == n;
    BatchAdvances(m.called, m.eligible, m.gone + m.missed, Occs(Pending(m.cb, false)), m.cb.next, n,
                  Occs(Pending(m.cb, true)));
  }

  /** A fire that has just begun is about everything from its start on. */
  lemma BeganOk<F(!new), D>(m: M<F, D>, cb: CB<F, D>)
    requires LoopOk(cb, false) && Increasing(ListOf(cb))
    ensures FireOk(Began(m, cb))
  {
  }

  lemma EndBeginsNext<F(!new), D>(o: Options, m: M<F, D>, s: CB<F, D>)
    requires Inv(m) && m.cb.firing && s == m.cb.(memory := s.memory) && s.list.Some? && QueueOf(s) != []
    ensures Inv(Ended(m, Finish(o, s)))
  {
    var cb := Finish(o, s);
    assert cb == Begin(o, s.(firing := false, stack := Some(s.stack.value[1..])), s.stack.value[0]);
    BeganOk(m, cb);
    QueueShrinks(m.begun, s.stack.value, m.dropped);
  }

  lemma QueueShrinks<D>(begun: seq<D>, queue: seq<D>, dropped: seq<D>)
    requires queue != []
    ensures begun + queue + dropped == (begun + [queue[0]]) + queue[1..] + dropped
  {
    assert queue == [queue[0]] + queue[1..];
  }

  lemma EndIsIdle<F(!new), D>(o: Options, m: M<F, D>, s: CB<F, D>)
    requires Inv(m) && m.cb.firing && s == m.cb.(memory := s.memory) && (s.list.None? || QueueOf(s) == [])
    ensures Inv(Ended(m, Finish(o, s)))
  {
    var cb := Finish(o, s);
    assert !cb.firing && (ListOf(cb) == ListOf(m.cb) || ListOf(cb) == []);
    assert QueueOf(cb) == QueueOf(m.cb) == [];
  }

  /** The end of a fire, by itself or by a callback that stops it: s is the list but for its memory. */
  lemma EndKeepsInv<F(!new), D>(o: Options, m: M<F, D>, s: CB<F, D>)
    requires Inv(m) && m.cb.firing && s == m.cb.(memory := s.memory)
    ensures Inv(Ended(m, Finish(o, s)))
  {
    if s.list.Some? && QueueOf(s) != [] {
      EndBeginsNext(o, m, s);
    } else {
      EndIsIdle(o, m, s);
    }
  }

  lemma ReturnKeepsInv<F(!new), D>(o: Options, m: M<F, D>, isFalse: bool)
    requires Inv(m) && Enabled(m, Event<F, D>.Return(isFalse))
    ensures Inv(Step(o, m, Event<F, D>.Return(isFalse)))
  {
    if isFalse && o.stopOnFalse {
      EndKeepsInv(o, m, m.cb.(memory := None));
    } else {
      assert Pending(Returned(o, m.cb, false), false) == Pending(m.cb, true);
    }
  }

  lemma StepKeepsInv<F(!new), D>(o: Options, m: M<F, D>, e: Event<F, D>)
    requires Inv(m) && Enabled(m, e)
    ensures Inv(Step(o, m, e))
  {
    match e
    case Fire(d) => FireKeepsInv(o, m, d);
    case Add(fns) => AddKeepsInv(o, m, fns);
    case Remove(fns) => RemoveKeepsInv(o, m, fns);
    case Empty => EmptyKeepsInv(o, m);
    case Disable => DisableKeepsInv(o, m);
    case Lock => LockKeepsInv(o, m);
    case Advance =>
      if Current(m.cb).Some? {
        CallKeepsInv(o, m);
      } else {
        EndKeepsInv(o, m, m.cb);
      }
    case Return(isFalse) => ReturnKeepsInv(o, m, isFalse);
  }

  lemma {:induction false} RunKeepsInv<F(!new), D>(o: Options, events: seq<Event<F, D>>)
    requires ValidRun(o, events)
    ensures Inv(Run(o, events))
  {
    if events != [] {
      var before, last := events[..|events| - 1], events[|events| - 1];
      RunKeepsInv(o, before);
      StepKeepsInv(o, Run(o, before), last);
    }
  }

  // ---------- what it means ----------

  /**
   Re-entrant iteration: in any run, when a fire's loop is over, an addition it was about that was not removed was
   called by it exactly if it was not missed; the calls went in list order, each addition at most once; and nothing is
   missed unless a callback emptied the list.
   */
  lemma EveryEligibleCallbackHadItsTurn<F(!new), D>(o: Options, events: seq<Event<F, D>>)
    requires ValidRun(o, events)
    requires var m := Run(o, events); m.cb.firing && !m.calling && Current(m.cb).None?
    ensures var m := Run(o, events);
            && IncreasingNats(m.called)
            && (forall n :: n in m.called ==> n in m.eligible)
            && (forall n :: n in m.eligible && n !in m.gone ==> (n in m.called <==> n !in m.missed))
            && (!m.emptied ==> m.missed == {})
  {
    RunKeepsInv(o, events);
    assert Pending(Run(o, events).cb, false) == [];
  }

  /** The callback about to be called is in the list, was not called by this fire yet and was never removed. */
  lemma NoCallAfterRemoval<F(!new), D>(o: Options, events: seq<Event<F, D>>)
    requires ValidRun(o, events)
    requires var m := Run(o, events); m.cb.firing && !m.calling && Current(m.cb).Some?
    ensures var m := Run(o, events);
            var it := Current(m.cb).value;
            && it in ListOf(m.cb) && it.occ in m.eligible
            && it.occ !in m.gone && forall n :: n in m.called ==> n < it.occ
  {
    RunKeepsInv(o, events);
    CallSplitsPending(Run(o, events).cb);
  }

  lemma {:induction false} PrefixOfRun<F(!new), D>(o: Options, events: seq<Event<F, D>>, k: nat)
    requires ValidRun(o, events) && k <= |events|
    ensures ValidRun(o, events[..k])
    decreases |events|
  {
    if k < |events| {
      PrefixOfRun(o, events[..|events| - 1], k);
      assert events[..|events| - 1][..k] == events[..k];
    } else {
      assert events[..k] == events;
    }
  }

  lemma GoneGrows<F(!new), D>(o: Options, m: M<F, D>, e: Event<F, D>)
    ensures m.gone <= Step(o, m, e).gone
  {
  }

  /** Removal is final: an addition once removed stays removed. */
  lemma {:induction false} GoneForGood<F(!new), D>(o: Options, events: seq<Event<F, D>>, k: nat)
    requires ValidRun(o, events) && k <= |events|
    ensures ValidRun(o, events[..k]) && Run(o, events[..k]).gone <= Run(o, events).gone
    decreases |events|
  {
    if k < |events| {
      GoneForGood(o, events[..|events| - 1], k);
      GoneGrows(o, Run(o, events[..|events| - 1]), events[|events| - 1]);
      assert events[..|events| - 1][..k] == events[..k];
    } else {
      assert events[..k] == events;
    }
  }

  /** Nothing in the list is for that function. */
  ghost predicate Absent<F(!new), D>(s: CB<F, D>, fn: F) {
    forall it :: it in ListOf(s) ==> it.fn != fn
  }

  lemma {:induction false} AppendedAreNamed<F(!new)>(o: Options, items: seq<Item<F>>, fns: seq<F>, next: nat)
    ensures forall it :: it in Appended(o, items, fns, next) ==> it.fn in fns
    decreases |fns|
  {
    if fns != [] {
      if o.unique && Has(items, fns[0]) {
        AppendedAreNamed(o, items, fns[1..], next);
      } else {
        AppendedAreNamed(o, items + [Item(fns[0], next)], fns[1..], next + 1);
      }
    }
  }

  lemma StepKeepsAbsent<F(!new), D>(o: Options, m: M<F, D>, e: Event<F, D>, fn: F)
    requires Absent(m.cb, fn) && (e.Add? ==> fn !in e.fns)
    ensures Absent(Step(o, m, e).cb, fn)
  {
    if !e.Add? {
      OthersOnlyTake(o, m, e);
    } else if m.cb.list.Some? {
      AppendedAreNamed(o, m.cb.list.value, e.fns, m.cb.next);
    }
  }

  /** Once removed, a function is not in the list, and so not called, until it is added again. */
  lemma {:induction false} RemovedIsNotCalled<F(!new), D>(o: Options, events: seq<Event<F, D>>, k: nat, fn: F)
    requires ValidRun(o, events) && k < |events| && events[k].Remove? && fn in events[k].fns
    requires forall j :: k < j < |events| && events[j].Add? ==> fn !in events[j].fns
    ensures Absent(Run(o, events).cb, fn)
    ensures Current(Run(o, events).cb).Some? ==> Current(Run(o, events).cb).value.fn != fn
    decreases |events|
  {
    var before, last := events[..|events| - 1], events[|events| - 1];
    if k < |before| {
      RemovedIsNotCalled(o, before, k, fn);
      StepKeepsAbsent(o, Run(o, before), last, fn);
    } else {
      RemovedIsAbsent(Run(o, before).cb, last.fns, fn);
    }
    AbsentIsNotCalled(Run(o, events).cb, fn);
  }

  lemma RemovedIsAbsent<F(!new), D>(s: CB<F, D>, fns: seq<F>, fn: F)
    requires fn in fns
    ensures Absent(Removed(s, fns), fn)
  {
    if s.list.Some? {
      RemovedIs(s, fns);
    } else {
      RemovedFromNothing(s, fns);
    }
  }

  lemma AbsentIsNotCalled<F(!new), D>(s: CB<F, D>, fn: F)
    requires Absent(s, fn)
    ensures Current(s).Some? ==> Current(s).value.fn != fn
  {
    if Current(s).Some? {
      assert Current(s).value in ListOf(s);
    }
  }

  /** What a removal takes out of a loop in progress: of what was still to come, just the named functions. */
  lemma {:induction false} RemovalKeepsPlace<F(!new), D>(s: CB<F, D>, fns: seq<F>, emptied: bool)
    requires s.firing && s.list.Some? && FiringOk(s, true, emptied)
    ensures Pending(Removed(s, fns), true) == Rest(Pending(s, true), fns)
    decreases |fns|
  {
    if fns == [] {
      RestOfNothing(Pending(s, true));
    } else {
      RemoveOneKeepsPlace(s, fns[0], emptied);
      RemovalKeepsPlace(Removed1(s, fns[0]), fns[1..], emptied);
      RestOfWithout(Pending(s, true), fns);
    }
  }

  /**
   Accepted fires start in the order they were issued, those behind them wait in the queue; when the list is idle all
   have started, except what disable and lock took out of the queue, after which no other fire was accepted.
   */
  lemma FiresAreFifo<F(!new), D>(o: Options, events: seq<Event<F, D>>)
    requires ValidRun(o, events)
    ensures var m := Run(o, events);
            && m.begun <= m.accepted && (!m.cb.firing ==> m.accepted == m.begun + m.dropped)
            && (m.dropped != [] ==> !Accepts(m.cb))
  {
    RunKeepsInv(o, events);
    var m := Run(o, events);
    StartedFirst(m.accepted, m.begun, QueueOf(m.cb), m.dropped);
  }

  lemma StartedFirst<D>(accepted: seq<D>, begun: seq<D>, queue: seq<D>, dropped: seq<D>)
    requires accepted == begun + queue + dropped
    ensures begun <= accepted && (queue == [] ==> accepted == begun + dropped)
  {
    assert accepted == begun + (queue + dropped);
  }

  // ---------- which fires are taken, and what they call with ----------

  /** The arguments of all fires a run asks for. */
  function AllFires<F, D>(events: seq<Event<F, D>>): seq<D> {
    if events == [] then []
    else
      var last := events[|events| - 1];
      AllFires(events[..|events| - 1]) + (if last.Fire? then [last.d] else [])
  }

  /** A list that nobody disabled or locked. */
  ghost predicate Live<F(!new), D>(o: Options, m: M<F, D>) {
    && (if o.once then m.cb.stack.None? && (!m.cb.fired ==> m.cb.list.Some?)
        else m.cb.stack.Some? && m.cb.list.Some?)
    && (m.cb.memory.Some? ==> m.cb.fired) && (m.cb.fired <==> m.accepted != [])
  }

  lemma StepKeepsLive<F(!new), D>(o: Options, m: M<F, D>, e: Event<F, D>)
    requires Inv(m) && Enabled(m, e) && Live(o, m) && !e.Disable? && !e.Lock?
    ensures Live(o, Step(o, m, e))
    ensures Step(o, m, e).accepted
         == m.accepted + (if e.Fire? && (o.once ==> m.accepted == []) then [e.d] else [])
  {
    match e
    case Remove(fns) => RemovedKeepsRest(m.cb, fns);
    case Advance => FinishKeepsLive(o, m, m.cb);
    case Return(isFalse) => FinishKeepsLive(o, m, m.cb.(memory := None));
    case _ =>
  }

  lemma {:induction false} RemovedKeepsRest<F(!new), D>(s: CB<F, D>, fns: seq<F>)
    ensures var s' := Removed(s, fns);
            s' == s.(list := s'.list, length := s'.length, index := s'.index) && s'.list.Some? == s.list.Some?
    decreases |fns|
  {
    if fns != [] {
      RemovedKeepsRest(Removed1(s, fns[0]), fns[1..]);
    }
  }

  lemma FinishKeepsLive<F(!new), D>(o: Options, m: M<F, D>, s: CB<F, D>)
    requires Live(o, m) && m.cb.fired && s == m.cb.(memory := s.memory)
    ensures Live(o, Ended(m, Finish(o, s))) && Ended(m, Finish(o, s)).accepted == m.accepted
  {
  }

  /** A list nobody disables or locks takes every fire, a once list the first one. */
  lemma {:induction false} FiresAreTaken<F(!new), D>(o: Options, events: seq<Event<F, D>>)
    requires ValidRun(o, events) && forall i :: 0 <= i < |events| ==> !events[i].Disable? && !events[i].Lock?
    ensures Live(o, Run(o, events))
    ensures var fires := AllFires(events);
            Run(o, events).accepted == if o.once && fires != [] then [fires[0]] else fires
  {
    if events != [] {
      var before, last := events[..|events| - 1], events[|events| - 1];
      FiresAreTaken(o, before);
      RunKeepsInv(o, before);
      StepKeepsLive(o, Run(o, before), last);
    }
  }

  /** The fire in progress, and what a memory list remembers, have the arguments of the fire begun last. */
  ghost predicate DataOk<F(!new), D>(m: M<F, D>) {
    && (m.cb.firing ==> m.begun != [] && m.cb.data == Some(m.begun[|m.begun| - 1]))
    && (m.cb.memory.Some? ==> m.begun != [] && m.cb.memory == Some(m.begun[|m.begun| - 1]))
  }

  lemma StepKeepsData<F(!new), D>(o: Options, m: M<F, D>, e: Event<F, D>)
    requires Inv(m) && Enabled(m, e) && DataOk(m)
    ensures DataOk(Step(o, m, e))
  {
    match e
    case Remove(fns) => RemovedKeepsRest(m.cb, fns);
    case Advance =>
      if Current(m.cb).None? {
        FinishKeepsData(o, m, m.cb);
      }
    case Return(isFalse) =>
      if isFalse && o.stopOnFalse {
        FinishKeepsData(o, m, m.cb.(memory := None));
      }
    case _ =>
  }

  lemma FinishKeepsData<F(!new), D>(o: Options, m: M<F, D>, s: CB<F, D>)
    requires DataOk(m) && s == m.cb.(memory := s.memory) && (s.memory.Some? ==> s.memory == m.cb.memory)
    ensures DataOk(Ended(m, Finish(o, s)))
  {
  }

  /** Every callback is called with the arguments of the fire begun last; those are in issue order by FiresAreFifo. */
  lemma {:induction false} CalledWithLastBegun<F(!new), D>(o: Options, events: seq<Event<F, D>>)
    requires ValidRun(o, events)
    ensures DataOk(Run(o, events))
  {
    if events != [] {
      CalledWithLastBegun(o, events[..|events| - 1]);
      RunKeepsInv(o, events[..|events| - 1]);
      StepKeepsData(o, Run(o, events[..|events| - 1]), events[|events| - 1]);
    }
  }

  /** What a once list without memory is, as long as nobody empties it: used up after its fire, and then disabled. */
  ghost predicate UsedUp<F(!new), D>(s: CB<F, D>) {
    s.stack.None? && s.memory.None? && (s.fired && !s.firing ==> s.list.None?)
  }

  lemma StepKeepsUsedUp<F(!new), D>(o: Options, m: M<F, D>, e: Event<F, D>)
    requires Inv(m) && Enabled(m, e) && o.once && !o.memory && UsedUp(m.cb) && !e.Empty?
    ensures UsedUp(Step(o, m, e).cb)
  {
    if e.Remove? {
      RemovedKeepsRest(m.cb, e.fns);
    }
  }

  /** A once list without memory that has been fired is disabled when its fire is over. */
  lemma {:induction false} OnceListIsDisabled<F(!new), D>(o: Options, events: seq<Event<F, D>>)
    requires ValidRun(o, events) && o.once && !o.memory && forall i :: 0 <= i < |events| ==> !events[i].Empty?
    ensures UsedUp(Run(o, events).cb)
  {
    if events != [] {
      OnceListIsDisabled(o, events[..|events| - 1]);
      RunKeepsInv(o, events[..|events| - 1]);
      StepKeepsUsedUp(o, Run(o, events[..|events| - 1]), events[|events| - 1]);
    }
  }

  /** A fire that begins at once is about the whole list. */
  lemma FireCoversList<F(!new), D>(o: Options, m: M<F, D>, d: D)
    requires Inv(m) && !m.cb.firing && Accepts(m.cb)
    ensures var m' := Step(o, m, Event<F, D>.Fire(d));
            Pending(m'.cb, false) == ListOf(m.cb) && m'.eligible == Occs(ListOf(m.cb)) && m'.cb.data == Some(d)
  {
  }

  /** And so is one that was waiting when the fire before it ended. */
  lemma NextCoversList<F(!new), D>(o: Options, m: M<F, D>)
    requires Inv(m) && Enabled(m, Event<F, D>.Advance) && Current(m.cb).None? && m.cb.list.Some? && QueueOf(m.cb) != []
    ensures var m' := Step(o, m, Event<F, D>.Advance);
            && Pending(m'.cb, false) == ListOf(m.cb) && m'.eligible == Occs(ListOf(m.cb))
            && m'.cb.data == Some(QueueOf(m.cb)[0])
  {
  }

  /** Adding to an idle list that remembers a fire calls just the new entries, with the remembered arguments. */
  lemma AddReplaysNewOnes<F(!new), D>(o: Options, s: CB<F, D>, fns: seq<F>)
    requires s.list.Some? && !s.firing && s.memory.Some?
    ensures var s', more := Added(o, s, fns), Appended(o, s.list.value, fns, s.next);
            && s'.firing && s'.data == s.memory && s'.list == Some(s.list.value + more)
            && Pending(s', false) == more
  {
    var more := Appended(o, s.list.value, fns, s.next);
    assert (s.list.value + more)[|s.list.value|..] == more;
  }

  /** No two entries are for one function. */
  ghost predicate OneEach<F(!new)>(items: seq<Item<F>>) {
    forall x, y :: x in items && y in items && x.fn == y.fn ==> x == y
  }

  lemma AddKeepsOneEach<F(!new)>(o: Options, items: seq<Item<F>>, fns: seq<F>, next: nat)
    requires o.unique && OneEach(items)
    ensures OneEach(items + Appended(o, items, fns, next))
  {
    var more := Appended(o, items, fns, next);
    NewOnesAreAppended(o, items, fns, next);
    forall x, y | x in items && y in more ensures x.fn != y.fn {
      var i :| 0 <= i < |items| && items[i] == x;
      var j :| 0 <= j < |more| && more[j] == y;
      assert Has(items, x.fn) && Has(more, y.fn);
    }
    forall x, y | x in more && y in more && x.fn == y.fn ensures x == y {
      var i :| 0 <= i < |more| && more[i] == x;
      var j :| 0 <= j < |more| && more[j] == y;
    }
  }

  /** A unique list holds every function at most once in every run. */
  lemma {:induction false} UniqueHoldsOneEach<F(!new), D>(o: Options, events: seq<Event<F, D>>)
    requires ValidRun(o, events) && o.unique
    ensures OneEach(ListOf(Run(o, events).cb))
  {
    if events != [] {
      var before, last := events[..|events| - 1], events[|events| - 1];
      var m := Run(o, before);
      UniqueHoldsOneEach(o, before);
      if last.Add? && m.cb.list.Some? {
        AddKeepsOneEach(o, m.cb.list.value, last.fns, m.cb.next);
        AddedList(o, m, last.fns);
      } else if !last.Add? {
        OthersOnlyTake(o, m, last);
      }
    }
  }

  lemma AddedList<F(!new), D>(o: Options, m: M<F, D>, fns: seq<F>)
    requires m.cb.list.Some?
    ensures Step(o, m, Add(fns)).cb.next == m.cb.next + |Appended(o, m.cb.list.value, fns, m.cb.next)|
    ensures ListOf(Step(o, m, Add(fns)).cb) == m.cb.list.value + Appended(o, m.cb.list.value, fns, m.cb.next)
  {
  }

  // ---------- what ends a fire early ----------

  /** Nothing in the list was added before the n-th addition. */
  ghost predicate AllSince<F(!new), D>(m: M<F, D>, n: nat) {
    n <= m.cb.next && forall it :: it in ListOf(m.cb) ==> n <= it.occ
  }

  lemma {:induction false} RemovedSubset<F(!new), D>(s: CB<F, D>, fns: seq<F>)
    ensures Removed(s, fns).next == s.next && forall it :: it in ListOf(Removed(s, fns)) ==> it in ListOf(s)
    decreases |fns|
  {
    if fns != [] {
      RemovedSubset(Removed1(s, fns[0]), fns[1..]);
      if s.list.Some? {
        WithoutMembers(s.list.value, fns[0]);
      }
    }
  }

  lemma AddSince<F(!new), D>(o: Options, m: M<F, D>, fns: seq<F>, n: nat)
    requires AllSince(m, n)
    ensures AllSince(Step(o, m, Add(fns)), n)
  {
    if m.cb.list.Some? {
      AppendedIncreases(o, m.cb.list.value, fns, m.cb.next);
      AddedList(o, m, fns);
      SinceConcat(m.cb.list.value, Appended(o, m.cb.list.value, fns, m.cb.next), n);
    }
  }

  lemma SinceConcat<F(!new)>(items: seq<Item<F>>, more: seq<Item<F>>, n: nat)
    requires (forall it :: it in items ==> n <= it.occ) && forall it :: it in more ==> n <= it.occ
    ensures forall it :: it in items + more ==> n <= it.occ
  {
  }

  /** All other steps keep the list, or take entries out of it. */
  lemma OthersOnlyTake<F(!new), D>(o: Options, m: M<F, D>, e: Event<F, D>)
    requires !e.Add?
    ensures Step(o, m, e).cb.next == m.cb.next && forall it :: it in ListOf(Step(o, m, e).cb) ==> it in ListOf(m.cb)
  {
    match e
    case Remove(fns) => RemovedSubset(m.cb, fns);
    case Advance => EndOnlyTakes(o, m.cb);
    case Return(_) => EndOnlyTakes(o, m.cb.(memory := None));
    case _ =>
  }

  lemma EndOnlyTakes<F(!new), D>(o: Options, s: CB<F, D>)
    ensures Finish(o, s).next == s.next && (ListOf(Finish(o, s)) == ListOf(s) || ListOf(Finish(o, s)) == [])
  {
  }

  lemma StepSince<F(!new), D>(o: Options, m: M<F, D>, e: Event<F, D>, n: nat)
    requires AllSince(m, n)
    ensures AllSince(Step(o, m, e), n)
  {
    if e.Add? {
      AddSince(o, m, e.fns, n);
    } else {
      OthersOnlyTake(o, m, e);
    }
  }

  /**
   Emptying or disabling a list ends what its callbacks had to expect: none of the additions made so far is called
   again.
   */
  lemma {:induction false} EmptyEndsTheBatch<F(!new), D>(o: Options, events: seq<Event<F, D>>, k: nat)
    requires ValidRun(o, events) && k < |events| && (events[k].Empty? || events[k].Disable?)
    ensures ValidRun(o, events[..k])
    ensures AllSince(Run(o, events), Run(o, events[..k]).cb.next)
    ensures Current(Run(o, events).cb).Some? ==> Current(Run(o, events).cb).value.occ >= Run(o, events[..k]).cb.next
    decreases |events|
  {
    PrefixOfRun(o, events, k);
    var before, last := events[..|events| - 1], events[|events| - 1];
    if k < |before| {
      assert before[..k] == events[..k];
      EmptyEndsTheBatch(o, before, k);
      StepSince(o, Run(o, before), last, Run(o, events[..k]).cb.next);
    } else {
      assert before == events[..k];
    }
  }

  /** No fire is in progress and adding starts none. */
  ghost predicate Quiet<F(!new), D>(m: M<F, D>) {
    !m.cb.firing && m.cb.memory.None?
  }

  lemma {:induction false} RemovedQuiet<F(!new), D>(s: CB<F, D>, fns: seq<F>)
    ensures Removed(s, fns).firing == s.firing && Removed(s, fns).memory == s.memory
    decreases |fns|
  {
    if fns != [] {
      RemovedQuiet(Removed1(s, fns[0]), fns[1..]);
    }
  }

  lemma StepQuiet<F(!new), D>(o: Options, m: M<F, D>, e: Event<F, D>)
    requires Inv(m) && Quiet(m) && Enabled(m, e) && !e.Fire?
    ensures Quiet(Step(o, m, e))
  {
    if e.Remove? {
      RemovedQuiet(m.cb, e.fns);
    }
  }

  lemma StopStep<F(!new), D>(o: Options, m: M<F, D>)
    requires Inv(m) && m.calling && o.stopOnFalse
    ensures StopsWith(m, Step(o, m, Event<F, D>.Return(true)))
  {
  }

  /**
   The fire of m has ended: the next queued one has begun, with nothing called yet, or there is none and the list is
   quiet.
   */
  ghost predicate StopsWith<F(!new), D>(m: M<F, D>, m': M<F, D>) {
    if QueueOf(m.cb) != [] && m.cb.list.Some?
    then m'.cb.firing && m'.called == [] && m'.begun == m.begun + [QueueOf(m.cb)[0]]
    else Quiet(m')
  }

  lemma {:induction false} QuietUntilFired<F(!new), D>(o: Options, events: seq<Event<F, D>>, k: nat)
    requires ValidRun(o, events) && k <= |events| && ValidRun(o, events[..k]) && Quiet(Run(o, events[..k]))
    requires forall j :: k <= j < |events| ==> !events[j].Fire?
    ensures Quiet(Run(o, events))
    decreases |events|
  {
    if k < |events| {
      var before, last := events[..|events| - 1], events[|events| - 1];
      assert before[..k] == events[..k];
      QuietUntilFired(o, before, k);
      RunKeepsInv(o, before);
      StepQuiet(o, Run(o, before), last);
    } else {
      assert events[..k] == events;
    }
  }

  /**
   A callback of a stopOnFalse list that returns false ends its fire: either the next queued fire begins at once, with
   nothing called yet, or nothing at all is called until another fire is accepted, whatever is added meanwhile.
   */
  lemma FalseEndsTheFire<F(!new), D>(o: Options, events: seq<Event<F, D>>, k: nat)
    requires ValidRun(o, events) && o.stopOnFalse && k < |events| && events[k] == Event<F, D>.Return(true)
    ensures ValidRun(o, events[..k]) && ValidRun(o, events[..k + 1])
    ensures StopsWith(Run(o, events[..k]), Run(o, events[..k + 1]))
    ensures Quiet(Run(o, events[..k + 1])) && (forall j :: k < j < |events| ==> !events[j].Fire?) ==>
           Quiet(Run(o, events))
  {
    PrefixOfRun(o, events, k);
    PrefixOfRun(o, events, k + 1);
    assert events[..k + 1][..k] == events[..k];
    RunKeepsInv(o, events[..k]);
    StopStep(o, Run(o, events[..k]));
    if Quiet(Run(o, events[..k + 1])) && (forall j :: k < j < |events| ==> !events[j].Fire?) {
      QuietUntilFired(o, events, k + 1);
    }
  }

  // ---------- what is missed after emptying ----------

  const PLAIN := Options(false, false, false, false)

  /** A list whose only function a was added and is being called by fire 0. */
  function CallingOne(a: nat): M<nat, nat> {
    M(CB(Some([Item(a, 0)]), Some([]), None, true, true, 0, 1, 0, Some(0), 1), true, {0}, [0], {}, false, {}, [0], [0],
      [])
  }

  /** The same after the callback has emptied the list. */
  function EmptiedInCall(): M<nat, nat> {
    M(CB(Some([]), Some([]), None, true, true, 0, 0, 0, Some(0), 1), true, {0}, [0], {}, true, {0}, [0], [0], [])
  }

  lemma ReachCalling(a: nat)
    ensures var events: seq<Event<nat, nat>> := [] + [Event.Add([a])] + [Event.Fire(0)] + [Advance];
            ValidRun(PLAIN, events) && Run(PLAIN, events) == CallingOne(a)
  {
    var m0: M<nat, nat> := Start(PLAIN);
    var m1 := Step(PLAIN, m0, Event.Add([a]));
    var m2 := Step(PLAIN, m1, Event.Fire(0));
    AppendedOne([], a, 0);
    assert m1.cb == CB(Some([Item(a, 0)]), Some([]), None, false, false, 0, 0, 0, None, 1);
    assert Pending(m2.cb, false) == [Item(a, 0)] && Occs([Item(a, 0)]) == {0};
    OneMore([], m0, Event.Add([a]));
    OneMore([] + [Event.Add([a])], m1, Event.Fire(0));
    OneMore([] + [Event.Add([a])] + [Event.Fire(0)], m2, Advance);
  }

  lemma AppendedOne(items: seq<Item<nat>>, fn: nat, next: nat)
    ensures Appended(PLAIN, items, [fn], next) == [Item(fn, next)]
  {
    assert [fn][1..] == [];
  }

  lemma AppendedTwo(b: nat, c: nat)
    ensures Appended(PLAIN, [], [b, c], 1) == [Item(b, 1), Item(c, 2)]
  {
    assert [b, c][1..] == [c];
    AppendedOne([] + [Item(b, 1)], c, 2);
  }

  lemma EmptyingEmpties(a: nat)
    ensures Step(PLAIN, CallingOne(a), Event<nat, nat>.Empty) == EmptiedInCall()
  {
    assert Occs([Item(a, 0)]) == {0};
  }

  lemma AddedToEmptied(b: nat, c: nat)
    ensures var cb := Added(PLAIN, EmptiedInCall().cb, [b, c]);
            cb.list == Some([Item(b, 1), Item(c, 2)]) && cb.index == 0 && cb.length == 2
  {
    AppendedTwo(b, c);
    assert [] + [Item(b, 1), Item(c, 2)] == [Item(b, 1), Item(c, 2)];
  }

  lemma PassedOne(cb: CB<nat, nat>, b: nat, c: nat)
    requires cb.list == Some([Item(b, 1), Item(c, 2)]) && cb.index == 0
    ensures Occs(Passed(cb, 0)) == {1} && Pending(cb, true) == [Item(c, 2)]
  {
    assert Passed(cb, 0) == [Item(b, 1)];
  }

  lemma AddingMisses(b: nat, c: nat)
    ensures var m := Step(PLAIN, EmptiedInCall(), Event<nat, nat>.Add([b, c]));
            m.missed == {1} && Pending(m.cb, true) == [Item(c, 2)]
  {
    AddedToEmptied(b, c);
    PassedOne(Added(PLAIN, EmptiedInCall().cb, [b, c]), b, c);
  }

  /**
   A callback that empties the list at index 0 and adds two functions: the first of them is never called by that fire.
   */
  lemma EmptyThenAddMisses(a: nat, b: nat, c: nat)
    ensures var called: seq<Event<nat, nat>> := [] + [Event.Add([a])] + [Event.Fire(0)] + [Advance];
            var events := called + [Event.Empty] + [Event.Add([b, c])];
            && ValidRun(PLAIN, events) && Run(PLAIN, events).missed == {1}
            && Pending(Run(PLAIN, events).cb, true) == [Item(c, 2)]
  {
    var called: seq<Event<nat, nat>> := [] + [Event.Add([a])] + [Event.Fire(0)] + [Advance];
    ReachCalling(a);
    EmptyingEmpties(a);
    AddingMisses(b, c);
    OneMore(called, CallingOne(a), Event.Empty);
    OneMore(called + [Event.Empty], EmptiedInCall(), Event.Add([b, c]));
  }

  lemma OneMore(events: seq<Event<nat, nat>>, m: M<nat, nat>, e: Event<nat, nat>)
    requires ValidRun(PLAIN, events) && Run(PLAIN, events) == m && Enabled(m, e)
    ensures ValidRun(PLAIN, events + [e]) && Run(PLAIN, events + [e]) == Step(PLAIN, m, e)
  {
    assert (events + [e])[..|events|] == events;
  }
}
