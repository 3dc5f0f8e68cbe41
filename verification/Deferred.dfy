/**
 jQuery.Deferred (jquery-1.11.1.js): three callback lists wired together, driven by any sequence of resolve, reject,
 notify, done, fail and progress calls, made from outside or from inside callbacks. Fires nest: a callback of one list
 may start another list's fire, which runs to its end before the callback goes on.
 */
module Deferred {
  import opened Wrappers
  import opened CallbackList
  import opened CallbackRuns

  /** The functions on the lists: the three that Deferred itself puts on the resolve and reject lists, and users'. */
  datatype Fn = SetState | DisableOther | LockProgress | User(id: nat)

  datatype Status = Undecided | Resolved | Rejected

  /** One user callback run. */
  datatype Call<D> = Call(item: Item<Fn>, data: Option<D>)

  const DONE := 0
  const FAIL := 1
  const PROGRESS := 2

  /**
   The lists by number, the lists whose fire is in progress (innermost last) and whether a user callback of the
   innermost one has control. added and calls are history: the user callbacks each list took, and the ones it ran.
   */
  datatype Def<D> = Def(state: Status, lists: seq<CB<Fn, D>>, frames: seq<nat>, calling: bool,
                        added: seq<seq<Item<Fn>>>, calls: seq<seq<Call<D>>>)

  datatype Event<D> =
    | FireOn(w: nat, d: D)           // resolve, reject or notify
    | AddTo(w: nat, ids: seq<nat>)   // done, fail or progress
    | Turn                           // the innermost firing loop takes its next turn
    | Back                           // the running user callback returns

  function OptionsOf(w: nat): Options {
    if w < PROGRESS then Options(true, true, false, false) else Options(false, true, false, false)
  }

  const OWN: seq<Item<Fn>> := [Item(SetState, 0), Item(DisableOther, 1), Item(LockProgress, 2)]

  function Users(ids: seq<nat>): seq<Fn> {
    seq(|ids|, i requires 0 <= i < |ids| => User(ids[i]))
  }

  function Start<D>(): Def<D> {
    var own := Added(OptionsOf(DONE), Fresh(OptionsOf(DONE)), [SetState, DisableOther, LockProgress]);
    Def(Undecided, [own, own, Fresh(OptionsOf(PROGRESS))], [], false, [[], [], []], [[], [], []])
  }

  function Top<D>(m: Def<D>): nat
    requires m.frames != []
  {
    m.frames[|m.frames| - 1]
  }

  predicate Shape<D>(m: Def<D>) {
    && |m.lists| == |m.added| == |m.calls| == 3
    && (forall i :: 0 <= i < |m.frames| ==> m.frames[i] < 3)
    && (m.calling ==> m.frames != [])
  }

  predicate Enabled<D>(m: Def<D>, e: Event<D>) {
    match e
    case FireOn(w, _) => w < 3 && (m.frames != [] ==> m.calling)
    case AddTo(w, _) => w < 3 && (m.frames != [] ==> m.calling)
    case Turn => m.frames != [] && !m.calling
    case Back => m.calling
  }

  /** List w changed; if that began a fire, it is now the innermost one. */
  function Update<D>(m: Def<D>, w: nat, cb: CB<Fn, D>): Def<D>
    requires w < |m.lists|
  {
    if cb.firing && !m.lists[w].firing
    then m.(lists := m.lists[w := cb], frames := m.frames + [w], calling := false)
    else m.(lists := m.lists[w := cb])
  }

  function SettledBy(w: nat): Status {
    if w == DONE then Resolved else Rejected
  }

  /** A turn of the innermost loop: run one of Deferred's own functions, hand control to a user's, or end the fire. */
  function TurnStep<D>(m: Def<D>): (m': Def<D>)
    requires Shape(m) && m.frames != []
    ensures Shape(m')
  {
    var w := Top(m);
    var cb, o := m.lists[w], OptionsOf(w);
    match Current(cb)
    case None =>
      var cb' := Finish(o, cb);
      if cb'.firing then m.(lists := m.lists[w := cb'])
      else
        var frames := m.frames[..|m.frames| - 1];
        m.(lists := m.lists[w := cb'], frames := frames, calling := frames != [])
    case Some(it) =>
      match it.fn
      case User(_) =>
        m.(calling := true, calls := m.calls[w := m.calls[w] + [Call(it, cb.data)]])
      case SetState => m.(state := SettledBy(w), lists := m.lists[w := Returned(o, cb, false)])
      case DisableOther =>
        var loser := if w == DONE then FAIL else DONE;
        m.(lists := m.lists[loser := Disabled(m.lists[loser])][w := Returned(o, cb, false)])
      case LockProgress =>
        m.(lists := m.lists[PROGRESS := Locked(m.lists[PROGRESS])][w := Returned(o, cb, false)])
  }

  function Step<D>(m: Def<D>, e: Event<D>): (m': Def<D>)
    requires Shape(m) && Enabled(m, e)
    ensures Shape(m')
  {
    match e
    case FireOn(w, d) => Update(m, w, FiredWith(OptionsOf(w), m.lists[w], d))
    case AddTo(w, ids) =>
      var cb := Added(OptionsOf(w), m.lists[w], Users(ids));
      var taken := if m.lists[w].list.Some?
          then Appended(OptionsOf(w), m.lists[w].list.value, Users(ids), m.lists[w].next) else [];
      Update(m, w, cb).(added := m.added[w := m.added[w] + taken])
    case Turn => TurnStep(m)
    case Back =>
      m.(lists := m.lists[Top(m) := Returned(OptionsOf(Top(m)), m.lists[Top(m)], false)], calling := false)
  }

  ghost predicate ValidRun<D>(events: seq<Event<D>>)
    decreases |events|, 0
  {
    events == [] ||
    (ValidRun(events[..|events| - 1]) && Enabled(Run(events[..|events| - 1]), events[|events| - 1]))
  }

  ghost function Run<D>(events: seq<Event<D>>): (m: Def<D>)
    requires ValidRun(events)
    ensures Shape(m)
    decreases |events|, 1
  {
    if events == [] then Start()
    else Step(Run(events[..|events| - 1]), events[|events| - 1])
  }

  /** The first resolve or reject call of a run, and its arguments. */
  function FirstSettlement<D>(events: seq<Event<D>>): Option<(nat, D)> {
    if events == [] then None
    else
      var before, last := FirstSettlement(events[..|events| - 1]), events[|events| - 1];
      if before.Some? then before
      else if last.FireOn? && last.w < PROGRESS then Some((last.w, last.d))
      else None
  }

  // ---------- the invariant ----------

  /** Whether a callback of list w has control, or had it when a nested fire began. */
  predicate InCallback<D>(m: Def<D>, w: nat) {
    w in m.frames && (m.calling || Top(m) != w)
  }

  ghost predicate AllUsers(items: seq<Item<Fn>>) {
    forall it :: it in items ==> it.fn.User?
  }

  /** A list nobody has fired: Deferred's own functions, then everything users added. */
  ghost predicate Unfired<D>(cb: CB<Fn, D>, added: seq<Item<Fn>>, calls: seq<Call<D>>) {
    && cb.list == Some(OWN + added) && !cb.fired && !cb.firing && cb.memory.None? && cb.stack.None? && cb.start == 0
    && calls == []
  }

  ghost predicate Dead<D>(cb: CB<Fn, D>, calls: seq<Call<D>>) {
    cb.list.None? && !cb.firing && calls == []
  }

  /** The winning list while it runs Deferred's own functions; k of them are done. */
  ghost predicate Settling<D>(cb: CB<Fn, D>, added: seq<Item<Fn>>, calls: seq<Call<D>>, d: D, k: nat) {
    && cb.list == Some(OWN + added) && cb.fired && cb.firing && cb.memory == Some(d) && cb.data == Some(d)
    && cb.stack.None? && cb.start == 0 && cb.length == |OWN + added| && cb.index == k
    && calls == []
  }

  /**
   The winning list afterwards: the first calls are done, all with d; the rest is what the current fire has to come.
   */
  ghost predicate Won<D>(cb: CB<Fn, D>, added: seq<Item<Fn>>, calls: seq<Call<D>>, d: D, inCallback: bool) {
    && cb.fired && cb.memory == Some(d) && cb.stack.None? && cb.start == 0 && cb.list.Some?
    && |calls| <= |added| && (forall i :: 0 <= i < |calls| ==> calls[i] == Call(added[i], Some(d)))
    && (if cb.firing then cb.data == Some(d) && LoopOk(cb, inCallback) && added[|calls|..] == Pending(cb, inCallback)
        else cb.list == Some([]) && |calls| == |added|)
  }

  ghost predicate FramesOk<D>(m: Def<D>)
    requires Shape(m)
  {
    && (forall i, j :: 0 <= i < j < |m.frames| ==> m.frames[i] != m.frames[j])
    && (forall w :: 0 <= w < 3 ==> (w in m.frames <==> m.lists[w].firing))
  }

  ghost predicate UsersOk<D>(m: Def<D>)
    requires Shape(m)
  {
    AllUsers(m.added[DONE]) && AllUsers(m.added[FAIL]) && AllUsers(ListOf(m.lists[PROGRESS]))
  }

  ghost predicate Pristine<D>(m: Def<D>, w: nat)
    requires Shape(m) && w < 3
  {
    Unfired(m.lists[w], m.added[w], m.calls[w])
  }

  ghost predicate DecidedFor<D>(m: Def<D>, w: nat, d: D)
    requires Shape(m) && w < PROGRESS
  {
    && m.state == SettledBy(w)
    && Won(m.lists[w], m.added[w], m.calls[w], d, InCallback(m, w))
    && Dead(m.lists[1 - w], m.calls[1 - w])
  }

  /** Just after the first resolve or reject: Deferred's own three functions run before anyone else gets control. */
  ghost predicate DecidingFor<D>(m: Def<D>, w: nat, d: D, k: nat)
    requires Shape(m) && w < PROGRESS
  {
    && m.frames != [] && Top(m) == w && !m.calling && k < 3
    && Settling(m.lists[w], m.added[w], m.calls[w], d, k)
    && m.state == (if k == 0 then Undecided else SettledBy(w))
    && (if k <= 1 then Pristine(m, 1 - w) else Dead(m.lists[1 - w], m.calls[1 - w]))
  }

  ghost predicate Inv<D>(m: Def<D>, first: Option<(nat, D)>)
    requires Shape(m)
  {
    && FramesOk(m) && UsersOk(m)
    && (match first
        case None => m.state == Undecided && Pristine(m, DONE) && Pristine(m, FAIL)
        case Some((w, d)) => w < PROGRESS && (DecidedFor(m, w, d) || exists k :: DecidingFor(m, w, d, k)))
  }

  // ---------- one list at a time ----------

  lemma {:induction false} TakenAreUsers(o: Options, items: seq<Item<Fn>>, ids: seq<nat>, next: nat)
    ensures AllUsers(Appended(o, items, Users(ids), next))
    decreases |ids|
  {
    if ids != [] {
      assert Users(ids)[1..] == Users(ids[1..]);
      TakenAreUsers(o, items, ids[1..], next);
      TakenAreUsers(o, items + [Item(Users(ids)[0], next)], ids[1..], next + 1);
    }
  }

  lemma AddToUnfired<D>(o: Options, cb: CB<Fn, D>, added: seq<Item<Fn>>, calls: seq<Call<D>>, fns: seq<Fn>)
    requires Unfired(cb, added, calls)
    ensures Unfired(Added(o, cb, fns), added + Appended(o, cb.list.value, fns, cb.next), calls)
  {
    var more := Appended(o, cb.list.value, fns, cb.next);
    assert OWN + added + more == OWN + (added + more);
  }

  /** The calls made so far stay a first part of the additions when more are added. */
  lemma CallsStay<D>(added: seq<Item<Fn>>, more: seq<Item<Fn>>, calls: seq<Call<D>>, d: D)
    requires |calls| <= |added| && forall i :: 0 <= i < |calls| ==> calls[i] == Call(added[i], Some(d))
    ensures forall i :: 0 <= i < |calls| ==> calls[i] == Call((added + more)[i], Some(d))
    ensures (added + more)[|calls|..] == added[|calls|..] + more
  {
  }

  /** What adding does to a list whose fire is in progress. */
  lemma AddedWhileFiring<D>(o: Options, cb: CB<Fn, D>, fns: seq<Fn>)
    requires cb.firing && cb.list.Some?
    ensures var more := Appended(o, cb.list.value, fns, cb.next);
            Added(o, cb, fns)
            == cb.(list := Some(cb.list.value + more), next := cb.next + |more|, length := |cb.list.value + more|)
  {
  }

  /** A callback added while the winning list runs goes behind everything still to come. */
  lemma AddToRunning<D>(o: Options, cb: CB<Fn, D>, added: seq<Item<Fn>>, calls: seq<Call<D>>, d: D, fns: seq<Fn>)
    requires Won(cb, added, calls, d, true) && cb.firing
    ensures var cb', more := Added(o, cb, fns), Appended(o, cb.list.value, fns, cb.next);
            cb'.firing && Won(cb', added + more, calls, d, true)
  {
    var cb', more := Added(o, cb, fns), Appended(o, cb.list.value, fns, cb.next);
    CallsStay(added, more, calls, d);
    AddedWhileFiring(o, cb, fns);
    AddedPending(o, cb, fns);
    assert (added + more)[|calls|..] == Pending(cb', true);
  }

  /** What adding does to an idle list that remembers a fire. */
  lemma AddedWhileIdle<D>(o: Options, cb: CB<Fn, D>, fns: seq<Fn>, d: D)
    requires o.memory && !cb.firing && cb.list == Some([]) && cb.memory == Some(d)
    ensures var cb', more := Added(o, cb, fns), Appended(o, [], fns, cb.next);
            && cb'.list == Some(more) && cb'.firing && cb'.fired && cb'.memory == Some(d) && cb'.data == Some(d)
            && cb'.stack == cb.stack && cb'.start == 0 && cb'.index == 0 && cb'.length == |more|
            && Pending(cb', false) == more
  {
    var more := Appended(o, [], fns, cb.next);
    assert [] + more == more && more[0..] == more;
  }

  /** A callback added to the idle winning list starts a fire of its own. */
  lemma AddToIdle<D>(o: Options, cb: CB<Fn, D>, added: seq<Item<Fn>>, calls: seq<Call<D>>, d: D, fns: seq<Fn>)
    requires o.memory && Won(cb, added, calls, d, false) && !cb.firing
    ensures var cb', more := Added(o, cb, fns), Appended(o, cb.list.value, fns, cb.next);
            cb'.firing && Won(cb', added + more, calls, d, false)
  {
    var more := Appended(o, cb.list.value, fns, cb.next);
    CallsStay(added, more, calls, d);
    AddedWhileIdle(o, cb, fns, d);
    assert added[|calls|..] == [] && [] + more == more;
  }

  lemma AddToWon<D>(o: Options, cb: CB<Fn, D>, added: seq<Item<Fn>>, calls: seq<Call<D>>, d: D, fns: seq<Fn>)
    requires o.memory && Won(cb, added, calls, d, cb.firing)
    ensures var cb', more := Added(o, cb, fns), Appended(o, cb.list.value, fns, cb.next);
            cb'.firing && Won(cb', added + more, calls, d, cb.firing)
  {
    if cb.firing {
      AddToRunning(o, cb, added, calls, d, fns);
    } else {
      AddToIdle(o, cb, added, calls, d, fns);
    }
  }

  /** The loop's next turn on the winning list: the next added callback, with the settlement's arguments, or the end. */
  lemma TurnOnWon<D>(o: Options, cb: CB<Fn, D>, added: seq<Item<Fn>>, calls: seq<Call<D>>, d: D)
    requires Won(cb, added, calls, d, false) && cb.firing && AllUsers(added)
    ensures Current(cb).None? ==> !Finish(o, cb).firing && Won(Finish(o, cb), added, calls, d, false)
    ensures Current(cb).Some? ==>
              && Current(cb).value.fn.User?
              && Won(cb, added, calls + [Call(Current(cb).value, cb.data)], d, true)
  {
    var items := cb.list.value;
    if Current(cb).Some? {
      assert Pending(cb, false) == [items[cb.index]] + items[cb.index + 1..];
      assert added[|calls|] == added[|calls|..][0] == items[cb.index];
      assert added[|calls|] in added;
      assert added[|calls| + 1..] == added[|calls|..][1..];
    } else {
      assert Pending(cb, false) == [];
      assert |added[|calls|..]| == 0;
    }
  }

  lemma BackOnWon<D>(o: Options, cb: CB<Fn, D>, added: seq<Item<Fn>>, calls: seq<Call<D>>, d: D)
    requires Won(cb, added, calls, d, true) && cb.firing
    ensures Won(Returned(o, cb, false), added, calls, d, false)
  {
    assert Pending(Returned(o, cb, false), false) == Pending(cb, true);
  }

  lemma SettlingTurn<D>(o: Options, cb: CB<Fn, D>, added: seq<Item<Fn>>, calls: seq<Call<D>>, d: D, k: nat)
    requires Settling(cb, added, calls, d, k) && k < 3
    ensures Current(cb) == Some(OWN[k])
    ensures k < 2 ==> Settling(Returned(o, cb, false), added, calls, d, k + 1)
    ensures k == 2 ==> Won(Returned(o, cb, false), added, calls, d, false) && Returned(o, cb, false).firing
  {
    assert (OWN + added)[k] == OWN[k];
    assert (OWN + added)[3..] == added && added[0..] == added;
  }

  // ---------- frames ----------

  lemma UpdateFrames<D>(m: Def<D>, w: nat, cb: CB<Fn, D>)
    requires Shape(m) && FramesOk(m) && w < 3 && (m.frames != [] ==> m.calling) && (m.lists[w].firing ==> cb.firing)
    ensures Shape(Update(m, w, cb)) && FramesOk(Update(m, w, cb))
    ensures forall v :: v < 3 && v != w ==> InCallback(Update(m, w, cb), v) == InCallback(m, v)
    ensures InCallback(m, w) == m.lists[w].firing
    ensures InCallback(Update(m, w, cb), w) == m.lists[w].firing
  {
    var m' := Update(m, w, cb);
    forall v | 0 <= v < 3 ensures v in m'.frames <==> m'.lists[v].firing {
      if cb.firing && !m.lists[w].firing {
        assert v in m'.frames <==> v in m.frames || v == w;
      }
    }
  }

  lemma PopFrames<D>(m: Def<D>, m': Def<D>)
    requires Shape(m) && Shape(m') && FramesOk(m) && m.frames != [] && !m.calling
    requires m'.frames == m.frames[..|m.frames| - 1] && m'.calling == (m'.frames != [])
    requires forall v :: 0 <= v < 3 ==> m'.lists[v].firing == (m.lists[v].firing && v != Top(m))
    ensures FramesOk(m')
    ensures forall v :: v < 3 && v != Top(m) ==> InCallback(m', v) == InCallback(m, v)
  {
    assert m.frames == m'.frames + [Top(m)];
    forall v | v in m'.frames ensures v != Top(m) {
      var i :| 0 <= i < |m'.frames| && m'.frames[i] == v;
      assert m.frames[i] == v;
    }
  }

  // ---------- every step keeps the invariant ----------

  /** While users have control nothing is half decided. */
  lemma ControlMeansDecided<D>(m: Def<D>, first: Option<(nat, D)>)
    requires Shape(m) && Inv(m, first) && (m.frames != [] ==> m.calling)
    ensures first.Some? ==> DecidedFor(m, first.value.0, first.value.1)
  {
  }

  /** From m to m' only the progress list and the frames changed, and they are in order. */
  ghost predicate ProgressMoved<D>(m: Def<D>, m': Def<D>)
    requires Shape(m) && Shape(m')
  {
    && FramesOk(m') && UsersOk(m') && m'.state == m.state
    && forall v: nat :: v < PROGRESS ==>
         m'.lists[v] == m.lists[v] && m'.added[v] == m.added[v] && m'.calls[v] == m.calls[v]
         && InCallback(m', v) == InCallback(m, v)
  }

  /** What happens on the progress list alone leaves what was decided, or that nothing was. */
  lemma OtherListsKept<D>(m: Def<D>, m': Def<D>, first: Option<(nat, D)>)
    requires Shape(m) && Shape(m') && Inv(m, first) && ProgressMoved(m, m')
    requires first.Some? ==> DecidedFor(m, first.value.0, first.value.1)
    ensures Inv(m', first)
    ensures first.Some? ==> DecidedFor(m', first.value.0, first.value.1)
  {
    if first.Some? {
      assert first.value.0 == DONE || first.value.0 == FAIL;
      assert DecidedFor(m', first.value.0, first.value.1);
    }
  }

  lemma AddBeforeDecision<D>(m: Def<D>, w: nat, ids: seq<nat>)
    requires Shape(m) && Inv(m, None) && Enabled(m, AddTo(w, ids)) && w < PROGRESS
    ensures Inv(Step(m, Event<D>.AddTo(w, ids)), None)
  {
    var o, cb := OptionsOf(w), m.lists[w];
    AddToUnfired(o, cb, m.added[w], m.calls[w], Users(ids));
    UpdateFrames(m, w, Added(o, cb, Users(ids)));
    TakenAreUsers(o, cb.list.value, ids, cb.next);
  }

  lemma AddToWinner<D>(m: Def<D>, w: nat, ids: seq<nat>, d: D)
    requires Shape(m) && Inv(m, Some((w, d))) && Enabled(m, AddTo(w, ids)) && w < PROGRESS && DecidedFor(m, w, d)
    ensures Inv(Step(m, Event<D>.AddTo(w, ids)), Some((w, d)))
    ensures DecidedFor(Step(m, Event<D>.AddTo(w, ids)), w, d)
  {
    var o, cb := OptionsOf(w), m.lists[w];
    UpdateFrames(m, w, Added(o, cb, Users(ids)));
    AddToWon(o, cb, m.added[w], m.calls[w], d, Users(ids));
    TakenAreUsers(o, cb.list.value, ids, cb.next);
    assert DecidedFor(Step(m, Event<D>.AddTo(w, ids)), w, d);
  }

  lemma AddToLoser<D>(m: Def<D>, w: nat, ids: seq<nat>, d: D)
    requires Shape(m) && Inv(m, Some((w, d))) && w < PROGRESS && DecidedFor(m, w, d) && Enabled(m, AddTo(1 - w, ids))
    ensures Step(m, Event<D>.AddTo(1 - w, ids)) == m
  {
    assert m.added[1 - w] + [] == m.added[1 - w];
    assert m.lists[1 - w := m.lists[1 - w]] == m.lists && m.added[1 - w := m.added[1 - w]] == m.added;
  }

  lemma ProgressTakes<D>(m: Def<D>, ids: seq<nat>)
    requires Shape(m) && FramesOk(m) && UsersOk(m) && Enabled(m, AddTo(PROGRESS, ids))
    ensures ProgressMoved(m, Step(m, Event<D>.AddTo(PROGRESS, ids)))
  {
    var o, cb := OptionsOf(PROGRESS), m.lists[PROGRESS];
    UpdateFrames(m, PROGRESS, Added(o, cb, Users(ids)));
    if cb.list.Some? {
      TakenAreUsers(o, cb.list.value, ids, cb.next);
    }
  }

  lemma AddToProgress<D>(m: Def<D>, ids: seq<nat>, first: Option<(nat, D)>)
    requires Shape(m) && Inv(m, first) && Enabled(m, AddTo(PROGRESS, ids))
    ensures Inv(Step(m, Event<D>.AddTo(PROGRESS, ids)), first)
    ensures var m' := Step(m, Event<D>.AddTo(PROGRESS, ids));
            first.Some? ==> DecidedFor(m', first.value.0, first.value.1)
  {
    ControlMeansDecided(m, first);
    ProgressTakes(m, ids);
    OtherListsKept(m, Step(m, Event<D>.AddTo(PROGRESS, ids)), first);
  }

  lemma AddKeepsInv<D>(m: Def<D>, w: nat, ids: seq<nat>, first: Option<(nat, D)>)
    requires Shape(m) && Inv(m, first) && Enabled(m, AddTo(w, ids))
    ensures Inv(Step(m, Event<D>.AddTo(w, ids)), first)
  {
    ControlMeansDecided(m, first);
    if w == PROGRESS {
      AddToProgress(m, ids, first);
    } else if first.None? {
      AddBeforeDecision(m, w, ids);
    } else if w == first.value.0 {
      AddToWinner(m, w, ids, first.value.1);
    } else {
      AddToLoser(m, first.value.0, ids, first.value.1);
    }
  }

  lemma FireFirst<D>(m: Def<D>, w: nat, d: D)
    requires Shape(m) && Inv(m, None) && Enabled(m, FireOn(w, d)) && w < PROGRESS
    ensures Inv(Step(m, FireOn(w, d)), Some((w, d)))
    ensures DecidingFor(Step(m, FireOn(w, d)), w, d, 0)
  {
    UpdateFrames(m, w, FiredWith(OptionsOf(w), m.lists[w], d));
    assert DecidingFor(Step(m, FireOn(w, d)), w, d, 0);
  }

  /** After the first settlement neither list takes another one. */
  lemma FireLate<D>(m: Def<D>, w: nat, d: D, w0: nat, d0: D)
    requires Shape(m) && Enabled(m, FireOn(w, d)) && w0 < PROGRESS && DecidedFor(m, w0, d0) && w < PROGRESS
    ensures Step(m, FireOn(w, d)) == m
  {
    assert m.lists[w := m.lists[w]] == m.lists;
    assert w == w0 || w == 1 - w0;
  }

  lemma FireProgress<D>(m: Def<D>, d: D, first: Option<(nat, D)>)
    requires Shape(m) && Inv(m, first) && Enabled(m, FireOn(PROGRESS, d))
    ensures Inv(Step(m, FireOn(PROGRESS, d)), first)
    ensures first.Some? ==> DecidedFor(Step(m, FireOn(PROGRESS, d)), first.value.0, first.value.1)
  {
    ControlMeansDecided(m, first);
    UpdateFrames(m, PROGRESS, FiredWith(OptionsOf(PROGRESS), m.lists[PROGRESS], d));
    OtherListsKept(m, Step(m, FireOn(PROGRESS, d)), first);
  }

  lemma FireKeepsInv<D>(m: Def<D>, w: nat, d: D, first: Option<(nat, D)>)
    requires Shape(m) && Inv(m, first) && Enabled(m, FireOn(w, d))
    ensures Inv(Step(m, FireOn(w, d)), if first.None? && w < PROGRESS then Some((w, d)) else first)
  {
    if w == PROGRESS {
      FireProgress(m, d, first);
    } else if first.None? {
      FireFirst(m, w, d);
    } else {
      ControlMeansDecided(m, first);
      FireLate(m, w, d, first.value.0, first.value.1);
    }
  }

  lemma BackFrames<D>(m: Def<D>)
    requires Shape(m) && FramesOk(m) && UsersOk(m) && m.calling
    ensures var m' := Step(m, Event<D>.Back);
            && FramesOk(m') && UsersOk(m') && m.lists[Top(m)].firing
            && (forall v :: v < 3 && v != Top(m) ==> InCallback(m', v) == InCallback(m, v))
            && InCallback(m, Top(m)) && !InCallback(m', Top(m))
  {
    assert Top(m) in m.frames;
  }

  lemma BackKeepsInv<D>(m: Def<D>, first: Option<(nat, D)>)
    requires Shape(m) && Inv(m, first) && Enabled(m, Event<D>.Back)
    ensures Inv(Step(m, Event<D>.Back), first)
    ensures first.Some? ==> DecidedFor(Step(m, Event<D>.Back), first.value.0, first.value.1)
  {
    var w, m' := Top(m), Step(m, Event<D>.Back);
    ControlMeansDecided(m, first);
    BackFrames(m);
    if first.Some? {
      if first.value.0 == w {
        BackOnWon(OptionsOf(w), m.lists[w], m.added[w], m.calls[w], first.value.1);
      }
      assert DecidedFor(m', first.value.0, first.value.1);
    }
  }

  /** A turn of the resolve or reject list's own functions. */
  lemma DecidingTurn<D>(m: Def<D>, w: nat, d: D, k: nat)
    requires Shape(m) && Inv(m, Some((w, d))) && w < PROGRESS && DecidingFor(m, w, d, k)
    ensures Inv(Step(m, Event<D>.Turn), Some((w, d)))
    ensures k < 2 ==> DecidingFor(Step(m, Event<D>.Turn), w, d, k + 1)
    ensures k == 2 ==> DecidedFor(Step(m, Event<D>.Turn), w, d)
  {
    var m', o := Step(m, Event<D>.Turn), OptionsOf(w);
    SettlingTurn(o, m.lists[w], m.added[w], m.calls[w], d, k);
    assert w in m.frames;
    if k < 2 {
      assert DecidingFor(m', w, d, k + 1);
    } else {
      assert !InCallback(m', w);
      assert DecidedFor(m', w, d);
    }
  }

  lemma DecidedTurn<D>(m: Def<D>, w: nat, d: D)
    requires Shape(m) && Inv(m, Some((w, d))) && w < PROGRESS && DecidedFor(m, w, d)
    requires m.frames != [] && !m.calling && Top(m) == w
    ensures Inv(Step(m, Event<D>.Turn), Some((w, d)))
    ensures DecidedFor(Step(m, Event<D>.Turn), w, d)
  {
    var m', o, cb := Step(m, Event<D>.Turn), OptionsOf(w), m.lists[w];
    assert w in m.frames && !InCallback(m, w);
    TurnOnWon(o, cb, m.added[w], m.calls[w], d);
    if Current(cb).None? {
      PopFrames(m, m');
    } else {
      assert InCallback(m', w);
    }
    assert DecidedFor(m', w, d);
  }

  lemma ProgressCalls<D>(m: Def<D>)
    requires Shape(m) && FramesOk(m) && UsersOk(m) && m.frames != [] && !m.calling && Top(m) == PROGRESS
    requires Current(m.lists[PROGRESS]).Some?
    ensures ProgressMoved(m, Step(m, Event<D>.Turn))
  {
    assert Current(m.lists[PROGRESS]).value in ListOf(m.lists[PROGRESS]);
  }

  lemma ProgressEnds<D>(m: Def<D>)
    requires Shape(m) && FramesOk(m) && UsersOk(m) && m.frames != [] && !m.calling && Top(m) == PROGRESS
    requires Current(m.lists[PROGRESS]).None?
    ensures ProgressMoved(m, Step(m, Event<D>.Turn))
  {
    assert PROGRESS in m.frames;
    if !Finish(OptionsOf(PROGRESS), m.lists[PROGRESS]).firing {
      PopFrames(m, Step(m, Event<D>.Turn));
    }
  }

  /** A turn of the progress list leaves the other two lists alone. */
  lemma ProgressTurn<D>(m: Def<D>, first: Option<(nat, D)>)
    requires Shape(m) && Inv(m, first) && m.frames != [] && !m.calling && Top(m) == PROGRESS
    ensures Inv(Step(m, Event<D>.Turn), first)
    ensures first.Some? && DecidedFor(m, first.value.0, first.value.1) ==>
              DecidedFor(Step(m, Event<D>.Turn), first.value.0, first.value.1)
  {
    if Current(m.lists[PROGRESS]).None? {
      ProgressEnds(m);
    } else {
      ProgressCalls(m);
    }
    OtherListsKept(m, Step(m, Event<D>.Turn), first);
  }

  lemma TurnKeepsInv<D>(m: Def<D>, first: Option<(nat, D)>)
    requires Shape(m) && Inv(m, first) && Enabled(m, Event<D>.Turn)
    ensures Inv(Step(m, Event<D>.Turn), first)
  {
    assert Top(m) in m.frames;
    if Top(m) == PROGRESS {
      ProgressTurn(m, first);
    } else {
      assert m.lists[Top(m)].firing;
      var (w, d) := first.value;
      if DecidedFor(m, w, d) {
        DecidedTurn(m, w, d);
      } else {
        var k :| DecidingFor(m, w, d, k);
        DecidingTurn(m, w, d, k);
      }
    }
  }

  lemma OwnFunctions()
    ensures Appended(OptionsOf(DONE), [], [SetState, DisableOther, LockProgress], 0) == OWN
  {
    var o := OptionsOf(DONE);
    var a, b, c: Item<Fn> := OWN[0], OWN[1], OWN[2];
    assert [SetState, DisableOther, LockProgress][1..] == [DisableOther, LockProgress];
    assert [DisableOther, LockProgress][1..] == [LockProgress];
    assert Appended(o, [a, b] + [c], [], 3) == [];
    assert Appended(o, [a] + [b], [LockProgress], 2) == [c] + [] by {
      assert [a] + [b] == [a, b];
    }
    assert Appended(o, [] + [a], [DisableOther, LockProgress], 1) == [b] + [c] by {
      assert [] + [a] == [a];
    }
  }

  lemma StartIsPristine<D>()
    ensures Inv(Start<D>(), None)
  {
    OwnFunctions();
    var own: CB<Fn, D> := Added(OptionsOf(DONE), Fresh(OptionsOf(DONE)), [SetState, DisableOther, LockProgress]);
    assert [] + OWN == OWN && OWN + [] == OWN;
    assert own.list == Some(OWN);
    assert Start<D>().lists[DONE] == own && Start<D>().lists[FAIL] == own;
  }

  lemma {:induction false} RunKeepsInv<D>(events: seq<Event<D>>)
    requires ValidRun(events)
    ensures Inv(Run(events), FirstSettlement(events))
  {
    if events == [] {
      StartIsPristine<D>();
    } else {
      var before, last := events[..|events| - 1], events[|events| - 1];
      RunKeepsInv(before);
      var m, first := Run(before), FirstSettlement(before);
      match last
      case FireOn(w, d) => FireKeepsInv(m, w, d, first);
      case AddTo(w, ids) => AddKeepsInv(m, w, ids, first);
      case Turn => TurnKeepsInv(m, first);
      case Back => BackKeepsInv(m, first);
    }
  }

  // ---------- what it means ----------

  lemma StateOfDecided<D>(m: Def<D>, w: nat, d: D)
    requires Shape(m) && Inv(m, Some((w, d)))
    ensures w < PROGRESS && m.calls[1 - w] == []
    ensures m.state == SettledBy(w) || (m.state == Undecided && m.frames != [] && !m.calling)
  {
    if !DecidedFor(m, w, d) {
      var k :| DecidingFor(m, w, d, k);
    }
  }

  /**
   A deferred settles once: its state is that of the first resolve or reject call (or still undecided while nobody made
   one, or for the moment before that call's own functions ran), and the losing list never ran a user callback.
   */
  lemma SettlesOnce<D>(events: seq<Event<D>>)
    requires ValidRun(events)
    ensures var m, first := Run(events), FirstSettlement(events);
            && (first.None? ==> m.state == Undecided && m.calls[DONE] == [] && m.calls[FAIL] == [])
            && (first.Some? ==>
                  && first.value.0 < PROGRESS
                  && (m.state == SettledBy(first.value.0) || (m.state == Undecided && m.frames != [] && !m.calling))
                  && m.calls[1 - first.value.0] == [])
            && (m.state == Resolved ==> first.Some? && first.value.0 == 0)
            && (m.state == Rejected ==> first.Some? && first.value.0 == 1)
  {
    RunKeepsInv(events);
    var m := Run(events);
    match FirstSettlement(events)
    case None =>
    case Some((w, d)) => StateOfDecided(m, w, d);
  }

  /** Once decided, the state never changes again. */
  lemma {:induction false} StateIsFinal<D>(events: seq<Event<D>>, k: nat)
    requires ValidRun(events) && k <= |events|
    ensures ValidRun(events[..k])
    ensures Run(events[..k]).state != Undecided ==> Run(events).state == Run(events[..k]).state
    decreases |events|
  {
    if k < |events| {
      var before := events[..|events| - 1];
      StateIsFinal(before, k);
      assert before[..k] == events[..k];
      if Run(before).state != Undecided {
        RunKeepsInv(before);
        RunKeepsInv(events);
        StaysDecided(events);
      }
    } else {
      assert events[..k] == events;
    }
  }

  lemma OnlyTurnsDecide<D>(m: Def<D>, e: Event<D>)
    requires Shape(m) && Enabled(m, e) && !e.Turn?
    ensures Step(m, e).state == m.state
  {
  }

  lemma StaysDecided<D>(events: seq<Event<D>>)
    requires ValidRun(events) && events != [] && Run(events[..|events| - 1]).state != Undecided
    ensures Run(events).state == Run(events[..|events| - 1]).state
  {
    var before, last := events[..|events| - 1], events[|events| - 1];
    RunKeepsInv(before);
    if last.Turn? {
      TurnKeepsState(Run(before), FirstSettlement(before));
    } else {
      OnlyTurnsDecide(Run(before), last);
    }
  }

  /** Only Deferred's own first function changes the state. */
  lemma UserTurnKeepsState<D>(m: Def<D>)
    requires Shape(m) && Enabled(m, Event<D>.Turn)
    requires Current(m.lists[Top(m)]).Some? ==> Current(m.lists[Top(m)]).value.fn != SetState
    ensures Step(m, Event<D>.Turn).state == m.state
  {
  }

  lemma DecidedTurnIsUsers<D>(m: Def<D>, w: nat, d: D)
    requires Shape(m) && FramesOk(m) && UsersOk(m) && Enabled(m, Event<D>.Turn) && w < PROGRESS
    requires DecidedFor(m, w, d) && Top(m) == w && Current(m.lists[w]).Some?
    ensures Current(m.lists[w]).value.fn.User?
  {
    assert w in m.frames;
    TurnOnWon(OptionsOf(w), m.lists[w], m.added[w], m.calls[w], d);
  }

  lemma TurnKeepsState<D>(m: Def<D>, first: Option<(nat, D)>)
    requires Shape(m) && Inv(m, first) && Enabled(m, Event<D>.Turn) && m.state != Undecided
    ensures Step(m, Event<D>.Turn).state == m.state
  {
    var v, cb := Top(m), m.lists[Top(m)];
    assert v in m.frames && first.Some?;
    var (w, d) := first.value;
    if Current(cb).None? {
      UserTurnKeepsState(m);
    } else if v == PROGRESS {
      assert Current(cb).value in ListOf(cb);
      UserTurnKeepsState(m);
    } else if DecidedFor(m, w, d) {
      DecidedTurnIsUsers(m, w, d);
      UserTurnKeepsState(m);
    } else {
      var k :| DecidingFor(m, w, d, k);
      SettlingTurn(OptionsOf(w), cb, m.added[w], m.calls[w], d, k);
      UserTurnKeepsState(m);
    }
  }

  // ---------- notify after settling ----------

  ghost predicate MemoriesFired<D>(m: Def<D>)
    requires Shape(m)
  {
    forall v: nat :: v < 3 && m.lists[v].memory.Some? ==> m.lists[v].fired
  }

  lemma TurnKeepsFired<D>(m: Def<D>)
    requires Shape(m) && MemoriesFired(m) && m.frames != []
    ensures MemoriesFired(TurnStep(m))
  {
    var w := Top(m);
    forall v: nat | v < 3 && v != w ensures TurnStep(m).lists[v].memory.Some? ==> TurnStep(m).lists[v].fired {
      assert m.lists[v].memory.Some? ==> m.lists[v].fired;
    }
  }

  lemma StepKeepsFired<D>(m: Def<D>, e: Event<D>)
    requires Shape(m) && MemoriesFired(m) && Enabled(m, e)
    ensures MemoriesFired(Step(m, e))
  {
    match e
    case FireOn(_, _) =>
    case AddTo(_, _) =>
    case Turn => TurnKeepsFired(m);
    case Back =>
  }

  lemma {:induction false} MemoryMeansFired<D>(events: seq<Event<D>>)
    requires ValidRun(events)
    ensures MemoriesFired(Run(events))
  {
    if events != [] {
      MemoryMeansFired(events[..|events| - 1]);
      StepKeepsFired(Run(events[..|events| - 1]), events[|events| - 1]);
    } else {
      OwnFunctions();
    }
  }

  /** A list that refuses fires goes on refusing them. */
  lemma RefusalStays<D>(m: Def<D>, e: Event<D>, w: nat)
    requires Shape(m) && Enabled(m, e) && w < 3 && !Accepts(m.lists[w])
    ensures !Accepts(Step(m, e).lists[w])
  {
  }

  /** The last of Deferred's own functions makes the progress list refuse. */
  lemma LockRefuses<D>(m: Def<D>, w: nat, d: D, k: nat)
    requires Shape(m) && MemoriesFired(m) && w < PROGRESS && DecidingFor(m, w, d, k)
    ensures k == 2 ==> !Accepts(Step(m, Event<D>.Turn).lists[PROGRESS])
    ensures k < 2 ==> DecidingFor(Step(m, Event<D>.Turn), w, d, k + 1)
  {
    SettlingTurn(OptionsOf(w), m.lists[w], m.added[w], m.calls[w], d, k);
  }

  lemma {:induction false} ProgressRefuses<D>(events: seq<Event<D>>, w: nat, d: D)
    requires ValidRun(events) && FirstSettlement(events) == Some((w, d)) && w < PROGRESS
    requires DecidedFor(Run(events), w, d)
    ensures !Accepts(Run(events).lists[PROGRESS])
    decreases |events|
  {
    var before, last := events[..|events| - 1], events[|events| - 1];
    var m := Run(before);
    RunKeepsInv(before);
    // a settlement made by the last call leaves Deferred's own functions still to run
    if FirstSettlement(before).Some? {
      if DecidedFor(m, w, d) {
        ProgressRefuses(before, w, d);
        RefusalStays(m, last, PROGRESS);
      } else {
        var k :| DecidingFor(m, w, d, k);
        MemoryMeansFired(before);
        LockRefuses(m, w, d, k);
      }
    }
  }

  /** Whenever users have control of a settled deferred, a notify call does nothing at all. */
  lemma NotifyIsRefusedOnceSettled<D>(events: seq<Event<D>>, d: D)
    requires ValidRun(events) && Run(events).state != Undecided
    requires Enabled(Run(events), FireOn(PROGRESS, d))
    ensures Step(Run(events), FireOn(PROGRESS, d)) == Run(events)
  {
    var m, first := Run(events), FirstSettlement(events);
    RunKeepsInv(events);
    ControlMeansDecided(m, first);
    ProgressRefuses(events, first.value.0, first.value.1);
    assert m.lists[PROGRESS := m.lists[PROGRESS]] == m.lists;
  }

  // ---------- what was added ----------

  /** All callbacks the run's done (or fail, or progress) calls named, in order. */
  function AllAdded<D>(events: seq<Event<D>>, w: nat): seq<nat> {
    if events == [] then []
    else
      var last := events[|events| - 1];
      AllAdded(events[..|events| - 1], w) + (if last.AddTo? && last.w == w then last.ids else [])
  }

  lemma {:induction false} AllAreTaken(o: Options, items: seq<Item<Fn>>, ids: seq<nat>, next: nat)
    requires !o.unique
    ensures var more := Appended(o, items, Users(ids), next);
            |more| == |ids| && forall i :: 0 <= i < |ids| ==> more[i].fn == User(ids[i])
    decreases |ids|
  {
    if ids != [] {
      assert Users(ids)[1..] == Users(ids[1..]);
      AllAreTaken(o, items + [Item(Users(ids)[0], next)], ids[1..], next + 1);
    }
  }

  /** Nothing brings a disabled list back. */
  lemma DisabledStays<D>(m: Def<D>, e: Event<D>, w: nat)
    requires Shape(m) && Enabled(m, e) && w < 3 && m.lists[w].list.None?
    ensures Step(m, e).lists[w].list.None?
  {
  }

  lemma StepAdds<D>(m: Def<D>, e: Event<D>, w: nat)
    requires Shape(m) && Enabled(m, e) && w < 3 && m.lists[w].list.Some?
    ensures Step(m, e).added[w]
         == if e.AddTo? && e.w == w
             then m.added[w] + Appended(OptionsOf(w), m.lists[w].list.value, Users(e.ids), m.lists[w].next)
            else m.added[w]
  {
  }

  ghost predicate Took(added: seq<Item<Fn>>, ids: seq<nat>) {
    |added| == |ids| && forall i :: 0 <= i < |added| ==> added[i].fn == User(ids[i])
  }

  /** A list that is still alive took every callback ever added to it. */
  lemma {:induction false} AliveTookAll<D>(events: seq<Event<D>>, w: nat)
    requires ValidRun(events) && w < 3 && Run(events).lists[w].list.Some?
    ensures Took(Run(events).added[w], AllAdded(events, w))
  {
    if events != [] {
      var before, last := events[..|events| - 1], events[|events| - 1];
      var m := Run(before);
      if m.lists[w].list.None? {
        DisabledStays(m, last, w);
      }
      AliveTookAll(before, w);
      StepAdds(m, last, w);
      if last.AddTo? && last.w == w {
        AllAreTaken(OptionsOf(w), m.lists[w].list.value, last.ids, m.lists[w].next);
      }
    }
  }

  /**
   Every callback added to the winning list, before or after settling, runs exactly once, in the order of the additions
   and with the first settlement's arguments: at any time the calls made are a first part of the additions, and when
   nothing is firing they are all of them.
   */
  lemma WinnersRunOnceInOrder<D>(events: seq<Event<D>>)
    requires ValidRun(events) && FirstSettlement(events).Some?
    ensures var m, (w, d) := Run(events), FirstSettlement(events).value;
            && w < PROGRESS && |m.calls[w]| <= |AllAdded(events, w)|
            && (forall i :: 0 <= i < |m.calls[w]| ==>
                  m.calls[w][i].item.fn == User(AllAdded(events, w)[i]) && m.calls[w][i].data == Some(d))
            && (m.frames == [] ==> |m.calls[w]| == |AllAdded(events, w)|)
  {
    RunKeepsInv(events);
    AliveTookAll(events, FirstSettlement(events).value.0);
  }
}
