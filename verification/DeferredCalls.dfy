/**
 Who a deferred calls, when and with what (jquery-1.11.1.js): a reference definition computed from the events alone,
 without lists, firing indices, memory, locks or queues inside lists, and the proof that every run of the wired lists
 makes exactly its calls.
 */
module DeferredCalls {
  import opened Wrappers
  import opened CallbackList
  import opened Deferred
  import CallbackRuns

  /**
   A pass over the callbacks added to w: those from the from-th on are called with d, the at-th is next. A replay is a
   pass that an addition started.
   */
  datatype Loop<D> = Loop(w: nat, from: nat, at: nat, d: D, replay: bool)

  /** A pass over the progress callbacks that is over: it called those from from up to to. */
  datatype Pass<D> = Pass(replay: bool, d: D, from: nat, to: nat)

  /**
   All callbacks ever named for each list, the first settlement, how many of Deferred's own functions it has yet to run,
   the passes in progress (innermost last), whether a user callback has control, the notifies that wait, the arguments
   of the last one begun, and the calls made. done and dropped are history: the progress passes that are over, and the
   notifies that were waiting when the deferred was settled.
   */
  datatype Ideal<D> = Ideal(ids: seq<seq<nat>>, settled: Option<(nat, D)>, own: nat, loops: seq<Loop<D>>, running: bool,
                            queue: seq<D>, last: Option<D>, calls: seq<seq<(nat, D)>>,
                            done: seq<Pass<D>>, dropped: seq<D>)

  predicate Shaped<D>(p: Ideal<D>) {
    |p.ids| == |p.calls| == 3 && forall i :: 0 <= i < |p.loops| ==> p.loops[i].w < 3
  }

  function Beginning<D>(): Ideal<D> {
    Ideal([[], [], []], None, 0, [], false, [], None, [[], [], []], [], [])
  }

  predicate Looping<D>(p: Ideal<D>, w: nat) {
    exists i :: 0 <= i < |p.loops| && p.loops[i].w == w
  }

  /** One more pass, inside whatever is in progress. */
  function Entered<D>(p: Ideal<D>, l: Loop<D>): Ideal<D> {
    p.(loops := p.loops + [l], running := false)
  }

  /** The arguments that a callback added to w now is called with at once, if any. */
  function Latest<D>(p: Ideal<D>, w: nat): Option<D> {
    if w == PROGRESS then p.last
    else if p.settled.Some? && p.settled.value.0 == w then Some(p.settled.value.1)
    else None
  }

  /** A resolve, reject or notify call. */
  function Fired<D>(p: Ideal<D>, w: nat, d: D): Ideal<D> {
    if p.settled.Some? then p
    else if w < PROGRESS then Entered(p.(settled := Some((w, d)), own := 3), Loop(w, 0, 0, d, false))
    else if Looping(p, w) then p.(queue := p.queue + [d])
    else Entered(p.(last := Some(d)), Loop(w, 0, 0, d, false))
  }

  function Named<D>(p: Ideal<D>, w: nat, ids: seq<nat>): Ideal<D>
    requires w < |p.ids|
  {
    var n, p' := |p.ids[w]|, p.(ids := p.ids[w := p.ids[w] + ids]);
    match Latest(p, w)
    case None => p'
    case Some(d) => if Looping(p, w) then p' else Entered(p', Loop(w, n, n, d, true))
  }

  /** The innermost pass is over: the next waiting notify begins, or what is around the pass goes on. */
  function Over<D>(p: Ideal<D>): Ideal<D>
    requires p.loops != []
  {
    var l, around := p.loops[|p.loops| - 1], p.loops[..|p.loops| - 1];
    var p' := if l.w == PROGRESS then p.(done := p.done + [Pass(l.replay, l.d, l.from, l.at)]) else p;
    if l.w == PROGRESS && p.queue != []
    then p'.(last := Some(p.queue[0]), queue := p.queue[1..],
             loops := around + [Loop(PROGRESS, 0, 0, p.queue[0], false)])
    else p'.(loops := around, running := around != [])
  }

  function Turned<D>(p: Ideal<D>): (p': Ideal<D>)
    requires Shaped(p) && p.loops != []
    ensures Shaped(p')
  {
    var n := |p.loops| - 1;
    var l := p.loops[n];
    if p.own > 1 then p.(own := p.own - 1)
    else if p.own == 1 then p.(own := 0, queue := [], dropped := p.queue)
    else if l.at < |p.ids[l.w]| then
      p.(calls := p.calls[l.w := p.calls[l.w] + [(p.ids[l.w][l.at], l.d)]],
         loops := p.loops[n := l.(at := l.at + 1)], running := true)
    else Over(p)
  }

  function Follow<D>(p: Ideal<D>, e: Event<D>): (p': Ideal<D>)
    requires Shaped(p)
    ensures Shaped(p')
  {
    match e
    case FireOn(w, d) => if w < 3 then Fired(p, w, d) else p
    case AddTo(w, ids) => if w < 3 then Named(p, w, ids) else p
    case Turn => if p.loops != [] then Turned(p) else p
    case Back => p.(running := false)
  }

  function IdealOf<D>(events: seq<Event<D>>): (p: Ideal<D>)
    ensures Shaped(p)
  {
    if events == [] then Beginning() else Follow(IdealOf(events[..|events| - 1]), events[|events| - 1])
  }

  // ---------- what the wired lists have to do with it ----------

  function StateOf<D>(p: Ideal<D>): Status {
    if p.settled.None? || p.own == 3 then Undecided else SettledBy(p.settled.value.0)
  }

  ghost predicate SameControl<D>(m: Def<D>, p: Ideal<D>) {
    && |m.frames| == |p.loops| && (forall i :: 0 <= i < |m.frames| ==> m.frames[i] == p.loops[i].w)
    && m.calling == p.running && m.state == StateOf(p)
  }

  ghost predicate SameCalls<D>(calls: seq<Call<D>>, pairs: seq<(nat, D)>) {
    && |calls| == |pairs|
    && forall i :: 0 <= i < |calls| ==> calls[i].item.fn == User(pairs[i].0) && calls[i].data == Some(pairs[i].1)
  }

  ghost predicate AllSameCalls<D>(m: Def<D>, p: Ideal<D>)
    requires Shape(m) && Shaped(p)
  {
    forall w :: 0 <= w < 3 ==> SameCalls(m.calls[w], p.calls[w])
  }

  /** The settlement, and how far it has got. */
  ghost predicate SameStage<D>(m: Def<D>, p: Ideal<D>)
    requires Shape(m) && Shaped(p)
  {
    && Inv(m, p.settled) && p.own <= 3 && (p.settled.None? ==> p.own == 0)
    && (p.settled.Some? ==>
          if p.own == 0 then DecidedFor(m, p.settled.value.0, p.settled.value.1)
          else DecidingFor(m, p.settled.value.0, p.settled.value.1, 3 - p.own))
  }

  /** The callbacks each list took, and the passes over the list that won. */
  ghost predicate SamePasses<D>(m: Def<D>, p: Ideal<D>)
    requires Shape(m) && Shaped(p)
  {
    && (forall w :: 0 <= w < 3 && m.lists[w].list.Some? ==> Took(m.added[w], p.ids[w]))
    && (forall i :: 0 <= i < |p.loops| && p.loops[i].w < PROGRESS ==>
          p.settled == Some((p.loops[i].w, p.loops[i].d)) && p.loops[i].at == |p.calls[p.loops[i].w]|)
  }

  ghost predicate SameDecision<D>(m: Def<D>, p: Ideal<D>)
    requires Shape(m) && Shaped(p)
  {
    SameStage(m, p) && SamePasses(m, p)
  }

  /** Nothing has locked the progress list yet. */
  predicate Open<D>(p: Ideal<D>) {
    p.settled.None? || p.own > 0
  }

  /** The items are for the last of these callbacks, in order. */
  ghost predicate Holds(items: seq<Item<Fn>>, ids: seq<nat>) {
    |items| <= |ids| && forall i :: 0 <= i < |items| ==> items[i].fn == User(ids[|ids| - |items| + i])
  }

  ghost predicate LoopLike<D>(cb: CB<Fn, D>, l: Loop<D>, n: nat, inCallback: bool) {
    && cb.list.Some? && cb.data == Some(l.d) && cb.memory == Some(l.d) && cb.length == |cb.list.value|
    && n - |cb.list.value| <= l.at <= n && (inCallback ==> n - |cb.list.value| < l.at)
    && cb.index == l.at - (n - |cb.list.value|) - (if inCallback then 1 else 0)
  }

  /** The progress list holds the last of the callbacks added, and waits, remembers and fires as the reference does. */
  ghost predicate ProgressLike<D>(cb: CB<Fn, D>, p: Ideal<D>, inCallback: bool)
    requires Shaped(p)
  {
    && cb.start == 0 && cb.memory == p.last && (cb.fired <==> p.last.Some?) && (!cb.firing ==> p.queue == [])
    && (cb.list.Some? ==> Holds(cb.list.value, p.ids[PROGRESS]))
    && (if Open(p) then cb.stack == Some(p.queue) && cb.list.Some? && |cb.list.value| == |p.ids[PROGRESS]|
        else cb.stack.None? && p.queue == [] && cb.list.Some? == p.last.Some?)
    && (cb.firing ==> cb.list.Some? && p.last.Some?)
    && (forall i :: 0 <= i < |p.loops| && p.loops[i].w == PROGRESS ==>
          LoopLike(cb, p.loops[i], |p.ids[PROGRESS]|, inCallback))
  }

  /** Control, the calls made and the progress list. */
  ghost predicate SameMoves<D>(m: Def<D>, p: Ideal<D>)
    requires Shape(m) && Shaped(p)
  {
    && SameControl(m, p) && AllSameCalls(m, p)
    && ProgressLike(m.lists[PROGRESS], p, InCallback(m, PROGRESS))
  }

  ghost predicate Mirrors<D>(m: Def<D>, p: Ideal<D>)
    requires Shape(m) && Shaped(p)
  {
    SameMoves(m, p) && SameDecision(m, p)
  }

  lemma SameLooping<D>(m: Def<D>, p: Ideal<D>, w: nat)
    requires Shape(m) && SameControl(m, p) && FramesOk(m) && w < 3
    ensures Looping(p, w) <==> m.lists[w].firing
    ensures Looping(p, w) <==> w in m.frames
  {
    if i :| 0 <= i < |p.loops| && p.loops[i].w == w {
      assert m.frames[i] == w;
    }
    if w in m.frames {
      var i :| 0 <= i < |m.frames| && m.frames[i] == w;
      assert p.loops[i].w == w;
    }
  }

  // ---------- resolve, reject and notify ----------

  /** List w changed, and the reference entered a pass over it exactly if that began a fire. */
  lemma EnteredControl<D>(m: Def<D>, p: Ideal<D>, w: nat, cb: CB<Fn, D>, l: Loop<D>)
    requires Shape(m) && SameControl(m, p) && w < 3 && cb.firing && !m.lists[w].firing && l.w == w
    ensures SameControl(Update(m, w, cb), Entered(p, l))
  {
  }

  /** Nothing happened on the progress list. */
  lemma ProgressKept<D>(m: Def<D>, p: Ideal<D>, m': Def<D>, p': Ideal<D>)
    requires Shape(m) && Shaped(p) && Shape(m') && Shaped(p')
    requires ProgressLike(m.lists[PROGRESS], p, InCallback(m, PROGRESS))
    requires m'.lists[PROGRESS] == m.lists[PROGRESS] && InCallback(m', PROGRESS) == InCallback(m, PROGRESS)
    requires p'.ids[PROGRESS] == p.ids[PROGRESS] && p'.queue == p.queue && p'.last == p.last && Open(p') == Open(p)
    requires forall i :: 0 <= i < |p'.loops| && p'.loops[i].w == PROGRESS ==> i < |p.loops| && p'.loops[i] == p.loops[i]
    ensures ProgressLike(m'.lists[PROGRESS], p', InCallback(m', PROGRESS))
  {
  }

  lemma SettleDecides<D>(m: Def<D>, p: Ideal<D>, w: nat, d: D)
    requires Shape(m) && Shaped(p) && SameDecision(m, p) && AllSameCalls(m, p) && Enabled(m, FireOn(w, d))
    requires w < PROGRESS && p.settled.None?
    ensures SameDecision(Step(m, FireOn(w, d)), Follow(p, FireOn(w, d)))
  {
    FireFirst(m, w, d);
    var p' := Follow(p, FireOn(w, d));
    assert p'.loops[..|p.loops|] == p.loops;
    assert SameCalls(m.calls[w], p.calls[w]);
  }

  lemma SettleMoves<D>(m: Def<D>, p: Ideal<D>, w: nat, d: D)
    requires Shape(m) && Shaped(p) && SameMoves(m, p) && Enabled(m, FireOn(w, d)) && w < PROGRESS && p.settled.None?
    requires FramesOk(m) && FiredWith(OptionsOf(w), m.lists[w], d).firing && !m.lists[w].firing
    ensures SameMoves(Step(m, FireOn(w, d)), Follow(p, FireOn(w, d)))
  {
    var cb := FiredWith(OptionsOf(w), m.lists[w], d);
    UpdateFrames(m, w, cb);
    EnteredControl(m, p, w, cb, Loop(w, 0, 0, d, false));
    ProgressKept(m, p, Step(m, FireOn(w, d)), Follow(p, FireOn(w, d)));
  }

  lemma SettleMirrors<D>(m: Def<D>, p: Ideal<D>, w: nat, d: D)
    requires Shape(m) && Shaped(p) && Mirrors(m, p) && Enabled(m, FireOn(w, d)) && w < PROGRESS && p.settled.None?
    ensures Mirrors(Step(m, FireOn(w, d)), Follow(p, FireOn(w, d)))
  {
    SettleDecides(m, p, w, d);
    SettleMoves(m, p, w, d);
  }

  /** What happens to the progress list leaves the passes over the other lists as they are. */
  lemma PassesKept<D>(m: Def<D>, p: Ideal<D>, m': Def<D>, p': Ideal<D>)
    requires Shape(m) && Shaped(p) && Shape(m') && Shaped(p') && SamePasses(m, p) && p'.settled == p.settled
    requires forall w :: 0 <= w < 3 && m'.lists[w].list.Some? ==> Took(m'.added[w], p'.ids[w])
    requires forall w :: 0 <= w < PROGRESS ==> p'.calls[w] == p.calls[w]
    requires forall i :: 0 <= i < |p'.loops| && p'.loops[i].w < PROGRESS ==> i < |p.loops| && p'.loops[i] == p.loops[i]
    ensures SamePasses(m', p')
  {
  }

  lemma LateFireMirrors<D>(m: Def<D>, p: Ideal<D>, w: nat, d: D)
    requires Shape(m) && Shaped(p) && Mirrors(m, p) && Enabled(m, FireOn(w, d)) && p.settled.Some?
    ensures Step(m, FireOn(w, d)) == m
  {
    ControlMeansDecided(m, p.settled);
    if w < PROGRESS {
      DecidedIsDone(m, p);
      FireLate(m, w, d, p.settled.value.0, p.settled.value.1);
    } else {
      DecidedIsDone(m, p);
      assert m.lists[w := m.lists[w]] == m.lists;
    }
  }

  /** While users have control none of Deferred's own functions is left to run. */
  lemma DecidedIsDone<D>(m: Def<D>, p: Ideal<D>)
    requires Shape(m) && Shaped(p) && SameDecision(m, p) && (m.frames != [] ==> m.calling)
    ensures p.own == 0
  {
  }

  /** A notify as the progress list takes it. */
  lemma NotifyLike<D>(cb: CB<Fn, D>, p: Ideal<D>, d: D)
    requires Shaped(p) && p.settled.None? && ProgressLike(cb, p, cb.firing) && cb.firing == Looping(p, PROGRESS)
    ensures ProgressLike(FiredWith(OptionsOf(PROGRESS), cb, d), Fired(p, PROGRESS, d), cb.firing)
    ensures FiredWith(OptionsOf(PROGRESS), cb, d).firing
  {
    var cb', p' := FiredWith(OptionsOf(PROGRESS), cb, d), Fired(p, PROGRESS, d);
    forall i | 0 <= i < |p'.loops| && p'.loops[i].w == PROGRESS
      ensures LoopLike(cb', p'.loops[i], |p'.ids[PROGRESS]|, cb.firing)
    {
      if i < |p.loops| {
        assert p'.loops[i] == p.loops[i];
      }
    }
  }

  lemma NotifyMoves<D>(m: Def<D>, p: Ideal<D>, d: D)
    requires Shape(m) && Shaped(p) && SameMoves(m, p) && Enabled(m, FireOn(PROGRESS, d)) && p.settled.None?
    requires FramesOk(m) && SamePasses(m, p)
    ensures SameMoves(Step(m, FireOn(PROGRESS, d)), Follow(p, FireOn(PROGRESS, d)))
    ensures SamePasses(Step(m, FireOn(PROGRESS, d)), Follow(p, FireOn(PROGRESS, d)))
  {
    var cb, cb' := m.lists[PROGRESS], FiredWith(OptionsOf(PROGRESS), m.lists[PROGRESS], d);
    SameLooping(m, p, PROGRESS);
    UpdateFrames(m, PROGRESS, cb');
    NotifyLike(cb, p, d);
    if !cb.firing {
      EnteredControl(m, p, PROGRESS, cb', Loop(PROGRESS, 0, 0, d, false));
    }
    PassesKept(m, p, Step(m, FireOn(PROGRESS, d)), Follow(p, FireOn(PROGRESS, d)));
  }

  lemma NotifyMirrors<D>(m: Def<D>, p: Ideal<D>, d: D)
    requires Shape(m) && Shaped(p) && Mirrors(m, p) && Enabled(m, FireOn(PROGRESS, d)) && p.settled.None?
    ensures Mirrors(Step(m, FireOn(PROGRESS, d)), Follow(p, FireOn(PROGRESS, d)))
  {
    FireProgress(m, d, p.settled);
    NotifyMoves(m, p, d);
  }

  // ---------- done, fail and progress ----------

  /** What an addition to an unsettled deferred's resolve or reject list does. */
  lemma AddUnsettledMirrors<D>(m: Def<D>, p: Ideal<D>, w: nat, ids: seq<nat>)
    requires Shape(m) && Shaped(p) && Mirrors(m, p) && Enabled(m, AddTo(w, ids)) && w < PROGRESS && p.settled.None?
    ensures Mirrors(Step(m, Event<D>.AddTo(w, ids)), Follow(p, Event<D>.AddTo(w, ids)))
  {
    var o, cb, m', p' := OptionsOf(w), m.lists[w], Step(m, Event<D>.AddTo(w, ids)), Follow(p, Event<D>.AddTo(w, ids));
    AddBeforeDecision(m, w, ids);
    UpdateFrames(m, w, Added(o, cb, Users(ids)));
    AddTakes(m, p, w, ids);
    ProgressKept(m, p, m', p');
  }

  /** The list and the reference grow by the same callbacks. */
  lemma AddTakes<D>(m: Def<D>, p: Ideal<D>, w: nat, ids: seq<nat>)
    requires Shape(m) && Shaped(p) && w < 3 && Enabled(m, AddTo(w, ids))
    requires forall v :: 0 <= v < 3 && m.lists[v].list.Some? ==> Took(m.added[v], p.ids[v])
    ensures var m', p' := Step(m, Event<D>.AddTo(w, ids)), Follow(p, Event<D>.AddTo(w, ids));
            forall v :: 0 <= v < 3 && m'.lists[v].list.Some? ==> Took(m'.added[v], p'.ids[v])
  {
    if m.lists[w].list.Some? {
      AllAreTaken(OptionsOf(w), m.lists[w].list.value, ids, m.lists[w].next);
    }
  }

  lemma AddToWinnerPasses<D>(m: Def<D>, p: Ideal<D>, w: nat, ids: seq<nat>)
    requires Shape(m) && Shaped(p) && SamePasses(m, p) && Enabled(m, AddTo(w, ids)) && w < PROGRESS
    requires p.settled.Some? && p.settled.value.0 == w && (!Looping(p, w) ==> |p.calls[w]| == |p.ids[w]|)
    ensures SamePasses(Step(m, Event<D>.AddTo(w, ids)), Follow(p, Event<D>.AddTo(w, ids)))
  {
    var p' := Follow(p, Event<D>.AddTo(w, ids));
    AddTakes(m, p, w, ids);
    forall i | 0 <= i < |p'.loops| && p'.loops[i].w < PROGRESS
      ensures p'.settled == Some((p'.loops[i].w, p'.loops[i].d)) && p'.loops[i].at == |p'.calls[p'.loops[i].w]|
    {
      if i < |p.loops| {
        assert p'.loops[i] == p.loops[i];
      }
    }
  }

  /** A winning list that is idle has called everything. */
  lemma IdleCalledAll<D>(m: Def<D>, p: Ideal<D>, w: nat, d: D)
    requires Shape(m) && Shaped(p) && w < PROGRESS && DecidedFor(m, w, d) && AllSameCalls(m, p) && SamePasses(m, p)
    ensures !m.lists[w].firing ==> |p.calls[w]| == |p.ids[w]|
  {
    assert SameCalls(m.calls[w], p.calls[w]) && Took(m.added[w], p.ids[w]);
  }

  lemma AddToWinnerMoves<D>(m: Def<D>, p: Ideal<D>, w: nat, ids: seq<nat>)
    requires Shape(m) && Shaped(p) && SameMoves(m, p) && Enabled(m, AddTo(w, ids)) && w < PROGRESS && FramesOk(m)
    requires p.settled.Some? && p.settled.value.0 == w && Added(OptionsOf(w), m.lists[w], Users(ids)).firing
    ensures SameMoves(Step(m, Event<D>.AddTo(w, ids)), Follow(p, Event<D>.AddTo(w, ids)))
  {
    UpdateFrames(m, w, Added(OptionsOf(w), m.lists[w], Users(ids)));
    SameLooping(m, p, w);
    AddControl(m, p, w, ids);
    ProgressKept(m, p, Step(m, Event<D>.AddTo(w, ids)), Follow(p, Event<D>.AddTo(w, ids)));
  }

  lemma AddToWinnerStage<D>(m: Def<D>, p: Ideal<D>, w: nat, ids: seq<nat>)
    requires Shape(m) && Shaped(p) && SameStage(m, p) && p.own == 0 && Enabled(m, AddTo(w, ids)) && w < PROGRESS
    requires p.settled.Some? && p.settled.value.0 == w
    ensures SameStage(Step(m, Event<D>.AddTo(w, ids)), Follow(p, Event<D>.AddTo(w, ids)))
    ensures Added(OptionsOf(w), m.lists[w], Users(ids)).firing
  {
    var d := p.settled.value.1;
    ControlMeansDecided(m, p.settled);
    AddToWon(OptionsOf(w), m.lists[w], m.added[w], m.calls[w], d, Users(ids));
    AddToWinner(m, w, ids, d);
  }

  lemma AddToWinnerMirrors<D>(m: Def<D>, p: Ideal<D>, w: nat, ids: seq<nat>)
    requires Shape(m) && Shaped(p) && Mirrors(m, p) && Enabled(m, AddTo(w, ids)) && w < PROGRESS
    requires p.settled.Some? && p.settled.value.0 == w
    ensures Mirrors(Step(m, Event<D>.AddTo(w, ids)), Follow(p, Event<D>.AddTo(w, ids)))
  {
    DecidedIsDone(m, p);
    AddToWinnerStage(m, p, w, ids);
    SameLooping(m, p, w);
    IdleCalledAll(m, p, w, p.settled.value.1);
    AddToWinnerPasses(m, p, w, ids);
    AddToWinnerMoves(m, p, w, ids);
  }

  /** An addition that begins a fire enters a pass. */
  lemma AddControl<D>(m: Def<D>, p: Ideal<D>, w: nat, ids: seq<nat>)
    requires Shape(m) && Shaped(p) && SameControl(m, p) && Enabled(m, AddTo(w, ids))
    requires m.lists[w].firing == Looping(p, w)
    requires Added(OptionsOf(w), m.lists[w], Users(ids)).firing == (m.lists[w].firing || Latest(p, w).Some?)
    ensures SameControl(Step(m, Event<D>.AddTo(w, ids)), Follow(p, Event<D>.AddTo(w, ids)))
  {
  }

  lemma AddToLoserMirrors<D>(m: Def<D>, p: Ideal<D>, w: nat, ids: seq<nat>)
    requires Shape(m) && Shaped(p) && Mirrors(m, p) && Enabled(m, AddTo(w, ids)) && w < PROGRESS
    requires p.settled.Some? && p.settled.value.0 != w
    ensures Mirrors(Step(m, Event<D>.AddTo(w, ids)), Follow(p, Event<D>.AddTo(w, ids)))
  {
    ControlMeansDecided(m, p.settled);
    AddToLoser(m, p.settled.value.0, ids, p.settled.value.1);
    ProgressKept(m, p, m, Follow(p, Event<D>.AddTo(w, ids)));
  }

  lemma AddLike<D>(cb: CB<Fn, D>, p: Ideal<D>, ids: seq<nat>)
    requires Shaped(p) && ProgressLike(cb, p, cb.firing) && cb.firing == Looping(p, PROGRESS)
    ensures ProgressLike(Added(OptionsOf(PROGRESS), cb, Users(ids)), Named(p, PROGRESS, ids), cb.firing)
    ensures Added(OptionsOf(PROGRESS), cb, Users(ids)).firing == (cb.firing || p.last.Some?)
  {
    var cb', p' := Added(OptionsOf(PROGRESS), cb, Users(ids)), Named(p, PROGRESS, ids);
    if cb.list.Some? {
      AllAreTaken(OptionsOf(PROGRESS), cb.list.value, ids, cb.next);
      HoldsMore(cb.list.value, p.ids[PROGRESS], Appended(OptionsOf(PROGRESS), cb.list.value, Users(ids), cb.next), ids);
    }
    forall i | 0 <= i < |p'.loops| && p'.loops[i].w == PROGRESS
      ensures LoopLike(cb', p'.loops[i], |p'.ids[PROGRESS]|, cb.firing)
    {
      if i < |p.loops| {
        assert p'.loops[i] == p.loops[i];
      }
    }
  }

  lemma HoldsMore(items: seq<Item<Fn>>, ids: seq<nat>, more: seq<Item<Fn>>, moreIds: seq<nat>)
    requires Holds(items, ids) && |more| == |moreIds| && forall i :: 0 <= i < |more| ==> more[i].fn == User(moreIds[i])
    ensures Holds(items + more, ids + moreIds)
  {
  }

  lemma AddToProgressMoves<D>(m: Def<D>, p: Ideal<D>, ids: seq<nat>)
    requires Shape(m) && Shaped(p) && SameMoves(m, p) && Enabled(m, AddTo(PROGRESS, ids)) && FramesOk(m)
    ensures SameMoves(Step(m, Event<D>.AddTo(PROGRESS, ids)), Follow(p, Event<D>.AddTo(PROGRESS, ids)))
  {
    SameLooping(m, p, PROGRESS);
    UpdateFrames(m, PROGRESS, Added(OptionsOf(PROGRESS), m.lists[PROGRESS], Users(ids)));
    AddLike(m.lists[PROGRESS], p, ids);
    AddControl(m, p, PROGRESS, ids);
  }

  lemma AddToProgressPasses<D>(m: Def<D>, p: Ideal<D>, ids: seq<nat>)
    requires Shape(m) && Shaped(p) && SamePasses(m, p) && Enabled(m, AddTo(PROGRESS, ids))
    ensures SamePasses(Step(m, Event<D>.AddTo(PROGRESS, ids)), Follow(p, Event<D>.AddTo(PROGRESS, ids)))
  {
    AddTakes(m, p, PROGRESS, ids);
    PassesKept(m, p, Step(m, Event<D>.AddTo(PROGRESS, ids)), Follow(p, Event<D>.AddTo(PROGRESS, ids)));
  }

  lemma AddToProgressMirrors<D>(m: Def<D>, p: Ideal<D>, ids: seq<nat>)
    requires Shape(m) && Shaped(p) && Mirrors(m, p) && Enabled(m, AddTo(PROGRESS, ids))
    ensures Mirrors(Step(m, Event<D>.AddTo(PROGRESS, ids)), Follow(p, Event<D>.AddTo(PROGRESS, ids)))
  {
    ControlMeansDecided(m, p.settled);
    DecidedIsDone(m, p);
    AddToProgress(m, ids, p.settled);
    AddToProgressPasses(m, p, ids);
    AddToProgressMoves(m, p, ids);
  }

  // ---------- turns ----------

  lemma BackLike<D>(cb: CB<Fn, D>, p: Ideal<D>)
    requires Shaped(p) && ProgressLike(cb, p, true) && cb.firing
    ensures ProgressLike(Returned(OptionsOf(PROGRESS), cb, false), p.(running := false), false)
  {
  }

  lemma BackMoves<D>(m: Def<D>, p: Ideal<D>)
    requires Shape(m) && Shaped(p) && SameMoves(m, p) && Enabled(m, Event<D>.Back) && FramesOk(m) && UsersOk(m)
    ensures SameMoves(Step(m, Event<D>.Back), Follow(p, Event<D>.Back))
  {
    BackFrames(m);
    if Top(m) == PROGRESS {
      BackLike(m.lists[PROGRESS], p);
    } else {
      ProgressKept(m, p, Step(m, Event<D>.Back), Follow(p, Event<D>.Back));
    }
  }

  lemma BackMirrors<D>(m: Def<D>, p: Ideal<D>)
    requires Shape(m) && Shaped(p) && Mirrors(m, p) && Enabled(m, Event<D>.Back)
    ensures Mirrors(Step(m, Event<D>.Back), Follow(p, Event<D>.Back))
  {
    ControlMeansDecided(m, p.settled);
    DecidedIsDone(m, p);
    BackKeepsInv(m, p.settled);
    PassesKept(m, p, Step(m, Event<D>.Back), Follow(p, Event<D>.Back));
    BackMoves(m, p);
  }

  /** One of Deferred's own functions. */
  lemma OwnTurnDecides<D>(m: Def<D>, p: Ideal<D>)
    requires Shape(m) && Shaped(p) && SameStage(m, p) && Enabled(m, Event<D>.Turn) && p.own > 0 && p.loops != []
    ensures SameStage(Step(m, Event<D>.Turn), Follow(p, Event<D>.Turn))
  {
    DecidingTurn(m, p.settled.value.0, p.settled.value.1, 3 - p.own);
  }

  lemma OnlyListsMove<D>(m: Def<D>)
    requires Shape(m) && Enabled(m, Event<D>.Turn)
    ensures Step(m, Event<D>.Turn).added == m.added
    ensures forall w :: 0 <= w < 3 && m.lists[w].list.None? ==> Step(m, Event<D>.Turn).lists[w].list.None?
  {
  }

  /** The progress list when the deferred settles. */
  lemma LockLike<D>(cb: CB<Fn, D>, p: Ideal<D>, inCallback: bool)
    requires Shaped(p) && ProgressLike(cb, p, inCallback) && p.own == 1 && p.settled.Some?
    ensures ProgressLike(Locked(cb), p.(own := 0, queue := [], dropped := p.queue), inCallback)
  {
  }

  /** What one of Deferred's own functions does to lists and control. */
  lemma OwnTurnMoves<D>(m: Def<D>, w: nat, d: D, k: nat)
    requires Shape(m) && Inv(m, Some((w, d))) && w < PROGRESS && DecidingFor(m, w, d, k) && Enabled(m, Event<D>.Turn)
    ensures var m' := Step(m, Event<D>.Turn);
            && m'.frames == m.frames && m'.calling == m.calling && m'.calls == m.calls && m'.state == SettledBy(w)
            && m'.lists[PROGRESS] == if k == 2 then Locked(m.lists[PROGRESS]) else m.lists[PROGRESS]
  {
    SettlingTurn(OptionsOf(w), m.lists[w], m.added[w], m.calls[w], d, k);
  }

  /** One of Deferred's own functions. */
  lemma OwnTurnSameMoves<D>(m: Def<D>, p: Ideal<D>, m': Def<D>)
    requires Shape(m) && Shaped(p) && Shape(m') && SameMoves(m, p) && 0 < p.own <= 3 && p.settled.Some? && p.loops != []
    requires m'.frames == m.frames && m'.calling == m.calling && m'.calls == m.calls
    requires m'.state == SettledBy(p.settled.value.0)
    requires m'.lists[PROGRESS] == if p.own == 1 then Locked(m.lists[PROGRESS]) else m.lists[PROGRESS]
    ensures SameMoves(m', Follow(p, Event<D>.Turn))
  {
    if p.own == 1 {
      LockLike(m.lists[PROGRESS], p, InCallback(m, PROGRESS));
    } else {
      ProgressKept(m, p, m', Follow(p, Event<D>.Turn));
    }
  }

  lemma OwnTurnPasses<D>(m: Def<D>, p: Ideal<D>)
    requires Shape(m) && Shaped(p) && SamePasses(m, p) && Enabled(m, Event<D>.Turn) && p.own > 0 && p.loops != []
    ensures SamePasses(Step(m, Event<D>.Turn), Follow(p, Event<D>.Turn))
  {
    OnlyListsMove(m);
    PassesKept(m, p, Step(m, Event<D>.Turn), Follow(p, Event<D>.Turn));
  }

  lemma OwnTurnMirrors<D>(m: Def<D>, p: Ideal<D>)
    requires Shape(m) && Shaped(p) && Mirrors(m, p) && Enabled(m, Event<D>.Turn) && p.own > 0
    ensures Mirrors(Step(m, Event<D>.Turn), Follow(p, Event<D>.Turn))
  {
    OwnTurnMoves(m, p.settled.value.0, p.settled.value.1, 3 - p.own);
    OwnTurnDecides(m, p);
    OwnTurnPasses(m, p);
    OwnTurnSameMoves(m, p, Step(m, Event<D>.Turn));
  }

  /** What the innermost list is about to do, and what the reference says. */
  ghost predicate SameNext<D>(m: Def<D>, p: Ideal<D>)
    requires Shape(m) && Shaped(p) && m.frames != [] && p.loops != []
  {
    var l, cb := p.loops[|p.loops| - 1], m.lists[Top(m)];
    && (Current(cb).Some? <==> l.at < |p.ids[l.w]|)
    && (Current(cb).Some? ==> Current(cb).value.fn == User(p.ids[l.w][l.at]) && cb.data == Some(l.d))
  }

  lemma WinnerNext<D>(m: Def<D>, p: Ideal<D>)
    requires Shape(m) && Shaped(p) && Mirrors(m, p) && Enabled(m, Event<D>.Turn) && p.own == 0 && Top(m) < PROGRESS
    ensures SameNext(m, p) && (Current(m.lists[Top(m)]).None? ==> !Finish(OptionsOf(Top(m)), m.lists[Top(m)]).firing)
  {
    var w, d := Top(m), p.settled.value.1;
    assert p.loops[|p.loops| - 1].w == w && w in m.frames;
    assert SameCalls(m.calls[w], p.calls[w]) && Took(m.added[w], p.ids[w]);
    TurnOnWon(OptionsOf(w), m.lists[w], m.added[w], m.calls[w], d);
    if Current(m.lists[w]).Some? {
      CallIsNext(m.lists[w], m.added[w], m.calls[w], p.ids[w], d);
    }
  }

  /** The next callback of the winning list, or its end. */
  lemma WinnerTurnMoves<D>(m: Def<D>, p: Ideal<D>)
    requires Shape(m) && Shaped(p) && SameMoves(m, p) && Enabled(m, Event<D>.Turn) && p.own == 0 && Top(m) < PROGRESS
    requires FramesOk(m) && SameNext(m, p)
    requires Current(m.lists[Top(m)]).None? ==> !Finish(OptionsOf(Top(m)), m.lists[Top(m)]).firing
    ensures SameMoves(Step(m, Event<D>.Turn), Follow(p, Event<D>.Turn))
  {
    assert p.loops[|p.loops| - 1].w == Top(m);
    if Current(m.lists[Top(m)]).None? {
      PopFrames(m, Step(m, Event<D>.Turn));
    }
    TurnedLoops(p);
    ProgressKept(m, p, Step(m, Event<D>.Turn), Follow(p, Event<D>.Turn));
  }

  lemma CallIsNext<D>(cb: CB<Fn, D>, added: seq<Item<Fn>>, calls: seq<Call<D>>, ids: seq<nat>, d: D)
    requires Won(cb, added, calls, d, false) && cb.firing && Took(added, ids) && Current(cb).Some?
    ensures |calls| < |ids| && Current(cb).value.fn == User(ids[|calls|]) && cb.data == Some(d)
  {
    assert CallbackRuns.Pending(cb, false)[0] == Current(cb).value;
    assert added[|calls|] == added[|calls|..][0];
  }

  /** A turn of the innermost pass leaves the others alone. */
  lemma TurnedLoops<D>(p: Ideal<D>)
    requires Shaped(p) && p.own == 0 && p.loops != []
    ensures var p', n, w := Follow(p, Event<D>.Turn), |p.loops| - 1, p.loops[|p.loops| - 1].w;
            && p'.settled == p.settled && p'.own == 0 && p'.ids == p.ids && n <= |p'.loops| <= n + 1
            && (forall i :: 0 <= i < n ==> p'.loops[i] == p.loops[i]) && (|p'.loops| == n + 1 ==> p'.loops[n].w == w)
            && (forall v :: 0 <= v < 3 && v != w ==> p'.calls[v] == p.calls[v])
            && (w != PROGRESS ==> p'.queue == p.queue && p'.last == p.last)
  {
  }

  lemma WinnerTurnPasses<D>(m: Def<D>, p: Ideal<D>)
    requires Shape(m) && Shaped(p) && SamePasses(m, p) && SameControl(m, p) && FramesOk(m) && Enabled(m, Event<D>.Turn)
    requires p.own == 0 && Top(m) < PROGRESS
    ensures SamePasses(Step(m, Event<D>.Turn), Follow(p, Event<D>.Turn))
  {
    var p', n := Follow(p, Event<D>.Turn), |p.loops| - 1;
    OnlyListsMove(m);
    TurnedLoops(p);
    assert p.loops[n].w == Top(m);
    forall i | 0 <= i < n ensures p.loops[i].w == PROGRESS {
      OtherFrame(m, p, i);
    }
  }

  /** The innermost list has one pass only. */
  lemma OtherFrame<D>(m: Def<D>, p: Ideal<D>, i: nat)
    requires Shape(m) && FramesOk(m) && SameControl(m, p) && i < |p.loops| - 1
    ensures p.loops[i].w != p.loops[|p.loops| - 1].w
  {
    assert m.frames[i] != m.frames[|m.frames| - 1];
  }

  lemma WinnerTurnStage<D>(m: Def<D>, p: Ideal<D>)
    requires Shape(m) && Shaped(p) && SameStage(m, p) && Enabled(m, Event<D>.Turn) && p.own == 0 && p.loops != []
    requires Top(m) < PROGRESS && p.settled.Some? && p.settled.value.0 == Top(m)
    ensures SameStage(Step(m, Event<D>.Turn), Follow(p, Event<D>.Turn))
  {
    DecidedTurn(m, Top(m), p.settled.value.1);
    TurnedLoops(p);
  }

  lemma WinnerTurnMirrors<D>(m: Def<D>, p: Ideal<D>)
    requires Shape(m) && Shaped(p) && Mirrors(m, p) && Enabled(m, Event<D>.Turn) && p.own == 0 && Top(m) < PROGRESS
    ensures Mirrors(Step(m, Event<D>.Turn), Follow(p, Event<D>.Turn))
  {
    assert p.loops[|p.loops| - 1].w == Top(m);
    WinnerNext(m, p);
    WinnerTurnMoves(m, p);
    WinnerTurnPasses(m, p);
    WinnerTurnStage(m, p);
  }

  /** The next progress callback. */
  lemma ProgressCallLike<D>(m: Def<D>, p: Ideal<D>)
    requires Shape(m) && Shaped(p) && SameMoves(m, p) && Enabled(m, Event<D>.Turn) && p.own == 0 && Top(m) == PROGRESS
    requires FramesOk(m) && p.loops[|p.loops| - 1].at < |p.ids[PROGRESS]|
    ensures SameMoves(Step(m, Event<D>.Turn), Follow(p, Event<D>.Turn))
  {
    var n, cb, p' := |p.loops| - 1, m.lists[PROGRESS], Follow(p, Event<D>.Turn);
    var l := p.loops[n];
    assert l.w == PROGRESS && !InCallback(m, PROGRESS) && LoopLike(cb, l, |p.ids[PROGRESS]|, false);
    assert PROGRESS in m.frames && cb.firing;
    assert Current(cb).Some? && Current(cb).value.fn == User(p.ids[PROGRESS][l.at]);
    forall i | 0 <= i < n ensures p.loops[i].w != PROGRESS {
      OtherFrame(m, p, i);
    }
    TurnedLoops(p);
    assert |p'.loops| == n + 1 ==> LoopLike(cb, p'.loops[n], |p'.ids[PROGRESS]|, true);
  }

  /** The end of a progress pass. */
  lemma ProgressEndLike<D>(m: Def<D>, p: Ideal<D>)
    requires Shape(m) && Shaped(p) && SameMoves(m, p) && Enabled(m, Event<D>.Turn) && p.own == 0 && Top(m) == PROGRESS
    requires FramesOk(m) && p.loops[|p.loops| - 1].at >= |p.ids[PROGRESS]|
    ensures SameMoves(Step(m, Event<D>.Turn), Follow(p, Event<D>.Turn))
  {
    var n, cb, p' := |p.loops| - 1, m.lists[PROGRESS], Follow(p, Event<D>.Turn);
    var l, cb' := p.loops[n], Finish(OptionsOf(PROGRESS), cb);
    assert l.w == PROGRESS && !InCallback(m, PROGRESS) && LoopLike(cb, l, |p.ids[PROGRESS]|, false);
    assert PROGRESS in m.frames && cb.firing;
    assert Current(cb).None?;
    if !cb'.firing {
      PopFrames(m, Step(m, Event<D>.Turn));
    }
    forall i | 0 <= i < n ensures p.loops[i].w != PROGRESS {
      OtherFrame(m, p, i);
    }
    TurnedLoops(p);
    assert |p'.loops| == n + 1 ==> LoopLike(cb', p'.loops[n], |p'.ids[PROGRESS]|, false);
  }

  lemma ProgressTurnPasses<D>(m: Def<D>, p: Ideal<D>)
    requires Shape(m) && Shaped(p) && SamePasses(m, p) && SameControl(m, p) && Enabled(m, Event<D>.Turn)
    requires p.own == 0 && Top(m) == PROGRESS
    ensures SamePasses(Step(m, Event<D>.Turn), Follow(p, Event<D>.Turn))
  {
    assert p.loops[|p.loops| - 1].w == PROGRESS;
    OnlyListsMove(m);
    TurnedLoops(p);
    PassesKept(m, p, Step(m, Event<D>.Turn), Follow(p, Event<D>.Turn));
  }

  lemma ProgressTurnMirrors<D>(m: Def<D>, p: Ideal<D>)
    requires Shape(m) && Shaped(p) && Mirrors(m, p) && Enabled(m, Event<D>.Turn) && p.own == 0 && Top(m) == PROGRESS
    ensures Mirrors(Step(m, Event<D>.Turn), Follow(p, Event<D>.Turn))
  {
    assert p.loops[|p.loops| - 1].w == PROGRESS;
    TurnedLoops(p);
    ProgressTurn(m, p.settled);
    ProgressTurnPasses(m, p);
    if p.loops[|p.loops| - 1].at < |p.ids[PROGRESS]| {
      ProgressCallLike(m, p);
    } else {
      ProgressEndLike(m, p);
    }
  }

  // ---------- whole runs ----------

  lemma StepMirrors<D>(m: Def<D>, p: Ideal<D>, e: Event<D>)
    requires Shape(m) && Shaped(p) && Mirrors(m, p) && Enabled(m, e)
    ensures Mirrors(Step(m, e), Follow(p, e))
  {
    match e
    case FireOn(w, d) =>
      if p.settled.Some? {
        LateFireMirrors(m, p, w, d);
      } else if w < PROGRESS {
        SettleMirrors(m, p, w, d);
      } else {
        NotifyMirrors(m, p, d);
      }
    case AddTo(w, ids) =>
      if w == PROGRESS {
        AddToProgressMirrors(m, p, ids);
      } else if p.settled.None? {
        AddUnsettledMirrors(m, p, w, ids);
      } else if p.settled.value.0 == w {
        AddToWinnerMirrors(m, p, w, ids);
      } else {
        AddToLoserMirrors(m, p, w, ids);
      }
    case Turn =>
      if p.own > 0 {
        OwnTurnMirrors(m, p);
      } else if Top(m) == PROGRESS {
        ProgressTurnMirrors(m, p);
      } else {
        WinnerTurnMirrors(m, p);
      }
    case Back => BackMirrors(m, p);
  }

  lemma StartMirrors<D>()
    ensures Mirrors(Start<D>(), Beginning<D>())
  {
    StartIsPristine<D>();
  }

  /**
   The wired lists make exactly the calls of the reference, which is computed from the events alone: the same callbacks
   with the same arguments in the same order on each of the three lists, under the same state and control.
   */
  lemma {:induction false} RunMirrors<D>(events: seq<Event<D>>)
    requires ValidRun(events)
    ensures Mirrors(Run(events), IdealOf(events))
  {
    if events == [] {
      StartMirrors<D>();
    } else {
      var before, last := events[..|events| - 1], events[|events| - 1];
      RunMirrors(before);
      StepMirrors(Run(before), IdealOf(before), last);
    }
  }

  // ---------- the law of progress ----------

  /** The calls of a pass over the from-th up to the to-th callback. */
  function CallsOf<D>(ids: seq<nat>, d: D, from: nat, to: nat): (r: seq<(nat, D)>)
    requires from <= to <= |ids|
    ensures |r| == to - from
  {
    seq(to - from, i requires 0 <= i < to - from => (ids[from + i], d))
  }

  predicate Within<D>(passes: seq<Pass<D>>, n: nat) {
    forall i :: 0 <= i < |passes| ==> passes[i].from <= passes[i].to <= n
  }

  /** The calls of passes made one after the other. */
  function CallsOfAll<D>(ids: seq<nat>, passes: seq<Pass<D>>): seq<(nat, D)>
    requires Within(passes, |ids|)
  {
    if passes == [] then []
    else
      var last := passes[|passes| - 1];
      CallsOfAll(ids, passes[..|passes| - 1]) + CallsOf(ids, last.d, last.from, last.to)
  }

  /** A pass for a notify starts at the first callback; a replay goes on where the pass before it ended. */
  ghost predicate Follows<D>(passes: seq<Pass<D>>, x: Pass<D>) {
    if x.replay then passes != [] && x.from == passes[|passes| - 1].to && x.d == passes[|passes| - 1].d else x.from == 0
  }

  ghost predicate Linked<D>(passes: seq<Pass<D>>) {
    passes == [] || (Linked(passes[..|passes| - 1]) && Follows(passes[..|passes| - 1], passes[|passes| - 1]))
  }

  /** The arguments of the passes that were made for notifies. */
  function Notified<D>(passes: seq<Pass<D>>): seq<D> {
    if passes == [] then []
    else
      var last := passes[|passes| - 1];
      Notified(passes[..|passes| - 1]) + (if last.replay then [] else [last.d])
  }

  /** How far the passes for notifies got. */
  function Reached<D>(passes: seq<Pass<D>>): seq<nat> {
    if passes == [] then []
    else
      var last := passes[|passes| - 1];
      Reached(passes[..|passes| - 1]) + (if last.replay then [] else [last.to])
  }

  /** The arguments of all notify calls made before the first resolve or reject. */
  function Notifies<D>(events: seq<Event<D>>): seq<D> {
    if events == [] then []
    else
      var before, last := events[..|events| - 1], events[|events| - 1];
      Notifies(before)
      + (if FirstSettlement(before).None? && last.FireOn? && last.w == PROGRESS then [last.d] else [])
  }

  /** How many progress callbacks had been added when each of them was made. */
  function AddedAt<D>(events: seq<Event<D>>): seq<nat> {
    if events == [] then []
    else
      var before, last := events[..|events| - 1], events[|events| - 1];
      AddedAt(before)
      + (if FirstSettlement(before).None? && last.FireOn? && last.w == PROGRESS then [|AllAdded(before, PROGRESS)|]
         else [])
  }

  /** The progress passes in progress; there is at most one. */
  function PassesIn<D>(loops: seq<Loop<D>>): seq<Pass<D>> {
    if loops == [] then []
    else
      var l := loops[|loops| - 1];
      PassesIn(loops[..|loops| - 1]) + (if l.w == PROGRESS then [Pass(l.replay, l.d, l.from, l.at)] else [])
  }

  /** All progress passes in the order in which they began. */
  function AllPasses<D>(p: Ideal<D>): seq<Pass<D>> {
    p.done + PassesIn(p.loops)
  }

  ghost predicate OneLoopEach<D>(p: Ideal<D>) {
    forall i, j :: 0 <= i < j < |p.loops| ==> p.loops[i].w != p.loops[j].w
  }

  lemma PassesSnoc<D>(loops: seq<Loop<D>>, l: Loop<D>)
    ensures PassesIn(loops + [l])
         == PassesIn(loops) + (if l.w == PROGRESS then [Pass(l.replay, l.d, l.from, l.at)] else [])
  {
    assert (loops + [l])[..|loops|] == loops;
  }

  lemma {:induction false} NoPasses<D>(loops: seq<Loop<D>>)
    ensures PassesIn(loops) == [] <==> forall i :: 0 <= i < |loops| ==> loops[i].w != PROGRESS
  {
    if loops != [] {
      NoPasses(loops[..|loops| - 1]);
      assert forall i :: 0 <= i < |loops| - 1 ==> loops[..|loops| - 1][i] == loops[i];
    }
  }

  /** Calls made stay the same when more callbacks are added. */
  lemma {:induction false} CallsStand<D>(ids: seq<nat>, more: seq<nat>, passes: seq<Pass<D>>)
    requires Within(passes, |ids|)
    ensures Within(passes, |ids + more|) && CallsOfAll(ids + more, passes) == CallsOfAll(ids, passes)
  {
    if passes != [] {
      var last := passes[|passes| - 1];
      CallsStand(ids, more, passes[..|passes| - 1]);
      assert CallsOf(ids + more, last.d, last.from, last.to) == CallsOf(ids, last.d, last.from, last.to);
    }
  }

  lemma CallsSnoc<D>(ids: seq<nat>, passes: seq<Pass<D>>, x: Pass<D>)
    requires Within(passes, |ids|) && x.from <= x.to <= |ids|
    ensures Within(passes + [x], |ids|)
    ensures CallsOfAll(ids, passes + [x]) == CallsOfAll(ids, passes) + CallsOf(ids, x.d, x.from, x.to)
  {
    assert (passes + [x])[..|passes|] == passes;
  }

  /**
   The calls made are those of the passes, the passes follow each other, and the last of them has what is remembered.
   When no pass is in progress nothing waits and the last one got to the end.
   */
  ghost predicate CallingAs<D>(ids: seq<nat>, calls: seq<(nat, D)>, passes: seq<Pass<D>>, last: Option<D>, idle: bool,
                               queue: seq<D>)
  {
    && Within(passes, |ids|) && calls == CallsOfAll(ids, passes) && Linked(passes)
    && (if passes == [] then last.None? else last == Some(passes[|passes| - 1].d))
    && (idle ==> queue == [] && (passes != [] ==> passes[|passes| - 1].to == |ids|))
  }

  ghost predicate Calling<D>(p: Ideal<D>)
    requires Shaped(p)
  {
    CallingAs(p.ids[PROGRESS], p.calls[PROGRESS], AllPasses(p), p.last, PassesIn(p.loops) == [], p.queue)
  }

  /** The arguments of the notifies made so far that have a pass, wait, or were dropped. */
  function Answered<D>(p: Ideal<D>): seq<D> {
    Notified(AllPasses(p)) + p.queue + p.dropped
  }

  ghost predicate StageOk<D>(p: Ideal<D>) {
    (p.own > 0 ==> p.settled.Some?) && (p.dropped != [] ==> p.settled.Some? && p.own == 0)
  }

  /** Passes that are over called all callbacks that had been added when their notify was made. */
  ghost predicate Covered(reached: seq<nat>, addedAt: seq<nat>, n: nat) {
    && |reached| <= |addedAt| && (forall i :: 0 <= i < |addedAt| ==> addedAt[i] <= n)
    && (forall i :: 0 <= i < |reached| ==> addedAt[i] <= reached[i])
  }

  /** All notifies made were answered by passes, wait, or were dropped. */
  ghost predicate Answering<D>(p: Ideal<D>, notifies: seq<D>, addedAt: seq<nat>)
    requires Shaped(p)
  {
    && StageOk(p) && Answered(p) == notifies && |addedAt| == |notifies|
    && Covered(Reached(p.done), addedAt, |p.ids[PROGRESS]|)
  }

  // ---------- every step keeps it ----------

  /** More callbacks, and no change to passes but that waiting notifies may be queued or dropped. */
  lemma AddedCalling<D>(ids: seq<nat>, more: seq<nat>, calls: seq<(nat, D)>, passes: seq<Pass<D>>, last: Option<D>,
                        idle: bool, queue: seq<D>, queue': seq<D>)
    requires CallingAs(ids, calls, passes, last, idle, queue) && (idle ==> queue' == [])
    requires idle && more != [] ==> last.None?
    ensures CallingAs(ids + more, calls, passes, last, idle, queue')
  {
    CallsStand(ids, more, passes);
    if more == [] {
      assert ids + more == ids;
    }
  }

  /** A pass begins: for a notify, or as a replay for the callbacks just added. */
  lemma BegunCalling<D>(ids: seq<nat>, more: seq<nat>, calls: seq<(nat, D)>, passes: seq<Pass<D>>, last: Option<D>,
                        x: Pass<D>, queue: seq<D>)
    requires CallingAs(ids, calls, passes, last, true, []) && x.from == x.to && x.from <= |ids|
    requires if x.replay then last == Some(x.d) && x.from == |ids| else x.from == 0
    ensures CallingAs(ids + more, calls, passes + [x], Some(x.d), false, queue)
  {
    CallsStand(ids, more, passes);
    CallsSnoc(ids + more, passes, x);
    assert (passes + [x])[..|passes|] == passes;
  }

  /** The pass in progress calls its next callback. */
  lemma OneMoreCalling<D>(ids: seq<nat>, calls: seq<(nat, D)>, passes: seq<Pass<D>>, x: Pass<D>, last: Option<D>,
                          queue: seq<D>)
    requires CallingAs(ids, calls, passes + [x], last, false, queue) && x.to < |ids|
    ensures CallingAs(ids, calls + [(ids[x.to], x.d)], passes + [x.(to := x.to + 1)], last, false, queue)
  {
    var x' := x.(to := x.to + 1);
    assert (passes + [x])[|passes|] == x && (passes + [x])[..|passes|] == passes
        && (passes + [x'])[..|passes|] == passes;
    assert forall i :: 0 <= i < |passes| ==> (passes + [x])[i] == passes[i];
    CallsSnoc(ids, passes, x);
    CallsSnoc(ids, passes, x');
    assert CallsOf(ids, x.d, x.from, x.to + 1) == CallsOf(ids, x.d, x.from, x.to) + [(ids[x.to], x.d)];
  }

  /** The innermost pass is a progress pass: it is the last one begun. */
  lemma InnermostPass<D>(p: Ideal<D>)
    requires OneLoopEach(p) && p.loops != [] && p.loops[|p.loops| - 1].w == PROGRESS
    ensures var l, around := p.loops[|p.loops| - 1], p.loops[..|p.loops| - 1];
            PassesIn(around) == [] && AllPasses(p) == p.done + [Pass(l.replay, l.d, l.from, l.at)]
  {
    NoPasses(p.loops[..|p.loops| - 1]);
  }

  /** The next callback of a progress pass is called. */
  lemma CallKeepsCalling<D>(p: Ideal<D>)
    requires Shaped(p) && Calling(p) && OneLoopEach(p) && p.own == 0 && p.loops != []
    requires var l := p.loops[|p.loops| - 1]; l.w == PROGRESS && l.at < |p.ids[PROGRESS]|
    ensures Calling(Turned(p)) && Turned(p).done == p.done && Answered(Turned(p)) == Answered(p)
  {
    var p', n := Turned(p), |p.loops| - 1;
    var l, ids := p.loops[n], p.ids[PROGRESS];
    var x := Pass(l.replay, l.d, l.from, l.at);
    InnermostPass(p);
    assert p'.loops[..n] == p.loops[..n];
    InnermostPass(p');
    OneMoreCalling(ids, p.calls[PROGRESS], p.done, x, p.last, p.queue);
    NotifiedSnoc(p.done, x);
    NotifiedSnoc(p.done, x.(to := x.to + 1));
  }

  lemma NotifiedSnoc<D>(passes: seq<Pass<D>>, x: Pass<D>)
    ensures Notified(passes + [x]) == Notified(passes) + (if x.replay then [] else [x.d])
    ensures Reached(passes + [x]) == Reached(passes) + (if x.replay then [] else [x.to])
  {
    assert (passes + [x])[..|passes|] == passes;
  }

  /** A pass that got to the end is over: nothing is in progress. */
  lemma ClosedCalling<D>(ids: seq<nat>, calls: seq<(nat, D)>, passes: seq<Pass<D>>, x: Pass<D>, last: Option<D>,
                         queue: seq<D>)
    requires CallingAs(ids, calls, passes + [x], last, false, queue) && x.to >= |ids|
    ensures CallingAs(ids, calls, passes + [x], last, true, [])
  {
    assert (passes + [x])[|passes|] == x;
  }

  /** A progress pass is over. */
  lemma OverCloses<D>(p: Ideal<D>)
    requires Shaped(p) && Calling(p) && OneLoopEach(p) && p.loops != []
    requires var l := p.loops[|p.loops| - 1]; l.w == PROGRESS && l.at >= |p.ids[PROGRESS]|
    ensures CallingAs(p.ids[PROGRESS], p.calls[PROGRESS], AllPasses(p), p.last, true, [])
    ensures Over(p).done == AllPasses(p) && PassesIn(p.loops[..|p.loops| - 1]) == []
    ensures Reached(AllPasses(p))
         == Reached(p.done) + (if p.loops[|p.loops| - 1].replay then [] else [|p.ids[PROGRESS]|])
  {
    var l := p.loops[|p.loops| - 1];
    var x := Pass(l.replay, l.d, l.from, l.at);
    InnermostPass(p);
    ClosedCalling(p.ids[PROGRESS], p.calls[PROGRESS], p.done, x, p.last, p.queue);
    NotifiedSnoc(p.done, x);
    assert (p.done + [x])[|p.done|] == x;
  }

  /** A progress pass is over, and the next waiting notify begins or nobody waits. */
  lemma OverKeepsCalling<D>(p: Ideal<D>)
    requires Shaped(p) && Calling(p) && OneLoopEach(p) && p.loops != []
    requires var l := p.loops[|p.loops| - 1]; l.w == PROGRESS && l.at >= |p.ids[PROGRESS]|
    ensures Calling(Over(p)) && Over(p).done == AllPasses(p)
    ensures AllPasses(Over(p)) == AllPasses(p) + (if p.queue == [] then [] else [Pass(false, p.queue[0], 0, 0)])
    ensures Answered(Over(p)) == Answered(p)
  {
    OverCloses(p);
    if p.queue != [] {
      NextBegins(p);
    } else {
      NothingWaits(p);
    }
  }

  lemma NothingWaits<D>(p: Ideal<D>)
    requires Shaped(p) && p.loops != [] && p.queue == [] && p.loops[|p.loops| - 1].w == PROGRESS
    requires CallingAs(p.ids[PROGRESS], p.calls[PROGRESS], AllPasses(p), p.last, true, [])
    requires Over(p).done == AllPasses(p) && PassesIn(p.loops[..|p.loops| - 1]) == []
    ensures Calling(Over(p)) && AllPasses(Over(p)) == AllPasses(p) + [] && Answered(Over(p)) == Answered(p)
  {
    assert AllPasses(Over(p)) == AllPasses(p) + [] == AllPasses(p);
  }

  lemma NextBegins<D>(p: Ideal<D>)
    requires Shaped(p) && p.loops != [] && p.queue != [] && p.loops[|p.loops| - 1].w == PROGRESS
    requires CallingAs(p.ids[PROGRESS], p.calls[PROGRESS], AllPasses(p), p.last, true, [])
    requires Over(p).done == AllPasses(p) && PassesIn(p.loops[..|p.loops| - 1]) == []
    ensures Calling(Over(p)) && AllPasses(Over(p)) == AllPasses(p) + [Pass(false, p.queue[0], 0, 0)]
    ensures Answered(Over(p)) == Answered(p)
  {
    var x, ids := Pass(false, p.queue[0], 0, 0), p.ids[PROGRESS];
    BegunCalling(ids, [], p.calls[PROGRESS], AllPasses(p), p.last, x, p.queue[1..]);
    assert ids + [] == ids;
    PassesSnoc(p.loops[..|p.loops| - 1], Loop(PROGRESS, 0, 0, p.queue[0], false));
    assert AllPasses(Over(p)) == AllPasses(p) + [x];
    NotifiedSnoc(AllPasses(p), x);
    assert Notified(AllPasses(p)) + [p.queue[0]] + p.queue[1..] == Notified(AllPasses(p)) + p.queue;
  }

  /** What a step may change that touches no progress pass. */
  lemma OthersKeepCalling<D>(p: Ideal<D>, p': Ideal<D>, more: seq<nat>)
    requires Shaped(p) && Shaped(p') && Calling(p)
    requires p'.ids[PROGRESS] == p.ids[PROGRESS] + more && p'.calls[PROGRESS] == p.calls[PROGRESS]
    requires p'.done == p.done && p'.last == p.last && PassesIn(p'.loops) == PassesIn(p.loops)
    requires PassesIn(p.loops) == [] ==> p'.queue == [] && (more != [] ==> p.last.None?)
    ensures Calling(p') && AllPasses(p') == AllPasses(p)
  {
    AddedCalling(p.ids[PROGRESS], more, p.calls[PROGRESS], AllPasses(p), p.last,
                 PassesIn(p.loops) == [], p.queue, p'.queue);
  }

  /** A progress pass is entered. */
  lemma EnterKeepsCalling<D>(p: Ideal<D>, p': Ideal<D>, more: seq<nat>, l: Loop<D>)
    requires Shaped(p) && Shaped(p') && Calling(p) && PassesIn(p.loops) == [] && l.w == PROGRESS && l.from == l.at
    requires p'.ids[PROGRESS] == p.ids[PROGRESS] + more && p'.calls[PROGRESS] == p.calls[PROGRESS]
    requires p'.done == p.done && p'.last == Some(l.d) && p'.loops == p.loops + [l] && p'.queue == p.queue
    requires if l.replay then p.last == Some(l.d) && l.from == |p.ids[PROGRESS]| else l.from == 0
    ensures Calling(p') && AllPasses(p') == AllPasses(p) + [Pass(l.replay, l.d, l.from, l.at)]
  {
    var x := Pass(l.replay, l.d, l.from, l.at);
    PassesSnoc(p.loops, l);
    BegunCalling(p.ids[PROGRESS], more, p.calls[PROGRESS], AllPasses(p), p.last, x, []);
    assert p.done + ([] + [x]) == AllPasses(p) + [x];
  }

  lemma PassesFree<D>(p: Ideal<D>)
    ensures Looping(p, PROGRESS) <==> PassesIn(p.loops) != []
  {
    NoPasses(p.loops);
  }

  lemma WaitsLast<D>(answered: seq<D>, queue: seq<D>, d: D)
    ensures answered + (queue + [d]) + [] == answered + queue + [] + [d]
  {
  }

  lemma PassesLast<D>(answered: seq<D>, d: D)
    ensures answered + [d] + [] + [] == answered + [] + [] + [d]
  {
  }

  lemma DroppedLast<D>(answered: seq<D>, queue: seq<D>)
    ensures answered + queue + [] == answered + [] + queue
  {
  }

  lemma NotifyKeepsCalling<D>(p: Ideal<D>, d: D)
    requires Shaped(p) && Calling(p) && p.settled.None? && p.dropped == []
    ensures var p' := Fired(p, PROGRESS, d);
            && Shaped(p') && Calling(p') && p'.done == p.done && p'.dropped == []
            && Answered(p') == Answered(p) + [d]
  {
    var p', answered := Fired(p, PROGRESS, d), Notified(AllPasses(p));
    PassesFree(p);
    assert p.ids[PROGRESS] + [] == p.ids[PROGRESS];
    if Looping(p, PROGRESS) {
      OthersKeepCalling(p, p', []);
      WaitsLast(answered, p.queue, d);
    } else {
      EnterKeepsCalling(p, p', [], Loop(PROGRESS, 0, 0, d, false));
      NotifiedSnoc(AllPasses(p), Pass(false, d, 0, 0));
      PassesLast(answered, d);
    }
  }

  lemma SettleKeepsCalling<D>(p: Ideal<D>, w: nat, d: D)
    requires Shaped(p) && Calling(p) && w < PROGRESS && p.settled.None?
    ensures var p' := Fired(p, w, d);
            Shaped(p') && Calling(p') && p'.done == p.done && Answered(p') == Answered(p) && p'.dropped == p.dropped
  {
    assert p.ids[PROGRESS] + [] == p.ids[PROGRESS];
    PassesSnoc(p.loops, Loop(w, 0, 0, d, false));
    OthersKeepCalling(p, Fired(p, w, d), []);
  }

  lemma NamedOthersKeepCalling<D>(p: Ideal<D>, w: nat, ids: seq<nat>)
    requires Shaped(p) && Calling(p) && w < PROGRESS
    ensures var p' := Named(p, w, ids);
            Shaped(p') && Calling(p') && p'.done == p.done && Answered(p') == Answered(p) && p'.dropped == p.dropped
  {
    var n, p' := |p.ids[w]|, Named(p, w, ids);
    assert p.ids[PROGRESS] + [] == p.ids[PROGRESS];
    if Latest(p, w).Some? && !Looping(p, w) {
      PassesSnoc(p.loops, Loop(w, n, n, Latest(p, w).value, true));
    }
    assert PassesIn(p'.loops) == PassesIn(p.loops);
    OthersKeepCalling(p, p', []);
  }

  lemma ReplaysAnswerNothing<D>(passes: seq<Pass<D>>, x: Pass<D>)
    requires x.replay
    ensures Notified(passes + [x]) == Notified(passes)
  {
    NotifiedSnoc(passes, x);
  }

  lemma NamedKeepsCalling<D>(p: Ideal<D>, ids: seq<nat>)
    requires Shaped(p) && Calling(p)
    ensures var p' := Named(p, PROGRESS, ids);
            Shaped(p') && Calling(p') && p'.done == p.done && Answered(p') == Answered(p) && p'.dropped == p.dropped
  {
    var n := |p.ids[PROGRESS]|;
    PassesFree(p);
    if p.last.Some? && !Looping(p, PROGRESS) {
      EnterKeepsCalling(p, Named(p, PROGRESS, ids), ids, Loop(PROGRESS, n, n, p.last.value, true));
      ReplaysAnswerNothing(AllPasses(p), Pass(true, p.last.value, n, n));
    } else {
      OthersKeepCalling(p, Named(p, PROGRESS, ids), ids);
    }
  }

  /** A turn of one of Deferred's own functions, or of the winning list. */
  lemma OtherTurnKeepsCalling<D>(p: Ideal<D>)
    requires Shaped(p) && Calling(p) && p.loops != [] && (p.own > 0 || p.loops[|p.loops| - 1].w != PROGRESS)
    requires p.own > 0 ==> p.dropped == []
    ensures var p' := Turned(p);
            Calling(p') && p'.done == p.done && AllPasses(p') == AllPasses(p) && Answered(p') == Answered(p)
  {
    var p', n := Turned(p), |p.loops| - 1;
    assert p.ids[PROGRESS] + [] == p.ids[PROGRESS];
    if p.own == 0 {
      if p.loops[n].at < |p.ids[p.loops[n].w]| {
        assert p'.loops[..n] == p.loops[..n];
      }
      assert PassesIn(p'.loops) == PassesIn(p.loops[..n]) == PassesIn(p.loops);
    }
    OthersKeepCalling(p, p', []);
    if p.own == 1 {
      DroppedLast(Notified(AllPasses(p)), p.queue);
    }
  }

  lemma {:induction false} SameNumber<D>(passes: seq<Pass<D>>)
    ensures |Reached(passes)| == |Notified(passes)|
  {
    if passes != [] {
      SameNumber(passes[..|passes| - 1]);
    }
  }

  /** What a step does to the notifies made: it adds one, or none. */
  function Asked<D>(p: Ideal<D>, e: Event<D>): seq<D> {
    if p.settled.None? && e.FireOn? && e.w == PROGRESS then [e.d] else []
  }

  /** The passes that are over stay as they are, or the one in progress joins them, having got to the end. */
  ghost predicate Closing<D>(p: Ideal<D>, p': Ideal<D>)
    requires Shaped(p) && Shaped(p')
  {
    || p'.done == p.done
    || (p'.done == AllPasses(p) && p'.ids == p.ids
        && (Reached(p'.done) == Reached(p.done) || Reached(p'.done) == Reached(p.done) + [|p.ids[PROGRESS]|]))
  }

  lemma TurnKeepsCalling<D>(p: Ideal<D>)
    requires Shaped(p) && Calling(p) && OneLoopEach(p) && StageOk(p) && p.loops != []
    ensures Calling(Turned(p)) && Answered(Turned(p)) == Answered(p) && Closing(p, Turned(p))
  {
    var l := p.loops[|p.loops| - 1];
    if p.own > 0 || l.w != PROGRESS {
      OtherTurnKeepsCalling(p);
    } else if l.at < |p.ids[PROGRESS]| {
      CallKeepsCalling(p);
    } else {
      OverCloses(p);
      OverKeepsCalling(p);
    }
  }

  lemma FollowKeepsStage<D>(p: Ideal<D>, e: Event<D>)
    requires Shaped(p) && StageOk(p)
    ensures StageOk(Follow(p, e)) && |p.ids[PROGRESS]| <= |Follow(p, e).ids[PROGRESS]|
  {
  }

  lemma FollowKeepsCalling<D>(p: Ideal<D>, e: Event<D>)
    requires Shaped(p) && Calling(p) && OneLoopEach(p) && StageOk(p)
    ensures Calling(Follow(p, e)) && Answered(Follow(p, e)) == Answered(p) + Asked(p, e) && Closing(p, Follow(p, e))
  {
    assert Answered(p) + [] == Answered(p);
    match e
    case FireOn(w, d) =>
      if w < 3 && p.settled.None? {
        if w == PROGRESS {
          NotifyKeepsCalling(p, d);
        } else {
          SettleKeepsCalling(p, w, d);
        }
      }
    case AddTo(w, ids) =>
      if w == PROGRESS {
        NamedKeepsCalling(p, ids);
      } else if w < 3 {
        NamedOthersKeepCalling(p, w, ids);
      }
    case Turn =>
      if p.loops != [] {
        TurnKeepsCalling(p);
      }
    case Back =>
  }

  lemma CoveredMore(reached: seq<nat>, reached': seq<nat>, addedAt: seq<nat>, more: seq<nat>, n: nat, n': nat)
    requires Covered(reached, addedAt, n) && n <= n' && (reached' == reached || reached' == reached + [n])
    requires |reached'| <= |addedAt| && forall i :: 0 <= i < |more| ==> more[i] <= n
    ensures Covered(reached', addedAt + more, n')
  {
  }

  lemma FollowKeepsAnswering<D>(p: Ideal<D>, e: Event<D>, notifies: seq<D>, addedAt: seq<nat>)
    requires Shaped(p) && Calling(p) && OneLoopEach(p) && Answering(p, notifies, addedAt)
    ensures var p', more := Follow(p, e), Asked(p, e);
            Calling(p') && Answering(p', notifies + more, addedAt + (if more == [] then [] else [|p.ids[PROGRESS]|]))
  {
    var p', n := Follow(p, e), |p.ids[PROGRESS]|;
    FollowKeepsStage(p, e);
    FollowKeepsCalling(p, e);
    SameNumber(AllPasses(p));
    SameNumber(p.done);
    assert |Notified(AllPasses(p))| <= |notifies|;
    CoveredMore(Reached(p.done), Reached(p'.done), addedAt,
                if Asked(p, e) == [] then [] else [n], n, |p'.ids[PROGRESS]|);
  }

  // ---------- the law over runs ----------

  lemma {:induction false} SameSettlement<D>(events: seq<Event<D>>)
    ensures IdealOf(events).settled == FirstSettlement(events)
    ensures forall w :: 0 <= w < 3 ==> IdealOf(events).ids[w] == AllAdded(events, w)
  {
    if events != [] {
      SameSettlement(events[..|events| - 1]);
    }
  }

  lemma {:induction false} RunAnswers<D>(events: seq<Event<D>>)
    requires ValidRun(events)
    ensures Calling(IdealOf(events)) && Answering(IdealOf(events), Notifies(events), AddedAt(events))
  {
    if events != [] {
      var before, last := events[..|events| - 1], events[|events| - 1];
      RunAnswers(before);
      RunMirrors(before);
      OneLoopOfFrames(Run(before), IdealOf(before));
      SameSettlement(before);
      FollowKeepsAnswering(IdealOf(before), last, Notifies(before), AddedAt(before));
    }
  }

  lemma OneLoopOfFrames<D>(m: Def<D>, p: Ideal<D>)
    requires Shape(m) && Shaped(p) && Mirrors(m, p)
    ensures OneLoopEach(p)
  {
    forall i, j | 0 <= i < j < |p.loops| ensures p.loops[i].w != p.loops[j].w {
      assert m.frames[i] != m.frames[j];
    }
  }

  lemma AtRest<D>(p: Ideal<D>)
    requires Shaped(p) && Calling(p) && p.loops == []
    ensures var passes := AllPasses(p);
            p.queue == [] && passes == p.done && (passes != [] ==> passes[|passes| - 1].to == |p.ids[PROGRESS]|)
  {
  }

  /**
   Progress over whole runs: the progress calls made are those of passes over the callbacks added, in order of addition.
   A pass for a notify starts with the first callback; the others go on from where the one before ended, with its
   arguments: that is how later additions are called. When nothing is in progress nothing waits, and if anybody notified
   the last pass got to the last callback ever added.
   */
  lemma ProgressCalls<D>(events: seq<Event<D>>)
    requires ValidRun(events)
    ensures var m, p := Run(events), IdealOf(events);
            var ids, passes := AllAdded(events, PROGRESS), AllPasses(p);
            && Within(passes, |ids|) && SameCalls(m.calls[PROGRESS], CallsOfAll(ids, passes)) && Linked(passes)
            && (m.frames == [] ==>
                  p.queue == [] && passes == p.done && (passes != [] ==> passes[|passes| - 1].to == |ids|))
  {
    var m, p := Run(events), IdealOf(events);
    RunMirrors(events);
    RunAnswers(events);
    SameSettlement(events);
    assert SameCalls(m.calls[PROGRESS], p.calls[PROGRESS]);
    if m.frames == [] {
      AtRest(p);
    }
  }

  /**
   The passes for notifies answer the notifies made before settling, first in, first out; the others wait or, once
   settled, are dropped. A pass for a notify that is over has called all callbacks that had been added when the notify
   was made.
   */
  lemma NotifiesAreAnswered<D>(events: seq<Event<D>>)
    requires ValidRun(events)
    ensures var p := IdealOf(events);
            && Notified(AllPasses(p)) + p.queue + p.dropped == Notifies(events) && p.done <= AllPasses(p)
            && (FirstSettlement(events).None? ==> p.dropped == [])
            && Covered(Reached(p.done), AddedAt(events), |AllAdded(events, PROGRESS)|)
  {
    RunAnswers(events);
    SameSettlement(events);
  }

  /** A deferred that nobody settled and that is at rest has called every callback for every notify made so far. */
  lemma EveryNotifyCallsAll<D>(events: seq<Event<D>>)
    requires ValidRun(events) && Run(events).frames == [] && FirstSettlement(events).None?
    ensures Notified(IdealOf(events).done) == Notifies(events)
    ensures |Reached(IdealOf(events).done)| == |AddedAt(events)|
  {
    ProgressCalls(events);
    NotifiesAreAnswered(events);
    RunAnswers(events);
    SameNumber(IdealOf(events).done);
  }
}
