/**
 The garbage collector's place in whole runs: taking its passes out changes no reply, as long as no read meets an
 expired copy of a session before a live one.
 */
module Collection {
  import opened Wrappers
  import opened Sessions
  import opened SessionTable
  import opened Quorum
  import opened Cluster

  /** The first state is the second one without some of its expired table entries. */
  ghost predicate Collected(st: State, full: State) {
    && st.clock == full.clock && st.clients == full.clients && st.created == full.created
    && st.hosts.Keys == full.hosts.Keys
    && forall s :: s in st.hosts ==> CollectedHost(st.hosts[s], full.hosts[s], st.clock)
  }

  ghost predicate CollectedHost(h: Host, full: Host, now: int) {
    && h.up == full.up && h.reboot == full.reboot && h.next == full.next
    && (forall k :: k in h.table ==> k in full.table && full.table[k] == h.table[k])
    && (forall k :: k in full.table && !Expired(full.table[k], now) ==> k in h.table)
  }

  /** What place i of a read answers. */
  function PlaceAnswer(st: State, r: Request, i: nat): Option<SessionData>
    requires r.client in st.clients && |r.order| == |r.readNet| && i < |r.order|
  {
    var h := st.clients[r.client];
    AnswerOf(st, Asked(h.cookie.locations, r.order)[i], CookieKey(h), r.readNet[i])
  }

  /** The read comes back with an expired session although another asked server answers with a live one. */
  ghost predicate Hides(st: State, r: Request)
    requires |r.order| == |r.readNet|
  {
    && r.client in st.clients && ReadBack(st, r).Some? && Expired(ReadBack(st, r).value.session, st.clock)
    && exists i :: 0 <= i < |r.order| && PlaceAnswer(st, r, i).Some? && !Expired(PlaceAnswer(st, r, i).value, st.clock)
  }

  /** Undisturbed clients read one and the same session from every server that has it. */
  lemma UndisturbedHidesNothing(cfg: Config, st: State, r: Request)
    requires Inv(cfg, st) && RequestOk(cfg, st, r)
    requires r.client in st.clients ==> !st.clients[r.client].disturbed
    ensures !Hides(st, r)
  {
    if r.client in st.clients {
      var h := st.clients[r.client];
      ReadsWritten(cfg, st, r);
      assert CookieOk(cfg, st, h);
      forall i | 0 <= i < |r.order| && PlaceAnswer(st, r, i).Some? ensures PlaceAnswer(st, r, i).value == h.written {
        assert Agrees(st, h, h.cookie.locations[r.order[i]]);
      }
    }
  }

  // ---------- one request ----------

  /** A place answers the same in both states, unless the collector took an expired session away. */
  lemma PlaceCollected(st: State, full: State, r: Request, i: nat)
    requires Collected(st, full) && r.client in full.clients && |r.order| == |r.readNet| && i < |r.order|
    ensures var a, b := PlaceAnswer(st, r, i), PlaceAnswer(full, r, i);
            (a.Some? ==> b == a) && (b.Some? && !Expired(b.value, full.clock) ==> a == b)
  {
    var s := Asked(full.clients[r.client].cookie.locations, r.order)[i];
    if s in full.hosts {
      assert CollectedHost(st.hosts[s], full.hosts[s], st.clock);
    }
  }

  /** Whether a read comes back, and with what, place by place. */
  lemma ReadByPlace(st: State, r: Request)
    requires r.client in st.clients && |r.order| == |r.readNet|
    ensures ReadBack(st, r).None? <==> forall i :: 0 <= i < |r.order| ==> PlaceAnswer(st, r, i).None?
    ensures ReadBack(st, r).Some? ==>
              exists i :: 0 <= i < |r.order| && PlaceAnswer(st, r, i) == Some(ReadBack(st, r).value.session)
                          && forall j :: 0 <= j < i ==> PlaceAnswer(st, r, j).None?
  {
    var h := st.clients[r.client];
    var names := Asked(h.cookie.locations, r.order);
    var answers := AnswersOf(st, names, CookieKey(h), r.readNet);
    assert forall i :: 0 <= i < |r.order| ==> answers[i] == PlaceAnswer(st, r, i);
    FirstAnswerIsFirst(names, answers);
  }

  /** A live session that is read back from the full tables is read back from the collected ones. */
  lemma LiveIsRead(st: State, full: State, r: Request)
    requires Collected(st, full) && |r.order| == |r.readNet| && r.client in full.clients && !OpensFresh(full, r)
    ensures !OpensFresh(st, r) && ReadBack(st, r).value.session == ReadBack(full, r).value.session
  {
    ReadByPlace(full, r);
    var x := ReadBack(full, r).value.session;
    var i :| 0 <= i < |r.order| && PlaceAnswer(full, r, i) == Some(x)
             && forall j :: 0 <= j < i ==> PlaceAnswer(full, r, j).None?;
    PlaceCollected(st, full, r, i);
    forall j | 0 <= j < i ensures PlaceAnswer(st, r, j).None? {
      PlaceCollected(st, full, r, j);
    }
    FirstPlaceIsRead(st, r, i);
  }

  lemma FirstPlaceIsRead(st: State, r: Request, i: nat)
    requires r.client in st.clients && |r.order| == |r.readNet| && i < |r.order| && PlaceAnswer(st, r, i).Some?
    requires forall j :: 0 <= j < i ==> PlaceAnswer(st, r, j).None?
    ensures ReadBack(st, r).Some? && ReadBack(st, r).value.session == PlaceAnswer(st, r, i).value
  {
    ReadByPlace(st, r);
    var y := ReadBack(st, r).value.session;
    var k :| 0 <= k < |r.order| && PlaceAnswer(st, r, k) == Some(y) && forall j :: 0 <= j < k ==>
        PlaceAnswer(st, r, j).None?;
    assert k == i;
  }

  /** Where nothing live is hidden, a read that opens a fresh session does so from the collected tables, too. */
  lemma NothingLiveIsRead(st: State, full: State, r: Request)
    requires Collected(st, full) && |r.order| == |r.readNet| && r.client in full.clients && OpensFresh(full, r)
           && !Hides(full, r)
    ensures OpensFresh(st, r)
  {
    ReadByPlace(full, r);
    ReadByPlace(st, r);
    if ReadBack(st, r).Some? {
      var y := ReadBack(st, r).value.session;
      var k :| 0 <= k < |r.order| && PlaceAnswer(st, r, k) == Some(y);
      PlaceCollected(st, full, r, k);
    }
  }

  /**
   Where nothing live is hidden a request works on the same session from the collected tables as from the full ones.
   */
  lemma SameSessionOpened(cfg: Config, st: State, full: State, r: Request)
    requires Collected(st, full) && RequestOk(cfg, full, r) && !Hides(full, r)
    ensures r.server in st.hosts
    ensures OpensFresh(st, r) == OpensFresh(full, r) && Opened(st, r) == Opened(full, r)
  {
    SameRequestOk(cfg, st, full, r);
    if r.client in full.clients {
      if OpensFresh(full, r) {
        NothingLiveIsRead(st, full, r);
      } else {
        LiveIsRead(st, full, r);
      }
    }
  }

  /** Every host after a collector pass. */
  function AllCleaned(st: State): State {
    st.(hosts := map s | s in st.hosts :: st.hosts[s].(table := Cleaned(st.hosts[s].table, st.clock)))
  }

  lemma AllCleanedIsCollected(full: State)
    ensures Collected(AllCleaned(full), full)
  {
    var st := AllCleaned(full);
    forall s | s in st.hosts ensures CollectedHost(st.hosts[s], full.hosts[s], st.clock) {
    }
  }

  lemma CleanedPlaceIsLive(full: State, r: Request, i: nat)
    requires r.client in full.clients && |r.order| == |r.readNet| && i < |r.order|
    ensures PlaceAnswer(AllCleaned(full), r, i).Some? ==>
           !Expired(PlaceAnswer(AllCleaned(full), r, i).value, full.clock)
  {
  }

  /** Behind an expired answer that hides a live one, the collected tables give the live one. */
  lemma HiddenShows(cfg: Config, full: State, r: Request)
    requires Inv(cfg, full) && RequestOk(cfg, full, r) && Hides(full, r)
    ensures Collected(AllCleaned(full), full) && r.server in full.hosts
    ensures Opened(AllCleaned(full), r) != Opened(full, r)
  {
    var st := AllCleaned(full);
    AllCleanedIsCollected(full);
    var i :| 0 <= i < |r.order| && PlaceAnswer(full, r, i).Some? && !Expired(PlaceAnswer(full, r, i).value, full.clock);
    PlaceCollected(st, full, r, i);
    ReadByPlace(st, r);
    var y := ReadBack(st, r).value.session;
    var k :| 0 <= k < |r.order| && PlaceAnswer(st, r, k) == Some(y);
    CleanedPlaceIsLive(full, r, k);
    PlaceCollected(st, full, r, k);
    var s := Asked(full.clients[r.client].cookie.locations, r.order)[k];
    assert TableOk(full.created, full.hosts[s].table);
    NextIdIsNew(full, r.server);
    assert Opened(st, r) == y && y.id in full.created;
  }

  /** Collecting can be noticed by a request exactly when its read hides a live session behind an expired one. */
  lemma CollectingShowsIff(cfg: Config, full: State, r: Request)
    requires Inv(cfg, full) && RequestOk(cfg, full, r)
    ensures (exists st :: Collected(st, full) && r.server in st.hosts && Opened(st, r) != Opened(full, r))
           <==> Hides(full, r)
  {
    if Hides(full, r) {
      HiddenShows(cfg, full, r);
    } else {
      forall st | Collected(st, full) && r.server in st.hosts ensures Opened(st, r) == Opened(full, r) {
        SameSessionOpened(cfg, st, full, r);
      }
    }
  }

  lemma SameRequestOk(cfg: Config, st: State, full: State, r: Request)
    requires Collected(st, full) && RequestOk(cfg, full, r)
    ensures RequestOk(cfg, st, r) && NextId(st, r.server) == NextId(full, r.server)
    ensures AckedBy(st, r) == AckedBy(full, r)
    ensures forall s :: s in st.hosts ==> Stores(st, r, s) == Stores(full, r, s)
  {
    forall s ensures IsUp(st, s) == IsUp(full, s) {
      if s in st.hosts {
        assert CollectedHost(st.hosts[s], full.hosts[s], st.clock);
      }
    }
    assert CollectedHost(st.hosts[r.server], full.hosts[r.server], st.clock);
  }

  lemma SameHosts(cfg: Config, st: State, full: State, r: Request, s: string)
    requires Collected(st, full) && RequestOk(cfg, full, r) && RequestOk(cfg, st, r) && s in st.hosts
    requires OpensFresh(st, r) == OpensFresh(full, r) && Processed(st, r) == Processed(full, r)
    requires Stores(st, r, s) == Stores(full, r, s)
    ensures CollectedHost(HostsAfter(st, r)[s], HostsAfter(full, r)[s], st.clock)
  {
    assert CollectedHost(st.hosts[s], full.hosts[s], st.clock);
  }

  lemma SameReply(cfg: Config, st: State, full: State, r: Request)
    requires Collected(st, full) && RequestOk(cfg, full, r) && RequestOk(cfg, st, r)
    requires AckedBy(st, r) == AckedBy(full, r) && Processed(st, r) == Processed(full, r)
    requires OpensFresh(st, r) == OpensFresh(full, r) && forall s :: s in st.hosts ==>
           Stores(st, r, s) == Stores(full, r, s)
    ensures ReplyTo(cfg, st, r) == ReplyTo(cfg, full, r)
    ensures ClientsAfter(cfg, st, r) == ClientsAfter(cfg, full, r)
  {
  }

  lemma SameService(cfg: Config, st: State, full: State, r: Request)
    requires Collected(st, full) && RequestOk(cfg, full, r)
    requires !Hides(full, r)
    ensures RequestOk(cfg, st, r)
    ensures ReplyTo(cfg, st, r) == ReplyTo(cfg, full, r)
    ensures Collected(ServeStep(cfg, st, r), ServeStep(cfg, full, r))
  {
    SameSessionOpened(cfg, st, full, r);
    SameRequestOk(cfg, st, full, r);
    SameReply(cfg, st, full, r);
    forall s | s in st.hosts ensures CollectedHost(HostsAfter(st, r)[s], HostsAfter(full, r)[s], st.clock) {
      SameHosts(cfg, st, full, r, s);
    }
  }

  /** A collector pass on one side keeps the two sides related. */
  lemma CleaningIsCollected(cfg: Config, st: State, full: State, s: string)
    requires Collected(st, full) && IsUp(st, s)
    ensures Collected(Apply(cfg, st, Clean(s)), full)
  {
    var st' := Apply(cfg, st, Clean(s));
    forall t | t in st'.hosts ensures CollectedHost(st'.hosts[t], full.hosts[t], st'.clock) {
      assert CollectedHost(st.hosts[t], full.hosts[t], st.clock);
    }
  }

  lemma SameOtherStep(cfg: Config, st: State, full: State, step: Step)
    requires Collected(st, full) && Enabled(cfg, st, step) && !step.Serve? && !step.Clean?
    ensures Enabled(cfg, full, step) && Collected(Apply(cfg, st, step), Apply(cfg, full, step))
  {
    var a := Apply(cfg, st, step);
    if step.Crash? || step.Reboot? {
      assert CollectedHost(st.hosts[step.server], full.hosts[step.server], st.clock);
    }
    forall s | s in a.hosts ensures CollectedHost(a.hosts[s], Apply(cfg, full, step).hosts[s], a.clock) {
      assert CollectedHost(st.hosts[s], full.hosts[s], st.clock);
    }
  }

  function NoCleans(steps: seq<Step>): seq<Step> {
    if steps == [] then []
    else NoCleans(steps[..|steps| - 1]) + (if steps[|steps| - 1].Clean? then [] else [steps[|steps| - 1]])
  }

  /** The pages and errors a run sends, in order. */
  ghost function Replies(cfg: Config, steps: seq<Step>): seq<Reply>
    requires ValidRun(cfg, steps)
  {
    if steps == [] then []
    else
      var before, last := steps[..|steps| - 1], steps[|steps| - 1];
      Replies(cfg, before) + (if last.Serve? then [ReplyTo(cfg, Run(cfg, before), last.r)] else [])
  }

  /** No request of the run meets an expired copy of its session before a live one. */
  ghost predicate NothingHidden(cfg: Config, steps: seq<Step>)
    requires ValidRun(cfg, steps)
  {
    steps == [] ||
    var before, last := steps[..|steps| - 1], steps[|steps| - 1];
    NothingHidden(cfg, before) && (last.Serve? ==> !Hides(Run(cfg, before), last.r))
  }

  /** Clients that no failed logout disturbed never meet one. */
  lemma {:induction false} UndisturbedRuns(cfg: Config, steps: seq<Step>)
    requires ValidRun(cfg, steps)
    requires forall k :: 0 <= k < |steps| && ValidRun(cfg, steps[..k]) && steps[k].Serve? ==>
               var clients := Run(cfg, steps[..k]).clients;
               steps[k].r.client in clients ==> !clients[steps[k].r.client].disturbed
    ensures NothingHidden(cfg, steps)
  {
    if steps != [] {
      var before, last := steps[..|steps| - 1], steps[|steps| - 1];
      assert forall k :: 0 <= k < |before| ==> before[..k] == steps[..k];
      UndisturbedRuns(cfg, before);
      if last.Serve? {
        RunKeepsInv(cfg, before);
        UndisturbedHidesNothing(cfg, Run(cfg, before), last.r);
      }
    }
  }

  lemma Extend(cfg: Config, steps: seq<Step>, step: Step)
    requires ValidRun(cfg, steps) && Enabled(cfg, Run(cfg, steps), step)
    ensures ValidRun(cfg, steps + [step])
    ensures Run(cfg, steps + [step]) == Apply(cfg, Run(cfg, steps), step)
    ensures Replies(cfg, steps + [step])
         == Replies(cfg, steps) + (if step.Serve? then [ReplyTo(cfg, Run(cfg, steps), step.r)] else [])
  {
    assert (steps + [step])[..|steps|] == steps;
  }

  lemma SameStep(cfg: Config, st: State, full: State, step: Step)
    requires Collected(st, full) && Enabled(cfg, st, step) && !step.Clean?
    requires step.Serve? ==> !Hides(full, step.r)
    ensures Enabled(cfg, full, step) && Collected(Apply(cfg, st, step), Apply(cfg, full, step))
    ensures step.Serve? ==> ReplyTo(cfg, st, step.r) == ReplyTo(cfg, full, step.r)
  {
    if step.Serve? {
      assert CollectedHost(st.hosts[step.r.server], full.hosts[step.r.server], st.clock);
      SameService(cfg, st, full, step.r);
    } else {
      SameOtherStep(cfg, st, full, step);
    }
  }

  /** Hosts that are up on one side are up on the other, whatever their tables hold. */
  ghost predicate SameHostsUp(st: State, full: State) {
    st.hosts.Keys == full.hosts.Keys && forall s :: s in st.hosts ==> st.hosts[s].up == full.hosts[s].up
  }

  lemma SameUpStep(cfg: Config, st: State, full: State, step: Step)
    requires SameHostsUp(st, full) && Enabled(cfg, st, step)
    ensures Enabled(cfg, full, step) && SameHostsUp(Apply(cfg, st, step), Apply(cfg, full, step))
    ensures step.Clean? ==> SameHostsUp(Apply(cfg, st, step), full)
  {
  }

  /** Taking the collector passes out of a run leaves a run. */
  lemma {:induction false} NoCleansIsRun(cfg: Config, steps: seq<Step>)
    requires ValidRun(cfg, steps)
    ensures ValidRun(cfg, NoCleans(steps)) && SameHostsUp(Run(cfg, steps), Run(cfg, NoCleans(steps)))
  {
    if steps != [] {
      var before, last := steps[..|steps| - 1], steps[|steps| - 1];
      NoCleansIsRun(cfg, before);
      SameUpStep(cfg, Run(cfg, before), Run(cfg, NoCleans(before)), last);
      if last.Clean? {
        assert NoCleans(steps) == NoCleans(before);
      } else {
        Extend(cfg, NoCleans(before), last);
      }
    }
  }

  /**
   Collector passes anywhere in a run change no reply, as long as without them no request's read hides a live session.
   */
  lemma {:induction false} CollectorIsInvisible(cfg: Config, steps: seq<Step>)
    requires ValidRun(cfg, steps) && ValidRun(cfg, NoCleans(steps)) && NothingHidden(cfg, NoCleans(steps))
    ensures Collected(Run(cfg, steps), Run(cfg, NoCleans(steps)))
    ensures Replies(cfg, steps) == Replies(cfg, NoCleans(steps))
  {
    if steps != [] {
      var before, last := steps[..|steps| - 1], steps[|steps| - 1];
      var kept := NoCleans(before);
      if last.Clean? {
        assert NoCleans(steps) == kept;
        CollectorIsInvisible(cfg, before);
        CleaningIsCollected(cfg, Run(cfg, before), Run(cfg, kept), last.server);
      } else {
        assert NoCleans(steps)[..|kept|] == kept;
        CollectorIsInvisible(cfg, before);
        SameStep(cfg, Run(cfg, before), Run(cfg, kept), last);
        Extend(cfg, kept, last);
      }
    }
  }
}
