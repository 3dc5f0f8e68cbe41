/**
 What the step system promises over whole runs: session consistency, surviving F failures but no more, unique session
 IDs and version accounting.
 */
module Resilience {
  import opened Wrappers
  import opened Sessions
  import opened SessionTable
  import opened Quorum
  import opened Cluster

  // ---------- session consistency ----------

  /**
   After any run, every server named in the cookie of a client that no failed logout disturbed holds nothing under the
   cookie's key but the session written when the cookie was issued; and before that session expires a server that did
   not crash since holds it. Neither lost datagrams nor failed writes, collector passes or reboots change that.
   */
  lemma SessionConsistency(cfg: Config, steps: seq<Step>, c: nat, s: string)
    requires ValidRun(cfg, steps) && c in Run(cfg, steps).clients
    requires !Run(cfg, steps).clients[c].disturbed && s in Run(cfg, steps).clients[c].cookie.locations
    ensures var st, h := Run(cfg, steps), Run(cfg, steps).clients[c];
            && s in st.hosts && KeyOf(h.written) == CookieKey(h)
            && (CookieKey(h) in st.hosts[s].table ==> st.hosts[s].table[CookieKey(h)] == h.written)
            && (s !in h.crashed ==> st.hosts[s].up)
            && (s !in h.crashed && !Expired(h.written, st.clock) ==> CookieKey(h) in st.hosts[s].table)
  {
    RunKeepsInv(cfg, steps);
    var st := Run(cfg, steps);
    assert CookieOk(cfg, st, st.clients[c]);
    assert Agrees(st, st.clients[c], s);
  }

  // ---------- surviving F failures ----------

  /** Which of the asked servers neither crashed since acknowledging nor are cut off by the network. */
  function Usable(st: State, r: Request): (u: seq<bool>)
    requires r.client in st.clients && |r.order| == |r.readNet|
    ensures |u| == |r.order|
  {
    var h := st.clients[r.client];
    var names := Asked(h.cookie.locations, r.order);
    seq(|names|, i requires 0 <= i < |names| => names[i] !in h.crashed && r.readNet[i].Complete())
  }

  lemma {:induction false} SomeoneLeft(u: seq<bool>)
    requires CountSilent(u) < |u|
    ensures exists i :: 0 <= i < |u| && u[i]
  {
    if !u[0] {
      SomeoneLeft(u[1..]);
      var i :| 0 <= i < |u| - 1 && u[1..][i];
      assert u[i + 1];
    }
  }

  /**
   With at most F of the F+1 named servers crashed or silent, an unexpired session is read back exactly as it was
   written when the cookie was issued; and with at most F of the 2F+1 targets silent the page shows its update.
   */
  lemma SurvivesFFailures(cfg: Config, steps: seq<Step>, r: Request)
    requires ValidRun(cfg, steps)
    requires var st := Run(cfg, steps);
             && RequestOk(cfg, st, r)
             && r.client in st.clients && !st.clients[r.client].disturbed
             && !Expired(st.clients[r.client].written, st.clock)
             && CountSilent(Usable(st, r)) <= cfg.f
    ensures var st := Run(cfg, steps);
            var written := st.clients[r.client].written;
            && ReadBack(st, r).Some? && ReadBack(st, r).value.session == written
            && !OpensFresh(st, r)
            && (CountSilent(AckedBy(st, r)) <= cfg.f ==>
                  && Located(cfg, st, r).Some?
                  && ReplyTo(cfg, st, r)
                     == Page(Updated(written, r.action, st.clock), Located(cfg, st, r).value, r.action.Logout?))
  {
    RunKeepsInv(cfg, steps);
    var st := Run(cfg, steps);
    SomeoneAnswers(cfg, st, r);
    if CountSilent(AckedBy(st, r)) <= cfg.f {
      WriteAvailable(cfg.f, r.targets, AckedBy(st, r));
    }
  }

  lemma SomeoneAnswers(cfg: Config, st: State, r: Request)
    requires Inv(cfg, st) && RequestOk(cfg, st, r)
    requires r.client in st.clients && !st.clients[r.client].disturbed
    requires !Expired(st.clients[r.client].written, st.clock) && CountSilent(Usable(st, r)) <= cfg.f
    ensures ReadBack(st, r).Some? && ReadBack(st, r).value.session == st.clients[r.client].written
  {
    var h := st.clients[r.client];
    var names := Asked(h.cookie.locations, r.order);
    SomeoneLeft(Usable(st, r));
    var i :| 0 <= i < |names| && Usable(st, r)[i];
    assert CookieOk(cfg, st, h);
    assert names[i] in h.cookie.locations;
    assert Agrees(st, h, names[i]);
    assert AnswersOf(st, names, CookieKey(h), r.readNet)[i].Some?;
    FirstAnswerIsFirst(names, AnswersOf(st, names, CookieKey(h), r.readNet));
    ReadsWritten(cfg, st, r);
  }

  /** Place i of a read yields nothing: the server is cut off, down or without the cookie's version of the session. */
  predicate OutOfReach(st: State, r: Request, i: nat)
    requires r.client in st.clients && |r.order| == |r.readNet| && i < |r.order|
  {
    var h := st.clients[r.client];
    var s := Asked(h.cookie.locations, r.order)[i];
    !r.readNet[i].Complete() || !IsUp(st, s) || CookieKey(h) !in st.hosts[s].table
  }

  /**
   The bound is tight: a read comes back empty, and opens a fresh session, exactly when every asked server is out of
   reach.
   */
  lemma AllOutOfReachOpensFresh(st: State, r: Request)
    requires r.client in st.clients && |r.order| == |r.readNet|
    ensures ReadBack(st, r).None? <==> forall i :: 0 <= i < |r.order| ==> OutOfReach(st, r, i)
    ensures r.server in st.hosts && (forall i :: 0 <= i < |r.order| ==> OutOfReach(st, r, i)) ==>
              OpensFresh(st, r) && Opened(st, r) == Created(NextId(st, r.server), st.clock)
  {
    var h := st.clients[r.client];
    var names := Asked(h.cookie.locations, r.order);
    var answers := AnswersOf(st, names, CookieKey(h), r.readNet);
    FirstAnswerIsFirst(names, answers);
    forall i | 0 <= i < |r.order| ensures answers[i].None? <==> OutOfReach(st, r, i) {
    }
  }

  /** One more crash: every other server and every cookie stays as it was. */
  lemma OneCrash(cfg: Config, steps: seq<Step>, s: string) returns (next: seq<Step>)
    requires ValidRun(cfg, steps) && IsUp(Run(cfg, steps), s)
    ensures next == steps + [Crash(s)] && ValidRun(cfg, next)
    ensures Run(cfg, next) == Apply(cfg, Run(cfg, steps), Crash(s))
  {
    next := steps + [Crash(s)];
    assert next[..|next| - 1] == steps;
  }

  /** The same clients hold the same cookies, and no server is up that was not, nor one of the given. */
  ghost predicate Downed(st: State, st': State, names: seq<string>) {
    && (forall c :: c in st.clients ==> c in st'.clients && st'.clients[c].cookie == st.clients[c].cookie)
    && (forall s :: IsUp(st', s) ==> IsUp(st, s) && s !in names)
  }

  lemma CrashDowns(cfg: Config, st: State, s: string)
    requires IsUp(st, s)
    ensures Downed(st, Apply(cfg, st, Crash(s)), [s])
  {
  }

  lemma DownedMore(st: State, st': State, st'': State, names: seq<string>)
    requires names != [] && Downed(st, st', [names[0]]) && Downed(st', st'', names[1..])
    ensures Downed(st, st'', names)
  {
    forall s | IsUp(st'', s) ensures s !in names {
      assert IsUp(st', s);
      assert names == [names[0]] + names[1..];
    }
  }

  /** Crashing the given servers, those of them that are up, one after the other. */
  lemma {:induction false} CrashAll(cfg: Config, steps: seq<Step>, names: seq<string>) returns (more: seq<Step>)
    requires ValidRun(cfg, steps)
    ensures |more| <= |names| && (forall i :: 0 <= i < |more| ==> more[i].Crash?) && ValidRun(cfg, steps + more)
    ensures Downed(Run(cfg, steps), Run(cfg, steps + more), names)
    decreases |names|
  {
    var st := Run(cfg, steps);
    if names == [] {
      more := [];
      assert steps + more == steps;
    } else if IsUp(st, names[0]) {
      var next := OneCrash(cfg, steps, names[0]);
      CrashDowns(cfg, st, names[0]);
      var rest := CrashAll(cfg, next, names[1..]);
      more := [Crash(names[0])] + rest;
      assert steps + more == next + rest;
      DownedMore(st, Run(cfg, next), Run(cfg, steps + more), names);
    } else {
      more := CrashAll(cfg, steps, names[1..]);
      assert names == [names[0]] + names[1..];
    }
  }

  // ---------- what is lost stays lost ----------

  /** No server the cookie names holds its version of the session, and no client has another cookie for that session. */
  ghost predicate Lost(st: State, cookie: Cookie) {
    && cookie.id in st.created
    && (forall s :: s in cookie.locations && s in st.hosts ==>
          TableKey(cookie.id, cookie.version) !in st.hosts[s].table)
    && (forall c :: c in st.clients && st.clients[c].cookie.id == cookie.id ==> st.clients[c].cookie == cookie)
  }

  /** A client whose session is lost reads nothing and is given a new one. */
  lemma LostReadsNothing(cfg: Config, st: State, r: Request)
    requires RequestOk(cfg, st, r) && r.client in st.clients && Lost(st, st.clients[r.client].cookie)
    requires |st.clients[r.client].cookie.locations| == cfg.WQ()
    ensures ReadBack(st, r).None? && OpensFresh(st, r) && Opened(st, r) == Created(NextId(st, r.server), st.clock)
  {
    var locations := st.clients[r.client].cookie.locations;
    forall i | 0 <= i < |r.order| ensures OutOfReach(st, r, i) {
      assert locations[r.order[i]] in locations;
    }
    AllOutOfReachOpensFresh(st, r);
  }

  /** Nobody writes a lost session back: only its own client could, and reads nothing. */
  lemma LostIsNotWritten(cfg: Config, st: State, r: Request, cookie: Cookie)
    requires Inv(cfg, st) && RequestOk(cfg, st, r) && Lost(st, cookie)
    ensures KeyOf(Processed(st, r)) != TableKey(cookie.id, cookie.version)
    ensures Processed(st, r).id != cookie.id
  {
    ProcessedFacts(cfg, st, r);
    if Processed(st, r).id == cookie.id {
      assert CookieOk(cfg, st, st.clients[r.client]);
      LostReadsNothing(cfg, st, r);
      assert false;
    }
  }

  lemma LostStays(cfg: Config, st: State, step: Step, cookie: Cookie)
    requires Inv(cfg, st) && Enabled(cfg, st, step) && Lost(st, cookie)
    ensures Lost(Apply(cfg, st, step), cookie)
  {
    var st' := Apply(cfg, st, step);
    if step.Serve? {
      LostIsNotWritten(cfg, st, step.r, cookie);
      forall c | c in st'.clients && st'.clients[c].cookie.id == cookie.id ensures st'.clients[c].cookie == cookie {
        CookieSource(cfg, st, step.r, c);
      }
    } else {
      HostsFade(cfg, st, step);
      forall s | s in cookie.locations && s in st'.hosts
        ensures TableKey(cookie.id, cookie.version) !in st'.hosts[s].table
      {
        assert HostFades(st.hosts[s], st'.hosts[s], st'.clock);
      }
    }
  }

  /** A lost session stays lost whatever happens next. */
  lemma {:induction false} LostForGood(cfg: Config, steps: seq<Step>, later: seq<Step>, cookie: Cookie)
    requires ValidRun(cfg, steps) && Lost(Run(cfg, steps), cookie) && ValidRun(cfg, steps + later)
    ensures Lost(Run(cfg, steps + later), cookie)
    decreases |later|
  {
    if later == [] {
      assert steps + later == steps;
    } else {
      var before := later[..|later| - 1];
      assert (steps + later)[..|steps + later| - 1] == steps + before;
      LostForGood(cfg, steps, before, cookie);
      RunKeepsInv(cfg, steps + before);
      LostStays(cfg, Run(cfg, steps + before), later[|later| - 1], cookie);
    }
  }

  /** The same request with every location asked in turn and every read carried through. */
  function AskingAll(cfg: Config, r: Request): Request {
    r.(order := seq(cfg.R(), i requires 0 <= i < cfg.R() => i), readNet := seq(cfg.R(), _ => Exchange(true, true)))
  }

  lemma AllAskedAndGone(cfg: Config, st: State, r: Request, s: string)
    requires HostsInv(cfg, st) && r.client in st.clients && s in st.clients[r.client].cookie.locations && s in st.hosts
    requires |st.clients[r.client].cookie.locations| == cfg.WQ() && ReadBack(st, AskingAll(cfg, r)).None?
    ensures CookieKey(st.clients[r.client]) !in st.hosts[s].table
  {
    var locations, all := st.clients[r.client].cookie.locations, AskingAll(cfg, r);
    AllOutOfReachOpensFresh(st, all);
    var i :| 0 <= i < |locations| && locations[i] == s;
    assert OutOfReach(st, all, i);
  }

  /**
   A client that can be served at all has lost its session exactly when no request of its, whatever the network does,
   reads anything.
   */
  lemma LostIffNothingIsRead(cfg: Config, st: State, r: Request)
    requires Inv(cfg, st) && RequestOk(cfg, st, r) && r.client in st.clients
    ensures Lost(st, st.clients[r.client].cookie)
       <==> forall r' :: RequestOk(cfg, st, r') && r'.client == r.client ==> ReadBack(st, r').None?
  {
    var cookie := st.clients[r.client].cookie;
    assert CookieOk(cfg, st, st.clients[r.client]);
    if Lost(st, cookie) {
      forall r' | RequestOk(cfg, st, r') && r'.client == r.client ensures ReadBack(st, r').None? {
        LostReadsNothing(cfg, st, r');
      }
    }
    if forall r' :: RequestOk(cfg, st, r') && r'.client == r.client ==> ReadBack(st, r').None? {
      var all := AskingAll(cfg, r);
      assert RequestOk(cfg, st, all);
      forall s | s in cookie.locations && s in st.hosts
        ensures TableKey(cookie.id, cookie.version) !in st.hosts[s].table
      {
        AllAskedAndGone(cfg, st, r, s);
      }
    }
  }

  /** The session is lost in every state that can follow the run. */
  ghost predicate StaysLost(cfg: Config, steps: seq<Step>, cookie: Cookie) {
    forall later :: ValidRun(cfg, steps + later) ==> Lost(Run(cfg, steps + later), cookie)
  }

  lemma AllDownIsLost(cfg: Config, st: State, c: nat)
    requires Inv(cfg, st) && c in st.clients && forall s :: s in st.clients[c].cookie.locations ==> !IsUp(st, s)
    ensures Lost(st, st.clients[c].cookie)
  {
    assert CookieOk(cfg, st, st.clients[c]);
  }

  /** The servers a cookie names can all go down in F+1 crashes, and the session is then lost for good. */
  lemma CrashesLoseIt(cfg: Config, steps: seq<Step>, c: nat)
    requires ValidRun(cfg, steps) && c in Run(cfg, steps).clients
    ensures exists more: seq<Step> ::
              && |more| <= cfg.f + 1 && (forall i :: 0 <= i < |more| ==> more[i].Crash?) && ValidRun(cfg, steps + more)
              && StaysLost(cfg, steps + more, Run(cfg, steps).clients[c].cookie)
              && c in Run(cfg, steps + more).clients
              && Run(cfg, steps + more).clients[c].cookie == Run(cfg, steps).clients[c].cookie
  {
    var cookie := Run(cfg, steps).clients[c].cookie;
    RunKeepsInv(cfg, steps);
    assert CookieOk(cfg, Run(cfg, steps), Run(cfg, steps).clients[c]);
    var more := CrashAll(cfg, steps, cookie.locations);
    RunKeepsInv(cfg, steps + more);
    AllDownIsLost(cfg, Run(cfg, steps + more), c);
    forall later | ValidRun(cfg, steps + more + later) ensures Lost(Run(cfg, steps + more + later), cookie) {
      LostForGood(cfg, steps + more, later, cookie);
    }
  }

  // ---------- session IDs ----------

  /** The IDs of the sessions a run created, in order. */
  ghost function Minted(cfg: Config, steps: seq<Step>): seq<SessionId>
    requires ValidRun(cfg, steps)
  {
    if steps == [] then []
    else
      var before, last := steps[..|steps| - 1], steps[|steps| - 1];
      Minted(cfg, before) +
      (if last.Serve? && OpensFresh(Run(cfg, before), last.r) then [NextId(Run(cfg, before), last.r.server)] else [])
  }

  /** No two sessions of a run share an ID, although every reboot restarts its server's counter. */
  lemma {:induction false} SessionIdsAreUnique(cfg: Config, steps: seq<Step>)
    requires ValidRun(cfg, steps)
    ensures Distinct(Minted(cfg, steps))
    ensures Minted(cfg, steps) == Run(cfg, steps).created
  {
    if steps != [] {
      SessionIdsAreUnique(cfg, steps[..|steps| - 1]);
    }
    RunKeepsInv(cfg, steps);
  }

  // ---------- versions ----------

  predicate CountsFor(cfg: Config, st: State, step: Step, id: SessionId)
    requires step.Serve? ==>
           |step.r.order| == |step.r.readNet| && |step.r.targets| == |step.r.writeNet| && step.r.server in st.hosts
  {
    step.Serve? && Bumps(step.r.action) && step.r.delivered
    && ReplyTo(cfg, st, step.r).Page? && ReplyTo(cfg, st, step.r).session.id == id
  }

  /** How many Refresh and Replace requests of a run ended in a page for that session. */
  ghost function UpdatesOf(cfg: Config, steps: seq<Step>, id: SessionId): nat
    requires ValidRun(cfg, steps)
  {
    if steps == [] then 0
    else
      var before := steps[..|steps| - 1];
      UpdatesOf(cfg, before, id) + (if CountsFor(cfg, Run(cfg, before), steps[|steps| - 1], id) then 1 else 0)
  }

  lemma {:induction false} UncreatedHaveNoUpdates(cfg: Config, steps: seq<Step>, id: SessionId)
    requires ValidRun(cfg, steps) && id !in Run(cfg, steps).created
    ensures UpdatesOf(cfg, steps, id) == 0
  {
    if steps != [] {
      var before, last := steps[..|steps| - 1], steps[|steps| - 1];
      UncreatedHaveNoUpdates(cfg, before, id);
      if last.Serve? {
        RunKeepsInv(cfg, before);
        ProcessedFacts(cfg, Run(cfg, before), last.r);
      }
    }
  }

  lemma UncreatedHaveNoUpdatesNext(cfg: Config, steps: seq<Step>, r: Request)
    requires ValidRun(cfg, steps) && RequestOk(cfg, Run(cfg, steps), r)
    ensures UpdatesOf(cfg, steps, NextId(Run(cfg, steps), r.server)) == 0
  {
    RunKeepsInv(cfg, steps);
    NextIdIsNew(Run(cfg, steps), r.server);
    UncreatedHaveNoUpdates(cfg, steps, NextId(Run(cfg, steps), r.server));
  }

  /** One step moves a session's version by at most one, and only when its own client's update succeeds. */
  lemma VersionMovesByUpdates(cfg: Config, st: State, step: Step, c: nat)
    requires Inv(cfg, st) && Enabled(cfg, st, step)
    requires c in st.clients && c in Apply(cfg, st, step).clients
    requires Apply(cfg, st, step).clients[c].cookie.id == st.clients[c].cookie.id
    ensures Apply(cfg, st, step).clients[c].cookie.version
         == st.clients[c].cookie.version
            + (if step.Serve? && step.r.client == c && CountsFor(cfg, st, step, st.clients[c].cookie.id) then 1 else 0)
  {
    if step.Serve? {
      ProcessedFacts(cfg, st, step.r);
      assert CookieOk(cfg, st, st.clients[c]);
    }
  }

  /** A page for a client's session only ever answers that client. */
  lemma PageIsOwn(cfg: Config, st: State, step: Step, c: nat)
    requires Inv(cfg, st) && Enabled(cfg, st, step) && c in st.clients
    requires CountsFor(cfg, st, step, st.clients[c].cookie.id)
    ensures step.r.client == c
  {
    ProcessedFacts(cfg, st, step.r);
    assert CookieOk(cfg, st, st.clients[c]);
  }

  /** A client whose session changed was just handed a fresh one. */
  lemma NewSessionIsFresh(cfg: Config, st: State, step: Step, c: nat)
    requires Inv(cfg, st) && Enabled(cfg, st, step) && c in Apply(cfg, st, step).clients
    requires c in st.clients ==> Apply(cfg, st, step).clients[c].cookie.id != st.clients[c].cookie.id
    ensures step.Serve? && step.r.client == c
    ensures var cookie := Apply(cfg, st, step).clients[c].cookie;
            && cookie.id == NextId(st, step.r.server)
            && cookie.version == if CountsFor(cfg, st, step, cookie.id) then 1 else 0
  {
    if step.Serve? {
      NewCookieIsProcessed(cfg, st, step.r, c);
      ProcessedFacts(cfg, st, step.r);
    }
  }

  /** A cookie a request brings is that of the session it processed. */
  lemma NewCookieIsProcessed(cfg: Config, st: State, r: Request, c: nat)
    requires RequestOk(cfg, st, r) && c in ClientsAfter(cfg, st, r)
    requires c in st.clients ==> ClientsAfter(cfg, st, r)[c].cookie.id != st.clients[c].cookie.id
    ensures r.client == c && r.delivered && !r.action.Logout? && ReplyTo(cfg, st, r).Page?
    ensures ClientsAfter(cfg, st, r)[c].cookie.id == Processed(st, r).id
    ensures ClientsAfter(cfg, st, r)[c].cookie.version == Processed(st, r).version
  {
  }

  /** The version in a cookie is the number of its session's updates that reached the client. */
  lemma {:induction false} VersionCountsUpdates(cfg: Config, steps: seq<Step>, c: nat)
    requires ValidRun(cfg, steps) && c in Run(cfg, steps).clients
    ensures var cookie := Run(cfg, steps).clients[c].cookie;
            cookie.version == UpdatesOf(cfg, steps, cookie.id)
  {
    var before, last := steps[..|steps| - 1], steps[|steps| - 1];
    var st := Run(cfg, before);
    RunKeepsInv(cfg, before);
    var cookie := Run(cfg, steps).clients[c].cookie;
    if c in st.clients && st.clients[c].cookie.id == cookie.id {
      VersionCountsUpdates(cfg, before, c);
      VersionMovesByUpdates(cfg, st, last, c);
      if CountsFor(cfg, st, last, cookie.id) {
        PageIsOwn(cfg, st, last, c);
      }
    } else {
      NewSessionIsFresh(cfg, st, last, c);
      UncreatedHaveNoUpdatesNext(cfg, before, last.r);
    }
  }
}
