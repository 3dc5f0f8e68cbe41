/**
 What a client is shown over whole runs: the text of its session and how long the session lives, computed from the
 delivered pages of the run.
 */
module Shown {
  import opened Wrappers
  import opened Sessions
  import opened SessionTable
  import opened Quorum
  import opened Cluster
  import opened Resilience

  /** A session's text, and the last moment at which it lives. */
  datatype Told = Told(text: string, expires: int)

  /** A page for that session reaches the client, which keeps its cookie. */
  predicate Tells(cfg: Config, st: State, step: Step, id: SessionId)
    requires step.Serve? ==>
           |step.r.order| == |step.r.readNet| && |step.r.targets| == |step.r.writeNet| && step.r.server in st.hosts
  {
    step.Serve? && step.r.delivered && !step.r.action.Logout?
    && ReplyTo(cfg, st, step.r).Page? && ReplyTo(cfg, st, step.r).session.id == id
  }

  /** The request works on a copy that a logout of its client has rewritten without a page. */
  predicate Overtaken(st: State, r: Request)
    requires |r.order| == |r.readNet|
  {
    r.client in st.clients && !OpensFresh(st, r) && ReadBack(st, r).value.session != st.clients[r.client].written
  }

  /** What a page tells, given what was told before. */
  function Retold(told: Told, st: State, r: Request): Told
    requires |r.order| == |r.readNet|
  {
    var base := if OpensFresh(st, r) then Told("Hello, User!", st.clock + 600000)
                else if Overtaken(st, r) then Told("You have logged out.", st.clock)
                else told;
    match r.action
    case Replace(m) => Told(m, st.clock + 600100)
    case Refresh => Told(base.text, st.clock + 600100)
    case _ => base
  }

  /** The text and the time that the pages of a run have told about a session. */
  ghost function ToldOf(cfg: Config, steps: seq<Step>, id: SessionId): Told
    requires ValidRun(cfg, steps)
  {
    if steps == [] then Told("", 0)
    else
      var before, last := steps[..|steps| - 1], steps[|steps| - 1];
      if Tells(cfg, Run(cfg, before), last, id) then Retold(ToldOf(cfg, before, id), Run(cfg, before), last.r)
      else ToldOf(cfg, before, id)
  }

  // ---------- copies that a logout rewrote ----------

  /** What a named server has under the cookie's key: the written session, or what a logout has made of it. */
  ghost predicate CopyOk(h: Holder, copy: SessionData, now: int) {
    copy == h.written || (copy.message == "You have logged out." && copy.expires <= now)
  }

  ghost predicate CopiesOk(st: State) {
    forall c, s :: c in st.clients && s in st.clients[c].cookie.locations && s in st.hosts
                   && CookieKey(st.clients[c]) in st.hosts[s].table ==>
      CopyOk(st.clients[c], st.hosts[s].table[CookieKey(st.clients[c])], st.clock)
  }

  /** A read brings back one of those copies. */
  lemma ReadIsCopy(cfg: Config, st: State, r: Request)
    requires Inv(cfg, st) && RequestOk(cfg, st, r) && CopiesOk(st) && ReadBack(st, r).Some?
    ensures r.client in st.clients && CopyOk(st.clients[r.client], ReadBack(st, r).value.session, st.clock)
  {
    var h := st.clients[r.client];
    var names := Asked(h.cookie.locations, r.order);
    var answers := AnswersOf(st, names, CookieKey(h), r.readNet);
    FirstAnswerIsFirst(names, answers);
    var i :| 0 <= i < |names| && answers[i] == Some(ReadBack(st, r).value.session);
    assert CookieOk(cfg, st, h);
    AnswerIsCopy(st, h, r.client, h.cookie.locations[r.order[i]], r.readNet[i]);
  }

  lemma AnswerIsCopy(st: State, h: Holder, c: nat, s: string, x: Exchange)
    requires CopiesOk(st) && c in st.clients && st.clients[c] == h && s in h.cookie.locations
    ensures AnswerOf(st, s, CookieKey(h), x).Some? ==> CopyOk(h, AnswerOf(st, s, CookieKey(h), x).value, st.clock)
  {
  }

  /** Storing what a client makes of its own session without a new version leaves a copy. */
  lemma StoredIsCopy(cfg: Config, st: State, r: Request)
    requires Inv(cfg, st) && RequestOk(cfg, st, r) && CopiesOk(st) && !OpensFresh(st, r) && !Bumps(r.action)
    ensures r.client in st.clients && CopyOk(st.clients[r.client], Processed(st, r), st.clock)
  {
    ReadIsCopy(cfg, st, r);
  }

  /** A cookie's key is rewritten by its own client only, and only without a new version. */
  lemma OwnKeyOnly(cfg: Config, st: State, r: Request, c: nat)
    requires Inv(cfg, st) && RequestOk(cfg, st, r) && c in st.clients
    requires KeyOf(Processed(st, r)) == CookieKey(st.clients[c])
    ensures c == r.client && !OpensFresh(st, r) && !Bumps(r.action)
  {
    ProcessedFacts(cfg, st, r);
    assert CookieOk(cfg, st, st.clients[c]);
  }

  lemma KeptCopy(cfg: Config, st: State, r: Request, c: nat, s: string)
    requires Inv(cfg, st) && RequestOk(cfg, st, r) && CopiesOk(st) && c in st.clients
    requires s in st.clients[c].cookie.locations && s in st.hosts
    requires CookieKey(st.clients[c]) in HostsAfter(st, r)[s].table
    ensures CopyOk(st.clients[c], HostsAfter(st, r)[s].table[CookieKey(st.clients[c])], st.clock)
  {
    if KeyOf(Processed(st, r)) == CookieKey(st.clients[c]) && Stores(st, r, s) {
      OwnKeyOnly(cfg, st, r, c);
      StoredIsCopy(cfg, st, r);
    }
  }

  /** A holder after a request is the one from before, disturbed or not, or its client's new one. */
  lemma HolderAfter(cfg: Config, st: State, r: Request, c: nat)
    requires RequestOk(cfg, st, r) && c in ClientsAfter(cfg, st, r)
    ensures var h := ClientsAfter(cfg, st, r)[c];
            if c == r.client && r.delivered && Located(cfg, st, r).Some?
            then !r.action.Logout? && h.written == Processed(st, r) && CookieKey(h) == KeyOf(Processed(st, r))
                 && h.cookie.locations == Located(cfg, st, r).value
            else c in st.clients && h.written == st.clients[c].written && h.cookie == st.clients[c].cookie
  {
  }

  lemma ServeKeepsCopies(cfg: Config, st: State, r: Request)
    requires Inv(cfg, st) && RequestOk(cfg, st, r) && CopiesOk(st)
    ensures CopiesOk(ServeStep(cfg, st, r))
  {
    var st' := ServeStep(cfg, st, r);
    forall c, s | c in st'.clients && s in st'.clients[c].cookie.locations && s in st'.hosts
                  && CookieKey(st'.clients[c]) in st'.hosts[s].table
      ensures CopyOk(st'.clients[c], st'.hosts[s].table[CookieKey(st'.clients[c])], st'.clock)
    {
      HolderAfter(cfg, st, r, c);
      if c == r.client && r.delivered && Located(cfg, st, r).Some? {
        LocatedFacts(cfg, st, r);
      } else {
        KeptCopy(cfg, st, r, c, s);
      }
    }
  }

  lemma FadeKeepsCopies(cfg: Config, st: State, step: Step)
    requires Inv(cfg, st) && Enabled(cfg, st, step) && CopiesOk(st) && !step.Serve?
    ensures CopiesOk(Apply(cfg, st, step))
  {
    var st' := Apply(cfg, st, step);
    HostsFade(cfg, st, step);
    forall c, s | c in st'.clients && s in st'.clients[c].cookie.locations && s in st'.hosts
                  && CookieKey(st'.clients[c]) in st'.hosts[s].table
      ensures CopyOk(st'.clients[c], st'.hosts[s].table[CookieKey(st'.clients[c])], st'.clock)
    {
      assert HostFades(st.hosts[s], st'.hosts[s], st'.clock);
      assert CookieKey(st'.clients[c]) == CookieKey(st.clients[c]);
    }
  }

  lemma {:induction false} RunKeepsCopies(cfg: Config, steps: seq<Step>)
    requires ValidRun(cfg, steps)
    ensures CopiesOk(Run(cfg, steps))
  {
    if steps != [] {
      var before, last := steps[..|steps| - 1], steps[|steps| - 1];
      RunKeepsCopies(cfg, before);
      RunKeepsInv(cfg, before);
      if last.Serve? {
        ServeKeepsCopies(cfg, Run(cfg, before), last.r);
      } else {
        FadeKeepsCopies(cfg, Run(cfg, before), last);
      }
    }
  }

  // ---------- what was told is what was written ----------

  ghost predicate TellsWritten(h: Holder, told: Told) {
    h.written.message == told.text && h.written.expires == told.expires
  }

  /** What a request makes of the session it opened, in literal texts and times. */
  lemma ProcessedIsRetold(cfg: Config, st: State, r: Request, told: Told)
    requires Inv(cfg, st) && RequestOk(cfg, st, r) && CopiesOk(st) && !r.action.Logout?
    requires !OpensFresh(st, r) ==> r.client in st.clients && TellsWritten(st.clients[r.client], told)
    ensures Told(Processed(st, r).message, Processed(st, r).expires) == Retold(told, st, r)
  {
    OpenedIsMadeOf(ReadBack(st, r), NextId(st, r.server), r.action, st.clock);
    if !OpensFresh(st, r) {
      ReadIsCopy(cfg, st, r);
    }
  }

  /** A page about a client's session goes to that client. */
  lemma TellsOwn(cfg: Config, st: State, step: Step, c: nat)
    requires Inv(cfg, st) && Enabled(cfg, st, step) && c in st.clients
    requires Tells(cfg, st, step, st.clients[c].cookie.id)
    ensures step.r.client == c && !OpensFresh(st, step.r)
  {
    ProcessedFacts(cfg, st, step.r);
    assert CookieOk(cfg, st, st.clients[c]);
  }

  /** A request that brings a client no new cookie tells nothing about its session. */
  lemma OthersTellNothing(cfg: Config, st: State, r: Request, c: nat)
    requires Inv(cfg, st) && RequestOk(cfg, st, r) && c in st.clients && c in ClientsAfter(cfg, st, r)
    requires !(c == r.client && r.delivered && Located(cfg, st, r).Some?)
    ensures !Tells(cfg, st, Serve(r), st.clients[c].cookie.id)
  {
    if Tells(cfg, st, Serve(r), st.clients[c].cookie.id) {
      TellsOwn(cfg, st, Serve(r), c);
    }
  }

  lemma NewHolderTold(cfg: Config, st: State, r: Request, told: Told)
    requires Inv(cfg, st) && RequestOk(cfg, st, r) && CopiesOk(st) && r.client in ClientsAfter(cfg, st, r)
    requires r.delivered && Located(cfg, st, r).Some?
    requires !OpensFresh(st, r) && r.client in st.clients ==> TellsWritten(st.clients[r.client], told)
    ensures TellsWritten(ClientsAfter(cfg, st, r)[r.client], Retold(told, st, r))
    ensures Tells(cfg, st, Serve(r), ClientsAfter(cfg, st, r)[r.client].cookie.id)
  {
    HolderAfter(cfg, st, r, r.client);
    ProcessedFacts(cfg, st, r);
    ProcessedIsRetold(cfg, st, r, told);
  }

  /**
   In every run the session written with a client's cookie has the text and the time that the delivered pages told:
   those of its creation or last update, or of a logout that its client was shown.
   */
  lemma {:induction false} WrittenIsTold(cfg: Config, steps: seq<Step>, c: nat)
    requires ValidRun(cfg, steps) && c in Run(cfg, steps).clients
    ensures TellsWritten(Run(cfg, steps).clients[c], ToldOf(cfg, steps, Run(cfg, steps).clients[c].cookie.id))
  {
    var before, last := steps[..|steps| - 1], steps[|steps| - 1];
    var st, id := Run(cfg, before), Run(cfg, steps).clients[c].cookie.id;
    RunKeepsInv(cfg, before);
    RunKeepsCopies(cfg, before);
    if !last.Serve? {
      HostsFade(cfg, st, last);
      WrittenIsTold(cfg, before, c);
    } else {
      HolderAfter(cfg, st, last.r, c);
      if c == last.r.client && last.r.delivered && Located(cfg, st, last.r).Some? {
        ProcessedFacts(cfg, st, last.r);
        if !OpensFresh(st, last.r) {
          WrittenIsTold(cfg, before, c);
        }
        NewHolderTold(cfg, st, last.r, ToldOf(cfg, before, id));
      } else {
        WrittenIsTold(cfg, before, c);
        OthersTellNothing(cfg, st, last.r, c);
      }
    }
  }

  // ---------- what a client sees ----------

  /** The text a button leaves. */
  function TextAfter(text: string, action: Action): string {
    match action
    case Replace(m) => m
    case Logout => "You have logged out."
    case _ => text
  }

  /**
   With at most F of the F+1 named servers crashed or silent, a request of an undisturbed client works on its session up
   to the told moment and on a new one afterwards; and with at most F of the 2F+1 targets silent the page shows the told
   text, or what the button makes of it.
   */
  lemma ShowsWhatWasTold(cfg: Config, steps: seq<Step>, r: Request)
    requires ValidRun(cfg, steps)
    requires var st := Run(cfg, steps);
             && RequestOk(cfg, st, r) && r.client in st.clients && !st.clients[r.client].disturbed
             && CountSilent(Usable(st, r)) <= cfg.f
    ensures var st := Run(cfg, steps);
            var told, id := ToldOf(cfg, steps, st.clients[r.client].cookie.id), st.clients[r.client].cookie.id;
            && (OpensFresh(st, r) <==> st.clock > told.expires)
            && (CountSilent(AckedBy(st, r)) <= cfg.f ==>
                  var reply := ReplyTo(cfg, st, r);
                  && reply.Page?
                  && reply.session.message
                     == TextAfter(if st.clock <= told.expires then told.text else "Hello, User!", r.action)
                  && (reply.session.id == id <==> st.clock <= told.expires))
  {
    var st := Run(cfg, steps);
    RunKeepsInv(cfg, steps);
    WrittenIsTold(cfg, steps, r.client);
    ReadsWritten(cfg, st, r);
    if !Expired(st.clients[r.client].written, st.clock) {
      SurvivesFFailures(cfg, steps, r);
    }
    PageShows(cfg, st, r);
  }

  /** What a page shows, given what was opened. */
  lemma PageShows(cfg: Config, st: State, r: Request)
    requires Inv(cfg, st) && RequestOk(cfg, st, r) && r.client in st.clients
    ensures Processed(st, r).message == TextAfter(Opened(st, r).message, r.action)
    ensures OpensFresh(st, r) ==> Opened(st, r).message == "Hello, User!"
    ensures Processed(st, r).id == st.clients[r.client].cookie.id <==> !OpensFresh(st, r)
    ensures CountSilent(AckedBy(st, r)) <= cfg.f ==>
              ReplyTo(cfg, st, r).Page? && ReplyTo(cfg, st, r).session == Processed(st, r)
  {
    ProcessedFacts(cfg, st, r);
    assert CookieOk(cfg, st, st.clients[r.client]);
    if CountSilent(AckedBy(st, r)) <= cfg.f {
      WriteAvailable(cfg.f, r.targets, AckedBy(st, r));
    }
  }

  /** However many servers answer, the session of an undisturbed client is not served after the told moment. */
  lemma NothingOutlivesItsTime(cfg: Config, steps: seq<Step>, r: Request)
    requires ValidRun(cfg, steps)
    requires var st := Run(cfg, steps);
             RequestOk(cfg, st, r) && r.client in st.clients && !st.clients[r.client].disturbed
    ensures var st := Run(cfg, steps);
            st.clock > ToldOf(cfg, steps, st.clients[r.client].cookie.id).expires ==>
              OpensFresh(st, r)
                  && Opened(st, r) == SessionData(NextId(st, r.server), 0, "Hello, User!", st.clock + 600000)
  {
    RunKeepsInv(cfg, steps);
    WrittenIsTold(cfg, steps, r.client);
    ReadsWritten(cfg, Run(cfg, steps), r);
  }

  // ---------- without overtaken copies ----------

  /** The message of the last Replace among the delivered pages about a session, or the one it was created with. */
  ghost function LastReplaced(cfg: Config, steps: seq<Step>, id: SessionId): string
    requires ValidRun(cfg, steps)
  {
    if steps == [] then "Hello, User!"
    else
      var before, last := steps[..|steps| - 1], steps[|steps| - 1];
      if Tells(cfg, Run(cfg, before), last, id) && last.r.action.Replace? then last.r.action.message
      else LastReplaced(cfg, before, id)
  }

  /** Since the last delivered Replace on a session its client was shown a copy that a logout had rewritten. */
  ghost predicate LogoutShown(cfg: Config, steps: seq<Step>, id: SessionId)
    requires ValidRun(cfg, steps)
  {
    steps != [] &&
    var before, last := steps[..|steps| - 1], steps[|steps| - 1];
    if Tells(cfg, Run(cfg, before), last, id)
    then !last.r.action.Replace? && !OpensFresh(Run(cfg, before), last.r)
         && (Overtaken(Run(cfg, before), last.r) || LogoutShown(cfg, before, id))
    else LogoutShown(cfg, before, id)
  }

  /** Only disturbed clients can be shown one. */
  lemma UndisturbedIsNotOvertaken(cfg: Config, st: State, r: Request)
    requires Inv(cfg, st) && RequestOk(cfg, st, r)
    requires r.client in st.clients ==> !st.clients[r.client].disturbed
    ensures !Overtaken(st, r)
  {
    if r.client in st.clients {
      ReadsWritten(cfg, st, r);
    }
  }

  lemma {:induction false} UntoldIsUnreplaced(cfg: Config, steps: seq<Step>, id: SessionId)
    requires ValidRun(cfg, steps) && id !in Run(cfg, steps).created
    ensures LastReplaced(cfg, steps, id) == "Hello, User!"
  {
    if steps != [] {
      var before, last := steps[..|steps| - 1], steps[|steps| - 1];
      UntoldIsUnreplaced(cfg, before, id);
      if last.Serve? {
        RunKeepsInv(cfg, before);
        ProcessedFacts(cfg, Run(cfg, before), last.r);
      }
    }
  }

  /** What a page does to the text, given that it was the last replaced one or that of a logout. */
  lemma TextRetold(told: Told, st: State, r: Request, shown: bool, text: string)
    requires |r.order| == |r.readNet| && !r.action.Logout? && (OpensFresh(st, r) ==> text == "Hello, User!")
    requires !OpensFresh(st, r) ==> told.text == if shown then "You have logged out." else text
    ensures Retold(told, st, r).text
         == if r.action.Replace? then r.action.message
            else if !OpensFresh(st, r) && (Overtaken(st, r) || shown) then "You have logged out."
            else text
  {
  }

  /**
   In every run the text told about a client's session is the message of the last delivered Replace on it, or the
   default if there was none, unless its client has since been shown a copy that a logout without a page had rewritten.
   */
  lemma {:induction false} ToldIsLastReplaced(cfg: Config, steps: seq<Step>, c: nat)
    requires ValidRun(cfg, steps) && c in Run(cfg, steps).clients
    ensures var id := Run(cfg, steps).clients[c].cookie.id;
            ToldOf(cfg, steps, id).text
            == if LogoutShown(cfg, steps, id) then "You have logged out." else LastReplaced(cfg, steps, id)
  {
    var before, last := steps[..|steps| - 1], steps[|steps| - 1];
    var st, id := Run(cfg, before), Run(cfg, steps).clients[c].cookie.id;
    RunKeepsInv(cfg, before);
    if !last.Serve? {
      HostsFade(cfg, st, last);
      ToldIsLastReplaced(cfg, before, c);
    } else {
      HolderAfter(cfg, st, last.r, c);
      if c == last.r.client && last.r.delivered && Located(cfg, st, last.r).Some? {
        ProcessedFacts(cfg, st, last.r);
        if OpensFresh(st, last.r) {
          UntoldIsUnreplaced(cfg, before, id);
        } else {
          ToldIsLastReplaced(cfg, before, c);
        }
        TextRetold(ToldOf(cfg, before, id), st, last.r, LogoutShown(cfg, before, id), LastReplaced(cfg, before, id));
        assert Tells(cfg, st, last, id);
      } else {
        ToldIsLastReplaced(cfg, before, c);
        OthersTellNothing(cfg, st, last.r, c);
      }
    }
  }

  /** In runs whose requests come from clients that no failed logout disturbed that never happens. */
  lemma {:induction false} UndisturbedSeeNoLogout(cfg: Config, steps: seq<Step>, id: SessionId)
    requires ValidRun(cfg, steps)
    requires forall k :: 0 <= k < |steps| && ValidRun(cfg, steps[..k]) && steps[k].Serve? ==>
               var clients := Run(cfg, steps[..k]).clients;
               steps[k].r.client in clients ==> !clients[steps[k].r.client].disturbed
    ensures !LogoutShown(cfg, steps, id)
  {
    if steps != [] {
      var before, last := steps[..|steps| - 1], steps[|steps| - 1];
      assert forall k :: 0 <= k < |before| ==> before[..k] == steps[..k];
      UndisturbedSeeNoLogout(cfg, before, id);
      if last.Serve? {
        RunKeepsInv(cfg, before);
        UndisturbedIsNotOvertaken(cfg, Run(cfg, before), last.r);
      }
    }
  }
}
