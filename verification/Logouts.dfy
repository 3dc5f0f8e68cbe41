/**
 Logouts (src/proj1b/ssm/Session.java): a logout rewrites the version it found, so when its page does not arrive the
 servers that the client's cookie names may disagree. Exactly when they do, and what can then be seen.
 */
module Logouts {
  import opened Wrappers
  import opened Sessions
  import opened SessionTable
  import opened Quorum
  import opened Cluster
  import opened Resilience
  import opened Collection

  // ---------- the exact condition ----------

  /**
   After a logout the servers of the client's old cookie still agree exactly when the request opened a fresh session, or
   left the session as it was, or reached none of them.
   */
  lemma LogoutKeepsAgreementIff(cfg: Config, st: State, r: Request)
    requires Inv(cfg, st) && RequestOk(cfg, st, r) && r.action.Logout?
    requires r.client in st.clients && !st.clients[r.client].disturbed
    ensures var h := st.clients[r.client];
            (forall s :: s in h.cookie.locations ==> Agrees(ServeStep(cfg, st, r), h, s))
            <==> OpensFresh(st, r) || Processed(st, r) == h.written
                 || forall s :: s in h.cookie.locations ==> !Stores(st, r, s)
  {
    var h := st.clients[r.client];
    ProcessedFacts(cfg, st, r);
    assert CookieOk(cfg, st, h);
    if Disturbs(st, r) {
      var i :| 0 <= i < |h.cookie.locations| && Stores(st, r, h.cookie.locations[i]);
      assert HostsAfter(st, r)[h.cookie.locations[i]].table[CookieKey(h)] == Processed(st, r);
      assert !Agrees(ServeStep(cfg, st, r), h, h.cookie.locations[i]);
    } else {
      forall s | s in h.cookie.locations ensures Agrees(ServeStep(cfg, st, r), h, s) {
        KeptAgreement(cfg, st, r, r.client, s);
      }
    }
  }

  // ---------- a run with F = 1 ----------

  const DEMO := Config(1, {"0", "1", "2"})
  const DELIVERED := Exchange(true, true)
  const LOST := Exchange(false, false)
  const FIRST := SessionId("0", 0, 0)

  function Opening(): SessionData { Created(FIRST, 0) }

  function LoggedOut(): SessionData { Updated(Opening(), Logout, 0) }

  /** The client's only requests: a plain load that everything answers, and a logout that reaches server 0 alone. */
  function DemoLoad(): Request {
    Request(0, "0", Load, [0, 1], [DELIVERED, DELIVERED], ["0", "1", "2"], [DELIVERED, DELIVERED, DELIVERED], true)
  }

  function DemoLogout(): Request {
    Request(0, "0", Logout, [0, 1], [DELIVERED, DELIVERED], ["0", "1", "2"], [Exchange(true, false), LOST, LOST], true)
  }

  function DemoHost(s: string, data: SessionData): Host {
    Host(true, 0, if s == "0" then 1 else 0, map[KeyOf(Opening()) := data])
  }

  function DemoHolder(disturbed: bool): Holder {
    Holder(Cookie(FIRST, 0, ["0", "1"]), Opening(), {}, disturbed)
  }

  /** After the first load: all three servers hold the session. */
  function Loaded(): State {
    State(0, map s | s in DEMO.servers :: DemoHost(s, Opening()), map[0 := DemoHolder(false)], [FIRST])
  }

  /** After the logout, and a moment later: server 0 holds a session that has expired, the others one that has not. */
  function Split(now: int): State {
    State(now, map s | s in DEMO.servers :: DemoHost(s, if s == "0" then LoggedOut() else Opening()),
          map[0 := DemoHolder(true)], [FIRST])
  }

  const DEMO_RUN: seq<Step> := [] + [Serve(DemoLoad())] + [Serve(DemoLogout())] + [Tick(1)]

  lemma DemoLocated(st: State, r: Request)
    requires r.targets == ["0", "1", "2"] && |r.writeNet| == 3 && AckedBy(st, r) == [true, true, true]
    ensures Located(DEMO, st, r) == Some(["0", "1"])
  {
    var acked := AckedBy(st, r);
    AcksOfOnes(r.targets, acked);
    assert r.targets[1..] == ["1", "2"] && ["1", "2"][1..] == ["2"] && ["2"][1..] == [];
    assert acked[1..] == [true, true] && [true, true][1..] == [true] && [true][1..] == [];
    assert Heard(["2"], [true]) == ["2"] + Heard([], []);
    assert Heard(["1", "2"], [true, true]) == ["1"] + Heard(["2"], [true]);
    assert Heard(r.targets, acked) == ["0", "1", "2"];
    assert ["0", "1", "2"][..2] == ["0", "1"];
  }

  lemma DemoNotLocated(st: State, r: Request)
    requires r.targets == ["0", "1", "2"] && |r.writeNet| == 3 && AckedBy(st, r) == [false, false, false]
    ensures Located(DEMO, st, r) == None
  {
    HeardCount(r.targets, AckedBy(st, r));
    AcksOfOnes(r.targets, AckedBy(st, r));
    assert [false, false, false][1..] == [false, false] && [false, false][1..] == [false] && [false][1..] == [];
  }

  lemma DemoRequestsOk(st: State)
    requires st.hosts.Keys == DEMO.servers && IsUp(st, "0")
    ensures RequestOk(DEMO, st, DemoLoad()) && RequestOk(DEMO, st, DemoLogout())
  {
  }

  lemma LoadFacts()
    ensures var st, r := Init(DEMO), DemoLoad();
            && RequestOk(DEMO, st, r) && Located(DEMO, st, r) == Some(["0", "1"]) && OpensFresh(st, r)
            && Processed(st, r) == Opening() && (forall s :: s in st.hosts ==> Stores(st, r, s))
  {
    var st, r := Init(DEMO), DemoLoad();
    DemoRequestsOk(st);
    assert AckedBy(st, r) == [true, true, true];
    DemoLocated(st, r);
    assert r.targets[0] == "0" && r.targets[1] == "1" && r.targets[2] == "2";
  }

  lemma LoadHosts()
    ensures RequestOk(DEMO, Init(DEMO), DemoLoad()) && HostsAfter(Init(DEMO), DemoLoad()) == Loaded().hosts
  {
    LoadFacts();
  }

  lemma LoadLoads()
    ensures RequestOk(DEMO, Init(DEMO), DemoLoad()) && ServeStep(DEMO, Init(DEMO), DemoLoad()) == Loaded()
  {
    LoadFacts();
    LoadHosts();
    assert ClientsAfter(DEMO, Init(DEMO), DemoLoad()) == Loaded().clients;
    assert [] + [FIRST] == [FIRST];
  }

  /** The servers asked first and second, and what the client gets from them. */
  lemma DemoReads(st: State, r: Request)
    requires r.client == 0 && r.order == [0, 1] && r.readNet == [DELIVERED, DELIVERED]
    requires 0 in st.clients && st.clients[0].cookie == Cookie(FIRST, 0, ["0", "1"])
    requires IsUp(st, "0") && IsUp(st, "1")
    ensures var k := KeyOf(Opening());
            ReadBack(st, r)
            == if k in st.hosts["0"].table then Some(Found(st.hosts["0"].table[k], "0"))
               else if k in st.hosts["1"].table then Some(Found(st.hosts["1"].table[k], "1")) else None
  {
    var k := KeyOf(Opening());
    var names := Asked(["0", "1"], [0, 1]);
    assert names == ["0", "1"] && names[1..] == ["1"] && ["1"][1..] == [];
    var answers := AnswersOf(st, names, k, r.readNet);
    assert answers == [AnswerOf(st, "0", k, DELIVERED), AnswerOf(st, "1", k, DELIVERED)];
    assert answers[1..] == [AnswerOf(st, "1", k, DELIVERED)];
    assert FirstAnswer(["1"], answers[1..]) == if answers[1].Some? then Some(Found(answers[1].value, "1")) else None;
  }

  /** What the logout works on, whom it reaches and what its client gets. */
  lemma LogoutFacts()
    ensures var st, r := Loaded(), DemoLogout();
            && RequestOk(DEMO, st, r) && Located(DEMO, st, r) == None
            && !OpensFresh(st, r) && Processed(st, r) == LoggedOut()
            && (forall s :: s in st.hosts ==> (Stores(st, r, s) <==> s == "0"))
  {
    var st, r := Loaded(), DemoLogout();
    DemoRequestsOk(st);
    DemoReads(st, r);
    assert AckedBy(st, r) == [false, false, false];
    DemoNotLocated(st, r);
    assert r.targets[0] == "0";
    assert forall i :: 0 <= i < 3 && r.targets[i] != "0" ==> !r.writeNet[i].requestArrives;
  }

  lemma LogoutHosts()
    ensures RequestOk(DEMO, Loaded(), DemoLogout()) && HostsAfter(Loaded(), DemoLogout()) == Split(0).hosts
  {
    LogoutFacts();
    var k := KeyOf(Opening());
    assert map[k := Opening()][k := LoggedOut()] == map[k := LoggedOut()];
    forall s | s in DEMO.servers ensures HostsAfter(Loaded(), DemoLogout())[s] == Split(0).hosts[s] {
    }
  }

  lemma LogoutDisturbs()
    ensures RequestOk(DEMO, Loaded(), DemoLogout()) && Disturbs(Loaded(), DemoLogout())
  {
    LogoutFacts();
    assert Loaded().clients[0].cookie.locations[0] == "0";
    assert LoggedOut() != Opening();
  }

  lemma DisturbedClients(st: State, r: Request)
    requires RequestOk(DEMO, st, r) && Located(DEMO, st, r) == None && Disturbs(st, r)
    ensures ClientsAfter(DEMO, st, r) == st.clients[r.client := st.clients[r.client].(disturbed := true)]
  {
  }

  lemma LogoutClients()
    ensures RequestOk(DEMO, Loaded(), DemoLogout()) && ClientsAfter(DEMO, Loaded(), DemoLogout()) == Split(0).clients
  {
    LogoutFacts();
    LogoutDisturbs();
    DisturbedClients(Loaded(), DemoLogout());
    assert DemoHolder(false).(disturbed := true) == DemoHolder(true);
    assert map[0 := DemoHolder(false)][0 := DemoHolder(true)] == map[0 := DemoHolder(true)];
  }

  lemma LogoutSplits()
    ensures RequestOk(DEMO, Loaded(), DemoLogout()) && ServeStep(DEMO, Loaded(), DemoLogout()) == Split(0)
  {
    LogoutFacts();
    LogoutHosts();
    LogoutClients();
  }

  ghost predicate Reaches(steps: seq<Step>, st: State) {
    ValidRun(DEMO, steps) && Run(DEMO, steps) == st
  }

  lemma Then(steps: seq<Step>, st: State, step: Step)
    requires Reaches(steps, st) && Enabled(DEMO, st, step)
    ensures Reaches(steps + [step], Apply(DEMO, st, step))
    ensures Replies(DEMO, steps + [step])
         == Replies(DEMO, steps) + (if step.Serve? then [ReplyTo(DEMO, st, step.r)] else [])
  {
    Extend(DEMO, steps, step);
  }

  lemma LogoutRun()
    ensures Reaches([] + [Serve(DemoLoad())] + [Serve(DemoLogout())], Split(0))
  {
    LoadLoads();
    LogoutSplits();
    Then([], Init(DEMO), Serve(DemoLoad()));
    Then([] + [Serve(DemoLoad())], Loaded(), Serve(DemoLogout()));
  }

  lemma DemoRun()
    ensures Reaches(DEMO_RUN, Split(1))
  {
    LogoutRun();
    Then([] + [Serve(DemoLoad())] + [Serve(DemoLogout())], Split(0), Tick(1));
  }

  /**
   After a logout that reached one server of two, with no crash and no silent server, the client's unexpired session is
   not read back as written: the request opens a fresh one.
   */
  lemma FailedLogoutBreaksAgreement()
    ensures Reaches(DEMO_RUN, Split(1))
    ensures var st, r := Split(1), DemoLoad();
            && RequestOk(DEMO, st, r) && 0 in st.clients
            && !Expired(st.clients[0].written, st.clock) && CountSilent(Usable(st, r)) == 0
            && ReadBack(st, r).Some? && ReadBack(st, r).value.session != st.clients[0].written && OpensFresh(st, r)
  {
    DemoRun();
    var st, r := Split(1), DemoLoad();
    DemoRequestsOk(st);
    DemoReads(st, r);
    NobodySilent(st);
  }

  lemma NobodySilent(st: State)
    requires 0 in st.clients && st.clients[0].cookie == Cookie(FIRST, 0, ["0", "1"]) && st.clients[0].crashed == {}
    ensures CountSilent(Usable(st, DemoLoad())) == 0
  {
    assert Usable(st, DemoLoad()) == [true, true];
    assert [true, true][1..] == [true] && [true][1..] == [];
    assert CountSilent([true]) == CountSilent([]);
  }

  lemma NextLoad(steps: seq<Step>, st: State)
    requires Reaches(steps, st) && st.hosts.Keys == DEMO.servers && IsUp(st, "0") && IsUp(st, "1") && IsUp(st, "2")
    ensures ValidRun(DEMO, steps + [Serve(DemoLoad())])
    ensures Replies(DEMO, steps + [Serve(DemoLoad())])
         == Replies(DEMO, steps) + [Page(Opened(st, DemoLoad()), ["0", "1"], false)]
  {
    DemoRequestsOk(st);
    DemoPage(st);
    Then(steps, st, Serve(DemoLoad()));
  }

  /**
   In the moment of that logout its client is shown the text of a logout that it was never answered, on an open session
   that nobody replaced.
   */
  lemma LogoutTextIsShown()
    ensures var steps: seq<Step> := [] + [Serve(DemoLoad())] + [Serve(DemoLogout())];
            && Reaches(steps, Split(0)) && ValidRun(DEMO, steps + [Serve(DemoLoad())])
            && Replies(DEMO, steps + [Serve(DemoLoad())])
                == Replies(DEMO, steps) + [Page(LoggedOut(), ["0", "1"], false)]
            && LoggedOut().message == "You have logged out." && LoggedOut().id == FIRST
  {
    LogoutRun();
    LogoutOpened();
    SplitIsUp(0);
    NextLoad([] + [Serve(DemoLoad())] + [Serve(DemoLogout())], Split(0));
  }

  lemma LogoutOpened()
    ensures Opened(Split(0), DemoLoad()) == LoggedOut()
    ensures LoggedOut().message == "You have logged out." && LoggedOut().id == FIRST
  {
    DemoReads(Split(0), DemoLoad());
  }

  lemma SplitIsUp(now: int)
    ensures var st := Split(now);
            st.hosts.Keys == DEMO.servers && IsUp(st, "0") && IsUp(st, "1") && IsUp(st, "2")
  {
  }

  lemma CleanedHosts()
    ensures Enabled(DEMO, Split(1), Clean("0"))
    ensures var st := Apply(DEMO, Split(1), Clean("0"));
            st.hosts.Keys == DEMO.servers && IsUp(st, "0") && IsUp(st, "1") && IsUp(st, "2")
  {
  }

  lemma PageWithout()
    ensures ValidRun(DEMO, DEMO_RUN) && ValidRun(DEMO, DEMO_RUN + [Serve(DemoLoad())])
    ensures Replies(DEMO, DEMO_RUN + [Serve(DemoLoad())])
         == Replies(DEMO, DEMO_RUN) + [Page(Created(SessionId("0", 0, 1), 1), ["0", "1"], false)]
  {
    DemoRun();
    DemoPagesDiffer();
    NextLoad(DEMO_RUN, Split(1));
  }

  lemma PageWith()
    ensures ValidRun(DEMO, DEMO_RUN) && ValidRun(DEMO, DEMO_RUN + [Clean("0")] + [Serve(DemoLoad())])
    ensures Replies(DEMO, DEMO_RUN + [Clean("0")] + [Serve(DemoLoad())])
         == Replies(DEMO, DEMO_RUN) + [Page(Opening(), ["0", "1"], false)]
  {
    DemoRun();
    DemoPagesDiffer();
    CleanedHosts();
    Then(DEMO_RUN, Split(1), Clean("0"));
    NextLoad(DEMO_RUN + [Clean("0")], Apply(DEMO, Split(1), Clean("0")));
  }

  /**
   In that situation a collector pass can be seen: with it the next page shows the old session, without it a fresh
   one.
   */
  lemma CollectionShows()
    ensures var with, without := DEMO_RUN + [Clean("0")] + [Serve(DemoLoad())], DEMO_RUN + [Serve(DemoLoad())];
            && ValidRun(DEMO, with) && ValidRun(DEMO, without) && NoCleans(with) == without
            && Replies(DEMO, with) != Replies(DEMO, without)
  {
    DemoNoCleans();
    PageWithout();
    PageWith();
    var newPage := Page(Created(SessionId("0", 0, 1), 1), ["0", "1"], false);
    LastDiffers(Replies(DEMO, DEMO_RUN), newPage, Page(Opening(), ["0", "1"], false));
  }

  lemma LastDiffers(replies: seq<Reply>, a: Reply, b: Reply)
    requires a != b
    ensures replies + [b] != replies + [a]
  {
    assert (replies + [a])[|replies|] == a;
  }

  lemma DemoPagesDiffer()
    ensures Opened(Apply(DEMO, Split(1), Clean("0")), DemoLoad()) == Opening()
    ensures Opened(Split(1), DemoLoad()) == Created(SessionId("0", 0, 1), 1)
  {
    var cleaned := Apply(DEMO, Split(1), Clean("0"));
    assert cleaned.hosts["0"].table == map[];
    assert cleaned.hosts["1"] == DemoHost("1", Opening());
    DemoReads(Split(1), DemoLoad());
    DemoReads(cleaned, DemoLoad());
  }

  lemma DemoPage(st: State)
    requires st.hosts.Keys == DEMO.servers && IsUp(st, "0") && IsUp(st, "1") && IsUp(st, "2")
    ensures ReplyTo(DEMO, st, DemoLoad()) == Page(Opened(st, DemoLoad()), ["0", "1"], false)
  {
    assert AckedBy(st, DemoLoad()) == [true, true, true];
    DemoLocated(st, DemoLoad());
  }

  lemma DemoNoCleans()
    ensures NoCleans(DEMO_RUN + [Clean("0")] + [Serve(DemoLoad())]) == DEMO_RUN + [Serve(DemoLoad())]
  {
    var a, b, c := Serve(DemoLoad()), Serve(DemoLogout()), Tick(1);
    NoCleansSnoc([], a);
    NoCleansSnoc([] + [a], b);
    NoCleansSnoc([] + [a] + [b], c);
    NoCleansSnoc(DEMO_RUN, Clean("0"));
    NoCleansSnoc(DEMO_RUN + [Clean("0")], a);
  }

  lemma NoCleansSnoc(steps: seq<Step>, step: Step)
    ensures NoCleans(steps + [step]) == NoCleans(steps) + (if step.Clean? then [] else [step])
  {
    assert (steps + [step])[..|steps|] == steps;
  }
}
