/**
 The text-level code refines the step system: while the servers answer the texts that are really sent to them, a request
 through the handler is a request step of the cluster, with the step's reply, and leaves the servers with the step's
 tables.
 */
module Refinement {
  import opened Wrappers
  import opened JavaText
  import opened Sessions
  import opened SessionTable
  import opened Wire
  import opened RpcServer
  import opened RpcClient
  import opened Quorum
  import opened Cluster
  import opened Servlet

  /** Each server's stored table means what the step system says it holds. */
  ghost predicate Represents(raws: map<string, RawTable>, st: State) {
    raws.Keys == st.hosts.Keys && forall s :: s in raws ==> ValidRaw(raws[s]) && View(raws[s]) == st.hosts[s].table
  }

  // ---------- a loop over real servers ----------

  /** The socket of every request that was sent heard the asked server's answer to it, if the exchange was complete. */
  ghost predicate LoopHears(raws: map<string, RawTable>, addresses: map<string, string>, st: State, names: seq<string>,
                            xs: seq<Exchange>, before: seq<Sent>, after: seq<Sent>, inbox: seq<seq<Datagram>>)
  {
    && |names| == |xs| == |inbox| && |before| <= |after| <= |before| + |names|
    && (forall i :: 0 <= i < |names| ==> names[i] in raws && names[i] in addresses)
    && (forall i :: 0 <= i < |names| && |before| + i < |after| ==>
          inbox[i] == AnswerTo(raws[names[i]], addresses[names[i]], after[|before| + i],
                               IsUp(st, names[i]) && xs[i].Complete()))
    && (forall i :: 0 <= i < |names| && |before| + i >= |after| ==> inbox[i] == [])
  }

  /** Servers answer under the call ID they were asked with. */
  lemma ServersEcho(local: string, raws: map<string, RawTable>, addresses: map<string, string>, st: State,
                    names: seq<string>, xs: seq<Exchange>, before: seq<Sent>, after: seq<Sent>,
                    inbox: seq<seq<Datagram>>)
    requires LoopHears(raws, addresses, st, names, xs, before, after, inbox)
    ensures EchoedAll(local, addresses, names, before, after, inbox)
  {
    forall k | 0 <= k < |inbox| && k < |names| && |before| + k < |after|
      ensures Steady(local, names[k], AddressOf(addresses, names[k]), inbox[k], after[|before| + k].callID)
    {
      AnswerEchoesCall(raws[names[k]], addresses[names[k]], after[|before| + k],
                       IsUp(st, names[k]) && xs[k].Complete());
    }
  }

  lemma OneRead(raws: map<string, RawTable>, addresses: map<string, string>, st: State, names: seq<string>, k: TableKey,
                xs: seq<Exchange>, before: seq<Sent>, after: seq<Sent>, inbox: seq<seq<Datagram>>, n: nat, i: nat)
    requires Represents(raws, st) && LoopHears(raws, addresses, st, names, xs, before, after, inbox)
    requires DelimiterFree(k.id.server) && FitsInt(k.version) && i < n
    requires SentReads(before, after, addresses, names, IdText(k.id), k.version, n)
           && FitsInt(after[|before| + i].callID)
    ensures var h := Hear(AddressOf(addresses, names[i]), inbox[i]);
            !h.Broken? && SessionOf(h) == AnswerOf(st, names[i], k, xs[i])
  {
    AnswerOfServer(addresses[names[i]], raws[names[i]], after[|before| + i], k, IsUp(st, names[i]) && xs[i].Complete());
  }

  /** A read of which every contacted server was heard as it answers comes to the first answer. */
  lemma {:induction false} OutcomeOfAnswers(names: seq<string>, hearings: seq<Hearing>,
                                            answers: seq<Option<SessionData>>)
    requires |names| == |hearings| == |answers|
    requires forall i :: 0 <= i < Contacted(hearings) ==> !hearings[i].Broken? && SessionOf(hearings[i]) == answers[i]
    ensures ReadOutcome(names, hearings) == Done(FirstAnswer(names, answers))
  {
    if names != [] {
      assert !hearings[0].Broken? && SessionOf(hearings[0]) == answers[0];
      if hearings[0].Silent? {
        forall i | 0 <= i < Contacted(hearings[1..])
          ensures !hearings[1..][i].Broken? && SessionOf(hearings[1..][i]) == answers[1..][i]
        {
          assert hearings[1..][i] == hearings[i + 1];
        }
        OutcomeOfAnswers(names[1..], hearings[1..], answers[1..]);
      }
    }
  }

  /** Reads of a key, sent to real servers, come to what the step system's read returns. */
  lemma ReadRefines(raws: map<string, RawTable>, addresses: map<string, string>, st: State, names: seq<string>,
                    k: TableKey, xs: seq<Exchange>, before: seq<Sent>, after: seq<Sent>, inbox: seq<seq<Datagram>>,
                    callID: int)
    requires Represents(raws, st) && LoopHears(raws, addresses, st, names, xs, before, after, inbox)
    requires DelimiterFree(k.id.server) && FitsInt(k.version) && FitsInt(callID) && SentWithID(before, after, callID)
    requires SentReads(before, after, addresses, names, IdText(k.id), k.version,
                       Contacted(Hearings(addresses, names, inbox)))
    ensures ReadOutcome(names, Hearings(addresses, names, inbox))
           == Done(FirstAnswer(names, AnswersOf(st, names, k, xs)))
  {
    var hearings := Hearings(addresses, names, inbox);
    forall i | 0 <= i < Contacted(hearings)
      ensures !hearings[i].Broken? && SessionOf(hearings[i]) == AnswerOf(st, names[i], k, xs[i])
    {
      OneRead(raws, addresses, st, names, k, xs, before, after, inbox, Contacted(hearings), i);
    }
    OutcomeOfAnswers(names, hearings, AnswersOf(st, names, k, xs));
  }

  /** Writes of a session, sent to real servers, count exactly the targets the step system counts. */
  lemma WriteRefines(wq: nat, raws: map<string, RawTable>, addresses: map<string, string>, st: State,
                     targets: seq<string>, s: SessionData, xs: seq<Exchange>, before: seq<Sent>, after: seq<Sent>,
                     inbox: seq<seq<Datagram>>, callID: int)
    requires Represents(raws, st) && LoopHears(raws, addresses, st, targets, xs, before, after, inbox)
    requires Portable(s) && FitsInt(callID) && SentWithID(before, after, callID)
    requires SentWrites(before, after, addresses, targets, s, |after| - |before|)
    requires WriteOutcome(wq, targets, addresses, inbox).Done? ==> |after| == |before| + |targets|
    ensures |after| == |before| + |targets|
    ensures WriteOutcome(wq, targets, addresses, inbox)
           == Done(Backups(wq, targets, Ones(Acknowledged(st, targets, xs))))
  {
    forall i | 0 <= i < |targets|
      ensures Parsable(AddressOf(addresses, targets[i]), inbox[i])
      ensures |before| + i < |after| ==>
                RepliesIn(AddressOf(addresses, targets[i]), inbox[i])
                == if Acknowledged(st, targets, xs)[i] then 1 else 0
    {
      if |before| + i < |after| {
        AckOfServer(addresses[targets[i]], raws[targets[i]], after[|before| + i], s,
                    IsUp(st, targets[i]) && xs[i].Complete());
      }
    }
    WriteOutcomeIs(wq, targets, addresses, inbox);
    assert Replies(addresses, targets, inbox) == Ones(Acknowledged(st, targets, xs));
  }

  function Acknowledged(st: State, targets: seq<string>, xs: seq<Exchange>): (a: seq<bool>)
    requires |targets| == |xs|
    ensures |a| == |targets|
  {
    seq(|targets|, i requires 0 <= i < |targets| => IsUp(st, targets[i]) && xs[i].Complete())
  }

  // ---------- the tables ----------

  /** The tables after a request went to a server: it is handled if it gets there. */
  ghost function DeliverOne(raws: map<string, RawTable>, st: State, t: string, x: Exchange,
                            d: Sent): map<string, RawTable>
  {
    if IsUp(st, t) && x.requestArrives && t in raws then raws[t := ServerStep(raws[t], d.Text()).table] else raws
  }

  /** The tables after a list of requests, one for each target. */
  ghost function Delivered(raws: map<string, RawTable>, st: State, targets: seq<string>, xs: seq<Exchange>,
                           requests: seq<Sent>): map<string, RawTable>
    requires |targets| == |xs| == |requests|
    decreases |targets|
  {
    if targets == [] then raws
    else Delivered(DeliverOne(raws, st, targets[0], xs[0], requests[0]), st, targets[1..], xs[1..], requests[1..])
  }

  lemma OneWrite(raws: map<string, RawTable>, st: State, t: string, x: Exchange, d: Sent, s: SessionData)
    requires Portable(s) && d == SentWrite(d.to, d.callID, s)
    ensures DeliverOne(raws, st, t, x, d)
         == if IsUp(st, t) && x.requestArrives && t in raws then raws[t := PutRaw(raws[t], s)] else raws
  {
    if t in raws {
      WriteStep(raws[t], d.callID, s);
    }
  }

  ghost predicate Reaches(st: State, targets: seq<string>, xs: seq<Exchange>, s: string) {
    IsUp(st, s) && exists i :: 0 <= i < |targets| && i < |xs| && targets[i] == s && xs[i].requestArrives
  }

  lemma ReachesTail(st: State, targets: seq<string>, xs: seq<Exchange>, s: string)
    requires targets != [] && |targets| == |xs|
    ensures Reaches(st, targets, xs, s) <==>
              (IsUp(st, s) && targets[0] == s && xs[0].requestArrives) || Reaches(st, targets[1..], xs[1..], s)
  {
    if i :| 0 <= i < |targets| && targets[i] == s && xs[i].requestArrives {
      if i > 0 {
        assert targets[1..][i - 1] == s && xs[1..][i - 1].requestArrives;
      }
    }
    if i :| 0 <= i < |targets| - 1 && targets[1..][i] == s && xs[1..][i].requestArrives {
      assert targets[i + 1] == s && xs[i + 1].requestArrives;
    }
  }

  /** Write requests for one session, whatever their call IDs, put it into the tables of the servers they reach. */
  lemma {:induction false} DeliveredWrites(raws: map<string, RawTable>, st: State, targets: seq<string>,
                                           xs: seq<Exchange>, requests: seq<Sent>, s: SessionData)
    requires |targets| == |xs| == |requests| && Distinct(targets) && Portable(s)
    requires forall i :: 0 <= i < |requests| ==> requests[i] == SentWrite(requests[i].to, requests[i].callID, s)
    ensures Delivered(raws, st, targets, xs, requests).Keys == raws.Keys
    ensures forall t :: t in raws ==> Delivered(raws, st, targets, xs, requests)[t]
                                      == if Reaches(st, targets, xs, t) then PutRaw(raws[t], s) else raws[t]
    decreases |targets|
  {
    if targets != [] {
      OneWrite(raws, st, targets[0], xs[0], requests[0], s);
      var raws' := DeliverOne(raws, st, targets[0], xs[0], requests[0]);
      forall i | 0 <= i < |requests| - 1
        ensures requests[1..][i] == SentWrite(requests[1..][i].to, requests[1..][i].callID, s)
      {
        assert requests[1..][i] == requests[i + 1];
      }
      DeliveredWrites(raws', st, targets[1..], xs[1..], requests[1..], s);
      forall t | t in raws
        ensures Delivered(raws, st, targets, xs, requests)[t]
             == if Reaches(st, targets, xs, t) then PutRaw(raws[t], s) else raws[t]
      {
        ReachesTail(st, targets, xs, t);
        if t == targets[0] {
          assert !Reaches(st, targets[1..], xs[1..], t);
        }
      }
    }
  }

  /** Write requests for a request's session, one for each of its targets. */
  ghost predicate WritesOf(st: State, r: Request, requests: seq<Sent>)
    requires |r.order| == |r.readNet| && r.server in st.hosts
  {
    && |requests| == |r.targets| == |r.writeNet|
    && forall i :: 0 <= i < |requests| ==>
         requests[i] == SentWrite(requests[i].to, requests[i].callID, Processed(st, r))
  }

  lemma OneTableAfter(st: State, r: Request, raws: map<string, RawTable>, s: string, after: RawTable)
    requires |r.order| == |r.readNet| && |r.targets| == |r.writeNet| && r.server in st.hosts
    requires Represents(raws, st) && s in raws && Portable(Processed(st, r))
    requires after == if Reaches(st, r.targets, r.writeNet, s) then PutRaw(raws[s], Processed(st, r)) else raws[s]
    ensures ValidRaw(after) && View(after) == HostsAfter(st, r)[s].table
  {
    assert Reaches(st, r.targets, r.writeNet, s) <==> Stores(st, r, s);
    PutRawView(raws[s], Processed(st, r));
  }

  lemma TablesAfterPuts(cfg: Config, st: State, r: Request, raws: map<string, RawTable>, after: map<string, RawTable>)
    requires RequestOk(cfg, st, r) && Represents(raws, st) && Portable(Processed(st, r)) && after.Keys == raws.Keys
    requires forall s :: s in raws ==>
               after[s] == if Reaches(st, r.targets, r.writeNet, s) then PutRaw(raws[s], Processed(st, r)) else raws[s]
    ensures Represents(after, ServeStep(cfg, st, r))
  {
    forall s | s in after ensures ValidRaw(after[s]) && View(after[s]) == HostsAfter(st, r)[s].table {
      OneTableAfter(st, r, raws, s, after[s]);
    }
  }

  /** A request's writes leave the servers with the tables of the step. */
  lemma WritesRepresent(cfg: Config, st: State, r: Request, raws: map<string, RawTable>, requests: seq<Sent>)
    requires RequestOk(cfg, st, r) && Represents(raws, st) && Portable(Processed(st, r)) && WritesOf(st, r, requests)
    ensures Represents(Delivered(raws, st, r.targets, r.writeNet, requests), ServeStep(cfg, st, r))
  {
    DeliveredWrites(raws, st, r.targets, r.writeNet, requests, Processed(st, r));
    TablesAfterPuts(cfg, st, r, raws, Delivered(raws, st, r.targets, r.writeNet, requests));
  }

  // ---------- numbers the texts can carry ----------

  /** Server names and all numbers that one more request can put into a text fit the formats. */
  ghost predicate Fits(cfg: Config, st: State) {
    && Named(cfg.servers)
    && FitsLong(st.clock) && FitsLong(st.clock + TIMEOUT_MILLIS + TIMEOUT_DELTA)
    && (forall s :: s in st.hosts ==> FitsInt(st.hosts[s].reboot) && FitsInt(st.hosts[s].next))
    && (forall s, k :: s in st.hosts && k in st.hosts[s].table ==> FitsInt(st.hosts[s].table[k].version + 1))
    && (forall c :: c in st.clients ==> FitsInt(st.clients[c].cookie.version))
  }

  lemma UpdatedPortable(s: SessionData, action: Action, now: int)
    requires Portable(s) && FitsInt(s.version + 1) && (action.Replace? ==> PageAccepts(action.message))
    requires FitsLong(now) && FitsLong(now + TIMEOUT_MILLIS + TIMEOUT_DELTA)
    ensures Portable(Updated(s, action, now))
  {
    MessagesStayClean(s, s.id, action, now);
  }

  lemma ReadIsPortable(cfg: Config, st: State, r: Request, raws: map<string, RawTable>)
    requires Inv(cfg, st) && RequestOk(cfg, st, r) && Represents(raws, st) && Fits(cfg, st) && ReadBack(st, r).Some?
    ensures Portable(ReadBack(st, r).value.session) && FitsInt(ReadBack(st, r).value.session.version + 1)
  {
    var h := st.clients[r.client];
    var names, s := Asked(h.cookie.locations, r.order), ReadBack(st, r).value.session;
    var answers := AnswersOf(st, names, CookieKey(h), r.readNet);
    FirstAnswerIsFirst(names, answers);
    var i :| 0 <= i < |names| && answers[i] == Some(s);
    var raw := raws[names[i]];
    assert CookieKey(h) in View(raw) && View(raw)[CookieKey(h)] == s;
    var text :| text in raw && KeyOf(raw[text]) == CookieKey(h) && raw[text] == s;
  }

  /** The session a request writes can be sent. */
  lemma ProcessedPortable(cfg: Config, st: State, r: Request, raws: map<string, RawTable>)
    requires Inv(cfg, st) && RequestOk(cfg, st, r) && Represents(raws, st) && Fits(cfg, st)
    ensures Portable(Processed(st, r))
  {
    if OpensFresh(st, r) {
      MessagesStayClean(Opened(st, r), NextId(st, r.server), r.action, st.clock);
    } else {
      ReadIsPortable(cfg, st, r, raws);
    }
    UpdatedPortable(Opened(st, r), r.action, st.clock);
  }

  // ---------- whole runs ----------

  /** What a step does to the stored tables; a request's writes may carry any call IDs. */
  ghost predicate TablesMove(cfg: Config, st: State, step: Step, raws: map<string, RawTable>,
                             raws': map<string, RawTable>)
    requires Enabled(cfg, st, step)
  {
    match step
    case Serve(r) =>
      exists requests :: WritesOf(st, r, requests) && raws' == Delivered(raws, st, r.targets, r.writeNet, requests)
    case Clean(s) => s in raws && raws' == raws[s := CleanedRaw(raws[s], st.clock)]
    case Crash(s) => raws' == raws[s := map[]]
    case Reboot(s) => raws' == raws[s := map[]]
    case Tick(_) => raws' == raws
  }

  /** Tables that the servers may hold after a run in which all numbers fit the formats. */
  ghost predicate TablesAfter(cfg: Config, steps: seq<Step>, raws: map<string, RawTable>)
    requires ValidRun(cfg, steps)
  {
    if steps == [] then raws == map s | s in cfg.servers :: map[]
    else
      var before, last := steps[..|steps| - 1], steps[|steps| - 1];
      && Fits(cfg, Run(cfg, before))
      && exists earlier :: TablesAfter(cfg, before, earlier) && TablesMove(cfg, Run(cfg, before), last, earlier, raws)
  }

  lemma OneTableMoves(raws: map<string, RawTable>, st: State, st': State, s: string, raw: RawTable)
    requires Represents(raws, st) && s in raws && ValidRaw(raw) && st'.hosts.Keys == st.hosts.Keys
    requires st'.hosts[s].table == View(raw)
    requires forall t :: t in st.hosts && t != s ==> st'.hosts[t] == st.hosts[t]
    ensures Represents(raws[s := raw], st')
  {
  }

  lemma CleanRepresents(cfg: Config, st: State, s: string, raws: map<string, RawTable>)
    requires Enabled(cfg, st, Clean(s)) && Represents(raws, st)
    ensures Represents(raws[s := CleanedRaw(raws[s], st.clock)], Apply(cfg, st, Clean(s)))
  {
    CleanedRawView(raws[s], st.clock);
    OneTableMoves(raws, st, Apply(cfg, st, Clean(s)), s, CleanedRaw(raws[s], st.clock));
  }

  lemma EmptyTableMoves(raws: map<string, RawTable>, st: State, st': State, s: string, raw: RawTable)
    requires Represents(raws, st) && s in raws && raw == map[] && st'.hosts.Keys == st.hosts.Keys
    requires st'.hosts[s].table == map[]
    requires forall t :: t in st.hosts && t != s ==> st'.hosts[t] == st.hosts[t]
    ensures Represents(raws[s := raw], st')
  {
    assert View(raw) == map[];
    OneTableMoves(raws, st, st', s, raw);
  }

  lemma CrashRepresents(cfg: Config, st: State, s: string, raws: map<string, RawTable>)
    requires Enabled(cfg, st, Crash(s)) && Represents(raws, st)
    ensures Represents(raws[s := map[]], Apply(cfg, st, Crash(s)))
  {
    EmptyTableMoves(raws, st, Apply(cfg, st, Crash(s)), s, map[]);
  }

  lemma RebootRepresents(cfg: Config, st: State, s: string, raws: map<string, RawTable>)
    requires Enabled(cfg, st, Reboot(s)) && Represents(raws, st)
    ensures Represents(raws[s := map[]], Apply(cfg, st, Reboot(s)))
  {
    EmptyTableMoves(raws, st, Apply(cfg, st, Reboot(s)), s, map[]);
  }

  lemma WritesOfRepresent(cfg: Config, st: State, r: Request, raws: map<string, RawTable>, raws': map<string, RawTable>)
    requires Inv(cfg, st) && RequestOk(cfg, st, r) && Represents(raws, st) && Fits(cfg, st)
    requires TablesMove(cfg, st, Serve(r), raws, raws')
    ensures Represents(raws', ServeStep(cfg, st, r))
  {
    var requests :| WritesOf(st, r, requests) && raws' == Delivered(raws, st, r.targets, r.writeNet, requests);
    ProcessedPortable(cfg, st, r, raws);
    WritesRepresent(cfg, st, r, raws, requests);
  }

  lemma MovesRepresent(cfg: Config, st: State, step: Step, raws: map<string, RawTable>, raws': map<string, RawTable>)
    requires Inv(cfg, st) && Enabled(cfg, st, step) && Represents(raws, st) && Fits(cfg, st)
    requires TablesMove(cfg, st, step, raws, raws')
    ensures Represents(raws', Apply(cfg, st, step))
  {
    match step
    case Serve(r) => WritesOfRepresent(cfg, st, r, raws, raws');
    case Clean(s) => CleanRepresents(cfg, st, s, raws);
    case Crash(s) => CrashRepresents(cfg, st, s, raws);
    case Reboot(s) => RebootRepresents(cfg, st, s, raws);
    case Tick(_) =>
  }

  /** In every run the texts the servers handle leave them with the tables of the step system. */
  lemma {:induction false} RunRepresents(cfg: Config, steps: seq<Step>, raws: map<string, RawTable>)
    requires ValidRun(cfg, steps) && TablesAfter(cfg, steps, raws)
    ensures Represents(raws, Run(cfg, steps))
  {
    if steps != [] {
      var before, last := steps[..|steps| - 1], steps[|steps| - 1];
      var earlier :| TablesAfter(cfg, before, earlier) && TablesMove(cfg, Run(cfg, before), last, earlier, raws);
      RunRepresents(cfg, before, earlier);
      RunKeepsInv(cfg, before);
      MovesRepresent(cfg, Run(cfg, before), last, earlier, raws);
    }
  }

  // ---------- the handler ----------

  /** The step system's reply in the handler's form. */
  function TextReply(reply: Cluster.Reply, source: Option<string>): HttpReply {
    match reply
    case Failed => StatusError
    case Page(s, locations, out) => StatusSuccess(s, CookieText(Cookie(s.id, s.version, locations)), source, out)
  }

  /** The step's reply and the serving host's next counter. */
  ghost function StepReply(cfg: Config, st: State, r: Request): (HttpReply, nat)
    requires RequestOk(cfg, st, r)
  {
    (TextReply(ReplyTo(cfg, st, r), ServerOf(ReadBack(st, r))), HostsAfter(st, r)[r.server].next)
  }

  lemma ServedIsReply(cfg: Config, st: State, r: Request)
    requires RequestOk(cfg, st, r)
    ensures var host := st.hosts[r.server];
            Served(Done(ReadBack(st, r)), r.server, host.reboot, host.next, r.action, st.clock,
                   Done(Located(cfg, st, r)))
            == StepReply(cfg, st, r)
  {
  }

  /**
   What the network does to one request: to the read RPC of the k-th location and the write RPC of the k-th target, and
   whether the page reaches the browser.
   */
  datatype Weather = Weather(readNet: seq<Exchange>, writeNet: seq<Exchange>, delivered: bool)

  /** The request step that a handler call amounts to when it tries the locations in that order. */
  function RequestOf(cfg: Config, client: nat, server: string, action: Action, order: seq<nat>, ids: seq<string>,
                     w: Weather): Request
    requires |ids| >= cfg.W() && forall i :: 0 <= i < |order| ==> order[i] < |w.readNet|
  {
    Request(client, server, action, order, seq(|order|, i requires 0 <= i < |order| => w.readNet[order[i]]),
            ids[..cfg.W()], w.writeNet, w.delivered)
  }

  /** A request step of that client at that server, under that weather, with the locations tried in some order. */
  ghost predicate StepOf(cfg: Config, st: State, client: nat, server: string, action: Action, ids: seq<string>,
                         w: Weather, r: Request)
  {
    && RequestOk(cfg, st, r) && |ids| >= cfg.W() && |w.readNet| == cfg.WQ()
    && r == RequestOf(cfg, client, server, action, r.order, ids, w)
  }

  /**
   The network carries every request text to the server it is meant for and the server's answer to that text back, as
   far as the weather lets it.
   */
  ghost predicate Carries(cfg: Config, st: State, raws: map<string, RawTable>, addresses: map<string, string>,
                          client: nat, ids: seq<string>, w: Weather, readNet: Net, writeNet: Net)
  {
    && Represents(raws, st) && cfg.servers <= addresses.Keys && |w.readNet| == cfg.WQ() && |w.writeNet| == cfg.W()
    && |ids| >= cfg.W() && Distinct(ids) && (forall i :: 0 <= i < |ids| ==> ids[i] in cfg.servers)
    && (client in st.clients ==>
          CarriesTo(st, raws, addresses, st.clients[client].cookie.locations, w.readNet, readNet))
    && CarriesTo(st, raws, addresses, ids[..cfg.W()], w.writeNet, writeNet)
  }

  ghost predicate CarriesTo(st: State, raws: map<string, RawTable>, addresses: map<string, string>, names: seq<string>,
                            xs: seq<Exchange>, net: Net)
  {
    forall k: nat, d: Sent :: k < |names| && k < |xs| && names[k] in raws && names[k] in addresses ==>
      net(k, d) == AnswerTo(raws[names[k]], addresses[names[k]], d, IsUp(st, names[k]) && xs[k].Complete())
  }

  /** A loop that tries the places in some order, over a network that carries its requests. */
  lemma CarriedLoopHears(raws: map<string, RawTable>, addresses: map<string, string>, st: State, places: seq<string>,
                         weather: seq<Exchange>, net: Net, order: seq<nat>, xs: seq<Exchange>, before: seq<Sent>,
                         after: seq<Sent>, inbox: seq<seq<Datagram>>)
    requires CarriesTo(st, raws, addresses, places, weather, net) && |places| == |weather|
    requires |order| == |xs| == |inbox| && |before| <= |after| <= |before| + |order|
    requires forall i :: 0 <= i < |order| ==> order[i] < |places| && xs[i] == weather[order[i]]
    requires forall s :: s in places ==> s in raws && s in addresses
    requires Reacted(NetAt(order, net), before, after, inbox)
    ensures LoopHears(raws, addresses, st, Asked(places, order), xs, before, after, inbox)
  {
    var names := Asked(places, order);
    forall i | 0 <= i < |names| ensures names[i] in raws && names[i] in addresses {
      assert names[i] == places[order[i]];
    }
    forall i | 0 <= i < |names| && |before| + i < |after|
      ensures inbox[i] == AnswerTo(raws[names[i]], addresses[names[i]], after[|before| + i],
                                   IsUp(st, names[i]) && xs[i].Complete())
    {
      assert inbox[i] == net(order[i], after[|before| + i]);
    }
  }

  lemma ReadLoopHears(cfg: Config, st: State, raws: map<string, RawTable>, addresses: map<string, string>, client: nat,
                      ids: seq<string>, w: Weather, readNet: Net, writeNet: Net, cookie: ParsedCookie, log: ReadLog,
                      read: Try<Option<Found>>, r: Request)
    requires Inv(cfg, st) && Carries(cfg, st, raws, addresses, client, ids, w, readNet, writeNet)
           && client in st.clients
    requires cookie.svrIDs == st.clients[client].cookie.locations
           && ReadsAll(cfg, addresses, cookie, readNet, log, read)
    requires r == RequestOf(cfg, client, r.server, r.action, log.order, ids, w)
    ensures LoopHears(raws, addresses, st, Asked(cookie.svrIDs, log.order), r.readNet, log.before, log.after, log.inbox)
  {
    assert CookieOk(cfg, st, st.clients[client]);
    CarriedLoopHears(raws, addresses, st, cookie.svrIDs, w.readNet, readNet, log.order, r.readNet, log.before,
                     log.after, log.inbox);
  }

  lemma WriteLoopHears(cfg: Config, st: State, raws: map<string, RawTable>, addresses: map<string, string>, client: nat,
                       ids: seq<string>, w: Weather, readNet: Net, writeNet: Net, session: SessionData, log: WriteLog,
                       written: Try<Option<seq<string>>>)
    requires Inv(cfg, st) && Carries(cfg, st, raws, addresses, client, ids, w, readNet, writeNet)
    requires WritesAll(cfg, addresses, ids, writeNet, session, log, written)
    ensures LoopHears(raws, addresses, st, ids[..cfg.W()], w.writeNet, log.before, log.after, log.inbox)
  {
  }

  /** The cookie as the handler reads it. */
  function AsParsed(c: Cookie): ParsedCookie {
    ParsedCookie(IdText(c.id), c.version, c.locations)
  }

  /** What the handler's contract says about a request of that client. */
  ghost predicate Handled(cfg: Config, st: State, addresses: map<string, string>, local: string, client: nat,
                          server: string, action: Action, ids: seq<string>, readNet: Net, writeNet: Net, id: int,
                          t: Transcript)
    requires server in st.hosts && |ids| >= cfg.W()
  {
    && (client in st.clients ==>
          var cookie := AsParsed(st.clients[client].cookie);
          && ReadsAll(cfg, addresses, cookie, readNet, t.readLog, t.read)
          && (EchoedAll(local, addresses, Asked(cookie.svrIDs, t.readLog.order),
                        t.readLog.before, t.readLog.after, t.readLog.inbox) ==>
                SentWithID(t.readLog.before, t.readLog.after, id)))
    && (client !in st.clients ==> t.read == Done(None) && t.readLog.after == t.readLog.before)
    && (t.read.Done? ==>
          && t.session == Updated(Open(t.read.value, NextId(st, server), st.clock), action, st.clock)
          && WritesAll(cfg, addresses, ids, writeNet, t.session, t.writeLog, t.written))
  }

  /** The write goes out under one call ID, provided the read did. */
  ghost predicate WritesWithID(cfg: Config, addresses: map<string, string>, local: string, ids: seq<string>, id: int,
                               t: Transcript)
    requires |ids| >= cfg.W()
  {
    t.read.Done?
        && EchoedAll(local, addresses, ids[..cfg.W()], t.writeLog.before, t.writeLog.after, t.writeLog.inbox) ==>
      SentWithID(t.writeLog.before, t.writeLog.after, id)
  }

  /** Between these two logs reads of the cookie's session and version went to the first servers the request asks. */
  ghost predicate ReadsDone(st: State, r: Request, addresses: map<string, string>, before: seq<Sent>,
                            after: seq<Sent>)
  {
    if r.client in st.clients then
      var c := st.clients[r.client].cookie;
      && |before| < |after|
      && SentReads(before, after, addresses, Asked(c.locations, r.order), IdText(c.id), c.version, |after| - |before|)
    else after == before
  }

  lemma SomethingSent(cfg: Config, addresses: map<string, string>, cookie: ParsedCookie, net: Net, log: ReadLog,
                      read: Try<Option<Found>>)
    requires ReadsAll(cfg, addresses, cookie, net, log, read)
    ensures |log.before| < |log.after|
    ensures SentReads(log.before, log.after, addresses, Asked(cookie.svrIDs, log.order), cookie.sessionID,
                      cookie.version, |log.after| - |log.before|)
  {
    var names := Asked(cookie.svrIDs, log.order);
    ReadOutcomeIs(names, Hearings(addresses, names, log.inbox));
  }

  /** The loop over the locations reads what the step reads and sends what it asks. */
  lemma ReadLoopRefines(cfg: Config, st: State, raws: map<string, RawTable>, addresses: map<string, string>,
                        local: string, client: nat, ids: seq<string>, w: Weather, readNet: Net, writeNet: Net, id: int,
                        t: Transcript, r: Request)
    requires Inv(cfg, st) && Fits(cfg, st) && client in st.clients && FitsInt(id)
    requires Carries(cfg, st, raws, addresses, client, ids, w, readNet, writeNet)
    requires ReadsAll(cfg, addresses, AsParsed(st.clients[client].cookie), readNet, t.readLog, t.read)
    requires r == RequestOf(cfg, client, r.server, r.action, t.readLog.order, ids, w)
    requires var log := t.readLog;
             var names := Asked(st.clients[client].cookie.locations, log.order);
             EchoedAll(local, addresses, names, log.before, log.after, log.inbox) ==>
               SentWithID(log.before, log.after, id)
    ensures t.read == Done(ReadBack(st, r)) && ReadsDone(st, r, addresses, t.readLog.before, t.readLog.after)
    ensures EchoedAll(local, addresses, Asked(st.clients[client].cookie.locations, t.readLog.order),
                      t.readLog.before, t.readLog.after, t.readLog.inbox)
  {
    var h, log := st.clients[client], t.readLog;
    var names := Asked(h.cookie.locations, log.order);
    HolderParses(cfg, st, client);
    ReadLoopHears(cfg, st, raws, addresses, client, ids, w, readNet, writeNet, AsParsed(h.cookie), log, t.read, r);
    ServersEcho(local, raws, addresses, st, names, r.readNet, log.before, log.after, log.inbox);
    ReadRefines(raws, addresses, st, names, CookieKey(h), r.readNet, log.before, log.after, log.inbox, id);
    SomethingSent(cfg, addresses, AsParsed(h.cookie), readNet, log, t.read);
  }

  lemma RequestIsStep(cfg: Config, st: State, client: nat, server: string, action: Action, order: seq<nat>,
                      ids: seq<string>, w: Weather)
    requires IsUp(st, server) && (action.Replace? ==> PageAccepts(action.message))
    requires Distinct(order) && |order| == cfg.R() && forall i :: 0 <= i < |order| ==> order[i] < cfg.WQ()
    requires |ids| >= cfg.W() && Distinct(ids) && forall i :: 0 <= i < |ids| ==> ids[i] in cfg.servers
    requires |w.readNet| == cfg.WQ() && |w.writeNet| == cfg.W()
    ensures StepOf(cfg, st, client, server, action, ids, w, RequestOf(cfg, client, server, action, order, ids, w))
  {
  }

  lemma ReadHalfRefines(cfg: Config, st: State, raws: map<string, RawTable>, addresses: map<string, string>,
                        local: string, client: nat, server: string, action: Action, ids: seq<string>, w: Weather,
                        readNet: Net, writeNet: Net, id: int, t: Transcript) returns (r: Request)
    requires Inv(cfg, st) && IsUp(st, server) && (action.Replace? ==> PageAccepts(action.message)) && Fits(cfg, st)
    requires Carries(cfg, st, raws, addresses, client, ids, w, readNet, writeNet) && FitsInt(id)
    requires Handled(cfg, st, addresses, local, client, server, action, ids, readNet, writeNet, id, t)
    ensures StepOf(cfg, st, client, server, action, ids, w, r)
    ensures t.read == Done(ReadBack(st, r)) && t.session == Processed(st, r)
    ensures ReadsDone(st, r, addresses, t.readLog.before, t.readLog.after)
    ensures client in st.clients ==>
              && r.order == t.readLog.order
              && EchoedAll(local, addresses, Asked(st.clients[client].cookie.locations, t.readLog.order),
                           t.readLog.before, t.readLog.after, t.readLog.inbox)
  {
    var places := if client in st.clients then t.readLog.order else seq(cfg.R(), i requires 0 <= i < cfg.R() => i);
    r := RequestOf(cfg, client, server, action, places, ids, w);
    RequestIsStep(cfg, st, client, server, action, places, ids, w);
    if client in st.clients {
      ReadLoopRefines(cfg, st, raws, addresses, local, client, ids, w, readNet, writeNet, id, t, r);
    }
  }

  lemma AcknowledgedIsAcked(st: State, r: Request)
    requires |r.targets| == |r.writeNet|
    ensures Acknowledged(st, r.targets, r.writeNet) == AckedBy(st, r)
  {
  }

  lemma RequestsAfter(before: seq<Sent>, after: seq<Sent>, addresses: map<string, string>, targets: seq<string>,
                      s: SessionData, n: nat)
    requires SentWrites(before, after, addresses, targets, s, n)
    ensures var requests := after[|before|..];
            && |requests| == n
            && (forall i :: 0 <= i < n ==> requests[i] == SentWrite(requests[i].to, requests[i].callID, s))
  {
    var requests := after[|before|..];
    forall i | 0 <= i < n ensures requests[i] == SentWrite(requests[i].to, requests[i].callID, s) {
      var d := after[|before| + i];
      assert requests[i] == d == SentWrite(AddressOf(addresses, targets[i]), d.callID, s);
    }
  }

  /** The loop over the targets counts what the step counts and has sent the session to all of them. */
  lemma WriteLoopRefines(cfg: Config, st: State, raws: map<string, RawTable>, addresses: map<string, string>,
                         local: string, client: nat, ids: seq<string>, w: Weather, readNet: Net, writeNet: Net, id: int,
                         t: Transcript, r: Request)
    requires Inv(cfg, st) && RequestOk(cfg, st, r) && Portable(t.session) && FitsInt(id)
    requires Carries(cfg, st, raws, addresses, client, ids, w, readNet, writeNet)
    requires r.targets == ids[..cfg.W()] && r.writeNet == w.writeNet && t.read.Done?
    requires WritesAll(cfg, addresses, ids, writeNet, t.session, t.writeLog, t.written)
    requires WritesWithID(cfg, addresses, local, ids, id, t)
    ensures t.written == Done(Located(cfg, st, r))
    ensures SentWrites(t.writeLog.before, t.writeLog.after, addresses, r.targets, t.session, cfg.W())
  {
    var log := t.writeLog;
    WriteLoopHears(cfg, st, raws, addresses, client, ids, w, readNet, writeNet, t.session, log, t.written);
    ServersEcho(local, raws, addresses, st, r.targets, r.writeNet, log.before, log.after, log.inbox);
    WriteRefines(cfg.WQ(), raws, addresses, st, r.targets, t.session, r.writeNet, log.before, log.after, log.inbox, id);
    AcknowledgedIsAcked(st, r);
  }

  /**
   Between these two logs the session of the request went to each of its targets, in order, and those of the requests
   that arrive give the servers the tables of the step.
   */
  ghost predicate WritesDone(cfg: Config, st: State, r: Request, raws: map<string, RawTable>,
                             addresses: map<string, string>, before: seq<Sent>, after: seq<Sent>)
    requires RequestOk(cfg, st, r)
  {
    && SentWrites(before, after, addresses, r.targets, Processed(st, r), cfg.W())
    && Represents(Delivered(raws, st, r.targets, r.writeNet, after[|before|..]), ServeStep(cfg, st, r))
  }

  lemma WriteHalfRefines(cfg: Config, st: State, raws: map<string, RawTable>, addresses: map<string, string>,
                         local: string, client: nat, ids: seq<string>, w: Weather, readNet: Net, writeNet: Net, id: int,
                         t: Transcript, r: Request)
    requires Inv(cfg, st) && RequestOk(cfg, st, r) && Fits(cfg, st) && FitsInt(id)
    requires Carries(cfg, st, raws, addresses, client, ids, w, readNet, writeNet)
    requires r.targets == ids[..cfg.W()] && r.writeNet == w.writeNet && t.read.Done? && t.session == Processed(st, r)
    requires WritesAll(cfg, addresses, ids, writeNet, t.session, t.writeLog, t.written)
    requires WritesWithID(cfg, addresses, local, ids, id, t)
    ensures t.written == Done(Located(cfg, st, r))
    ensures WritesDone(cfg, st, r, raws, addresses, t.writeLog.before, t.writeLog.after)
  {
    ProcessedPortable(cfg, st, r, raws);
    WriteLoopRefines(cfg, st, raws, addresses, local, client, ids, w, readNet, writeNet, id, t, r);
    RequestsAfter(t.writeLog.before, t.writeLog.after, addresses, r.targets, t.session, cfg.W());
    WritesRepresent(cfg, st, r, raws, t.writeLog.after[|t.writeLog.before|..]);
  }

  /**
   The handler serves a request step: whatever its contract allows it to have sent, heard and tried in which order,
   there is a request step of the cluster with the same read, the same session written to the same targets, the same
   reply, the same counter, and the tables that the servers are left with.
   */
  lemma HandlerServesStep(cfg: Config, st: State, raws: map<string, RawTable>, addresses: map<string, string>,
                          local: string, client: nat, server: string, action: Action, ids: seq<string>, w: Weather,
                          readNet: Net, writeNet: Net, readID: int, writeID: int, t: Transcript) returns (r: Request)
    requires Inv(cfg, st) && IsUp(st, server) && (action.Replace? ==> PageAccepts(action.message)) && Fits(cfg, st)
    requires Carries(cfg, st, raws, addresses, client, ids, w, readNet, writeNet) && FitsInt(readID) && FitsInt(writeID)
    requires Handled(cfg, st, addresses, local, client, server, action, ids, readNet, writeNet, readID, t)
    requires (client in st.clients ==>
                EchoedAll(local, addresses, Asked(st.clients[client].cookie.locations, t.readLog.order),
                          t.readLog.before, t.readLog.after, t.readLog.inbox)) ==>
               WritesWithID(cfg, addresses, local, ids, writeID, t)
    ensures StepOf(cfg, st, client, server, action, ids, w, r)
    ensures client in st.clients ==> r.order == t.readLog.order
    ensures t.read == Done(ReadBack(st, r)) && t.session == Processed(st, r) && t.written == Done(Located(cfg, st, r))
    ensures var host := st.hosts[server];
            Served(t.read, server, host.reboot, host.next, action, st.clock, t.written) == StepReply(cfg, st, r)
    ensures ReadsDone(st, r, addresses, t.readLog.before, t.readLog.after)
    ensures WritesDone(cfg, st, r, raws, addresses, t.writeLog.before, t.writeLog.after)
  {
    r := ReadHalfRefines(cfg, st, raws, addresses, local, client, server, action, ids, w, readNet, writeNet, readID, t);
    WriteHalfRefines(cfg, st, raws, addresses, local, client, ids, w, readNet, writeNet, writeID, t, r);
    ServedIsReply(cfg, st, r);
  }

  /**
   What the browser has after the page: the cookie of the step's state, which parses back to the session shown, and the
   servers it names have that session.
   */
  ghost predicate BrowserHolds(cfg: Config, st: State, r: Request, reply: HttpReply)
    requires RequestOk(cfg, st, r)
  {
    var st' := ServeStep(cfg, st, r);
    r.delivered && !r.action.Logout? && reply.StatusSuccess? ==>
      && r.client in st'.clients
      && (var h := st'.clients[r.client];
          && reply.cookie == CookieText(h.cookie) && ParseCookie(reply.cookie) == Some(AsParsed(h.cookie))
          && reply.session == h.written && KeyOf(reply.session) == CookieKey(h)
          && forall s :: s in h.cookie.locations ==>
               s in st'.hosts && CookieKey(h) in st'.hosts[s].table
                   && st'.hosts[s].table[CookieKey(h)] == reply.session)
  }

  /** The cookie that the handler issues is the one that the step gives to its client. */
  lemma ReplyCookieIsHolders(cfg: Config, st: State, raws: map<string, RawTable>, r: Request)
    requires Inv(cfg, st) && RequestOk(cfg, st, r) && Represents(raws, st) && Fits(cfg, st)
    ensures BrowserHolds(cfg, st, r, StepReply(cfg, st, r).0)
  {
    var st', reply := ServeStep(cfg, st, r), StepReply(cfg, st, r).0;
    if r.delivered && !r.action.Logout? && reply.StatusSuccess? {
      ProcessedPortable(cfg, st, r, raws);
      StepKeepsInv(cfg, st, Serve(r));
      HolderParses(cfg, st', r.client);
      LocatedFacts(cfg, st, r);
    }
  }

  /**
   A handler call on the server's own state and the client's own cookie is a request step: mid is the client's log
   between the two loops, and the writes that follow it turn the tables into those of the step.
   */
  method ServeRequest(servlet: Servlet, ghost st: State, ghost raws: map<string, RawTable>, ghost client: nat,
                      ghost w: Weather, cookie: Option<string>, action: Action, now: int, draws: seq<nat>,
                      ids: seq<string>, readNet: Net, writeNet: Net)
      returns (reply: HttpReply, ghost r: Request, ghost mid: seq<Sent>)
    requires servlet.Valid() && Inv(servlet.cfg, st) && Fits(servlet.cfg, st)
    requires FitsInt(servlet.client.config.LocalID()) && FitsInt(servlet.client.config.LocalID() + 1)
    requires IsUp(st, servlet.localServerID) && now == st.clock
    requires st.hosts[servlet.localServerID].reboot == servlet.rebootNum
    requires st.hosts[servlet.localServerID].next == servlet.nextSessionID
    requires action.Replace? ==> PageAccepts(action.message)
    requires cookie == if client in st.clients then Some(CookieText(st.clients[client].cookie)) else None
    requires Carries(servlet.cfg, st, raws, servlet.client.addresses, client, ids, w, readNet, writeNet)
    requires (forall d :: d in draws ==> d < servlet.cfg.WQ()) && |(set d | d in draws)| == servlet.cfg.WQ()
    modifies servlet`nextSessionID, servlet.client`sent, servlet.client.config
    ensures servlet.Valid()
    ensures StepOf(servlet.cfg, st, client, servlet.localServerID, action, ids, w, r)
    ensures (reply, servlet.nextSessionID) == StepReply(servlet.cfg, st, r)
    ensures BrowserHolds(servlet.cfg, st, r, reply)
    ensures ReadsDone(st, r, servlet.client.addresses, old(servlet.client.sent), mid)
    ensures WritesDone(servlet.cfg, st, r, raws, servlet.client.addresses, mid, servlet.client.sent)
  {
    if cookie.Some? {
      HolderParses(servlet.cfg, st, client);
    }
    ghost var id := servlet.client.config.LocalID();
    ghost var t;
    reply, t := servlet.DoGet(cookie, action, now, draws, ids, readNet, writeNet);
    r := HandlerServesStep(servlet.cfg, st, raws, servlet.client.addresses, servlet.client.config.localServerID, client,
                           servlet.localServerID, action, ids, w, readNet, writeNet, id,
                           if cookie.Some? then id + 1 else id, t);
    mid := t.readLog.after;
    ReplyCookieIsHolders(servlet.cfg, st, raws, r);
  }
}
