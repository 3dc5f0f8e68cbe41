/**
 The whole service as a step system: any number of clients, N servers with their versioned tables, lost datagrams,
 half-done writes, lost pages, the garbage collector, crashes, reboots and one non-decreasing clock
 (src/proj1b/servlet/proj1bServlet.java with the RPC and ssm packages below it).
 */
module Cluster {
  import opened Wrappers
  import opened Sessions
  import opened SessionTable
  import opened Quorum

  /** R = WQ = F + 1 and W = 2F + 1 (src/proj1b/util/Utils.java). */
  datatype Config = Config(f: nat, servers: set<string>) {
    function R(): nat { f + 1 }
    function WQ(): nat { f + 1 }
    function W(): nat { 2 * f + 1 }
  }

  datatype Host = Host(up: bool, reboot: nat, next: nat, table: Table)

  datatype Cookie = Cookie(id: SessionId, version: int, locations: seq<string>)

  /**
   A client with a cookie. The last three fields are history for the statements below: the session written when the
   cookie was issued, the servers that crashed since, and whether a logout that brought no page has since rewritten
   the session on one of the named servers.
   */
  datatype Holder = Holder(cookie: Cookie, written: SessionData, crashed: set<string>, disturbed: bool)

  /** created is history: the IDs given to new sessions, in order. A client absent from clients has no cookie. */
  datatype State = State(clock: int, hosts: map<string, Host>, clients: map<nat, Holder>, created: seq<SessionId>)

  /** What the network does to one RPC. */
  datatype Exchange = Exchange(requestArrives: bool, replyArrives: bool) {
    predicate Complete() { requestArrives && replyArrives }
  }

  /**
   One browser request: the button, the order in which the cookie's locations are tried, the write targets, the fate of
   every RPC, and whether the page reaches the browser.
   */
  datatype Request = Request(client: nat, server: string, action: Action,
                             order: seq<nat>, readNet: seq<Exchange>,
                             targets: seq<string>, writeNet: seq<Exchange>, delivered: bool)

  datatype Step = Serve(r: Request) | Clean(server: string) | Crash(server: string) | Reboot(server: string)
      | Tick(millis: nat)

  datatype Reply = Failed | Page(session: SessionData, locations: seq<string>, loggedOut: bool)

  // ---------- one request ----------

  function CookieKey(h: Holder): TableKey {
    TableKey(h.cookie.id, h.cookie.version)
  }

  function Asked(locations: seq<string>, order: seq<nat>): (r: seq<string>)
    ensures |r| == |order|
  {
    seq(|order|, i requires 0 <= i < |order| => if order[i] < |locations| then locations[order[i]] else "")
  }

  /** The read RPC against one server; None is a timeout, which is also how "not found" ends. */
  function AnswerOf(st: State, s: string, k: TableKey, x: Exchange): Option<SessionData> {
    if x.Complete() && s in st.hosts && st.hosts[s].up && k in st.hosts[s].table
    then Some(st.hosts[s].table[k]) else None
  }

  function AnswersOf(st: State, names: seq<string>, k: TableKey, xs: seq<Exchange>): (r: seq<Option<SessionData>>)
    requires |names| == |xs|
    ensures |r| == |names|
  {
    seq(|names|, i requires 0 <= i < |names| => AnswerOf(st, names[i], k, xs[i]))
  }

  function ReadBack(st: State, r: Request): Option<Found>
    requires |r.order| == |r.readNet|
  {
    if r.client !in st.clients then None
    else
      var h := st.clients[r.client];
      var names := Asked(h.cookie.locations, r.order);
      FirstAnswer(names, AnswersOf(st, names, CookieKey(h), r.readNet))
  }

  /** The ID the serving host gives to the next session it creates. */
  function NextId(st: State, s: string): SessionId
    requires s in st.hosts
  {
    SessionId(s, st.hosts[s].reboot, st.hosts[s].next)
  }

  predicate OpensFresh(st: State, r: Request)
    requires |r.order| == |r.readNet|
  {
    NeedsFresh(ReadBack(st, r), st.clock)
  }

  function Opened(st: State, r: Request): SessionData
    requires |r.order| == |r.readNet| && r.server in st.hosts
  {
    Open(ReadBack(st, r), NextId(st, r.server), st.clock)
  }

  function Processed(st: State, r: Request): SessionData
    requires |r.order| == |r.readNet| && r.server in st.hosts
  {
    Updated(Opened(st, r), r.action, st.clock)
  }

  predicate IsUp(st: State, s: string) {
    s in st.hosts && st.hosts[s].up
  }

  predicate Stores(st: State, r: Request, s: string)
    requires |r.targets| == |r.writeNet|
  {
    IsUp(st, s) && exists i :: 0 <= i < |r.targets| && r.targets[i] == s && r.writeNet[i].requestArrives
  }

  function AckedBy(st: State, r: Request): (a: seq<bool>)
    requires |r.targets| == |r.writeNet|
    ensures |a| == |r.targets|
  {
    seq(|r.targets|, i requires 0 <= i < |r.targets| => IsUp(st, r.targets[i]) && r.writeNet[i].Complete())
  }

  function Located(cfg: Config, st: State, r: Request): Option<seq<string>>
    requires |r.targets| == |r.writeNet|
  {
    Backups(cfg.WQ(), r.targets, Ones(AckedBy(st, r)))
  }

  function HostsAfter(st: State, r: Request): map<string, Host>
    requires |r.order| == |r.readNet| && |r.targets| == |r.writeNet| && r.server in st.hosts
  {
    var s' := Processed(st, r);
    var n := if OpensFresh(st, r) then 1 else 0;
    map s | s in st.hosts ::
      var h := st.hosts[s];
      Host(h.up, h.reboot, if s == r.server then h.next + n else h.next,
           if Stores(st, r, s) then h.table[KeyOf(s') := s'] else h.table)
  }

  function ReplyTo(cfg: Config, st: State, r: Request): Reply
    requires |r.order| == |r.readNet| && |r.targets| == |r.writeNet| && r.server in st.hosts
  {
    match Located(cfg, st, r)
    case None => Failed
    case Some(locations) => Page(Processed(st, r), locations, r.action.Logout?)
  }

  /** A logout that changes the session under the very key of its client's cookie, on a server the cookie names. */
  predicate Disturbs(st: State, r: Request)
    requires |r.order| == |r.readNet| && |r.targets| == |r.writeNet| && r.server in st.hosts
  {
    && r.action.Logout? && r.client in st.clients && !OpensFresh(st, r)
    && Processed(st, r) != st.clients[r.client].written
    && exists i :: 0 <= i < |st.clients[r.client].cookie.locations|
        && Stores(st, r, st.clients[r.client].cookie.locations[i])
  }

  /** The browser's side: a page brings a new cookie or, after a logout, removes it; no page leaves the cookie alone. */
  function ClientsAfter(cfg: Config, st: State, r: Request): map<nat, Holder>
    requires |r.order| == |r.readNet| && |r.targets| == |r.writeNet| && r.server in st.hosts
  {
    var reply := ReplyTo(cfg, st, r);
    if r.delivered && reply.Page? then
      if r.action.Logout? then st.clients - {r.client}
      else
        var s' := reply.session;
        st.clients[r.client := Holder(Cookie(s'.id, s'.version, reply.locations), s', {}, false)]
    else if Disturbs(st, r) then
      st.clients[r.client := st.clients[r.client].(disturbed := true)]
    else st.clients
  }

  function ServeStep(cfg: Config, st: State, r: Request): State
    requires |r.order| == |r.readNet| && |r.targets| == |r.writeNet| && r.server in st.hosts
  {
    State(st.clock, HostsAfter(st, r), ClientsAfter(cfg, st, r),
          if OpensFresh(st, r) then st.created + [NextId(st, r.server)] else st.created)
  }

  // ---------- steps and runs ----------

  ghost predicate RequestOk(cfg: Config, st: State, r: Request) {
    && IsUp(st, r.server)
    && |r.order| == |r.readNet| == cfg.R() && Distinct(r.order)
        && (forall i :: 0 <= i < |r.order| ==> r.order[i] < cfg.WQ())
    && |r.targets| == |r.writeNet| == cfg.W() && Distinct(r.targets)
        && (forall i :: 0 <= i < |r.targets| ==> r.targets[i] in cfg.servers)
    && (r.action.Replace? ==> PageAccepts(r.action.message))
  }

  ghost predicate Enabled(cfg: Config, st: State, step: Step) {
    match step
    case Serve(r) => RequestOk(cfg, st, r)
    case Clean(s) => IsUp(st, s)
    case Crash(s) => IsUp(st, s)
    case Reboot(s) => s in st.hosts && !st.hosts[s].up
    case Tick(_) => true
  }

  function CrashClients(clients: map<nat, Holder>, s: string): map<nat, Holder> {
    map c | c in clients :: clients[c].(crashed := clients[c].crashed + {s})
  }

  ghost function Apply(cfg: Config, st: State, step: Step): State
    requires Enabled(cfg, st, step)
  {
    match step
    case Serve(r) => ServeStep(cfg, st, r)
    case Clean(s) => st.(hosts := st.hosts[s := st.hosts[s].(table := Cleaned(st.hosts[s].table, st.clock))])
    case Crash(s) =>
      st.(hosts := st.hosts[s := st.hosts[s].(up := false, table := map[])], clients := CrashClients(st.clients, s))
    case Reboot(s) => st.(hosts := st.hosts[s := Host(true, st.hosts[s].reboot + 1, 0, map[])])
    case Tick(d) => st.(clock := st.clock + d)
  }

  function Init(cfg: Config): State {
    State(0, map s | s in cfg.servers :: Host(true, 0, 0, map[]), map[], [])
  }

  ghost predicate ValidRun(cfg: Config, steps: seq<Step>)
    decreases |steps|, 0
  {
    steps == [] ||
    (ValidRun(cfg, steps[..|steps| - 1]) && Enabled(cfg, Run(cfg, steps[..|steps| - 1]), steps[|steps| - 1]))
  }

  /** The state a run leads to. */
  ghost function Run(cfg: Config, steps: seq<Step>): State
    requires ValidRun(cfg, steps)
    decreases |steps|, 1
  {
    if steps == [] then Init(cfg)
    else Apply(cfg, Run(cfg, steps[..|steps| - 1]), steps[|steps| - 1])
  }

  // ---------- the invariant ----------

  ghost predicate HostsInv(cfg: Config, st: State) {
    st.hosts.Keys == cfg.servers && forall s :: s in st.hosts && !st.hosts[s].up ==> st.hosts[s].table == map[]
  }

  /** Table keys are their sessions' own; only created sessions are stored; messages fit the wire. */
  ghost predicate TableOk(created: seq<SessionId>, table: Table) {
    forall k :: k in table ==> KeyOf(table[k]) == k && k.id in created && DelimiterFree(table[k].message)
  }

  ghost predicate TablesInv(st: State) {
    forall s :: s in st.hosts ==> TableOk(st.created, st.hosts[s].table)
  }

  ghost predicate IdIssued(st: State, id: SessionId) {
    id.server in st.hosts && 0 <= id.reboot <= st.hosts[id.server].reboot
    && (id.reboot == st.hosts[id.server].reboot ==> 0 <= id.num < st.hosts[id.server].next)
  }

  ghost predicate IdsInv(st: State) {
    Distinct(st.created) && forall i :: 0 <= i < |st.created| ==> IdIssued(st, st.created[i])
  }

  ghost predicate CookieOk(cfg: Config, st: State, h: Holder) {
    && h.cookie.id in st.created
    && |h.cookie.locations| == cfg.WQ() && Distinct(h.cookie.locations)
    && (forall i :: 0 <= i < |h.cookie.locations| ==> h.cookie.locations[i] in cfg.servers)
    && KeyOf(h.written) == CookieKey(h) && DelimiterFree(h.written.message)
  }

  ghost predicate CookiesInv(cfg: Config, st: State) {
    && (forall c :: c in st.clients ==> CookieOk(cfg, st, st.clients[c]))
    && (forall c, c' :: c in st.clients && c' in st.clients && c != c' ==>
          st.clients[c].cookie.id != st.clients[c'].cookie.id)
  }

  /**
   A named server holds nothing but the written session under the cookie's key; and unless it crashed since it
   acknowledged, it is up and still holds it until expiry.
   */
  ghost predicate Agrees(st: State, h: Holder, s: string) {
    && s in st.hosts
    && (CookieKey(h) in st.hosts[s].table ==> st.hosts[s].table[CookieKey(h)] == h.written)
    && (s !in h.crashed ==> st.hosts[s].up && (CookieKey(h) in st.hosts[s].table || Expired(h.written, st.clock)))
  }

  ghost predicate AgreeInv(st: State) {
    forall c, s :: c in st.clients && !st.clients[c].disturbed && s in st.clients[c].cookie.locations ==>
      Agrees(st, st.clients[c], s)
  }

  ghost predicate Inv(cfg: Config, st: State) {
    HostsInv(cfg, st) && TablesInv(st) && IdsInv(st) && CookiesInv(cfg, st) && AgreeInv(st)
  }

  // ---------- requests keep it ----------

  /** A read never returns another session or another version than the cookie names. */
  lemma ReadIsExact(st: State, r: Request)
    requires TablesInv(st) && |r.order| == |r.readNet|
    ensures ReadBack(st, r).Some? ==>
              && r.client in st.clients
              && KeyOf(ReadBack(st, r).value.session) == CookieKey(st.clients[r.client])
              && DelimiterFree(ReadBack(st, r).value.session.message)
  {
    if ReadBack(st, r).Some? {
      var h := st.clients[r.client];
      var names := Asked(h.cookie.locations, r.order);
      var answers := AnswersOf(st, names, CookieKey(h), r.readNet);
      FirstAnswerIsFirst(names, answers);
      var i :| 0 <= i < |names| && answers[i] == Some(ReadBack(st, r).value.session);
      assert TableOk(st.created, st.hosts[names[i]].table);
    }
  }

  lemma NextIdIsNew(st: State, s: string)
    requires IdsInv(st) && s in st.hosts
    ensures NextId(st, s) !in st.created
  {
  }

  lemma ProcessedFacts(cfg: Config, st: State, r: Request)
    requires Inv(cfg, st) && RequestOk(cfg, st, r)
    ensures var s' := Processed(st, r);
            && s'.id in ServeStep(cfg, st, r).created && DelimiterFree(s'.message)
            && (OpensFresh(st, r) ==> s'.id == NextId(st, r.server) && s'.id !in st.created)
            && (!OpensFresh(st, r) ==>
                  r.client in st.clients && KeyOf(Opened(st, r)) == CookieKey(st.clients[r.client])
                  && s'.id == st.clients[r.client].cookie.id)
            && s'.version == Opened(st, r).version + (if Bumps(r.action) then 1 else 0)
  {
    ReadIsExact(st, r);
    NextIdIsNew(st, r.server);
    MessagesStayClean(Opened(st, r), NextId(st, r.server), r.action, st.clock);
  }

  lemma PutKeepsTable(created: seq<SessionId>, created': seq<SessionId>, t: Table, s: SessionData)
    requires TableOk(created, t) && created <= created'
    requires s.id in created' && DelimiterFree(s.message)
    ensures TableOk(created', t) && TableOk(created', t[KeyOf(s) := s])
  {
    assert forall i :: 0 <= i < |created| ==> created[i] == created'[i];
  }

  lemma ServeKeepsTables(cfg: Config, st: State, r: Request)
    requires Inv(cfg, st) && RequestOk(cfg, st, r)
    ensures HostsInv(cfg, ServeStep(cfg, st, r)) && TablesInv(ServeStep(cfg, st, r))
  {
    ProcessedFacts(cfg, st, r);
    var created, hosts := ServeStep(cfg, st, r).created, HostsAfter(st, r);
    forall s | s in hosts
      ensures TableOk(created, hosts[s].table) && (!hosts[s].up ==> hosts[s].table == map[])
    {
      PutKeepsTable(st.created, created, st.hosts[s].table, Processed(st, r));
    }
  }

  lemma ServedIdIssued(cfg: Config, st: State, r: Request, id: SessionId)
    requires IdsInv(st) && RequestOk(cfg, st, r)
    requires IdIssued(st, id) || (OpensFresh(st, r) && id == NextId(st, r.server))
    ensures IdIssued(ServeStep(cfg, st, r), id)
  {
    assert HostsAfter(st, r).Keys == st.hosts.Keys;
  }

  lemma ServeKeepsIds(cfg: Config, st: State, r: Request)
    requires IdsInv(st) && RequestOk(cfg, st, r)
    ensures IdsInv(ServeStep(cfg, st, r))
  {
    var created := ServeStep(cfg, st, r).created;
    assert Distinct(created) by {
      NextIdIsNew(st, r.server);
    }
    forall i | 0 <= i < |created| ensures IdIssued(ServeStep(cfg, st, r), created[i]) {
      if i < |st.created| {
        assert IdIssued(st, st.created[i]) && created[i] == st.created[i];
      }
      ServedIdIssued(cfg, st, r, created[i]);
    }
  }

  /** The servers a new cookie names are F+1 different known ones, each of which stored the session. */
  lemma LocatedFacts(cfg: Config, st: State, r: Request)
    requires RequestOk(cfg, st, r) && Located(cfg, st, r).Some?
    ensures var locations := Located(cfg, st, r).value;
            && |locations| == cfg.WQ() && Distinct(locations)
            && (forall i :: 0 <= i < |locations| ==> locations[i] in cfg.servers)
            && (forall s :: s in locations ==> Stores(st, r, s))
  {
    BackupsAreFirstAnswerers(cfg.WQ(), r.targets, AckedBy(st, r));
    var locations := Located(cfg, st, r).value;
    forall s | s in locations ensures Stores(st, r, s) && s in cfg.servers {
      var i :| 0 <= i < |r.targets| && AckedBy(st, r)[i] && r.targets[i] == s;
    }
  }

  lemma NewCookieOk(cfg: Config, st: State, r: Request)
    requires Inv(cfg, st) && RequestOk(cfg, st, r) && Located(cfg, st, r).Some?
    ensures var s' := Processed(st, r);
            CookieOk(cfg, ServeStep(cfg, st, r),
                     Holder(Cookie(s'.id, s'.version, Located(cfg, st, r).value), s', {}, false))
  {
    ProcessedFacts(cfg, st, r);
    LocatedFacts(cfg, st, r);
  }

  lemma ServedCookieOk(cfg: Config, st: State, r: Request, c: nat)
    requires Inv(cfg, st) && RequestOk(cfg, st, r) && c in ClientsAfter(cfg, st, r)
    ensures CookieOk(cfg, ServeStep(cfg, st, r), ClientsAfter(cfg, st, r)[c])
  {
    if c == r.client && r.delivered && Located(cfg, st, r).Some? {
      NewCookieOk(cfg, st, r);
    } else {
      assert CookieOk(cfg, st, st.clients[c]);
      assert ClientsAfter(cfg, st, r)[c] == st.clients[c].(disturbed := ClientsAfter(cfg, st, r)[c].disturbed);
    }
  }

  lemma ServeKeepsCookies(cfg: Config, st: State, r: Request)
    requires Inv(cfg, st) && RequestOk(cfg, st, r)
    ensures CookiesInv(cfg, ServeStep(cfg, st, r))
  {
    var clients := ClientsAfter(cfg, st, r);
    forall c | c in clients ensures CookieOk(cfg, ServeStep(cfg, st, r), clients[c]) {
      ServedCookieOk(cfg, st, r, c);
    }
    forall c, c' | c in clients && c' in clients && c != c'
      ensures clients[c].cookie.id != clients[c'].cookie.id
    {
      if c' != r.client {
        OtherIdsDiffer(cfg, st, r, c, c');
      } else {
        OtherIdsDiffer(cfg, st, r, c', c);
      }
    }
  }

  /** A cookie after a request is the one from before, or its own client's new one. */
  lemma CookieSource(cfg: Config, st: State, r: Request, c: nat)
    requires RequestOk(cfg, st, r) && c in ClientsAfter(cfg, st, r)
    ensures || (c in st.clients && ClientsAfter(cfg, st, r)[c].cookie == st.clients[c].cookie)
            || (c == r.client && ClientsAfter(cfg, st, r)[c].cookie.id == Processed(st, r).id)
  {
  }

  lemma OtherIdsDiffer(cfg: Config, st: State, r: Request, c: nat, c': nat)
    requires Inv(cfg, st) && RequestOk(cfg, st, r) && c' != c
    requires c in ClientsAfter(cfg, st, r) && c' in ClientsAfter(cfg, st, r) && c' != r.client
    ensures ClientsAfter(cfg, st, r)[c].cookie.id != ClientsAfter(cfg, st, r)[c'].cookie.id
  {
    CookieSource(cfg, st, r, c);
    CookieSource(cfg, st, r, c');
    ProcessedFacts(cfg, st, r);
    assert CookieOk(cfg, st, st.clients[c']);
  }

  /** A holder that got no new cookie and is undisturbed is the holder it was. */
  lemma HolderKept(cfg: Config, st: State, r: Request, c: nat)
    requires RequestOk(cfg, st, r) && c in ClientsAfter(cfg, st, r) && !ClientsAfter(cfg, st, r)[c].disturbed
    requires !(c == r.client && r.delivered && Located(cfg, st, r).Some?)
    ensures c in st.clients && ClientsAfter(cfg, st, r)[c] == st.clients[c]
    ensures c == r.client ==> !Disturbs(st, r)
  {
  }

  /** The servers a new cookie names hold the session it was issued for. */
  lemma NewAgreement(cfg: Config, st: State, r: Request, s: string)
    requires Inv(cfg, st) && RequestOk(cfg, st, r) && Located(cfg, st, r).Some? && s in Located(cfg, st, r).value
    ensures var s' := Processed(st, r);
            Agrees(ServeStep(cfg, st, r), Holder(Cookie(s'.id, s'.version, Located(cfg, st, r).value), s', {}, false),
                   s)
  {
    LocatedFacts(cfg, st, r);
  }

  lemma ServeKeepsAgreement(cfg: Config, st: State, r: Request)
    requires Inv(cfg, st) && RequestOk(cfg, st, r)
    ensures AgreeInv(ServeStep(cfg, st, r))
  {
    var clients := ClientsAfter(cfg, st, r);
    forall c, s | c in clients && !clients[c].disturbed && s in clients[c].cookie.locations
      ensures Agrees(ServeStep(cfg, st, r), clients[c], s)
    {
      if c == r.client && r.delivered && Located(cfg, st, r).Some? {
        NewAgreement(cfg, st, r, s);
      } else {
        HolderKept(cfg, st, r, c);
        KeptAgreement(cfg, st, r, c, s);
      }
    }
  }

  /** A request that brings its client no new cookie leaves every undisturbed cookie's servers in agreement. */
  lemma KeptAgreement(cfg: Config, st: State, r: Request, c: nat, s: string)
    requires Inv(cfg, st) && RequestOk(cfg, st, r)
    requires c in st.clients && !st.clients[c].disturbed && s in st.clients[c].cookie.locations
    requires c == r.client ==> !Disturbs(st, r)
    ensures Agrees(ServeStep(cfg, st, r), st.clients[c], s)
  {
    ProcessedFacts(cfg, st, r);
    var h := st.clients[c];
    assert Agrees(st, h, s);
    var s' := Processed(st, r);
    assert h.cookie.id in st.created;
    if KeyOf(s') == CookieKey(h) && Stores(st, r, s) {
      // only this client's own plain load or logout can rewrite the cookie's key
      assert c == r.client && !OpensFresh(st, r) && !Bumps(r.action);
      ReadsWritten(cfg, st, r);
      var i :| 0 <= i < |h.cookie.locations| && h.cookie.locations[i] == s;
      assert s' == h.written;
    }
  }

  /** An undisturbed client reads back the session its cookie was issued for, or nothing. */
  lemma ReadsWritten(cfg: Config, st: State, r: Request)
    requires Inv(cfg, st) && RequestOk(cfg, st, r)
    requires r.client in st.clients && !st.clients[r.client].disturbed
    ensures ReadBack(st, r).Some? ==> ReadBack(st, r).value.session == st.clients[r.client].written
  {
    var h := st.clients[r.client];
    var names := Asked(h.cookie.locations, r.order);
    var answers := AnswersOf(st, names, CookieKey(h), r.readNet);
    FirstAnswerIsFirst(names, answers);
    if ReadBack(st, r).Some? {
      var i :| 0 <= i < |names| && answers[i] == Some(ReadBack(st, r).value.session);
      assert CookieOk(cfg, st, h);
      assert names[i] == h.cookie.locations[r.order[i]];
      assert Agrees(st, h, names[i]);
    }
  }

  // ---------- every step keeps it ----------

  /** What a step other than a request does to one host: it never goes back, and keeps or drops table entries. */
  ghost predicate HostFades(h: Host, h': Host, now: int) {
    && h'.reboot >= h.reboot && (h'.reboot == h.reboot ==> h'.next == h.next)
    && (!h'.up ==> h'.table == map[])
    && (forall k :: k in h'.table ==> k in h.table && h'.table[k] == h.table[k])
  }

  lemma HostsFade(cfg: Config, st: State, step: Step)
    requires Inv(cfg, st) && Enabled(cfg, st, step) && !step.Serve?
    ensures var st' := Apply(cfg, st, step);
            && st'.hosts.Keys == st.hosts.Keys && st'.created == st.created && st'.clock >= st.clock
            && (forall s :: s in st.hosts ==> HostFades(st.hosts[s], st'.hosts[s], st'.clock))
            && st'.clients.Keys == st.clients.Keys
            && (forall c :: c in st.clients ==> st'.clients[c] == st.clients[c].(crashed := st'.clients[c].crashed))
  {
  }

  lemma FadingAgrees(cfg: Config, st: State, step: Step, c: nat, s: string)
    requires Inv(cfg, st) && Enabled(cfg, st, step) && !step.Serve?
    requires c in st.clients && Agrees(st, st.clients[c], s)
    ensures Agrees(Apply(cfg, st, step), Apply(cfg, st, step).clients[c], s)
  {
  }

  lemma FadingKeepsTables(cfg: Config, st: State, step: Step)
    requires Inv(cfg, st) && Enabled(cfg, st, step) && !step.Serve?
    ensures HostsInv(cfg, Apply(cfg, st, step)) && TablesInv(Apply(cfg, st, step))
  {
    HostsFade(cfg, st, step);
    var st' := Apply(cfg, st, step);
    forall s | s in st'.hosts
      ensures TableOk(st'.created, st'.hosts[s].table) && (!st'.hosts[s].up ==> st'.hosts[s].table == map[])
    {
      assert HostFades(st.hosts[s], st'.hosts[s], st'.clock) && TableOk(st.created, st.hosts[s].table);
    }
  }

  lemma FadingKeepsIds(cfg: Config, st: State, step: Step)
    requires Inv(cfg, st) && Enabled(cfg, st, step) && !step.Serve?
    ensures IdsInv(Apply(cfg, st, step))
  {
    HostsFade(cfg, st, step);
    var st' := Apply(cfg, st, step);
    forall i | 0 <= i < |st'.created| ensures IdIssued(st', st'.created[i]) {
      assert IdIssued(st, st.created[i]);
      assert HostFades(st.hosts[st.created[i].server], st'.hosts[st.created[i].server], st'.clock);
    }
  }

  lemma FadingKeepsCookies(cfg: Config, st: State, step: Step)
    requires Inv(cfg, st) && Enabled(cfg, st, step) && !step.Serve?
    ensures CookiesInv(cfg, Apply(cfg, st, step))
  {
    HostsFade(cfg, st, step);
    var st' := Apply(cfg, st, step);
    forall c | c in st'.clients ensures CookieOk(cfg, st', st'.clients[c]) {
      assert CookieOk(cfg, st, st.clients[c]);
    }
  }

  lemma OtherStepsKeepInv(cfg: Config, st: State, step: Step)
    requires Inv(cfg, st) && Enabled(cfg, st, step) && !step.Serve?
    ensures Inv(cfg, Apply(cfg, st, step))
  {
    HostsFade(cfg, st, step);
    FadingKeepsTables(cfg, st, step);
    FadingKeepsIds(cfg, st, step);
    FadingKeepsCookies(cfg, st, step);
    var st' := Apply(cfg, st, step);
    forall c, s | c in st'.clients && !st'.clients[c].disturbed && s in st'.clients[c].cookie.locations
      ensures Agrees(st', st'.clients[c], s)
    {
      assert Agrees(st, st.clients[c], s);
      FadingAgrees(cfg, st, step, c, s);
    }
  }

  lemma StepKeepsInv(cfg: Config, st: State, step: Step)
    requires Inv(cfg, st) && Enabled(cfg, st, step)
    ensures Inv(cfg, Apply(cfg, st, step))
  {
    if step.Serve? {
      ServeKeepsTables(cfg, st, step.r);
      ServeKeepsIds(cfg, st, step.r);
      ServeKeepsCookies(cfg, st, step.r);
      ServeKeepsAgreement(cfg, st, step.r);
    } else {
      OtherStepsKeepInv(cfg, st, step);
    }
  }

  /** Session consistency over whole runs: the invariant holds in every reachable state. */
  lemma {:induction false} RunKeepsInv(cfg: Config, steps: seq<Step>)
    requires ValidRun(cfg, steps)
    ensures Inv(cfg, Run(cfg, steps))
  {
    if steps != [] {
      RunKeepsInv(cfg, steps[..|steps| - 1]);
      StepKeepsInv(cfg, Run(cfg, steps[..|steps| - 1]), steps[|steps| - 1]);
    }
  }
}
