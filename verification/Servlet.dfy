/**
 The request handler (src/proj1b/servlet/proj1bServlet.java) with its cookie text, its random choice of locations and
 its choice of write targets. The network appears as what each request's fresh socket hears of it.
 */
module Servlet {
  import opened Wrappers
  import opened JavaText
  import opened Sessions
  import opened Wire
  import opened RpcServer
  import opened RpcClient
  import opened Quorum
  import opened Cluster

  // ---------- the cookie text ----------

  function CookieText(c: Cookie): string {
    Join('#', [IdText(c.id), Dec(c.version)] + c.locations)
  }

  datatype ParsedCookie = ParsedCookie(sessionID: string, version: int, svrIDs: seq<string>)

  /** The handler's reading of the cookie; None where it throws on a missing or non-numeric field. */
  function ParseCookie(text: string): Option<ParsedCookie> {
    var values := Split(text, '#');
    if |values| < 4 then None
    else
      match ParseInt(values[3])
      case None => None
      case Some(version) => Some(ParsedCookie(Join('#', values[..3]), version, values[4..]))
  }

  /** Server IDs the formats can carry. */
  predicate Named(servers: set<string>) {
    forall s :: s in servers ==> s != "" && DelimiterFree(s)
  }

  lemma CookieFields(c: Cookie)
    ensures CookieText(c)
         == Join('#', [c.id.server, Dec(c.id.reboot), Dec(c.id.num), Dec(c.version)] + c.locations)
  {
    var xs, ys := [c.id.server, Dec(c.id.reboot), Dec(c.id.num)], [Dec(c.version)] + c.locations;
    JoinGroup(xs, ys);
    assert [IdText(c.id)] + ys == [IdText(c.id), Dec(c.version)] + c.locations;
    assert xs + ys == [c.id.server, Dec(c.id.reboot), Dec(c.id.num), Dec(c.version)] + c.locations;
  }

  lemma JoinGroup(xs: seq<string>, ys: seq<string>)
    requires xs != [] && ys != []
    ensures Join('#', [Join('#', xs)] + ys) == Join('#', xs + ys)
  {
    JoinNested('#', xs, ys);
    JoinNested('#', [Join('#', xs)], ys);
  }

  lemma CookieFieldsClean(servers: set<string>, c: Cookie, parts: seq<string>)
    requires Named(servers) && c.id.server in servers
    requires c.locations != [] && forall s :: s in c.locations ==> s in servers
    requires parts == [c.id.server, Dec(c.id.reboot), Dec(c.id.num), Dec(c.version)] + c.locations
    ensures Without('#', parts) && parts[|parts| - 1] != ""
  {
    forall i | 0 <= i < |parts| ensures '#' !in parts[i] {
      if i >= 4 {
        assert parts[i] == c.locations[i - 4] && parts[i] in c.locations;
      }
    }
    assert parts[|parts| - 1] == c.locations[|c.locations| - 1] && parts[|parts| - 1] in c.locations;
  }

  lemma CookieGroups(c: Cookie)
    ensures var parts := [c.id.server, Dec(c.id.reboot), Dec(c.id.num), Dec(c.version)] + c.locations;
            Join('#', parts[..3]) == IdText(c.id) && parts[3] == Dec(c.version) && parts[4..] == c.locations
  {
    var parts := [c.id.server, Dec(c.id.reboot), Dec(c.id.num), Dec(c.version)] + c.locations;
    assert parts[..3] == [c.id.server, Dec(c.id.reboot), Dec(c.id.num)];
  }

  lemma CookieParses(servers: set<string>, c: Cookie)
    requires Named(servers) && c.id.server in servers && FitsInt(c.version)
    requires c.locations != [] && forall s :: s in c.locations ==> s in servers
    ensures ParseCookie(CookieText(c)) == Some(ParsedCookie(IdText(c.id), c.version, c.locations))
  {
    CookieFields(c);
    var parts := [c.id.server, Dec(c.id.reboot), Dec(c.id.num), Dec(c.version)] + c.locations;
    CookieFieldsClean(servers, c, parts);
    SplitOfJoin('#', parts);
    CookieGroups(c);
    ParseOfDec(c.version);
  }

  lemma HolderParses(cfg: Config, st: State, c: nat)
    requires Inv(cfg, st) && c in st.clients && Named(cfg.servers) && FitsInt(st.clients[c].cookie.version)
    ensures var cookie := st.clients[c].cookie;
            && ParseCookie(CookieText(cookie))
                == Some(ParsedCookie(IdText(cookie.id), cookie.version, cookie.locations))
            && |cookie.locations| == cfg.WQ() == cfg.R() && Distinct(cookie.locations)
            && (forall s :: s in cookie.locations ==> s in cfg.servers) && DelimiterFree(cookie.id.server)
  {
    var h := st.clients[c];
    assert CookieOk(cfg, st, h);
    var i :| 0 <= i < |st.created| && st.created[i] == h.cookie.id;
    assert IdIssued(st, st.created[i]);
    CookieParses(cfg.servers, h.cookie);
  }

  /**
   Cookie invariant: in every reachable state every cookie parses back to its session ID, its version and exactly WQ
   distinct known servers, so every index below WQ is in range and choosing WQ indices asks all of them.
   */
  lemma IssuedCookiesParse(cfg: Config, steps: seq<Step>, c: nat)
    requires ValidRun(cfg, steps) && c in Run(cfg, steps).clients && Named(cfg.servers)
    requires FitsInt(Run(cfg, steps).clients[c].cookie.version)
    ensures var cookie := Run(cfg, steps).clients[c].cookie;
            && ParseCookie(CookieText(cookie))
                == Some(ParsedCookie(IdText(cookie.id), cookie.version, cookie.locations))
            && |cookie.locations| == cfg.WQ() == cfg.R() && Distinct(cookie.locations)
            && (forall s :: s in cookie.locations ==> s in cfg.servers)
  {
    RunKeepsInv(cfg, steps);
    HolderParses(cfg, Run(cfg, steps), c);
  }

  /** As many different indices below n as there are indices below n are all of them. */
  lemma {:induction false} AllIndices(s: set<nat>, n: nat)
    requires (forall x :: x in s ==> x < n) && |s| == n
    ensures forall x: nat :: x < n ==> x in s
  {
    if n > 0 {
      if n - 1 in s {
        AllIndices(s - {n - 1}, n - 1);
        forall x: nat | x < n ensures x in s {
          assert x == n - 1 || x in s - {n - 1};
        }
      } else {
        SizeBelow(s, n - 1);
      }
    }
  }

  lemma {:induction false} SizeBelow(s: set<nat>, n: nat)
    requires forall x :: x in s ==> x < n
    ensures |s| <= n
  {
    if n > 0 {
      SizeBelow(s - {n - 1}, n - 1);
    } else {
      assert s == {};
    }
  }

  // ---------- choosing targets ----------

  /** The target list after k turns of the loop over the known server IDs. */
  function TargetsAfter(ids: seq<string>, w: nat, k: nat): seq<string> {
    if k == 0 then []
    else
      var before := TargetsAfter(ids, w, k - 1);
      if |before| < w && |before| < |ids| then before + [ids[|before|]] else before
  }

  lemma {:induction false} TargetsArePrefix(ids: seq<string>, w: nat, k: nat)
    ensures var n := if k <= w && k <= |ids| then k else if w <= |ids| then w else |ids|;
            TargetsAfter(ids, w, k) == ids[..n]
  {
    if k > 0 {
      TargetsArePrefix(ids, w, k - 1);
    }
  }

  /** The loop ever collects W targets exactly when W servers are known; with fewer it spins for good. */
  lemma TargetLoopEnds(ids: seq<string>, w: nat)
    ensures (exists k :: |TargetsAfter(ids, w, k)| >= w) <==> |ids| >= w
  {
    if |ids| >= w {
      TargetsArePrefix(ids, w, w);
      assert |TargetsAfter(ids, w, w)| >= w;
    } else {
      forall k: nat ensures |TargetsAfter(ids, w, k)| < w {
        TargetsArePrefix(ids, w, k);
      }
    }
  }

  // ---------- the handler ----------

  datatype HttpReply =
    | Threw
    | StatusError
    | StatusSuccess(session: SessionData, cookie: string, source: Option<string>, loggedOut: bool)

  /** The sockets of a loop that tries the places in that order. */
  function NetAt(places: seq<nat>, net: Net): Net {
    (k: nat, d: Sent) => if k < |places| then net(places[k], d) else []
  }

  function ServerOf(found: Option<Found>): Option<string> {
    if found.Some? then Some(found.value.server) else None
  }

  function ReplyFor(session: SessionData, source: Option<string>, logout: bool, written: Try<Option<seq<string>>>)
      : HttpReply
  {
    match written
    case Thrown => Threw
    case Done(None) => StatusError
    case Done(Some(locations)) =>
      StatusSuccess(session, CookieText(Cookie(session.id, session.version, locations)), source, logout)
  }

  /** A page shows the session, and its cookie names that session, its version and the servers that have it. */
  predicate Issues(reply: HttpReply, session: SessionData, source: Option<string>, logout: bool,
                   written: Try<Option<seq<string>>>)
  {
    && (reply.Threw? <==> written.Thrown?) && (reply.StatusSuccess? <==> written.Done? && written.value.Some?)
    && (reply.StatusSuccess? ==>
          && reply.session == session && reply.source == source && reply.loggedOut == logout
          && reply.cookie == Join('#', [IdText(session.id), Dec(session.version)] + written.value.value))
  }

  /** The cookie of a page parses back to the ID and version of the session shown and to the servers that have it. */
  lemma PageCookieParses(servers: set<string>, reply: HttpReply, session: SessionData, source: Option<string>,
                         logout: bool, written: Try<Option<seq<string>>>)
    requires Named(servers) && session.id.server in servers && FitsInt(session.version)
    requires Issues(reply, session, source, logout, written) && reply.StatusSuccess?
    requires written.value.value != [] && forall s :: s in written.value.value ==> s in servers
    ensures ParseCookie(reply.cookie) == Some(ParsedCookie(IdText(session.id), session.version, written.value.value))
  {
    CookieParses(servers, Cookie(session.id, session.version, written.value.value));
  }

  /**
   What the read loop did: the client's log of requests before and after it, the order in which it went through the
   locations, and what the sockets heard.
   */
  datatype ReadLog = ReadLog(before: seq<Sent>, after: seq<Sent>, order: seq<nat>, inbox: seq<seq<Datagram>>)

  /** The same for the write loop, which takes the targets as they are listed. */
  datatype WriteLog = WriteLog(before: seq<Sent>, after: seq<Sent>, inbox: seq<seq<Datagram>>)

  /** What one request came to: its read, the session it made of it, and its write. */
  datatype Transcript = Transcript(read: Try<Option<Found>>, readLog: ReadLog, session: SessionData,
                                   written: Try<Option<seq<string>>>, writeLog: WriteLog)

  /**
   The order visits every one of the WQ locations once, reads of the cookie's session and version went to them in that
   order until one was not silent, and the read is what their sockets heard.
   */
  ghost predicate ReadsAll(cfg: Config, addresses: map<string, string>, cookie: ParsedCookie, net: Net, log: ReadLog,
                           read: Try<Option<Found>>)
  {
    var names := Asked(cookie.svrIDs, log.order);
    && Distinct(log.order) && |log.order| == |log.inbox| == cfg.R()
    && (forall i :: 0 <= i < |log.order| ==> log.order[i] < cfg.WQ())
    && read == ReadOutcome(names, Hearings(addresses, names, log.inbox))
    && SentReads(log.before, log.after, addresses, names, cookie.sessionID, cookie.version,
                 Contacted(Hearings(addresses, names, log.inbox)))
    && Reacted(NetAt(log.order, net), log.before, log.after, log.inbox)
  }

  /**
   Writes of that session went to the first W known servers, all of them unless one threw, and were heard as written.
   */
  ghost predicate WritesAll(cfg: Config, addresses: map<string, string>, ids: seq<string>, net: Net,
                            session: SessionData, log: WriteLog, written: Try<Option<seq<string>>>)
  {
    && |ids| >= cfg.W() && |log.inbox| == cfg.W() && |log.before| <= |log.after|
    && written == WriteOutcome(cfg.WQ(), ids[..cfg.W()], addresses, log.inbox)
    && SentWrites(log.before, log.after, addresses, ids[..cfg.W()], session, |log.after| - |log.before|)
    && (written.Done? ==> |log.after| == |log.before| + cfg.W())
    && Reacted(net, log.before, log.after, log.inbox)
  }

  /** The reply and the handler's counter, given what the two quorum loops came to. */
  function Served(read: Try<Option<Found>>, local: string, reboot: nat, next: nat, action: Action, now: int,
                  written: Try<Option<seq<string>>>): (HttpReply, nat)
  {
    match read
    case Thrown => (Threw, next)
    case Done(found) =>
      var session := Updated(Open(found, SessionId(local, reboot, next), now), action, now);
      (ReplyFor(session, ServerOf(found), action.Logout?, written), if NeedsFresh(found, now) then next + 1 else next)
  }

  class Servlet {
    const cfg: Config
    const client: RpcClient
    const localServerID: string
    const rebootNum: nat
    var nextSessionID: nat

    ghost predicate Valid()
      reads this, client, client.config
    {
      client.config.Valid() && client.wq == cfg.WQ()
    }

    constructor (cfg: Config, client: RpcClient, localServerID: string, rebootNum: nat)
      requires client.config.Valid() && client.wq == cfg.WQ()
      ensures Valid() && nextSessionID == 0
      ensures this.cfg == cfg && this.client == client && this.localServerID == localServerID
             && this.rebootNum == rebootNum
    {
      this.cfg := cfg;
      this.client := client;
      this.localServerID := localServerID;
      this.rebootNum := rebootNum;
      nextSessionID := 0;
    }

    /** Draws random indices until m different ones came up; None means the given draws were not enough. */
    method GenerateRandomNumbers(m: nat, n: nat, draws: seq<nat>) returns (r: Option<set<nat>>)
      requires forall d :: d in draws ==> d < n
      ensures r.Some? ==> |r.value| == m && forall x :: x in r.value ==> x < n
      ensures r.Some? && m == n ==> forall x: nat :: x < n ==> x in r.value
      ensures r.None? ==> |(set d | d in draws)| < m
    {
      var generated: set<nat> := {};
      var at := 0;
      while |generated| < m && at < |draws|
        invariant 0 <= at <= |draws| && |generated| <= m
        invariant forall x :: x in generated ==> x < n
        invariant generated == set d | d in draws[..at]
        decreases |draws| - at
      {
        assert draws[at] in draws && draws[..at + 1] == draws[..at] + [draws[at]];
        generated := generated + {draws[at]};
        at := at + 1;
      }
      if |generated| < m {
        assert draws[..at] == draws;
        return None;
      }
      if m == n {
        AllIndices(generated, n);
      }
      return Some(generated);
    }

    /** The chosen locations in the order the index set happens to be iterated. */
    method PickLocations(indices: set<nat>, svrIDs: seq<string>) returns (names: seq<string>, order: seq<nat>)
      requires forall x :: x in indices ==> x < |svrIDs|
      ensures Distinct(order) && (forall x :: x in order <==> x in indices) && |order| == |indices|
      ensures names == Asked(svrIDs, order)
      ensures forall s :: s in names ==> s in svrIDs
    {
      names, order := [], [];
      var rest := indices;
      while rest != {}
        invariant rest <= indices && Distinct(order)
        invariant forall x :: x in order <==> x in indices - rest
        invariant |order| + |rest| == |indices|
        invariant names == Asked(svrIDs, order)
        invariant forall s :: s in names ==> s in svrIDs
        decreases rest
      {
        var n :| n in rest;
        assert n !in order;
        names, order := names + [svrIDs[n]], order + [n];
        rest := rest - {n};
      }
    }

    method ChooseTargets(ids: seq<string>) returns (targets: seq<string>)
      requires |ids| >= cfg.W()
      ensures targets == ids[..cfg.W()]
    {
      targets := [];
      var at := 0;
      while |targets| < cfg.W()
        invariant at == |targets| <= cfg.W() && targets == ids[..at]
        decreases cfg.W() - |targets|
      {
        targets := targets + [ids[at]];
        at := at + 1;
      }
    }

    method GetCookieValue(session: SessionData, locations: seq<string>) returns (text: string)
      ensures text == CookieText(Cookie(session.id, session.version, locations))
    {
      text := IdText(session.id) + "#" + Dec(session.version);
      ghost var parts := [IdText(session.id), Dec(session.version)];
      for i := 0 to |locations|
        invariant parts == [IdText(session.id), Dec(session.version)] + locations[..i]
        invariant text == Join('#', parts)
      {
        JoinNested('#', parts, [locations[i]]);
        text := text + "#" + locations[i];
        parts := parts + [locations[i]];
      }
      assert locations[..|locations|] == locations;
    }

    /** Reads the session a cookie names from all its locations, in some order. */
    method ReadSession(cookie: ParsedCookie, draws: seq<nat>, net: Net)
        returns (read: Try<Option<Found>>, ghost log: ReadLog, enough: bool)
      requires Valid() && (forall d :: d in draws ==> d < cfg.WQ())
      requires |cookie.svrIDs| >= cfg.WQ()
      modifies client`sent, client.config
      ensures Valid()
      ensures log.before == old(client.sent) && log.after == client.sent
      ensures enough ==> ReadsAll(cfg, client.addresses, cookie, net, log, read)
      ensures enough && EchoedAll(client.config.localServerID, client.addresses, Asked(cookie.svrIDs, log.order),
                                  log.before, log.after, log.inbox) ==>
                && SentWithID(log.before, log.after, old(client.config.LocalID()))
                && (read.Done? ==> client.config.LocalID() == old(client.config.LocalID()) + 1)
      ensures !enough ==> |(set d | d in draws)| < cfg.R()
    {
      read, enough := Done(None), false;
      log := ReadLog(client.sent, client.sent, [], []);
      var indices := GenerateRandomNumbers(cfg.R(), cfg.WQ(), draws);
      if indices.Some? {
        var names, places := PickLocations(indices.value, cookie.svrIDs);
        enough := true;
        assert forall i :: 0 <= i < |places| ==> places[i] in places;
        ghost var inbox;
        read, inbox := client.SessionRead(cookie.sessionID, cookie.version, names, NetAt(places, net));
        log := ReadLog(log.before, client.sent, places, inbox);
      }
    }

    /** The session object of one request: read back or created, then updated by the button. */
    method PrepareSession(read: Option<Found>, action: Action, now: int) returns (data: SessionData)
      modifies this`nextSessionID
      ensures data == Updated(Open(read, SessionId(localServerID, rebootNum, old(nextSessionID)), now), action, now)
      ensures nextSessionID == if NeedsFresh(read, now) then old(nextSessionID) + 1 else old(nextSessionID)
      ensures MadeOf(read, SessionId(localServerID, rebootNum, old(nextSessionID)), action, now, data)
      ensures nextSessionID == old(nextSessionID) <==> read.Some? && now <= read.value.session.expires
    {
      var session;
      if read.None? || read.value.session.expires < now {
        session := new Session.Fresh(SessionId(localServerID, rebootNum, nextSessionID), now);
        nextSessionID := nextSessionID + 1;
      } else {
        session := new Session.From(read.value.session);
      }
      match action {
        case Load =>
        case Refresh => session.DoRefresh(now);
        case Replace(message) => session.DoReplace(message, now);
        case Logout => session.DoLogout(now);
      }
      data := SessionData(session.id, session.versionNumber, session.message, session.expirationTime);
    }

    /** Writes the session to the first W known servers and builds the reply. */
    method WriteAndReply(session: SessionData, source: Option<string>, logout: bool, ids: seq<string>, net: Net)
        returns (reply: HttpReply, ghost written: Try<Option<seq<string>>>, ghost log: WriteLog)
      requires Valid() && |ids| >= cfg.W()
      modifies client`sent, client.config
      ensures Valid()
      ensures log.before == old(client.sent) && log.after == client.sent
      ensures WritesAll(cfg, client.addresses, ids, net, session, log, written)
      ensures reply == ReplyFor(session, source, logout, written) && Issues(reply, session, source, logout, written)
      ensures EchoedAll(client.config.localServerID, client.addresses, ids[..cfg.W()], log.before, log.after,
                        log.inbox) ==>
                SentWithID(log.before, log.after, old(client.config.LocalID()))
    {
      var targets := ChooseTargets(ids);
      var outcome;
      ghost var inbox;
      outcome, inbox := client.SessionWrite(session, targets, net);
      written, log := outcome, WriteLog(old(client.sent), client.sent, inbox);
      match outcome {
        case Thrown => reply := Threw;
        case Done(None) => reply := StatusError;
        case Done(Some(locations)) =>
          var text := GetCookieValue(session, locations);
          reply := StatusSuccess(session, text, source, logout);
      }
    }

    /** What follows the read: the session of the request is made, written and answered. */
    method Respond(found: Option<Found>, action: Action, now: int, ids: seq<string>, net: Net)
        returns (reply: HttpReply, ghost session: SessionData, ghost written: Try<Option<seq<string>>>,
                 ghost log: WriteLog)
      requires Valid() && |ids| >= cfg.W()
      modifies this`nextSessionID, client`sent, client.config
      ensures Valid()
      ensures session == Updated(Open(found, SessionId(localServerID, rebootNum, old(nextSessionID)), now), action, now)
      ensures MadeOf(found, SessionId(localServerID, rebootNum, old(nextSessionID)), action, now, session)
      ensures Issues(reply, session, ServerOf(found), action.Logout?, written)
      ensures WritesAll(cfg, client.addresses, ids, net, session, log, written)
      ensures log.before == old(client.sent) && log.after == client.sent
      ensures (reply, nextSessionID)
           == Served(Done(found), localServerID, rebootNum, old(nextSessionID), action, now, written)
      ensures EchoedAll(client.config.localServerID, client.addresses, ids[..cfg.W()], log.before, log.after,
                        log.inbox) ==>
                SentWithID(log.before, log.after, old(client.config.LocalID()))
    {
      var data := PrepareSession(found, action, now);
      session := data;
      reply, written, log := WriteAndReply(data, ServerOf(found), action.Logout?, ids, net);
    }

    /** Whether the handler gets past the cookie: it parses and names at least the WQ locations it will index. */
    ghost predicate Usable(cookie: string) {
      ParseCookie(cookie).Some? && |ParseCookie(cookie).value.svrIDs| >= cfg.WQ()
    }

    /** The read half of a transcript: what the contract of a request says about it. */
    ghost predicate ReadHalf(cookie: Option<string>, readNet: Net, t: Transcript)
      reads client
    {
      && (cookie.None? ==> t.read == Done(None) && t.readLog.after == t.readLog.before)
      && (cookie.Some? ==>
            && ParseCookie(cookie.value).Some?
            && ReadsAll(cfg, client.addresses, ParseCookie(cookie.value).value, readNet, t.readLog, t.read))
    }

    /** Every request went out under the call ID id, or the next one if it is a write that follows a read. */
    ghost predicate OwnIDs(cookie: Option<string>, ids: seq<string>, t: Transcript, id: int)
      requires |ids| >= cfg.W()
      reads client
    {
      var local, addresses := client.config.localServerID, client.addresses;
      (cookie.Some? && ParseCookie(cookie.value).Some? ==>
         EchoedAll(local, addresses, Asked(ParseCookie(cookie.value).value.svrIDs, t.readLog.order),
                   t.readLog.before, t.readLog.after, t.readLog.inbox)) ==>
        && (cookie.Some? ==> SentWithID(t.readLog.before, t.readLog.after, id))
        && (t.read.Done?
            && EchoedAll(local, addresses, ids[..cfg.W()], t.writeLog.before, t.writeLog.after, t.writeLog.inbox) ==>
              SentWithID(t.writeLog.before, t.writeLog.after, if cookie.Some? then id + 1 else id))
    }

    /**
     One request, from the cookie text to the reply. A cookie the handler cannot use makes it throw, and so does a reply
     that a loop cannot use, such as any that arrives for a location no server has.
     */
    method DoGet(cookie: Option<string>, action: Action, now: int, draws: seq<nat>, ids: seq<string>, readNet: Net,
                 writeNet: Net)
        returns (reply: HttpReply, ghost t: Transcript)
      requires Valid() && |ids| >= cfg.W()
      requires (forall d :: d in draws ==> d < cfg.WQ()) && |(set d | d in draws)| == cfg.WQ()
      modifies this`nextSessionID, client`sent, client.config
      ensures Valid()
      ensures cookie.Some? && !Usable(cookie.value) ==>
                reply == Threw && nextSessionID == old(nextSessionID) && client.sent == old(client.sent)
      ensures cookie.None? || Usable(cookie.value) ==>
                && ReadHalf(cookie, readNet, t) && OwnIDs(cookie, ids, t, old(client.config.LocalID()))
                && t.readLog.before == old(client.sent)
                && (t.read.Thrown? ==> t.readLog.after == client.sent)
      ensures (cookie.None? || Usable(cookie.value)) && t.read.Done? ==>
                && t.session
                   == Updated(Open(t.read.value, SessionId(localServerID, rebootNum, old(nextSessionID)), now), action,
                              now)
                && MadeOf(t.read.value, SessionId(localServerID, rebootNum, old(nextSessionID)), action, now, t.session)
                && Issues(reply, t.session, ServerOf(t.read.value), action.Logout?, t.written)
                && WritesAll(cfg, client.addresses, ids, writeNet, t.session, t.writeLog, t.written)
                && t.writeLog.before == t.readLog.after && t.writeLog.after == client.sent
      ensures cookie.None? || Usable(cookie.value) ==>
                (reply, nextSessionID)
                == Served(t.read, localServerID, rebootNum, old(nextSessionID), action, now, t.written)
    {
      ghost var readLog, writeLog := ReadLog(client.sent, client.sent, [], []), WriteLog([], [], []);
      var found: Option<Found> := None;
      if cookie.Some? {
        var parsed := ParseCookie(cookie.value);
        var nothing := SessionData(SessionId("", 0, 0), 0, "", 0);
        if parsed.None? || |parsed.value.svrIDs| < cfg.WQ() {
          t := Transcript(Thrown, readLog, nothing, Thrown, writeLog);
          return Threw, t;
        }
        var read, enough;
        read, readLog, enough := ReadSession(parsed.value, draws, readNet);
        if read.Thrown? {
          t := Transcript(Thrown, readLog, nothing, Thrown, writeLog);
          return Threw, t;
        }
        found := read.value;
      }
      ghost var session, written;
      reply, session, written, writeLog := Respond(found, action, now, ids, writeNet);
      t := Transcript(Done(found), readLog, session, written, writeLog);
    }
  }
}
