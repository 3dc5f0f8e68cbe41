/**
 The client's two quorum loops (src/proj1b/rpc/RPCClient.java). Each contacted server gets a fresh socket; inbox[i] is
 the sequence of datagrams that reach the socket of the i-th server before its receive times out. What the network lets
 arrive there may depend on the request that was sent.
 */
module RpcClient {
  import opened Wrappers
  import opened JavaText
  import opened Sessions
  import opened Wire
  import opened RpcServer
  import opened Quorum
  import SessionTable

  /** A received datagram and the IP address it came from. */
  datatype Datagram = Datagram(ip: string, text: string)

  /**
   A request the client sent, with its call ID and destination; a server ID that nobody has resolves to no address, and
   the request goes to the loopback interface.
   */
  datatype Sent =
    | SentRead(to: Option<string>, callID: int, sessionID: string, version: int)
    | SentWrite(to: Option<string>, callID: int, session: SessionData)
  {
    function Text(): string {
      match this
      case SentRead(_, callID, sessionID, version) => ReadRequest(callID, sessionID, version)
      case SentWrite(_, callID, session) => WriteRequest(callID, session)
    }
  }

  /** What the k-th socket of a loop hears after that request went out on it. */
  type Net = (nat, Sent) -> seq<Datagram>

  function AddressOf(addresses: map<string, string>, svrID: string): Option<string> {
    if svrID in addresses then Some(addresses[svrID]) else None
  }

  // ---------- what one socket hears ----------

  /** A read's socket: nothing of use before the timeout, a session, or something that makes the client throw. */
  datatype Hearing = Silent | Answered(session: SessionData) | Broken

  /** The reply that ends a read's receive loop; without an address the code throws on the first datagram. */
  function FirstOk(ip: Option<string>, inbox: seq<Datagram>): Try<Option<string>> {
    if inbox == [] then Done(None)
    else if ip.None? then Thrown
    else if inbox[0].ip != ip.value then FirstOk(ip, inbox[1..])
    else
      match ParseReply(inbox[0].text)
      case None => Thrown
      case Some(reply) => if reply.code == RESPONSE_OK then Done(Some(inbox[0].text)) else FirstOk(ip, inbox[1..])
  }

  function Hear(ip: Option<string>, inbox: seq<Datagram>): Hearing {
    match FirstOk(ip, inbox)
    case Thrown => Broken
    case Done(None) => Silent
    case Done(Some(text)) => if OkSession(text).Some? then Answered(OkSession(text).value) else Broken
  }

  function Hearings(addresses: map<string, string>, svrIDs: seq<string>, inbox: seq<seq<Datagram>>): (r: seq<Hearing>)
    requires |svrIDs| == |inbox|
    ensures |r| == |svrIDs|
  {
    seq(|svrIDs|, i requires 0 <= i < |svrIDs| => Hear(AddressOf(addresses, svrIDs[i]), inbox[i]))
  }

  /** A whole read: the first server that is not silent decides. */
  function ReadOutcome(names: seq<string>, hearings: seq<Hearing>): Try<Option<Found>>
    requires |names| == |hearings|
  {
    if names == [] then Done(None)
    else
      match hearings[0]
      case Silent => ReadOutcome(names[1..], hearings[1..])
      case Answered(session) => Done(Some(Found(session, names[0])))
      case Broken => Thrown
  }

  /** How many servers a read gets to: none behind the first one that is not silent. */
  function Contacted(hearings: seq<Hearing>): (n: nat)
    ensures n <= |hearings|
  {
    if hearings == [] then 0
    else if hearings[0].Silent? then 1 + Contacted(hearings[1..])
    else 1
  }

  function SessionOf(h: Hearing): Option<SessionData> {
    if h.Answered? then Some(h.session) else None
  }

  function SessionsOf(hearings: seq<Hearing>): (r: seq<Option<SessionData>>)
    ensures |r| == |hearings|
  {
    seq(|hearings|, i requires 0 <= i < |hearings| => SessionOf(hearings[i]))
  }

  /** A read throws exactly when its last contacted server breaks it, and is else the first answer in list order. */
  lemma {:induction false} ReadOutcomeIs(names: seq<string>, hearings: seq<Hearing>)
    requires |names| == |hearings|
    ensures var n := Contacted(hearings);
            && (forall i :: 0 <= i < n - 1 ==> hearings[i].Silent?)
                && (n < |hearings| ==> n > 0 && !hearings[n - 1].Silent?)
            && (ReadOutcome(names, hearings).Thrown? <==> n > 0 && hearings[n - 1].Broken?)
            && (ReadOutcome(names, hearings).Done? ==>
                ReadOutcome(names, hearings).value == FirstAnswer(names, SessionsOf(hearings)))
  {
    if names != [] {
      assert SessionsOf(hearings)[1..] == SessionsOf(hearings[1..]);
      if hearings[0].Silent? {
        ReadOutcomeIs(names[1..], hearings[1..]);
        var n := Contacted(hearings);
        forall i | 0 <= i < n - 1 ensures hearings[i].Silent? {
          if i > 0 {
            assert hearings[1..][i - 1].Silent?;
          }
        }
      }
    }
  }

  // ---------- what a write hears ----------

  /** One write's receive loop: every reply from ip counts, until the list is full. */
  function AckRun(wq: nat, list: seq<string>, svrID: string, ip: Option<string>, inbox: seq<Datagram>): Try<seq<string>>
    decreases |inbox|
  {
    if |list| == wq || inbox == [] then Done(list)
    else if ip.None? then Thrown
    else if inbox[0].ip != ip.value then AckRun(wq, list, svrID, ip, inbox[1..])
    else if CallIdOf(inbox[0].text).None? then Thrown
    else AckRun(wq, list + [svrID], svrID, ip, inbox[1..])
  }

  function WriteRun(wq: nat, list: seq<string>, names: seq<string>, addresses: map<string, string>,
                    inbox: seq<seq<Datagram>>): Try<seq<string>>
    requires |names| == |inbox|
    decreases |names|
  {
    if names == [] then Done(list)
    else
      match AckRun(wq, list, names[0], AddressOf(addresses, names[0]), inbox[0])
      case Thrown => Thrown
      case Done(list') => WriteRun(wq, list', names[1..], addresses, inbox[1..])
  }

  /** A whole write: the list if it got full, else null. */
  function WriteOutcome(wq: nat, names: seq<string>, addresses: map<string, string>, inbox: seq<seq<Datagram>>)
      : Try<Option<seq<string>>>
    requires |names| == |inbox|
  {
    match WriteRun(wq, [], names, addresses, inbox)
    case Thrown => Thrown
    case Done(list) => Done(if |list| == wq then Some(list) else None)
  }

  /** Nothing in the inbox makes the write loop throw. */
  ghost predicate Parsable(ip: Option<string>, inbox: seq<Datagram>) {
    inbox == [] || (ip.Some? && forall d :: d in inbox && d.ip == ip.value ==> CallIdOf(d.text).Some?)
  }

  /** How many replies from ip arrive. */
  function RepliesIn(ip: Option<string>, inbox: seq<Datagram>): nat {
    if inbox == [] then 0 else (if Some(inbox[0].ip) == ip then 1 else 0) + RepliesIn(ip, inbox[1..])
  }

  function Replies(addresses: map<string, string>, svrIDs: seq<string>, inbox: seq<seq<Datagram>>): (r: seq<nat>)
    requires |svrIDs| == |inbox|
    ensures |r| == |svrIDs|
  {
    seq(|svrIDs|, i requires 0 <= i < |svrIDs| => RepliesIn(AddressOf(addresses, svrIDs[i]), inbox[i]))
  }

  /** The list as far as it is ever filled. */
  function Cut(wq: nat, xs: seq<string>): seq<string> {
    if |xs| <= wq then xs else xs[..wq]
  }

  lemma CutOfCut(wq: nat, xs: seq<string>, ys: seq<string>)
    ensures Cut(wq, Cut(wq, xs) + ys) == Cut(wq, xs + ys)
  {
  }

  lemma {:induction false} AckRunIs(wq: nat, list: seq<string>, svrID: string, ip: Option<string>, inbox: seq<Datagram>)
    requires |list| <= wq
    ensures var run := AckRun(wq, list, svrID, ip, inbox);
            && (run.Done? ==> run.value == Cut(wq, list + Repeat(svrID, RepliesIn(ip, inbox))))
            && (Parsable(ip, inbox) ==> run.Done?)
    decreases |inbox|
  {
    if inbox == [] {
      assert list + Repeat(svrID, 0) == list;
    } else if |list| == wq {
      assert (list + Repeat(svrID, RepliesIn(ip, inbox)))[..wq] == list;
    } else if ip.Some? {
      assert Parsable(ip, inbox) ==> Parsable(ip, inbox[1..]);
      if inbox[0].ip != ip.value {
        AckRunIs(wq, list, svrID, ip, inbox[1..]);
      } else {
        assert inbox[0] in inbox;
        AckRunIs(wq, list + [svrID], svrID, ip, inbox[1..]);
        var n := RepliesIn(ip, inbox[1..]);
        assert list + [svrID] + Repeat(svrID, n) == list + Repeat(svrID, n + 1);
      }
    }
  }

  lemma {:induction false} WriteRunIs(wq: nat, list: seq<string>, names: seq<string>, addresses: map<string, string>,
                                      inbox: seq<seq<Datagram>>)
    requires |names| == |inbox| && |list| <= wq
    ensures var run := WriteRun(wq, list, names, addresses, inbox);
            && (run.Done? ==> run.value == Cut(wq, list + Acks(names, Replies(addresses, names, inbox))))
            && ((forall i :: 0 <= i < |names| ==> Parsable(AddressOf(addresses, names[i]), inbox[i])) ==> run.Done?)
    decreases |names|
  {
    if names == [] {
      assert list + [] == list;
    } else {
      var ip := AddressOf(addresses, names[0]);
      AckRunIs(wq, list, names[0], ip, inbox[0]);
      var run := AckRun(wq, list, names[0], ip, inbox[0]);
      if run.Done? {
        WriteRunIs(wq, run.value, names[1..], addresses, inbox[1..]);
        assert Replies(addresses, names, inbox)[1..] == Replies(addresses, names[1..], inbox[1..]);
        CutInTurn(wq, list, Repeat(names[0], RepliesIn(ip, inbox[0])),
                  Acks(names[1..], Replies(addresses, names[1..], inbox[1..])));
      }
    }
  }

  lemma CutInTurn(wq: nat, list: seq<string>, own: seq<string>, rest: seq<string>)
    ensures Cut(wq, Cut(wq, list + own) + rest) == Cut(wq, list + (own + rest))
  {
    CutOfCut(wq, list + own, rest);
    assert list + own + rest == list + (own + rest);
  }

  /**
   A write that does not throw gives the first WQ replies in list order, or null; it cannot throw on parsable replies.
   */
  lemma WriteOutcomeIs(wq: nat, names: seq<string>, addresses: map<string, string>, inbox: seq<seq<Datagram>>)
    requires |names| == |inbox|
    ensures var r := WriteOutcome(wq, names, addresses, inbox);
            && (r.Done? ==> r.value == Backups(wq, names, Replies(addresses, names, inbox)))
            && ((forall i :: 0 <= i < |names| ==> Parsable(AddressOf(addresses, names[i]), inbox[i])) ==> r.Done?)
  {
    WriteRunIs(wq, [], names, addresses, inbox);
    var acks := Acks(names, Replies(addresses, names, inbox));
    assert [] + acks == acks && (|acks| == wq ==> acks[..wq] == acks);
  }

  // ---------- call IDs and the log ----------

  /** Replies that carry the call ID they answer. */
  ghost predicate Echoes(ip: Option<string>, inbox: seq<Datagram>, id: int) {
    forall d :: d in inbox && Some(d.ip) == ip && CallIdOf(d.text).Some? ==> CallIdOf(d.text).value == id
  }

  /** What one server answers leaves the local call ID alone: only the local server's own replies are noted under it. */
  ghost predicate Steady(local: string, svrID: string, ip: Option<string>, inbox: seq<Datagram>, id: int) {
    svrID == local ==> Echoes(ip, inbox, id)
  }

  /** Whatever the local server answered carried the call ID of the request it answers. */
  ghost predicate EchoedAll(local: string, addresses: map<string, string>, svrIDs: seq<string>, before: seq<Sent>,
                            sent: seq<Sent>, inbox: seq<seq<Datagram>>)
  {
    forall k :: 0 <= k < |inbox| && k < |svrIDs| && |before| + k < |sent| ==>
      Steady(local, svrIDs[k], AddressOf(addresses, svrIDs[k]), inbox[k], sent[|before| + k].callID)
  }

  /** The k-th socket heard what the network makes of the k-th request sent since before; no other socket was opened. */
  ghost predicate Reacted(net: Net, before: seq<Sent>, sent: seq<Sent>, inbox: seq<seq<Datagram>>) {
    && |before| <= |sent|
    && forall k :: 0 <= k < |inbox| ==> inbox[k] == if |before| + k < |sent| then net(k, sent[|before| + k]) else []
  }

  /** The inboxes of all n places, when the ones behind the given ones were never opened. */
  ghost function Padded(boxes: seq<seq<Datagram>>, n: nat): (r: seq<seq<Datagram>>)
    requires |boxes| <= n
    ensures |r| == n && (forall k :: 0 <= k < |boxes| ==> r[k] == boxes[k])
    ensures forall k :: |boxes| <= k < n ==> r[k] == []
  {
    boxes + seq(n - |boxes|, _ => [])
  }

  lemma ReplyHasId(text: string)
    ensures ParseReply(text).Some? ==> CallIdOf(text) == Some(ParseReply(text).value.callID)
  {
  }

  /** What was sent since before carries that call ID. */
  ghost predicate SentWithID(before: seq<Sent>, sent: seq<Sent>, id: int) {
    forall k :: |before| <= k < |sent| ==> sent[k].callID == id
  }

  /**
   Since before, one read of that session and version was sent to each of the first n listed servers, in list order.
   */
  ghost predicate SentReads(before: seq<Sent>, sent: seq<Sent>, addresses: map<string, string>, svrIDs: seq<string>,
                            sessionID: string, version: int, n: nat)
  {
    && n <= |svrIDs| && |sent| == |before| + n && before <= sent
    && forall k :: 0 <= k < n ==>
         sent[|before| + k] == SentRead(AddressOf(addresses, svrIDs[k]), sent[|before| + k].callID, sessionID, version)
  }

  /** Since before, one write of that session was sent to each of the first n listed servers, in list order. */
  ghost predicate SentWrites(before: seq<Sent>, sent: seq<Sent>, addresses: map<string, string>, svrIDs: seq<string>,
                             s: SessionData, n: nat)
  {
    && n <= |svrIDs| && |sent| == |before| + n && before <= sent
    && forall k :: 0 <= k < n ==>
         sent[|before| + k] == SentWrite(AddressOf(addresses, svrIDs[k]), sent[|before| + k].callID, s)
  }

  lemma OneMoreRead(before: seq<Sent>, sent: seq<Sent>, addresses: map<string, string>, svrIDs: seq<string>,
                    sessionID: string, version: int, n: nat, callID: int)
    requires SentReads(before, sent, addresses, svrIDs, sessionID, version, n) && n < |svrIDs|
    ensures var sent' := sent + [SentRead(AddressOf(addresses, svrIDs[n]), callID, sessionID, version)];
            && SentReads(before, sent', addresses, svrIDs, sessionID, version, n + 1)
            && (SentWithID(before, sent, callID) ==> SentWithID(before, sent', callID))
  {
  }

  lemma OneMoreWrite(before: seq<Sent>, sent: seq<Sent>, addresses: map<string, string>, svrIDs: seq<string>,
                     s: SessionData, n: nat, callID: int)
    requires SentWrites(before, sent, addresses, svrIDs, s, n) && n < |svrIDs|
    ensures var sent' := sent + [SentWrite(AddressOf(addresses, svrIDs[n]), callID, s)];
            && SentWrites(before, sent', addresses, svrIDs, s, n + 1)
            && (SentWithID(before, sent, callID) ==> SentWithID(before, sent', callID))
  {
  }

  /** A loop underway: one socket a request so far, and the call ID is still id unless the local server disturbed it. */
  ghost predicate Underway(local: string, addresses: map<string, string>, svrIDs: seq<string>, net: Net,
                           before: seq<Sent>, sent: seq<Sent>, boxes: seq<seq<Datagram>>, id: int, current: int)
  {
    && |boxes| <= |svrIDs| && |sent| == |before| + |boxes| && Reacted(net, before, sent, boxes)
    && (EchoedAll(local, addresses, svrIDs, before, sent, boxes) ==> SentWithID(before, sent, id) && current == id)
  }

  /** The next request of a loop, and what its socket hears. */
  lemma OneMoreTurn(local: string, addresses: map<string, string>, svrIDs: seq<string>, net: Net, before: seq<Sent>,
                    sent: seq<Sent>, boxes: seq<seq<Datagram>>, id: int, d: Sent, current: int)
    requires Underway(local, addresses, svrIDs, net, before, sent, boxes, id, d.callID) && |boxes| < |svrIDs|
    requires Steady(local, svrIDs[|boxes|], AddressOf(addresses, svrIDs[|boxes|]), net(|boxes|, d), d.callID) ==>
               current == d.callID
    ensures Underway(local, addresses, svrIDs, net, before, sent + [d], boxes + [net(|boxes|, d)], id, current)
  {
    var sent', boxes' := sent + [d], boxes + [net(|boxes|, d)];
    assert boxes'[|boxes|] == net(|boxes|, d) && sent'[|before| + |boxes|] == d;
    if EchoedAll(local, addresses, svrIDs, before, sent', boxes') {
      forall k | 0 <= k < |boxes|
        ensures Steady(local, svrIDs[k], AddressOf(addresses, svrIDs[k]), boxes[k], sent[|before| + k].callID)
      {
        assert boxes'[k] == boxes[k] && sent'[|before| + k] == sent[|before| + k];
      }
    }
  }

  /** A loop that is over, whether or not it got to all places. */
  ghost predicate Over(local: string, addresses: map<string, string>, svrIDs: seq<string>, net: Net, before: seq<Sent>,
                       sent: seq<Sent>, inbox: seq<seq<Datagram>>, id: int, current: int)
  {
    && |inbox| == |svrIDs| && Reacted(net, before, sent, inbox)
    && (EchoedAll(local, addresses, svrIDs, before, sent, inbox) ==> SentWithID(before, sent, id) && current == id)
  }

  lemma PaddedTurns(local: string, addresses: map<string, string>, svrIDs: seq<string>, net: Net, before: seq<Sent>,
                    sent: seq<Sent>, boxes: seq<seq<Datagram>>, id: int, current: int)
    requires Underway(local, addresses, svrIDs, net, before, sent, boxes, id, current)
    ensures Over(local, addresses, svrIDs, net, before, sent, Padded(boxes, |svrIDs|), id, current)
  {
    var padded := Padded(boxes, |svrIDs|);
    if EchoedAll(local, addresses, svrIDs, before, sent, padded) {
      forall k | 0 <= k < |boxes|
        ensures Steady(local, svrIDs[k], AddressOf(addresses, svrIDs[k]), boxes[k], sent[|before| + k].callID)
      {
        assert padded[k] == boxes[k];
      }
    }
  }

  lemma {:induction false} SilentThen(names: seq<string>, hearings: seq<Hearing>, n: nat)
    requires |names| == |hearings| && n <= |names| && forall k :: 0 <= k < n ==> hearings[k].Silent?
    ensures ReadOutcome(names, hearings) == ReadOutcome(names[n..], hearings[n..])
    ensures Contacted(hearings) == n + Contacted(hearings[n..])
  {
    if n > 0 {
      SilentThen(names[1..], hearings[1..], n - 1);
      assert names[1..][n - 1..] == names[n..] && hearings[1..][n - 1..] == hearings[n..];
    }
  }

  ghost predicate AllSilent(addresses: map<string, string>, svrIDs: seq<string>, boxes: seq<seq<Datagram>>) {
    |boxes| <= |svrIDs| && forall k :: 0 <= k < |boxes| ==> Hear(AddressOf(addresses, svrIDs[k]), boxes[k]).Silent?
  }

  lemma OneMoreSilent(addresses: map<string, string>, svrIDs: seq<string>, boxes: seq<seq<Datagram>>,
                      box: seq<Datagram>)
    requires |boxes| < |svrIDs| && AllSilent(addresses, svrIDs, boxes)
    requires Hear(AddressOf(addresses, svrIDs[|boxes|]), box).Silent?
    ensures AllSilent(addresses, svrIDs, boxes + [box])
  {
  }

  /** A read ends with the first server that is not silent. */
  lemma ReadEnds(addresses: map<string, string>, svrIDs: seq<string>, boxes: seq<seq<Datagram>>, box: seq<Datagram>)
    requires |boxes| < |svrIDs| && AllSilent(addresses, svrIDs, boxes)
    requires !Hear(AddressOf(addresses, svrIDs[|boxes|]), box).Silent?
    ensures var hearings := Hearings(addresses, svrIDs, Padded(boxes + [box], |svrIDs|));
            && Contacted(hearings) == |boxes| + 1
            && ReadOutcome(svrIDs, hearings)
               == (match Hear(AddressOf(addresses, svrIDs[|boxes|]), box)
                   case Answered(session) => Done(Some(Found(session, svrIDs[|boxes|])))
                   case _ => Thrown)
  {
    var n, inbox := |boxes|, Padded(boxes + [box], |svrIDs|);
    var hearings := Hearings(addresses, svrIDs, inbox);
    assert inbox[n] == (boxes + [box])[n] == box;
    forall k | 0 <= k < n ensures hearings[k].Silent? {
      assert inbox[k] == (boxes + [box])[k] == boxes[k];
    }
    SilentThen(svrIDs, hearings, n);
  }

  /** A read that meets only silent servers comes back with nothing. */
  lemma ReadExhausted(addresses: map<string, string>, svrIDs: seq<string>, boxes: seq<seq<Datagram>>)
    requires |boxes| == |svrIDs| && AllSilent(addresses, svrIDs, boxes)
    ensures Padded(boxes, |svrIDs|) == boxes
    ensures var hearings := Hearings(addresses, svrIDs, boxes);
            Contacted(hearings) == |svrIDs| && ReadOutcome(svrIDs, hearings) == Done(None)
  {
    var hearings := Hearings(addresses, svrIDs, boxes);
    SilentThen(svrIDs, hearings, |svrIDs|);
  }

  /** A write run over one list and then over another. */
  lemma {:induction false} WriteRunSplit(wq: nat, list: seq<string>, xs: seq<string>, ys: seq<string>,
                                         addresses: map<string, string>, inX: seq<seq<Datagram>>,
                                             inY: seq<seq<Datagram>>)
    requires |xs| == |inX| && |ys| == |inY|
    ensures WriteRun(wq, list, xs + ys, addresses, inX + inY)
         == match WriteRun(wq, list, xs, addresses, inX)
            case Thrown => Thrown
            case Done(list') => WriteRun(wq, list', ys, addresses, inY)
    decreases |xs|
  {
    if xs == [] {
      assert xs + ys == ys && inX + inY == inY;
    } else {
      assert (xs + ys)[1..] == xs[1..] + ys && (inX + inY)[1..] == inX[1..] + inY;
      var run := AckRun(wq, list, xs[0], AddressOf(addresses, xs[0]), inX[0]);
      if run.Done? {
        WriteRunSplit(wq, run.value, xs[1..], ys, addresses, inX[1..], inY);
      }
    }
  }

  /** One more server of a write. */
  lemma WriteRunSnoc(wq: nat, list: seq<string>, svrIDs: seq<string>, addresses: map<string, string>,
                     boxes: seq<seq<Datagram>>, box: seq<Datagram>)
    requires |boxes| < |svrIDs| && WriteRun(wq, [], svrIDs[..|boxes|], addresses, boxes) == Done(list)
    ensures WriteRun(wq, [], svrIDs[..|boxes| + 1], addresses, boxes + [box])
         == AckRun(wq, list, svrIDs[|boxes|], AddressOf(addresses, svrIDs[|boxes|]), box)
  {
    var n := |boxes|;
    WriteRunSplit(wq, [], svrIDs[..n], [svrIDs[n]], addresses, boxes, [box]);
    assert svrIDs[..n] + [svrIDs[n]] == svrIDs[..n + 1];
    var run := AckRun(wq, list, svrIDs[n], AddressOf(addresses, svrIDs[n]), box);
    assert [svrIDs[n]][1..] == [] && [box][1..] == [];
    assert run.Done? ==> WriteRun(wq, run.value, [], addresses, []) == run;
  }

  /** A write that throws on the way throws as a whole. */
  lemma WriteThrows(wq: nat, list: seq<string>, svrIDs: seq<string>, addresses: map<string, string>,
                    boxes: seq<seq<Datagram>>, box: seq<Datagram>)
    requires |boxes| < |svrIDs| && WriteRun(wq, [], svrIDs[..|boxes|], addresses, boxes) == Done(list)
    requires AckRun(wq, list, svrIDs[|boxes|], AddressOf(addresses, svrIDs[|boxes|]), box).Thrown?
    ensures WriteOutcome(wq, svrIDs, addresses, Padded(boxes + [box], |svrIDs|)) == Thrown
  {
    WriteRunSnoc(wq, list, svrIDs, addresses, boxes, box);
    var n, inbox := |boxes| + 1, Padded(boxes + [box], |svrIDs|);
    WriteRunSplit(wq, [], svrIDs[..n], svrIDs[n..], addresses, boxes + [box], inbox[n..]);
    assert svrIDs[..n] + svrIDs[n..] == svrIDs && boxes + [box] + inbox[n..] == inbox;
  }

  /** A write that got through all servers. */
  lemma WriteCompletes(wq: nat, list: seq<string>, svrIDs: seq<string>, addresses: map<string, string>,
                       boxes: seq<seq<Datagram>>)
    requires |boxes| == |svrIDs| && WriteRun(wq, [], svrIDs[..|boxes|], addresses, boxes) == Done(list)
    ensures Padded(boxes, |svrIDs|) == boxes
    ensures WriteOutcome(wq, svrIDs, addresses, boxes) == Done(if |list| == wq then Some(list) else None)
  {
    assert svrIDs[..|boxes|] == svrIDs;
  }

  class RpcClient {
    const config: RpcConfig
    const addresses: map<string, string>
    const wq: nat
    var sent: seq<Sent>

    constructor (config: RpcConfig, addresses: map<string, string>, wq: nat)
      ensures this.config == config && this.addresses == addresses && this.wq == wq && sent == []
    {
      this.config := config;
      this.addresses := addresses;
      this.wq := wq;
      sent := [];
    }

    method SendRead(to: Option<string>, sessionID: string, version: int)
      requires config.Valid()
      modifies this`sent, config
      ensures config.Valid() && ServerKey(config.localServerID) in config.callIDMap
      ensures config.LocalID() == old(config.LocalID())
      ensures sent == old(sent) + [SentRead(to, old(config.LocalID()), sessionID, version)]
    {
      var callID := config.GetLocalCallID();
      sent := sent + [SentRead(to, callID, sessionID, version)];
    }

    /** The receive loop of one read: it leaves at the first OK reply from the server asked, or at the timeout. */
    method ReceiveOk(svrID: string, ip: Option<string>, inbox: seq<Datagram>) returns (r: Try<Option<string>>)
      requires config.Valid()
      modifies config
      ensures config.Valid() && config.callIDMap.Keys >= old(config.callIDMap.Keys)
      ensures r == FirstOk(ip, inbox)
      ensures Steady(config.localServerID, svrID, ip, inbox, old(config.LocalID())) ==>
                config.LocalID() == old(config.LocalID())
    {
      var at := 0;
      ghost var id := config.LocalID();
      while at < |inbox|
        invariant at <= |inbox|
        invariant config.Valid() && config.callIDMap.Keys >= old(config.callIDMap.Keys)
        invariant FirstOk(ip, inbox) == FirstOk(ip, inbox[at..])
        invariant Steady(config.localServerID, svrID, ip, inbox, id) ==> config.LocalID() == id
      {
        var d := inbox[at];
        at := at + 1;
        if ip.None? {
          return Thrown;
        }
        if d.ip == ip.value {
          ReplyHasId(d.text);
          var callID := CallIdOf(d.text);
          if callID.None? {
            return Thrown;
          }
          var valid := config.IsValidID(svrID, callID.value);
          var reply := ParseReply(d.text);
          if reply.None? {
            return Thrown;
          }
          if valid && reply.value.code == RESPONSE_OK {
            return Done(Some(d.text));
          }
        }
      }
      return Done(None);
    }

    /** One server's turn of a read, up to the decoded session and the next call ID. */
    method ReadFrom(sessionID: string, version: int, svrID: string, k: nat, net: Net)
        returns (r: Hearing, ghost d: Sent)
      requires config.Valid()
      modifies this`sent, config
      ensures config.Valid() && ServerKey(config.localServerID) in config.callIDMap
      ensures d == SentRead(AddressOf(addresses, svrID), old(config.LocalID()), sessionID, version)
      ensures sent == old(sent) + [d]
      ensures r == Hear(AddressOf(addresses, svrID), net(k, d))
      ensures !r.Broken? && Steady(config.localServerID, svrID, AddressOf(addresses, svrID), net(k, d), d.callID) ==>
                config.LocalID() == old(config.LocalID()) + if r.Answered? then 1 else 0
    {
      var ip := AddressOf(addresses, svrID);
      SendRead(ip, sessionID, version);
      d := sent[|sent| - 1];
      var reply := ReceiveOk(svrID, ip, net(k, sent[|sent| - 1]));
      if reply.Thrown? {
        return Broken, d;
      }
      if reply.value.None? {
        return Silent, d;
      }
      config.IncrementLocalCallID();
      var session := OkSession(reply.value.value);
      return if session.Some? then Answered(session.value) else Broken, d;
    }

    method SessionRead(sessionID: string, versionNumber: int, svrIDs: seq<string>, net: Net)
        returns (r: Try<Option<Found>>, ghost inbox: seq<seq<Datagram>>)
      requires config.Valid() && |svrIDs| > 0
      modifies this`sent, config
      ensures config.Valid() && |inbox| == |svrIDs|
      ensures r == ReadOutcome(svrIDs, Hearings(addresses, svrIDs, inbox))
      ensures SentReads(old(sent), sent, addresses, svrIDs, sessionID, versionNumber,
                        Contacted(Hearings(addresses, svrIDs, inbox)))
      ensures Reacted(net, old(sent), sent, inbox)
      ensures EchoedAll(config.localServerID, addresses, svrIDs, old(sent), sent, inbox) ==>
                && SentWithID(old(sent), sent, old(config.LocalID()))
                && (r.Done? ==> config.LocalID() == old(config.LocalID()) + 1)
    {
      ghost var before, id, local := sent, config.LocalID(), config.localServerID;
      ghost var boxes: seq<seq<Datagram>> := [];
      var i := 0;
      while i < |svrIDs|
        invariant 0 <= i <= |svrIDs| && |boxes| == i
        invariant config.Valid() && (i > 0 ==> ServerKey(config.localServerID) in config.callIDMap)
        invariant AllSilent(addresses, svrIDs, boxes)
        invariant SentReads(before, sent, addresses, svrIDs, sessionID, versionNumber, i)
        invariant Underway(local, addresses, svrIDs, net, before, sent, boxes, id, config.LocalID())
      {
        ghost var sent0, boxes0 := sent, boxes;
        OneMoreRead(before, sent, addresses, svrIDs, sessionID, versionNumber, i, config.LocalID());
        var heard;
        ghost var d;
        heard, d := ReadFrom(sessionID, versionNumber, svrIDs[i], i, net);
        ghost var current := match heard
          case Silent => config.LocalID()
          case Answered(_) => config.LocalID() - 1
          case Broken => d.callID;
        OneMoreTurn(local, addresses, svrIDs, net, before, sent0, boxes0, id, d, current);
        boxes := boxes + [net(i, d)];
        if !heard.Silent? {
          ReadEnds(addresses, svrIDs, boxes0, net(i, d));
          PaddedTurns(local, addresses, svrIDs, net, before, sent, boxes, id, current);
          inbox := Padded(boxes, |svrIDs|);
          return if heard.Answered? then Done(Some(Found(heard.session, svrIDs[i]))) else Thrown, inbox;
        }
        OneMoreSilent(addresses, svrIDs, boxes0, net(i, d));
        i := i + 1;
      }
      ReadExhausted(addresses, svrIDs, boxes);
      PaddedTurns(local, addresses, svrIDs, net, before, sent, boxes, id, config.LocalID());
      config.IncrementLocalCallID();
      return Done(None), boxes;
    }

    method SendWrite(to: Option<string>, session: SessionData)
      requires config.Valid()
      modifies this`sent, config
      ensures config.Valid() && ServerKey(config.localServerID) in config.callIDMap
      ensures config.LocalID() == old(config.LocalID())
      ensures sent == old(sent) + [SentWrite(to, old(config.LocalID()), session)]
    {
      var callID := config.GetLocalCallID();
      sent := sent + [SentWrite(to, callID, session)];
    }

    /** The receive loop of one write: it goes on after an acknowledgement until the list is full or the timeout. */
    method ReceiveAcks(svrID: string, ip: Option<string>, inbox: seq<Datagram>, backupList: seq<string>)
        returns (r: Try<seq<string>>)
      requires config.Valid() && |backupList| <= wq
      modifies config
      ensures config.Valid() && config.callIDMap.Keys >= old(config.callIDMap.Keys)
      ensures r == AckRun(wq, backupList, svrID, ip, inbox)
      ensures r.Done? ==> |r.value| <= wq
      ensures Steady(config.localServerID, svrID, ip, inbox, old(config.LocalID())) ==>
                config.LocalID() == old(config.LocalID())
    {
      var list := backupList;
      var at := 0;
      ghost var id := config.LocalID();
      while |list| != wq && at < |inbox|
        invariant at <= |inbox| && |list| <= wq
        invariant config.Valid() && config.callIDMap.Keys >= old(config.callIDMap.Keys)
        invariant AckRun(wq, backupList, svrID, ip, inbox) == AckRun(wq, list, svrID, ip, inbox[at..])
        invariant Steady(config.localServerID, svrID, ip, inbox, id) ==> config.LocalID() == id
      {
        var d := inbox[at];
        assert inbox[at..][1..] == inbox[at + 1..];
        at := at + 1;
        if ip.None? {
          return Thrown;
        }
        if d.ip == ip.value {
          var callID := CallIdOf(d.text);
          if callID.None? {
            return Thrown;
          }
          var valid := config.IsValidID(svrID, callID.value);
          list := list + [svrID];
        }
      }
      return Done(list);
    }

    /** One server's turn of a write. */
    method WriteTo(session: SessionData, svrID: string, k: nat, net: Net, backupList: seq<string>)
        returns (r: Try<seq<string>>, ghost d: Sent)
      requires config.Valid() && |backupList| <= wq
      modifies this`sent, config
      ensures config.Valid() && ServerKey(config.localServerID) in config.callIDMap
      ensures d == SentWrite(AddressOf(addresses, svrID), old(config.LocalID()), session)
      ensures sent == old(sent) + [d]
      ensures r == AckRun(wq, backupList, svrID, AddressOf(addresses, svrID), net(k, d))
      ensures r.Done? ==> |r.value| <= wq
      ensures Steady(config.localServerID, svrID, AddressOf(addresses, svrID), net(k, d), d.callID) ==>
                config.LocalID() == old(config.LocalID())
    {
      SendWrite(AddressOf(addresses, svrID), session);
      d := sent[|sent| - 1];
      r := ReceiveAcks(svrID, AddressOf(addresses, svrID), net(k, sent[|sent| - 1]), backupList);
    }

    method SessionWrite(session: SessionData, svrIDs: seq<string>, net: Net)
        returns (r: Try<Option<seq<string>>>, ghost inbox: seq<seq<Datagram>>)
      requires config.Valid() && |svrIDs| > 0 && wq > 0
      modifies this`sent, config
      ensures config.Valid() && |inbox| == |svrIDs|
      ensures r == WriteOutcome(wq, svrIDs, addresses, inbox)
      ensures |old(sent)| <= |sent|
      ensures SentWrites(old(sent), sent, addresses, svrIDs, session, |sent| - |old(sent)|)
      ensures r.Done? ==> |sent| == |old(sent)| + |svrIDs|
      ensures Reacted(net, old(sent), sent, inbox)
      ensures EchoedAll(config.localServerID, addresses, svrIDs, old(sent), sent, inbox) ==>
                && SentWithID(old(sent), sent, old(config.LocalID()))
                && (r.Done? ==> config.LocalID() == old(config.LocalID()) + 1)
    {
      ghost var before, id, local := sent, config.LocalID(), config.localServerID;
      ghost var boxes: seq<seq<Datagram>> := [];
      var backupList := [];
      var i := 0;
      assert svrIDs[..0] == [];
      while i < |svrIDs|
        invariant 0 <= i <= |svrIDs| && |boxes| == i && |backupList| <= wq
        invariant config.Valid() && (i > 0 ==> ServerKey(config.localServerID) in config.callIDMap)
        invariant WriteRun(wq, [], svrIDs[..i], addresses, boxes) == Done(backupList)
        invariant SentWrites(before, sent, addresses, svrIDs, session, i)
        invariant Underway(local, addresses, svrIDs, net, before, sent, boxes, id, config.LocalID())
      {
        ghost var sent0, boxes0 := sent, boxes;
        OneMoreWrite(before, sent, addresses, svrIDs, session, i, config.LocalID());
        var list;
        ghost var d;
        list, d := WriteTo(session, svrIDs[i], i, net, backupList);
        OneMoreTurn(local, addresses, svrIDs, net, before, sent0, boxes0, id, d, config.LocalID());
        boxes := boxes + [net(i, d)];
        if list.Thrown? {
          WriteThrows(wq, backupList, svrIDs, addresses, boxes0, net(i, d));
          PaddedTurns(local, addresses, svrIDs, net, before, sent, boxes, id, config.LocalID());
          return Thrown, Padded(boxes, |svrIDs|);
        }
        WriteRunSnoc(wq, backupList, svrIDs, addresses, boxes0, net(i, d));
        backupList := list.value;
        i := i + 1;
      }
      PaddedTurns(local, addresses, svrIDs, net, before, sent, boxes, id, config.LocalID());
      WriteCompletes(wq, backupList, svrIDs, addresses, boxes);
      config.IncrementLocalCallID();
      return Done(if |backupList| == wq then Some(backupList) else None), boxes;
    }
  }

  // ---------- what the servers put into the inboxes ----------

  /** What the socket hears of the server's answer to the request that was sent on it, if the answer gets there. */
  function AnswerTo(raw: SessionTable.RawTable, ip: string, d: Sent, arrives: bool): seq<Datagram> {
    var response := ServerStep(raw, d.Text()).response;
    if arrives && response.Some? then [Datagram(ip, response.value)] else []
  }

  /** A server's answer carries the call ID of the request. */
  lemma AnswerEchoesCall(raw: SessionTable.RawTable, ip: string, d: Sent, arrives: bool)
    ensures Echoes(Some(ip), AnswerTo(raw, ip, d, arrives), d.callID)
  {
    RequestStartsWithCall(d);
    AnswerEchoes(raw, d.Text());
    ParseOfDec(d.callID);
  }

  lemma RequestStartsWithCall(d: Sent)
    ensures |Split(d.Text(), '_')| > 0 && Split(d.Text(), '_')[0] == Dec(d.callID)
  {
    match d
    case SentRead(_, callID, sessionID, version) =>
      JoinThree(Dec(callID), Dec(READ_CODE), [sessionID, Dec(version)]);
      assert [Dec(callID), Dec(READ_CODE)] + [sessionID, Dec(version)]
          == [Dec(callID), Dec(READ_CODE), sessionID, Dec(version)];
      TwoFields(Dec(callID), Dec(READ_CODE), Some(Join('_', [sessionID, Dec(version)])));
    case SentWrite(_, callID, session) =>
      JoinThree(Dec(callID), Dec(WRITE_CODE), [Encode(session)]);
      assert [Dec(callID), Dec(WRITE_CODE)] + [Encode(session)] == [Dec(callID), Dec(WRITE_CODE), Encode(session)];
      TwoFields(Dec(callID), Dec(WRITE_CODE), Some(Encode(session)));
  }

  /** A read's socket hears either nothing or the asked server's one reply; nothing else reaches a fresh port. */
  lemma AnswerOfServer(ip: string, raw: SessionTable.RawTable, d: Sent, k: TableKey, arrives: bool)
    requires SessionTable.ValidRaw(raw) && DelimiterFree(k.id.server) && FitsInt(k.version) && FitsInt(d.callID)
    requires d == SentRead(d.to, d.callID, IdText(k.id), k.version)
    ensures Hear(Some(ip), AnswerTo(raw, ip, d, arrives))
         == if arrives && k in SessionTable.View(raw) then Answered(SessionTable.View(raw)[k]) else Silent
  {
    ReadExchange(raw, d.callID, k);
    OneDatagram(ip, ServerStep(raw, d.Text()).response.value);
  }

  lemma OneDatagram(ip: string, text: string)
    requires ParseReply(text).Some?
    ensures FirstOk(Some(ip), [Datagram(ip, text)])
         == Done(if ParseReply(text).value.code == RESPONSE_OK then Some(text) else None)
  {
    assert FirstOk(Some(ip), [Datagram(ip, text)][1..]) == Done(None);
  }

  /** A write's socket counts the asked server exactly when its one acknowledgement gets through. */
  lemma AckOfServer(ip: string, raw: SessionTable.RawTable, d: Sent, s: SessionData, arrives: bool)
    requires SessionTable.ValidRaw(raw) && Portable(s) && FitsInt(d.callID) && d == SentWrite(d.to, d.callID, s)
    ensures var inbox := AnswerTo(raw, ip, d, arrives);
            Parsable(Some(ip), inbox) && RepliesIn(Some(ip), inbox) == if arrives then 1 else 0
  {
    WriteExchange(raw, d.callID, s);
    var response := ServerStep(raw, d.Text()).response;
    ReplyHasId(response.value);
    assert RepliesIn(Some(ip), [Datagram(ip, response.value)][1..]) == 0;
  }
}
