/**
 The call-ID bookkeeping and the server's handling of one datagram (src/proj1b/rpc/RPCConfig.java,
 src/proj1b/rpc/RPCServer.java).
 */
module RpcServer {
  import opened Wrappers
  import opened JavaText
  import opened Sessions
  import opened SessionTable
  import opened Wire

  /** A key of the call-ID map: the map stores server IDs, but isValidID looks a number up. */
  datatype CallKey = ServerKey(server: string) | NumberKey(number: int)

  class RpcConfig {
    const localServerID: string
    var callIDMap: map<CallKey, int>

    ghost predicate Valid()
      reads this
    {
      forall k :: k in callIDMap ==> k.ServerKey?
    }

    /** The local call ID; one that was never used counts from 0. */
    ghost function LocalID(): int
      reads this
    {
      if ServerKey(localServerID) in callIDMap then callIDMap[ServerKey(localServerID)] else 0
    }

    constructor (localServerID: string)
      ensures Valid() && callIDMap == map[] && this.localServerID == localServerID
    {
      this.localServerID := localServerID;
      callIDMap := map[];
    }

    /** Looking a number up never finds a server ID, so every call ID is recorded and none is turned away. */
    method IsValidID(receivedSvrID: string, receivedCallID: int) returns (ok: bool)
      requires Valid()
      modifies this
      ensures Valid() && ok
      ensures callIDMap == old(callIDMap)[ServerKey(receivedSvrID) := receivedCallID]
    {
      if NumberKey(receivedCallID) in callIDMap {
        assert false;
      }
      callIDMap := callIDMap[ServerKey(receivedSvrID) := receivedCallID];
      return true;
    }

    method GetLocalCallID() returns (id: int)
      requires Valid()
      modifies this
      ensures Valid() && ServerKey(localServerID) in callIDMap && id == callIDMap[ServerKey(localServerID)]
      ensures callIDMap == if ServerKey(localServerID) in old(callIDMap) then old(callIDMap)
                           else old(callIDMap)[ServerKey(localServerID) := 0]
      ensures id == LocalID() == old(LocalID())
    {
      if ServerKey(localServerID) !in callIDMap {
        callIDMap := callIDMap[ServerKey(localServerID) := 0];
      }
      return callIDMap[ServerKey(localServerID)];
    }

    method IncrementLocalCallID()
      requires Valid() && ServerKey(localServerID) in callIDMap
      modifies this
      ensures Valid()
      ensures callIDMap == old(callIDMap)[ServerKey(localServerID) := old(callIDMap)[ServerKey(localServerID)] + 1]
    {
      callIDMap := callIDMap[ServerKey(localServerID) := callIDMap[ServerKey(localServerID)] + 1];
    }
  }

  datatype Outcome = Outcome(table: RawTable, response: Option<string>)

  /** What the server does with one datagram; no response stands for an exception that ends the thread. */
  function ServerStep(raw: RawTable, data: string): Outcome {
    match Extract(data)
    case None => Outcome(raw, None)
    case Some(request) =>
      if request.operationCode == NO_OP_CODE then
        Outcome(raw, Some(Response(request.callID, RESPONSE_OK, None)))
      else if request.operationCode == READ_CODE then
        match (ExtractRead(data), ParseInt(request.callID))
        case (Some(read), Some(_)) =>
          var found := GetRaw(raw, read.sessionID, read.sessionVersion);
          if found.Some? && found.value.version == read.sessionVersion then
            Outcome(raw, Some(Response(request.callID, RESPONSE_OK, Some(Encode(found.value)))))
          else
            Outcome(raw, Some(Response(request.callID, RESPONSE_NOT_FOUND, None)))
        case _ => Outcome(raw, None)
      else if request.operationCode == WRITE_CODE then
        match ExtractWrite(data)
        case None => Outcome(raw, None)
        case Some(write) =>
          Outcome(PutRaw(raw, write.session), Some(Response(request.callID, RESPONSE_OK, None)))
      else
        Outcome(raw, Some(Response(request.callID, RESPONSE_INVALID_OPCODE, None)))
  }

  /** Whatever a datagram decodes to can be stored and sent on. */
  lemma WrittenSessionIsPortable(data: string)
    ensures ExtractWrite(data).Some? ==> Portable(ExtractWrite(data).value.session)
  {
    if ExtractWrite(data).Some? {
      WrittenMessageIsClean(data);
      var req := Split(data, '_');
      assert Without('_', req) && Without('#', Split(req[2], '#'));
      FieldOfCleanText(req[2], '#', '_', 0);
    }
  }

  /** The only way a datagram changes the table is to put the session it carries. */
  lemma ServerStepTable(raw: RawTable, data: string)
    ensures ServerStep(raw, data).table == raw
         || (ExtractWrite(data).Some? && ServerStep(raw, data).table == PutRaw(raw, ExtractWrite(data).value.session))
  {
  }

  /** No datagram, however malformed, breaks the table: read safety holds in every reachable state. */
  lemma ServerStepKeepsTableValid(raw: RawTable, data: string)
    requires ValidRaw(raw)
    ensures ValidRaw(ServerStep(raw, data).table)
  {
    ServerStepTable(raw, data);
    WrittenSessionIsPortable(data);
    var write := ExtractWrite(data);
    if write.Some? {
      PutKeepsValid(raw, write.value.session);
    }
  }

  lemma ResponseFields(callID: string, code: int, payload: Option<string>)
    requires '_' !in callID
    ensures |Split(Response(callID, code, payload), '_')| > 0
           && Split(Response(callID, code, payload), '_')[0] == callID
  {
    TwoFields(callID, Dec(code), payload);
    if payload.Some? {
      assert callID + "_" + Dec(code) + ("_" + payload.value) == Response(callID, code, payload);
    } else {
      assert callID + "_" + Dec(code) + "" == Response(callID, code, payload);
    }
  }

  /** What the server answers is a response to the call ID that the datagram starts with. */
  lemma AnswerIsResponse(raw: RawTable, data: string)
    ensures ServerStep(raw, data).response.Some? ==>
              && Extract(data).Some?
              && exists code, payload ::
                   ServerStep(raw, data).response.value == Response(Extract(data).value.callID, code, payload)
  {
  }

  /** Whatever was asked, an answer starts with the first field of the question. */
  lemma AnswerEchoes(raw: RawTable, data: string)
    ensures ServerStep(raw, data).response.Some? ==>
              var asked, answered := Split(data, '_'), Split(ServerStep(raw, data).response.value, '_');
              |asked| > 0 && |answered| > 0 && answered[0] == asked[0]
  {
    AnswerIsResponse(raw, data);
    if ServerStep(raw, data).response.Some? {
      var callID := Extract(data).value.callID;
      var code, payload :| ServerStep(raw, data).response.value == Response(callID, code, payload);
      assert Without('_', Split(data, '_'));
      ResponseFields(callID, code, payload);
    }
  }

  /** The session an OK reply carries, as the client decodes it. */
  function OkSession(text: string): Option<SessionData> {
    match ParseReply(text)
    case Some(Reply(_, code, Some(p))) => if code == RESPONSE_OK then Decode(p) else None
    case _ => None
  }

  /** What the server appends for a read request: the session the table means under that key, or "not found". */
  lemma ReadStep(raw: RawTable, callID: int, k: TableKey)
    requires ValidRaw(raw) && DelimiterFree(k.id.server) && FitsInt(k.version) && FitsInt(callID)
    ensures var payload := if k in View(raw) then Some(Encode(View(raw)[k])) else None;
            ServerStep(raw, ReadRequest(callID, IdText(k.id), k.version))
            == Outcome(raw,
                       Some(Response(Dec(callID), if payload.Some? then RESPONSE_OK else RESPONSE_NOT_FOUND, payload)))
  {
    ReadRoundTrip(callID, k.id, k.version);
    GetRawIsExact(raw, k.id, k.version);
    ParseOfDec(callID);
  }

  /** From the client's request text to its decoded reply, a read returns what the table means for that key. */
  lemma ReadExchange(raw: RawTable, callID: int, k: TableKey)
    requires ValidRaw(raw) && DelimiterFree(k.id.server) && FitsInt(k.version) && FitsInt(callID)
    ensures var out := ServerStep(raw, ReadRequest(callID, IdText(k.id), k.version));
            && out.table == raw && out.response.Some?
            && ParseReply(out.response.value).Some?
            && ParseReply(out.response.value).value.callID == callID
            && (ParseReply(out.response.value).value.code == RESPONSE_OK <==> k in View(raw))
            && OkSession(out.response.value) == (if k in View(raw) then Some(View(raw)[k]) else None)
  {
    ReadStep(raw, callID, k);
    ViewAt(raw, k);
    if k in View(raw) {
      var s := View(raw)[k];
      EncodeClean(s);
      EncodeNonEmpty(s);
      DecodeOfEncode(s);
      ReplyRoundTrip(callID, RESPONSE_OK, Some(Encode(s)));
    } else {
      ReplyRoundTrip(callID, RESPONSE_NOT_FOUND, None);
    }
  }

  /**
   A write request of any session, checked or not: the server stores and acknowledges what it receives, and a message of
   which it can make nothing ends its thread.
   */
  lemma WriteStepOfAny(raw: RawTable, callID: int, s: SessionData)
    requires DelimiterFree(s.id.server) && InRange(s)
    ensures ServerStep(raw, WriteRequest(callID, s))
         == match Received(s)
            case None => Outcome(raw, None)
            case Some(s') => Outcome(PutRaw(raw, s'), Some(Response(Dec(callID), RESPONSE_OK, None)))
  {
    ExtractOfWrite(callID, s);
  }

  /**
   Exactly when a server answers a write: the message has no delimiter, or it has a '#' before any '_' and a number from
   there to the next delimiter.
   */
  lemma WriteIsAnsweredIff(raw: RawTable, callID: int, s: SessionData)
    requires DelimiterFree(s.id.server) && InRange(s)
    ensures var parts := Pieces(Pieces(s.message, '_')[0], '#');
            ServerStep(raw, WriteRequest(callID, s)).response.Some?
            <==> DelimiterFree(s.message) || (|parts| > 1 && ParseLong(parts[1]).Some?)
  {
    WriteStepOfAny(raw, callID, s);
    ReceivedIntact(s);
  }

  /** An answered message with a delimiter is not what is stored: it is cut at the '#', and the number is the expiry. */
  lemma CutMessageIsStored(raw: RawTable, callID: int, s: SessionData, m: string, e: int)
    requires DelimiterFree(s.id.server) && InRange(s) && DelimiterFree(m) && FitsLong(e)
    requires s.message == m + "#" + Dec(e)
    ensures ServerStep(raw, WriteRequest(callID, s))
         == Outcome(PutRaw(raw, s.(message := m, expires := e)), Some(Response(Dec(callID), RESPONSE_OK, None)))
  {
    assert s.message == m + ['#'] + Dec(e);
    PiecesOfPlain(s.message, '_');
    PiecesOfPrefix(m, Dec(e), '#');
    PiecesOfPlain(Dec(e), '#');
    ParseOfDec(e);
    WriteStepOfAny(raw, callID, s);
  }

  /** What the server does with a write request for a session that the formats can carry. */
  lemma WriteStep(raw: RawTable, callID: int, s: SessionData)
    requires Portable(s)
    ensures ServerStep(raw, WriteRequest(callID, s))
         == Outcome(PutRaw(raw, s), Some(Response(Dec(callID), RESPONSE_OK, None)))
  {
    WriteStepOfAny(raw, callID, s);
    ReceivedIntact(s);
  }

  /** A write request stores exactly its session before the server acknowledges it. */
  lemma WriteExchange(raw: RawTable, callID: int, s: SessionData)
    requires ValidRaw(raw) && Portable(s) && FitsInt(callID)
    ensures var out := ServerStep(raw, WriteRequest(callID, s));
            && ValidRaw(out.table) && View(out.table) == View(raw)[KeyOf(s) := s]
            && out.response.Some?
            && ParseReply(out.response.value) == Some(Reply(callID, RESPONSE_OK, None))
  {
    WriteStep(raw, callID, s);
    PutRawView(raw, s);
    ReplyRoundTrip(callID, RESPONSE_OK, None);
  }

  lemma OtherStep(raw: RawTable, data: string)
    requires Extract(data).Some?
    requires Extract(data).value.operationCode != READ_CODE && Extract(data).value.operationCode != WRITE_CODE
    ensures var request := Extract(data).value;
            var code := if request.operationCode == NO_OP_CODE then RESPONSE_OK else RESPONSE_INVALID_OPCODE;
            ServerStep(raw, data) == Outcome(raw, Some(Response(request.callID, code, None)))
  {
  }

  lemma HeaderAndRest(callID: int, op: int, rest: seq<string>)
    requires Without('_', rest) && (rest != [] ==> rest[|rest| - 1] != "")
    ensures var parts := [Dec(callID), Dec(op)] + rest;
            |parts| >= 2 && parts[0] == Dec(callID) && parts[1] == Dec(op) && Without('_', parts)
                && parts[|parts| - 1] != ""
  {
    var parts := [Dec(callID), Dec(op)] + rest;
    forall i | 0 <= i < |parts| ensures '_' !in parts[i] {
      if i >= 2 {
        assert parts[i] == rest[i - 2];
      }
    }
  }

  /**
   Requests that are neither reads nor writes leave the table alone: a no-op is answered, anything else turned away.
   */
  lemma OtherExchange(raw: RawTable, callID: int, op: int, rest: seq<string>)
    requires FitsInt(callID) && FitsInt(op) && op != READ_CODE && op != WRITE_CODE
    requires Without('_', rest) && (rest != [] ==> rest[|rest| - 1] != "")
    ensures var out := ServerStep(raw, Join('_', [Dec(callID), Dec(op)] + rest));
            && out.table == raw && out.response.Some?
            && ParseReply(out.response.value)
               == Some(Reply(callID, if op == NO_OP_CODE then RESPONSE_OK else RESPONSE_INVALID_OPCODE, None))
  {
    var parts := [Dec(callID), Dec(op)] + rest;
    HeaderAndRest(callID, op, rest);
    ExtractOfRequest(callID, op, parts);
    OtherStep(raw, Join('_', parts));
    ReplyRoundTrip(callID, if op == NO_OP_CODE then RESPONSE_OK else RESPONSE_INVALID_OPCODE, None);
  }

  class RpcServer {
    const ssm: SessionManager
    const config: RpcConfig

    constructor (ssm: SessionManager, config: RpcConfig)
      ensures this.ssm == ssm && this.config == config
    {
      this.ssm := ssm;
      this.config := config;
    }

    /** One turn of the receive loop. */
    method Handle(data: string, senderID: string) returns (response: Option<string>)
      requires ssm.Valid() && config.Valid()
      modifies ssm, config
      ensures ssm.Valid() && config.Valid()
      ensures Outcome(ssm.sessionDataTable, response) == ServerStep(old(ssm.sessionDataTable), data)
    {
      var request := Extract(data);
      if request.None? {
        return None;
      }
      var callID := request.value.callID;
      var op := request.value.operationCode;
      if op == NO_OP_CODE {
        response := Some(Response(callID, RESPONSE_OK, None));
      } else if op == READ_CODE {
        var read := ExtractRead(data);
        if read.None? {
          return None;
        }
        var session := ssm.GetSession(read.value.sessionID, read.value.sessionVersion);
        var number := ParseInt(callID);
        if number.None? {
          return None;
        }
        var valid := config.IsValidID(senderID, number.value);
        if session.Some? && session.value.version == read.value.sessionVersion && valid {
          response := Some(Response(callID, RESPONSE_OK, Some(Encode(session.value))));
        } else if !valid {
          response := Some(Response(callID, RESPONSE_INVALID_CALLID, None));
        } else {
          response := Some(Response(callID, RESPONSE_NOT_FOUND, None));
        }
      } else if op == WRITE_CODE {
        var write := ExtractWrite(data);
        if write.None? {
          return None;
        }
        WrittenSessionIsPortable(data);
        ssm.AddSession(write.value.session);
        response := Some(Response(callID, RESPONSE_OK, None));
      } else {
        response := Some(Response(callID, RESPONSE_INVALID_OPCODE, None));
      }
    }
  }
}
