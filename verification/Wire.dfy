/**
 The RPC messages and their parsers (src/proj1b/rpc/RPCStream.java and the joins in RPCClient.java and RPCServer.java).
 A parser returns None where the code throws on a missing or non-numeric field.
 */
module Wire {
  import opened Wrappers
  import opened JavaText
  import opened Sessions

  const NO_OP_CODE := 0
  const READ_CODE := 1
  const WRITE_CODE := 2

  const RESPONSE_OK := 200
  const RESPONSE_INVALID_OPCODE := 300
  const RESPONSE_NOT_FOUND := 400
  const RESPONSE_INVALID_CALLID := 401

  datatype Data = Data(callID: string, operationCode: int)
  datatype DataRead = DataRead(callID: string, operationCode: int, sessionID: string, sessionVersion: int)
  datatype DataWrite = DataWrite(callID: string, operationCode: int, session: SessionData)

  function Extract(text: string): Option<Data> {
    var req := Split(text, '_');
    if |req| < 2 then None
    else
      match ParseInt(req[1])
      case None => None
      case Some(op) => Some(Data(req[0], op))
  }

  function ExtractRead(text: string): Option<DataRead> {
    var req := Split(text, '_');
    if |req| < 4 then None
    else
      match (ParseInt(req[1]), ParseInt(req[3]))
      case (Some(op), Some(version)) => Some(DataRead(req[0], op, req[2], version))
      case _ => None
  }

  function ExtractWrite(text: string): Option<DataWrite> {
    var req := Split(text, '_');
    if |req| < 3 then None
    else
      match (ParseInt(req[1]), Decode(req[2]))
      case (Some(op), Some(s)) => Some(DataWrite(req[0], op, s))
      case _ => None
  }

  function ReadRequest(callID: int, sessionID: string, version: int): string {
    Join('_', [Dec(callID), Dec(READ_CODE), sessionID, Dec(version)])
  }

  function WriteRequest(callID: int, s: SessionData): string {
    Join('_', [Dec(callID), Dec(WRITE_CODE), Encode(s)])
  }

  /** A response as the server appends it: call ID, code and, for a read that found its session, the session. */
  function Response(callID: string, code: int, payload: Option<string>): string {
    match payload
    case None => callID + "_" + Dec(code)
    case Some(p) => callID + "_" + Dec(code) + "_" + p
  }

  // ---------- round trips ----------

  /** Extract looks at the first two fields of any request. */
  lemma ExtractOfRequest(callID: int, op: int, parts: seq<string>)
    requires |parts| >= 2 && parts[0] == Dec(callID) && parts[1] == Dec(op)
    requires FitsInt(op) && Without('_', parts) && parts[|parts| - 1] != ""
    ensures Split(Join('_', parts), '_') == parts
    ensures Extract(Join('_', parts)) == Some(Data(Dec(callID), op))
  {
    SplitOfJoin('_', parts);
    ParseOfDec(op);
  }

  lemma ReadRoundTrip(callID: int, id: SessionId, version: int)
    requires '_' !in id.server && FitsInt(version)
    ensures Extract(ReadRequest(callID, IdText(id), version)) == Some(Data(Dec(callID), READ_CODE))
    ensures ExtractRead(ReadRequest(callID, IdText(id), version))
         == Some(DataRead(Dec(callID), READ_CODE, IdText(id), version))
  {
    IdTextClean(id);
    ExtractOfRequest(callID, READ_CODE, [Dec(callID), Dec(READ_CODE), IdText(id), Dec(version)]);
    ParseOfDec(READ_CODE);
    ParseOfDec(version);
  }

  /** No field a parser reads can hold the delimiter, so a message that holds one never comes back. */
  lemma WrittenMessageIsClean(text: string)
    ensures ExtractWrite(text).Some? ==> DelimiterFree(ExtractWrite(text).value.session.message)
  {
    var req := Split(text, '_');
    if ExtractWrite(text).Some? {
      var fields := Split(req[2], '#');
      assert Without('_', req) && Without('#', fields);
      FieldOfCleanText(req[2], '#', '_', 4);
    }
  }

  lemma {:induction false} PiecesKeepClean(s: string, d: char, c: char)
    requires c !in s
    ensures Without(c, Pieces(s, d))
  {
    if s != "" {
      PiecesKeepClean(s[1..], d, c);
    }
  }

  lemma FieldOfCleanText(s: string, d: char, c: char, i: nat)
    requires c !in s && i < |Split(s, d)|
    ensures c !in Split(s, d)[i]
  {
    PiecesKeepClean(s, d, c);
  }

  lemma EncodeNonEmpty(s: SessionData)
    ensures Encode(s) != ""
  {
    assert Join('#', [IdText(s.id), Dec(s.version), s.message, Dec(s.expires)])[|IdText(s.id)|] == '#';
  }

  // ---------- the first fields of any message ----------

  /** A text that starts with two clean fields, the second one not empty, splits into them and whatever follows. */
  lemma TwoFields(a: string, b: string, tail: Option<string>)
    requires '_' !in a && '_' !in b && b != ""
    ensures var text := a + "_" + b + (if tail.Some? then "_" + tail.value else "");
            |Split(text, '_')| >= 2 && Split(text, '_')[0] == a && Split(text, '_')[1] == b
  {
    var rest := if tail.Some? then b + ['_'] + tail.value else b;
    var text := a + "_" + b + (if tail.Some? then "_" + tail.value else "");
    assert text == a + ['_'] + rest;
    assert text[|a|] == '_';
    PiecesOfPrefix(a, rest, '_');
    if tail.Some? {
      PiecesOfPrefix(b, tail.value, '_');
    } else {
      PiecesOfPlain(b, '_');
    }
    assert Pieces(text, '_')[1] == b;
  }

  lemma JoinThree(a: string, b: string, rest: seq<string>)
    requires rest != []
    ensures Join('_', [a, b] + rest) == a + "_" + b + ("_" + Join('_', rest))
  {
    var parts := [a, b] + rest;
    assert parts[1..] == [b] + rest && parts[1..][1..] == rest;
    assert Join('_', parts[1..]) == b + ['_'] + Join('_', rest);
    assert a + ['_'] + (b + ['_'] + Join('_', rest)) == a + "_" + b + ("_" + Join('_', rest));
  }

  // ---------- write requests ----------

  /**
   The session a server makes of a write request. Only what is before the first '_' of the message arrives, with the
   expiry behind it if there is no '_'; of that, the message is what is before the first '#', and the expiry what is
   between it and the next one. None stands for a missing or non-numeric expiry.
   */
  function Received(s: SessionData): Option<SessionData> {
    var parts := Pieces(Pieces(s.message, '_')[0], '#');
    if |parts| > 1 then
      match ParseLong(parts[1])
      case None => None
      case Some(e) => Some(s.(message := parts[0], expires := e))
    else if '_' in s.message then None
    else Some(s)
  }

  /** A session arrives as it was sent exactly when its message holds neither delimiter. */
  lemma ReceivedIntact(s: SessionData)
    ensures Received(s) == Some(s) <==> DelimiterFree(s.message)
  {
    var head := Pieces(s.message, '_')[0];
    if '_' in s.message {
      PiecesKeepClean(head, '#', '_');
      assert '_' !in Pieces(head, '#')[0];
    } else {
      PiecesOfPlain(s.message, '_');
      if '#' in s.message {
        var rest := CutAtFirst(s.message, '#');
        PiecesOfBoth(Pieces(s.message, '#')[0], rest, '#');
      } else {
        PiecesOfPlain(s.message, '#');
      }
    }
  }

  /** What Decode reads behind a session's key: a message and an expiry, cut at the first '#' and the one after it. */
  lemma DecodeOfText(k: TableKey, text: string)
    requires '#' !in k.id.server && FitsInt(k.id.reboot) && FitsInt(k.id.num) && FitsInt(k.version)
    ensures var parts := Pieces(text, '#');
            Decode(KeyText(k) + "#" + text)
            == if |parts| > 1 && ParseLong(parts[1]).Some?
               then Some(SessionData(k.id, k.version, parts[0], ParseLong(parts[1]).value)) else None
  {
    var header, parts := [k.id.server, Dec(k.id.reboot), Dec(k.id.num), Dec(k.version)], Pieces(text, '#');
    KeyFields(k);
    PiecesOfJoin('#', header);
    PiecesOfBoth(KeyText(k), text, '#');
    FieldsBehindKey(KeyText(k), header, text);
    ParseOfDec(k.id.reboot);
    ParseOfDec(k.id.num);
    ParseOfDec(k.version);
  }

  lemma FieldsBehindKey(key: string, header: seq<string>, text: string)
    requires |header| == 4 && Pieces(key + ['#'] + text, '#') == header + Pieces(text, '#')
    ensures var fields, parts := Split(key + "#" + text, '#'), Pieces(text, '#');
            && (|fields| > 5 ==> |parts| > 1 && fields[..4] == header && fields[4] == parts[0] && fields[5] == parts[1])
            && (|parts| > 1 && parts[1] != "" ==> |fields| > 5)
  {
    var all := key + ['#'] + text;
    assert all == key + "#" + text && all[|key|] == '#';
    assert Pieces(all, '#')[4..] == Pieces(text, '#');
  }

  lemma EncodeText(s: SessionData)
    ensures Encode(s) == KeyText(KeyOf(s)) + "#" + (s.message + "#" + Dec(s.expires))
  {
    var parts := [IdText(s.id), Dec(s.version), s.message, Dec(s.expires)];
    JoinNested('#', parts[..2], parts[2..]);
    assert parts == parts[..2] + parts[2..];
    assert Join('#', parts[..2]) == IdText(s.id) + ['#'] + Dec(s.version);
    assert Join('#', parts[2..]) == s.message + ['#'] + Dec(s.expires);
  }

  /** The fields of a write request: the session's text comes only as far as its first '_'. */
  lemma WriteFields(callID: int, s: SessionData)
    requires '_' !in s.id.server
    ensures var req := Split(WriteRequest(callID, s), '_');
            |req| > 2 && req[0] == Dec(callID) && req[1] == Dec(WRITE_CODE) && req[2] == Pieces(Encode(s), '_')[0]
  {
    JoinThree(Dec(callID), Dec(WRITE_CODE), [Encode(s)]);
    assert [Dec(callID), Dec(WRITE_CODE)] + [Encode(s)] == [Dec(callID), Dec(WRITE_CODE), Encode(s)];
    var text, rest := WriteRequest(callID, s), Dec(WRITE_CODE) + ['_'] + Encode(s);
    assert text == Dec(callID) + ['_'] + rest && text[|Dec(callID)|] == '_';
    PiecesOfPrefix(Dec(callID), rest, '_');
    PiecesOfPrefix(Dec(WRITE_CODE), Encode(s), '_');
    HeadOfEncode(s);
    var all := Pieces(text, '_');
    assert all[0] == Dec(callID) && all[1] == Dec(WRITE_CODE) && all[2] == Pieces(Encode(s), '_')[0] != "";
  }

  /** A text is cut where its middle part is. */
  lemma FirstPieceOf(before: string, middle: string, after: string)
    requires '_' !in before && '_' in middle
    ensures Pieces(before + (middle + after), '_')[0] == before + Pieces(middle, '_')[0]
  {
    var rest := CutAtFirst(middle, '_');
    var head := before + Pieces(middle, '_')[0];
    assert before + (middle + after) == head + ['_'] + (rest + after);
    PiecesOfPrefix(head, rest + after, '_');
  }

  lemma HeadOfEncode(s: SessionData)
    requires '_' !in s.id.server
    ensures Pieces(Encode(s), '_')[0]
         == KeyText(KeyOf(s)) + "#"
            + if '_' in s.message then Pieces(s.message, '_')[0] else s.message + "#" + Dec(s.expires)
  {
    IdTextClean(s.id);
    EncodeText(s);
    if '_' in s.message {
      FirstPieceOf(KeyText(KeyOf(s)) + "#", s.message, "#" + Dec(s.expires));
      SameText(s.message, "#", Dec(s.expires));
    } else {
      PiecesOfPlain(Encode(s), '_');
    }
  }

  lemma SameText(x: string, y: string, z: string)
    ensures x + y + z == x + (y + z)
  {
  }

  lemma DecodeOfHead(s: SessionData)
    requires DelimiterFree(s.id.server) && InRange(s) && '_' in s.message
    ensures Decode(KeyText(KeyOf(s)) + "#" + Pieces(s.message, '_')[0]) == Received(s)
  {
    DecodeOfText(KeyOf(s), Pieces(s.message, '_')[0]);
  }

  lemma DecodeOfWhole(s: SessionData)
    requires DelimiterFree(s.id.server) && InRange(s) && '_' !in s.message
    ensures Decode(KeyText(KeyOf(s)) + "#" + (s.message + "#" + Dec(s.expires))) == Received(s)
  {
    PiecesOfPlain(s.message, '_');
    DecodeOfText(KeyOf(s), s.message + "#" + Dec(s.expires));
    assert s.message + "#" + Dec(s.expires) == s.message + ['#'] + Dec(s.expires);
    PiecesOfBoth(s.message, Dec(s.expires), '#');
    PiecesOfPlain(Dec(s.expires), '#');
    ParseOfDec(s.expires);
    if '#' in s.message {
      var rest := CutAtFirst(s.message, '#');
      PiecesOfBoth(Pieces(s.message, '#')[0], rest, '#');
    } else {
      PiecesOfPlain(s.message, '#');
    }
  }

  lemma DecodeOfArrived(s: SessionData)
    requires DelimiterFree(s.id.server) && InRange(s)
    ensures Decode(Pieces(Encode(s), '_')[0]) == Received(s)
  {
    HeadOfEncode(s);
    if '_' in s.message {
      DecodeOfHead(s);
    } else {
      DecodeOfWhole(s);
    }
  }

  /** A server makes of any write request what Received says, whatever the message is. */
  lemma ExtractOfWrite(callID: int, s: SessionData)
    requires DelimiterFree(s.id.server) && InRange(s)
    ensures Extract(WriteRequest(callID, s)) == Some(Data(Dec(callID), WRITE_CODE))
    ensures ExtractWrite(WriteRequest(callID, s))
         == match Received(s)
            case None => None
            case Some(s') => Some(DataWrite(Dec(callID), WRITE_CODE, s'))
  {
    WriteFields(callID, s);
    ParseOfDec(WRITE_CODE);
    DecodeOfArrived(s);
  }

  /** A write request carries the session across exactly when the message holds neither delimiter. */
  lemma WriteRoundTrip(callID: int, s: SessionData)
    requires DelimiterFree(s.id.server) && InRange(s)
    ensures ExtractWrite(WriteRequest(callID, s)) == Some(DataWrite(Dec(callID), WRITE_CODE, s))
       <==> DelimiterFree(s.message)
    ensures Extract(WriteRequest(callID, s)) == Some(Data(Dec(callID), WRITE_CODE))
  {
    ExtractOfWrite(callID, s);
    ReceivedIntact(s);
  }

  // ---------- replies as the client reads them ----------

  /** The call ID of a reply, all that the write loop looks at. */
  function CallIdOf(text: string): Option<int> {
    var info := Split(text, '_');
    if |info| == 0 then None else ParseInt(info[0])
  }

  /** The reply's fields as the receive loops look at them. */
  datatype Reply = Reply(callID: int, code: int, payload: Option<string>)

  function ParseReply(text: string): Option<Reply> {
    var info := Split(text, '_');
    if |info| < 2 then None
    else
      match (ParseInt(info[0]), ParseInt(info[1]))
      case (Some(callID), Some(code)) =>
        Some(Reply(callID, code, if |info| > 2 then Some(info[2]) else None))
      case _ => None
  }

  lemma ResponseIsJoin(callID: string, code: int, payload: Option<string>)
    ensures Response(callID, code, payload)
         == Join('_', [callID, Dec(code)] + (if payload.Some? then [payload.value] else []))
  {
    if payload.Some? {
      var parts := [callID, Dec(code), payload.value];
      assert [callID, Dec(code)] + [payload.value] == parts;
      assert parts[1..] == [Dec(code), payload.value] && parts[1..][1..] == [payload.value];
      assert Join('_', parts[1..]) == Dec(code) + ['_'] + payload.value;
      assert callID + ['_'] + (Dec(code) + ['_'] + payload.value) == callID + "_" + Dec(code) + "_" + payload.value;
    } else {
      assert [callID, Dec(code)] + [] == [callID, Dec(code)];
      assert [callID, Dec(code)][1..] == [Dec(code)];
    }
  }

  /** The client reads back the call ID, the code and the payload the server appended. */
  lemma ReplyRoundTrip(callID: int, code: int, payload: Option<string>)
    requires FitsInt(callID) && FitsInt(code)
    requires payload.Some? ==> '_' !in payload.value && payload.value != ""
    ensures ParseReply(Response(Dec(callID), code, payload)) == Some(Reply(callID, code, payload))
  {
    var parts := [Dec(callID), Dec(code)] + (if payload.Some? then [payload.value] else []);
    ResponseIsJoin(Dec(callID), code, payload);
    SplitOfJoin('_', parts);
    ParseOfDec(callID);
    ParseOfDec(code);
  }
}
