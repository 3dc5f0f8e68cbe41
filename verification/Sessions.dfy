/**
 Sessions, their text form and the updates a request makes to them (src/proj1b/ssm/Session.java).
 */
module Sessions {
  import opened Wrappers
  import opened JavaText

  const DEFAULT_MESSAGE := "Hello, User!"
  const LOGOUT_MESSAGE := "You have logged out."
  const TIMEOUT_MILLIS := 600 * 1000
  const TIMEOUT_DELTA := 100

  /** The triple a session ID is made of: creating server, its reboot number, its session counter. */
  datatype SessionId = SessionId(server: string, reboot: int, num: int)

  datatype SessionData = SessionData(id: SessionId, version: int, message: string, expires: int)

  /** What identifies a table entry: one version of one session. */
  datatype TableKey = TableKey(id: SessionId, version: int)

  datatype Action = Load | Refresh | Replace(message: string) | Logout

  function KeyOf(s: SessionData): TableKey {
    TableKey(s.id, s.version)
  }

  function Created(id: SessionId, now: int): SessionData {
    SessionData(id, 0, DEFAULT_MESSAGE, now + TIMEOUT_MILLIS)
  }

  function Expired(s: SessionData, now: int): bool {
    s.expires < now
  }

  /** The session after the button the user pressed, if any, was handled at time now. */
  function Updated(s: SessionData, action: Action, now: int): SessionData {
    match action
    case Load => s
    case Refresh => s.(version := s.version + 1, expires := now + TIMEOUT_MILLIS + TIMEOUT_DELTA)
    case Replace(m) =>
      s.(message := m, version := s.version + 1, expires := now + TIMEOUT_MILLIS + TIMEOUT_DELTA)
    case Logout => s.(message := LOGOUT_MESSAGE, expires := now)
  }

  predicate Bumps(action: Action) {
    action.Refresh? || action.Replace?
  }

  /** How long sessions live: ten minutes from their creation, a tenth of a second more after each update. */
  lemma LifetimesAre(s: SessionData, id: SessionId, m: string, t: int, now: int)
    ensures Expired(Created(id, t), now) <==> now > t + 600000
    ensures Expired(Updated(s, Refresh, t), now) <==> now > t + 600100
    ensures Expired(Updated(s, Replace(m), t), now) <==> now > t + 600100
    ensures Expired(Updated(s, Load, t), now) <==> Expired(s, now)
    ensures Expired(Updated(s, Logout, t), now) <==> now > t
  {
  }

  /** What a session says: a button changes the message to what the user typed, or to the farewell, or not at all. */
  lemma MessagesAre(s: SessionData, id: SessionId, m: string, t: int)
    ensures Created(id, t).message == "Hello, User!" && Created(id, t).id == id && Created(id, t).version == 0
    ensures Updated(s, Replace(m), t).message == m && Updated(s, Logout, t).message == "You have logged out."
    ensures Updated(s, Refresh, t).message == s.message && Updated(s, Load, t) == s
    ensures forall action :: Updated(s, action, t).id == s.id
  {
  }

  // ---------- text forms ----------

  function IdText(id: SessionId): string {
    Join('#', [id.server, Dec(id.reboot), Dec(id.num)])
  }

  function KeyText(k: TableKey): string {
    IdText(k.id) + "#" + Dec(k.version)
  }

  function Encode(s: SessionData): string {
    Join('#', [IdText(s.id), Dec(s.version), s.message, Dec(s.expires)])
  }

  /** The inverse of Encode; None where the code throws on a missing or non-numeric field. */
  function Decode(text: string): Option<SessionData> {
    var fields := Split(text, '#');
    if |fields| < 6 then None
    else
      match (ParseInt(fields[1]), ParseInt(fields[2]), ParseInt(fields[3]), ParseLong(fields[5]))
      case (Some(reboot), Some(num), Some(version), Some(expires)) =>
        Some(SessionData(SessionId(fields[0], reboot, num), version, fields[4], expires))
      case _ => None
  }

  /** Text that the two wire delimiters cannot cut. */
  predicate DelimiterFree(text: string) {
    '#' !in text && '_' !in text
  }

  predicate InRange(s: SessionData) {
    FitsInt(s.id.reboot) && FitsInt(s.id.num) && FitsInt(s.version) && FitsLong(s.expires)
  }

  /** A session whose server ID and message the wire formats can carry. */
  predicate Portable(s: SessionData) {
    DelimiterFree(s.id.server) && DelimiterFree(s.message) && InRange(s)
  }

  /**
   The characters jQuery's trim takes off the ends of a text: the white space of ECMAScript 5 and the no-break space.
   */
  predicate IsBlank(c: char) {
    var n := c as int;
    9 <= n <= 13 || n == 0x20 || n == 0xA0 || n == 0x1680 || n == 0x180E || 0x2000 <= n <= 0x200A
    || n == 0x2028 || n == 0x2029 || n == 0x202F || n == 0x205F || n == 0x3000 || n == 0xFEFF
  }

  /** What is left of a text between its first and its last character that is not blank. */
  function Trim(text: string): string {
    if text == "" then ""
    else if IsBlank(text[0]) then Trim(text[1..])
    else if IsBlank(text[|text| - 1]) then Trim(text[..|text| - 1])
    else text
  }

  /** The page's check of a replacement message: something is left of it and no delimiter is in it. */
  predicate PageAccepts(message: string) {
    message != "" && Trim(message) != "" && DelimiterFree(message)
  }

  predicate AllBlank(text: string) {
    forall i :: 0 <= i < |text| ==> IsBlank(text[i])
  }

  lemma {:induction false} TrimIsEmpty(text: string)
    ensures Trim(text) == "" <==> AllBlank(text)
  {
    if text != "" {
      if IsBlank(text[0]) {
        TrimIsEmpty(text[1..]);
        assert AllBlank(text[1..]) ==> forall i :: 0 < i < |text| ==> text[i] == text[1..][i - 1];
      } else if IsBlank(text[|text| - 1]) {
        TrimIsEmpty(text[..|text| - 1]);
      }
    }
  }

  // ---------- facts about the text forms ----------

  lemma EncodeFields(s: SessionData)
    ensures Encode(s)
           == Join('#', [s.id.server, Dec(s.id.reboot), Dec(s.id.num), Dec(s.version), s.message, Dec(s.expires)])
  {
    var xs := [s.id.server, Dec(s.id.reboot), Dec(s.id.num)];
    var ys := [Dec(s.version), s.message, Dec(s.expires)];
    JoinNested('#', xs, ys);
    JoinNested('#', [IdText(s.id)], ys);
    assert [IdText(s.id)] + ys == [IdText(s.id), Dec(s.version), s.message, Dec(s.expires)];
    assert xs + ys == [s.id.server, Dec(s.id.reboot), Dec(s.id.num), Dec(s.version), s.message, Dec(s.expires)];
  }

  lemma KeyFields(k: TableKey)
    ensures KeyText(k) == Join('#', [k.id.server, Dec(k.id.reboot), Dec(k.id.num), Dec(k.version)])
  {
    var xs := [k.id.server, Dec(k.id.reboot), Dec(k.id.num)];
    JoinNested('#', xs, [Dec(k.version)]);
    assert xs + [Dec(k.version)] == [k.id.server, Dec(k.id.reboot), Dec(k.id.num), Dec(k.version)];
  }

  /** Different (server, reboot, counter, version) tuples never share a table key text. */
  lemma KeyTextInjective(k: TableKey, k': TableKey)
    requires '#' !in k.id.server && '#' !in k'.id.server
    requires KeyText(k) == KeyText(k')
    ensures k == k'
  {
    KeyFields(k);
    KeyFields(k');
    var xs := [k.id.server, Dec(k.id.reboot), Dec(k.id.num), Dec(k.version)];
    var ys := [k'.id.server, Dec(k'.id.reboot), Dec(k'.id.num), Dec(k'.version)];
    PiecesOfJoin('#', xs);
    PiecesOfJoin('#', ys);
    assert xs[0] == ys[0] && xs[1] == ys[1] && xs[2] == ys[2] && xs[3] == ys[3];
    ParseOfDec(k.id.reboot);
    ParseOfDec(k'.id.reboot);
    ParseOfDec(k.id.num);
    ParseOfDec(k'.id.num);
    ParseOfDec(k.version);
    ParseOfDec(k'.version);
  }

  /** Decoding undoes encoding exactly when no '#' cuts the message. */
  lemma DecodeOfEncode(s: SessionData)
    requires '#' !in s.id.server && InRange(s)
    ensures Decode(Encode(s)) == Some(s) <==> '#' !in s.message
  {
    EncodeFields(s);
    if '#' !in s.message {
      var parts := [s.id.server, Dec(s.id.reboot), Dec(s.id.num), Dec(s.version), s.message, Dec(s.expires)];
      SplitOfJoin('#', parts);
      ParseOfDec(s.id.reboot);
      ParseOfDec(s.id.num);
      ParseOfDec(s.version);
      ParseOfDec(s.expires);
    } else {
      // every field Decode reads is free of the delimiter
      var fields := Split(Encode(s), '#');
      assert Without('#', fields);
    }
  }

  lemma IdTextClean(id: SessionId)
    requires '_' !in id.server
    ensures '_' !in IdText(id)
  {
    JoinWithout('_', '#', [id.server, Dec(id.reboot), Dec(id.num)]);
  }

  lemma EncodeClean(s: SessionData)
    requires '_' !in s.id.server && '_' !in s.message
    ensures '_' !in Encode(s)
  {
    IdTextClean(s.id);
    JoinWithout('_', '#', [IdText(s.id), Dec(s.version), s.message, Dec(s.expires)]);
  }

  /** A message the store can show: it has a character that is not blank, and no delimiter. */
  predicate Presentable(message: string) {
    DelimiterFree(message) && !AllBlank(message)
  }

  /** Every message stays presentable: created, refreshed, logged out or replaced through the page. */
  lemma MessagesStayClean(s: SessionData, id: SessionId, action: Action, now: int)
    requires action.Replace? ==> PageAccepts(action.message)
    ensures Presentable(Created(id, now).message)
    ensures Presentable(s.message) ==> Presentable(Updated(s, action, now).message)
    ensures DelimiterFree(s.message) ==> DelimiterFree(Updated(s, action, now).message)
  {
    assert forall c :: c in DEFAULT_MESSAGE ==> c != '#' && c != '_';
    assert forall c :: c in LOGOUT_MESSAGE ==> c != '#' && c != '_';
    assert !IsBlank(DEFAULT_MESSAGE[0]) && !IsBlank(LOGOUT_MESSAGE[0]);
    if action.Replace? {
      TrimIsEmpty(action.message);
    }
  }

  /** The mutable session object of one request. */
  class Session {
    var id: SessionId
    var versionNumber: int
    var message: string
    var expirationTime: int

    ghost function Data(): SessionData
      reads this
    {
      SessionData(id, versionNumber, message, expirationTime)
    }

    constructor Fresh(id: SessionId, now: int)
      ensures Data() == Created(id, now) == SessionData(id, 0, "Hello, User!", now + 600000)
    {
      this.id := id;
      versionNumber := 0;
      message := DEFAULT_MESSAGE;
      expirationTime := now + TIMEOUT_MILLIS;
    }

    constructor From(s: SessionData)
      ensures Data() == s
    {
      id := s.id;
      versionNumber := s.version;
      message := s.message;
      expirationTime := s.expires;
    }

    method DoRefresh(now: int)
      modifies this
      ensures Data() == Updated(old(Data()), Action.Refresh, now)
      ensures Data() == SessionData(old(id), old(versionNumber) + 1, old(message), now + 600100)
    {
      versionNumber := versionNumber + 1;
      expirationTime := now + TIMEOUT_MILLIS + TIMEOUT_DELTA;
    }

    method DoReplace(msg: string, now: int)
      modifies this
      ensures Data() == Updated(old(Data()), Action.Replace(msg), now)
      ensures Data() == SessionData(old(id), old(versionNumber) + 1, msg, now + 600100)
    {
      message := msg;
      versionNumber := versionNumber + 1;
      expirationTime := now + TIMEOUT_MILLIS + TIMEOUT_DELTA;
    }

    method DoLogout(now: int)
      modifies this
      ensures Data() == Updated(old(Data()), Action.Logout, now)
      ensures Data() == SessionData(old(id), old(versionNumber), "You have logged out.", now)
    {
      message := LOGOUT_MESSAGE;
      expirationTime := now;
    }
  }
}
