/**
 The versioned session table of one server and its garbage collector (src/proj1b/ssm/SessionManager.java,
 src/proj1b/ssm/SessionCleaner.java).
 */
module SessionTable {
  import opened Wrappers
  import opened JavaText
  import opened Sessions

  /** The table as it is stored: one entry per key text. */
  type RawTable = map<string, SessionData>

  /** The table as it is meant: one entry per session and version. */
  type Table = map<TableKey, SessionData>

  /** Every key is the text of its own session's ID and version, and the wire can carry every session. */
  ghost predicate ValidRaw(raw: RawTable) {
    forall k :: k in raw ==> Portable(raw[k]) && k == KeyText(KeyOf(raw[k]))
  }

  ghost function View(raw: RawTable): Table
    requires ValidRaw(raw)
  {
    map k | k in raw :: KeyOf(raw[k]) := raw[k]
  }

  function Cleaned(t: Table, now: int): Table {
    map k | k in t && !Expired(t[k], now) :: t[k]
  }

  function CleanedRaw(raw: RawTable, now: int): RawTable {
    map k | k in raw && !Expired(raw[k], now) :: raw[k]
  }

  /** The table halfway through a collector pass: the keys in todo have not been looked at yet. */
  function Unvisited(raw: RawTable, todo: set<string>, now: int): RawTable {
    map k | k in raw && (k in todo || !Expired(raw[k], now)) :: raw[k]
  }

  function PutRaw(raw: RawTable, s: SessionData): RawTable {
    raw[KeyText(KeyOf(s)) := s]
  }

  function GetRaw(raw: RawTable, sessionID: string, version: int): Option<SessionData> {
    var key := sessionID + "#" + Dec(version);
    if key in raw then Some(raw[key]) else None
  }

  /** Looking a key text up finds exactly what the view holds under that key. */
  lemma ViewAt(raw: RawTable, k: TableKey)
    requires ValidRaw(raw) && '#' !in k.id.server
    ensures KeyText(k) in raw <==> k in View(raw)
    ensures k in View(raw) ==> View(raw)[k] == raw[KeyText(k)] && KeyOf(View(raw)[k]) == k
  {
    if KeyText(k) in raw {
      KeyTextInjective(k, KeyOf(raw[KeyText(k)]));
    }
  }

  /** A lookup by session ID and version never returns another session or another version. */
  lemma GetRawIsExact(raw: RawTable, id: SessionId, version: int)
    requires ValidRaw(raw) && '#' !in id.server
    ensures GetRaw(raw, IdText(id), version)
         == (if TableKey(id, version) in View(raw) then Some(View(raw)[TableKey(id, version)]) else None)
    ensures GetRaw(raw, IdText(id), version).Some? ==>
              KeyOf(GetRaw(raw, IdText(id), version).value) == TableKey(id, version)
  {
    ViewAt(raw, TableKey(id, version));
  }

  /** Two stored tables whose key texts agree with a meant table have that table as their view. */
  lemma ViewIs(raw: RawTable, t: Table)
    requires ValidRaw(raw)
    requires forall k :: k in t ==> '#' !in k.id.server
    requires forall k: TableKey :: '#' !in k.id.server ==>
               ((KeyText(k) in raw <==> k in t) && (k in t ==> raw[KeyText(k)] == t[k]))
    ensures View(raw) == t
  {
    forall k | k in View(raw) || k in t ensures k in View(raw) && k in t && View(raw)[k] == t[k] {
      ViewAt(raw, k);
    }
  }

  lemma PutKeepsValid(raw: RawTable, s: SessionData)
    requires ValidRaw(raw) && Portable(s)
    ensures ValidRaw(PutRaw(raw, s))
  {
  }

  lemma PutRawView(raw: RawTable, s: SessionData)
    requires ValidRaw(raw) && Portable(s)
    ensures ValidRaw(PutRaw(raw, s))
    ensures View(PutRaw(raw, s)) == View(raw)[KeyOf(s) := s]
  {
    PutKeepsValid(raw, s);
    forall k: TableKey | '#' !in k.id.server
      ensures KeyText(k) in PutRaw(raw, s) <==> k in View(raw)[KeyOf(s) := s]
      ensures k in View(raw)[KeyOf(s) := s] ==> PutRaw(raw, s)[KeyText(k)] == View(raw)[KeyOf(s) := s][k]
    {
      ViewAt(raw, k);
      if KeyText(k) == KeyText(KeyOf(s)) {
        KeyTextInjective(k, KeyOf(s));
      }
    }
    ViewIs(PutRaw(raw, s), View(raw)[KeyOf(s) := s]);
  }

  lemma RemovedRawView(raw: RawTable, key: TableKey)
    requires ValidRaw(raw) && '#' !in key.id.server
    ensures ValidRaw(raw - {KeyText(key)})
    ensures View(raw - {KeyText(key)}) == View(raw) - {key}
  {
    forall k: TableKey | '#' !in k.id.server
      ensures KeyText(k) in raw - {KeyText(key)} <==> k in View(raw) - {key}
      ensures k in View(raw) - {key} ==> (raw - {KeyText(key)})[KeyText(k)] == (View(raw) - {key})[k]
    {
      ViewAt(raw, k);
      if KeyText(k) == KeyText(key) {
        KeyTextInjective(k, key);
      }
    }
    ViewIs(raw - {KeyText(key)}, View(raw) - {key});
  }

  lemma CleanedRawView(raw: RawTable, now: int)
    requires ValidRaw(raw)
    ensures ValidRaw(CleanedRaw(raw, now))
    ensures View(CleanedRaw(raw, now)) == Cleaned(View(raw), now)
  {
    forall k: TableKey | '#' !in k.id.server
      ensures KeyText(k) in CleanedRaw(raw, now) <==> k in Cleaned(View(raw), now)
      ensures k in Cleaned(View(raw), now) ==> CleanedRaw(raw, now)[KeyText(k)] == Cleaned(View(raw), now)[k]
    {
      ViewAt(raw, k);
    }
    ViewIs(CleanedRaw(raw, now), Cleaned(View(raw), now));
  }

  /** Visiting one entry removes it exactly when it has expired. */
  lemma VisitOne(raw: RawTable, todo: set<string>, k: string, now: int)
    requires k in todo && todo <= raw.Keys
    ensures k in Unvisited(raw, todo, now) && Unvisited(raw, todo, now)[k] == raw[k]
    ensures Unvisited(raw, todo - {k}, now)
         == if Expired(raw[k], now) then Unvisited(raw, todo, now) - {k} else Unvisited(raw, todo, now)
  {
    var a, b := Unvisited(raw, todo - {k}, now), Unvisited(raw, todo, now);
    if Expired(raw[k], now) {
      assert a.Keys == b.Keys - {k};
    } else {
      assert a.Keys == b.Keys;
    }
  }

  class SessionManager {
    var sessionDataTable: RawTable

    ghost predicate Valid()
      reads this
    {
      ValidRaw(sessionDataTable)
    }

    constructor ()
      ensures Valid() && View(sessionDataTable) == map[]
    {
      sessionDataTable := map[];
    }

    method AddSession(session: SessionData)
      requires Valid() && Portable(session)
      modifies this
      ensures Valid()
      ensures sessionDataTable == PutRaw(old(sessionDataTable), session)
      ensures View(sessionDataTable) == old(View(sessionDataTable))[KeyOf(session) := session]
    {
      PutRawView(sessionDataTable, session);
      var key := IdText(session.id) + "#" + Dec(session.version);
      sessionDataTable := sessionDataTable[key := session];
    }

    method GetSession(sessionName: string, versionNumber: int) returns (r: Option<SessionData>)
      ensures r == GetRaw(sessionDataTable, sessionName, versionNumber)
    {
      var key := sessionName + "#" + Dec(versionNumber);
      if key !in sessionDataTable {
        return None;
      }
      return Some(sessionDataTable[key]);
    }

    method RemoveFromTable(session: SessionData)
      requires Valid() && '#' !in session.id.server
      modifies this
      ensures Valid()
      ensures View(sessionDataTable) == old(View(sessionDataTable)) - {KeyOf(session)}
    {
      var key := IdText(session.id) + "#" + Dec(session.version);
      ghost var before := sessionDataTable;
      RemovedRawView(before, KeyOf(session));
      if key in sessionDataTable {
        sessionDataTable := sessionDataTable - {key};
      }
      assert sessionDataTable == before - {key};
    }

    /** The collector's pass: it visits every entry once, in any order, and removes the expired ones in place. */
    method RunCleaner(now: int)
      requires Valid()
      modifies this
      ensures Valid()
      ensures View(sessionDataTable) == Cleaned(old(View(sessionDataTable)), now)
      ensures forall k :: k in View(sessionDataTable) <==>
                k in old(View(sessionDataTable)) && now <= old(View(sessionDataTable))[k].expires
    {
      ghost var before := sessionDataTable;
      var todo := sessionDataTable.Keys;
      while todo != {}
        invariant todo <= before.Keys
        invariant sessionDataTable == Unvisited(before, todo, now)
        decreases todo
      {
        var k :| k in todo;
        VisitOne(before, todo, k, now);
        if sessionDataTable[k].expires < now {
          sessionDataTable := sessionDataTable - {k};
        }
        todo := todo - {k};
      }
      assert sessionDataTable == CleanedRaw(before, now);
      CleanedRawView(before, now);
    }
  }
}
