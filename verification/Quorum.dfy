/**
 What the two quorum loops compute, as functions of who answered: the specification shared by the client's loops
 and by the cluster's request step.
 */
module Quorum {
  import opened Wrappers
  import opened Sessions

  datatype Found = Found(session: SessionData, server: string)

  ghost predicate Distinct<T>(xs: seq<T>) {
    forall i, j :: 0 <= i < j < |xs| ==> xs[i] != xs[j]
  }

  /** The answer of the first listed server that has one. */
  function FirstAnswer(names: seq<string>, answers: seq<Option<SessionData>>): Option<Found>
    requires |names| == |answers|
  {
    if names == [] then None
    else if answers[0].Some? then Some(Found(answers[0].value, names[0]))
    else FirstAnswer(names[1..], answers[1..])
  }

  /** It is null exactly when nobody answered, and otherwise comes from the first answerer. */
  lemma {:induction false} FirstAnswerIsFirst(names: seq<string>, answers: seq<Option<SessionData>>)
    requires |names| == |answers|
    ensures var r := FirstAnswer(names, answers);
            && (r.None? <==> forall i :: 0 <= i < |names| ==> answers[i].None?)
            && (r.Some? ==> exists i :: 0 <= i < |names| && answers[i] == Some(r.value.session)
                                        && names[i] == r.value.server
                                        && forall j :: 0 <= j < i ==> answers[j].None?)
  {
    if names != [] && answers[0].None? {
      FirstAnswerIsFirst(names[1..], answers[1..]);
      var r := FirstAnswer(names, answers);
      if r.Some? {
        var i :| 0 <= i < |names| - 1 && answers[1..][i] == Some(r.value.session) && names[1..][i] == r.value.server
                 && forall j :: 0 <= j < i ==> answers[1..][j].None?;
        assert answers[i + 1] == Some(r.value.session) && names[i + 1] == r.value.server;
        forall j | 0 <= j < i + 1 ensures answers[j].None? {
          if j > 0 {
            assert answers[1..][j - 1].None?;
          }
        }
      } else {
        forall i | 0 <= i < |names| ensures answers[i].None? {
          if i > 0 {
            assert answers[1..][i - 1].None?;
          }
        }
      }
    }
  }

  // ---------- what a request makes of its read ----------

  /** A new session is opened when nothing was read back or what was read back has expired. */
  predicate NeedsFresh(found: Option<Found>, now: int) {
    found.None? || Expired(found.value.session, now)
  }

  function Open(found: Option<Found>, freshId: SessionId, now: int): SessionData {
    if NeedsFresh(found, now) then Created(freshId, now) else found.value.session
  }

  /**
   What one request makes of what it read: a session read before its time is over goes on, anything else begins anew,
   and the button decides message and time.
   */
  predicate MadeOf(found: Option<Found>, freshId: SessionId, action: Action, now: int, s: SessionData) {
    var live := found.Some? && now <= found.value.session.expires;
    && s.id == (if live then found.value.session.id else freshId)
    && s.version
        == (if live then found.value.session.version else 0) + (if action.Refresh? || action.Replace? then 1 else 0)
    && s.message == (match action
                     case Replace(m) => m
                     case Logout => "You have logged out."
                     case _ => if live then found.value.session.message else "Hello, User!")
    && s.expires == (match action
                     case Load => if live then found.value.session.expires else now + 600000
                     case Logout => now
                     case _ => now + 600100)
  }

  lemma OpenedIsMadeOf(found: Option<Found>, freshId: SessionId, action: Action, now: int)
    ensures MadeOf(found, freshId, action, now, Updated(Open(found, freshId, now), action, now))
    ensures NeedsFresh(found, now) <==> !(found.Some? && now <= found.value.session.expires)
  {
  }

  // ---------- writing ----------

  function Repeat(name: string, n: nat): (r: seq<string>)
    ensures |r| == n && forall i :: 0 <= i < n ==> r[i] == name
  {
    seq(n, _ => name)
  }

  /** Every acknowledgement heard, in list order: counts[i] of them from names[i]. */
  function Acks(names: seq<string>, counts: seq<nat>): seq<string>
    requires |names| == |counts|
  {
    if names == [] then [] else Repeat(names[0], counts[0]) + Acks(names[1..], counts[1..])
  }

  /** The backup list: the first wq acknowledgements, or nothing when there are fewer. */
  function Backups(wq: nat, names: seq<string>, counts: seq<nat>): Option<seq<string>>
    requires |names| == |counts|
  {
    var acks := Acks(names, counts);
    if |acks| < wq then None else Some(acks[..wq])
  }

  function Ones(heard: seq<bool>): seq<nat> {
    seq(|heard|, i requires 0 <= i < |heard| => if heard[i] then 1 else 0)
  }

  /** The listed servers that were heard, in list order. */
  function Heard(names: seq<string>, heard: seq<bool>): (r: seq<string>)
    requires |names| == |heard|
  {
    if names == [] then [] else (if heard[0] then [names[0]] else []) + Heard(names[1..], heard[1..])
  }

  lemma {:induction false} AcksOfOnes(names: seq<string>, heard: seq<bool>)
    requires |names| == |heard|
    ensures Acks(names, Ones(heard)) == Heard(names, heard)
  {
    if names != [] {
      AcksOfOnes(names[1..], heard[1..]);
      assert Ones(heard)[1..] == Ones(heard[1..]);
      assert Repeat(names[0], Ones(heard)[0]) == if heard[0] then [names[0]] else [];
    }
  }

  /** Heard keeps exactly the heard names and, like the list it comes from, repeats none. */
  lemma {:induction false} HeardMembers(names: seq<string>, heard: seq<bool>)
    requires |names| == |heard|
    ensures forall x :: x in Heard(names, heard) <==> exists i :: 0 <= i < |names| && heard[i] && names[i] == x
    ensures Distinct(names) ==> Distinct(Heard(names, heard))
  {
    if names != [] {
      HeardMembers(names[1..], heard[1..]);
      forall x ensures x in Heard(names, heard) <==> exists i :: 0 <= i < |names| && heard[i] && names[i] == x {
        if i :| 0 <= i < |names| && heard[i] && names[i] == x {
          if i > 0 {
            assert heard[1..][i - 1] && names[1..][i - 1] == x;
          }
        }
        if x in Heard(names[1..], heard[1..]) {
          var i :| 0 <= i < |names| - 1 && heard[1..][i] && names[1..][i] == x;
          assert heard[i + 1] && names[i + 1] == x;
        }
      }
      if Distinct(names) {
        assert Distinct(names[1..]) && names[0] !in names[1..];
        assert forall x :: x in Heard(names[1..], heard[1..]) ==> x in names[1..];
      }
    }
  }

  function CountSilent(heard: seq<bool>): nat {
    if heard == [] then 0 else (if heard[0] then 0 else 1) + CountSilent(heard[1..])
  }

  lemma {:induction false} HeardCount(names: seq<string>, heard: seq<bool>)
    requires |names| == |heard|
    ensures |Heard(names, heard)| + CountSilent(heard) == |names|
  {
    if names != [] {
      HeardCount(names[1..], heard[1..]);
    }
  }

  /**
   Write quorum exactness: when no reply is heard twice the result is non-null exactly when wq listed servers were
   heard, and is then the first wq of them in list order.
   */
  lemma BackupsAreFirstAnswerers(wq: nat, names: seq<string>, heard: seq<bool>)
    requires |names| == |heard| && Distinct(names)
    ensures var r := Backups(wq, names, Ones(heard));
            && (r.Some? <==> |Heard(names, heard)| >= wq)
            && (r.Some? ==> |r.value| == wq && r.value <= Heard(names, heard) && Distinct(r.value)
                            && forall x :: x in r.value ==> exists i :: 0 <= i < |names| && heard[i] && names[i] == x)
  {
    AcksOfOnes(names, heard);
    HeardMembers(names, heard);
    var r := Backups(wq, names, Ones(heard));
    if r.Some? {
      forall x | x in r.value ensures x in Heard(names, heard) {
      }
    }
  }

  /** F-availability of a write: with 2F+1 distinct targets, at most F silent ones leave F+1 acknowledgements. */
  lemma WriteAvailable(f: nat, names: seq<string>, heard: seq<bool>)
    requires |names| == |heard| == 2 * f + 1 && Distinct(names)
    requires CountSilent(heard) <= f
    ensures Backups(f + 1, names, Ones(heard)).Some?
  {
    HeardCount(names, heard);
    BackupsAreFirstAnswerers(f + 1, names, heard);
  }

  // ---------- duplicated replies ----------

  function Sum(counts: seq<nat>): nat {
    if counts == [] then 0 else counts[0] + Sum(counts[1..])
  }

  lemma {:induction false} AcksLength(names: seq<string>, counts: seq<nat>)
    requires |names| == |counts|
    ensures |Acks(names, counts)| == Sum(counts)
  {
    if names != [] {
      AcksLength(names[1..], counts[1..]);
    }
  }

  /** No server is counted twice before the list is full: wherever a reply repeats, the first one fills the list. */
  ghost predicate NoneCountedTwice(wq: nat, counts: seq<nat>) {
    forall i :: 0 <= i < |counts| && counts[i] > 1 ==> Sum(counts[..i]) + 1 >= wq
  }

  lemma {:induction false} AcksMembers(names: seq<string>, counts: seq<nat>)
    requires |names| == |counts|
    ensures forall x :: x in Acks(names, counts) ==> x in names
  {
    if names != [] {
      AcksMembers(names[1..], counts[1..]);
    }
  }

  lemma NoneCountedTwiceTail(wq: nat, counts: seq<nat>)
    requires counts != []
    ensures NoneCountedTwice(wq, counts) <==>
              (counts[0] > 1 ==> wq <= 1) &&
              NoneCountedTwice(if wq > counts[0] then wq - counts[0] else 0, counts[1..])
  {
    var wq' := if wq > counts[0] then wq - counts[0] else 0;
    forall i | 0 <= i < |counts| - 1 ensures Sum(counts[..i + 1]) == counts[0] + Sum(counts[1..][..i]) {
      assert counts[..i + 1][1..] == counts[1..][..i];
    }
    if NoneCountedTwice(wq, counts) {
      assert counts[..0] == [];
      forall i | 0 <= i < |counts[1..]| && counts[1..][i] > 1 ensures Sum(counts[1..][..i]) + 1 >= wq' {
        assert counts[i + 1] > 1;
      }
    }
    if (counts[0] > 1 ==> wq <= 1) && NoneCountedTwice(wq', counts[1..]) {
      forall i | 0 <= i < |counts| && counts[i] > 1 ensures Sum(counts[..i]) + 1 >= wq {
        if i == 0 {
          assert counts[..0] == [];
        } else {
          assert counts[1..][i - 1] > 1;
        }
      }
    }
  }

  /**
   Duplicated replies: a backup list names wq different servers exactly when no server is counted twice before the
   list is full.
   */
  lemma {:induction false} BackupsDistinctIff(wq: nat, names: seq<string>, counts: seq<nat>)
    requires |names| == |counts| && Distinct(names)
    requires Backups(wq, names, counts).Some?
    ensures Distinct(Backups(wq, names, counts).value) <==> NoneCountedTwice(wq, counts)
  {
    if names != [] {
      NoneCountedTwiceTail(wq, counts);
      var own, rest := Repeat(names[0], counts[0]), Acks(names[1..], counts[1..]);
      AcksMembers(names[1..], counts[1..]);
      var taken := Backups(wq, names, counts).value;
      assert Distinct(names[1..]);
      assert names[0] !in names[1..];
      if wq <= counts[0] {
        assert taken == own[..wq];
        if wq > 1 {
          assert taken[0] == taken[1];
        } else {
          assert NoneCountedTwice(0, counts[1..]);
        }
      } else {
        var wq' := wq - counts[0];
        BackupsDistinctIff(wq', names[1..], counts[1..]);
        var taken' := Backups(wq', names[1..], counts[1..]).value;
        assert taken == own + taken';
        if counts[0] > 1 {
          assert taken[0] == taken[1];
        } else {
          if Distinct(taken) {
            forall i, j | 0 <= i < j < |taken'| ensures taken'[i] != taken'[j] {
              assert taken[counts[0] + i] == taken'[i] && taken[counts[0] + j] == taken'[j];
            }
          }
          if Distinct(taken') {
            forall i, j | 0 <= i < j < |taken| ensures taken[i] != taken[j] {
              if i < counts[0] {
                assert taken[j] == taken'[j - counts[0]] && taken[j] in rest;
              }
            }
          }
        }
      }
    }
  }

  /** A duplicated acknowledgement does fool the writer: with F = 1 one server can fill the list alone. */
  lemma DuplicateReplyFillsQuorum()
    ensures Backups(2, ["0", "1", "2"], [2, 0, 0]) == Some(["0", "0"])
    ensures !Distinct(["0", "0"])
  {
    var names, counts := ["0", "1", "2"], [2, 0, 0];
    assert counts[1..] == [0, 0] && names[1..] == ["1", "2"];
    assert Acks(["1", "2"], [0, 0]) == Repeat("1", 0) + Acks(["2"], [0]);
    assert Acks(["2"], [0]) == [];
    assert Repeat("0", 2) == ["0", "0"];
    assert ["0", "0"][0] == ["0", "0"][1];
  }
}
