/**
 Document order (siblingCheck, the fallback sortOrder and uniqueSort in jquery-1.11.1.js): comparing two nodes of one
 document by their ancestor lists, and sorting a list of nodes without repeats.
 */
module DocumentOrder {
  import opened Wrappers
  import opened Dom

  // ---------- the comparator ----------

  /** a and b differ first below their common ancestor p: one is p itself or the child indices differ. */
  lemma BeforeFromSplit(p: Path, a: Path, b: Path)
    ensures b != [] ==> Before(p, p + b)
    ensures a != [] && b != [] && a[0] < b[0] ==> Before(p + a, p + b)
  {
    assert p + [] == p;
    BeforeUnder(p, [], b);
    BeforeUnder(p, a, b);
  }

  /** Two siblings are in document order exactly when their child indices are. */
  lemma SiblingsBefore(a: Path, b: Path)
    requires a != [] && b != [] && Parent(a) == Parent(b) && a != b
    ensures Before(a, b) <==> Last(a) < Last(b)
    ensures Before(b, a) <==> Last(b) < Last(a)
  {
    assert a == Parent(a) + [Last(a)] && b == Parent(b) + [Last(b)];
    BeforeFromSplit(Parent(a), [Last(a)], [Last(b)]);
    BeforeFromSplit(Parent(a), [Last(b)], [Last(a)]);
    if Last(a) < Last(b) {
      BeforeAsymmetric(a, b);
    } else {
      BeforeAsymmetric(b, a);
    }
  }

  /** Follow the next-sibling links from a; a missing node counts as an ancestor of the other one. */
  method SiblingCheck(t: Node, a: Option<Path>, b: Option<Path>) returns (r: int)
    requires a.Some? && b.Some? ==>
               && Has(t, a.value) && Has(t, b.value) && a.value != b.value
               && a.value != [] && b.value != [] && Parent(a.value) == Parent(b.value)
    ensures r == 1 || r == -1
    ensures a.Some? && b.Some? ==> (r == -1 <==> Last(a.value) < Last(b.value))
    ensures a.None? ==> r == -1
    ensures a.Some? && b.None? ==> r == 1
  {
    if a.Some? && b.Some? {
      LookupSnoc(t, a.value);
      LookupSnoc(t, b.value);
      ghost var siblings := |Lookup(t, Parent(a.value)).value.children|;
      var cur := a.value;
      while true
        invariant cur != [] && Parent(cur) == Parent(a.value) && Last(a.value) <= Last(cur) < siblings
        invariant Last(b.value) <= Last(a.value) || Last(b.value) > Last(cur)
        decreases siblings - Last(cur)
      {
        var next := NextSibling(t, cur);
        NextSiblingIs(t, cur);
        if next.None? {
          break;
        }
        cur := next.value;
        if cur == b.value {
          return -1;
        }
        assert b.value == Parent(b.value) + [Last(b.value)] && cur == Parent(cur) + [Last(cur)];
      }
    }
    return if a.Some? then 1 else -1;
  }

  lemma NextSiblingIs(t: Node, p: Path)
    requires p != [] && Has(t, Parent(p))
    ensures NextSibling(t, p).Some? <==> Last(p) + 1 < |Lookup(t, Parent(p)).value.children|
    ensures NextSibling(t, p).Some? ==>
              var q := NextSibling(t, p).value; q != [] && Parent(q) == Parent(p) && Last(q) == Last(p) + 1
  {
    var q := Parent(p) + [Last(p) + 1];
    LookupSnoc(t, q);
    assert Parent(q) == Parent(p);
  }

  /** The node's ancestors from the document down to the node itself. */
  method AncestorList(p: Path) returns (list: seq<Path>)
    ensures |list| == |p| + 1 && forall i :: 0 <= i < |list| ==> list[i] == p[..i]
  {
    list := [p];
    var cur := p;
    assert p == p[..|p|];
    while cur != []
      invariant |cur| <= |p| && cur == p[..|cur|]
      invariant |list| == |p| - |cur| + 1
      invariant forall i :: 0 <= i < |list| ==> list[i] == p[..|cur| + i]
      decreases |cur|
    {
      cur := Parent(cur);
      list := [cur] + list;
    }
  }

  function ElementAt(list: seq<Path>, i: nat): Option<Path> {
    if i < |list| then Some(list[i]) else None
  }

  /** The comparator: negative exactly when a comes before b in document order, zero exactly when they are the same. */
  method SortOrder(t: Node, a: Path, b: Path) returns (r: int, duplicate: bool)
    requires Has(t, a) && Has(t, b)
    ensures r == 0 <==> a == b
    ensures r < 0 <==> Before(a, b)
    ensures r > 0 <==> Before(b, a)
    ensures duplicate <==> a == b
  {
    if a == b {
      BeforeIrreflexive(a);
      return 0, true;
    }
    duplicate := false;
    BeforeTotal(a, b);
    if Before(a, b) {
      BeforeAsymmetric(a, b);
    } else {
      BeforeAsymmetric(b, a);
    }
    if a == [] || b == [] {
      return if a == [] then -1 else 1, false;
    } else if Parent(a) == Parent(b) {
      SiblingsBefore(a, b);
      r := SiblingCheck(t, Some(a), Some(b));
      return;
    }
    var ap := AncestorList(a);
    var bp := AncestorList(b);
    var i := 0;
    while ElementAt(ap, i) == ElementAt(bp, i)
      invariant 0 <= i <= |a| + 1 && i <= |b| + 1
      invariant forall k :: 0 <= k < i ==> a[..k] == b[..k]
      decreases |a| + 1 - i
    {
      NotBothEnded(a, b, i);
      i := i + 1;
    }
    SplitDecides(t, a, b, i);
    r := SiblingCheck(t, ElementAt(ap, i), ElementAt(bp, i));
  }

  lemma NotBothEnded(a: Path, b: Path, i: nat)
    requires a != b && i <= |a| + 1 && i <= |b| + 1 && forall k :: 0 <= k < i ==> a[..k] == b[..k]
    ensures i <= |a| || i <= |b|
  {
    assert a[..|a|] == a && b[..|b|] == b;
  }

  /** The first difference of the ancestor lists decides the order of the nodes. */
  lemma SplitDecides(t: Node, a: Path, b: Path, i: nat)
    requires a != b && Has(t, a) && Has(t, b)
    requires 0 < i <= |a| + 1 && i <= |b| + 1 && (forall k :: 0 <= k < i ==> a[..k] == b[..k])
    requires i <= |a| && i <= |b| ==> a[..i] != b[..i]
    ensures i == |a| + 1 ==> Before(a, b)
    ensures i == |b| + 1 ==> Before(b, a)
    ensures i <= |a| && i <= |b| ==>
              && Has(t, a[..i]) && Has(t, b[..i]) && Parent(a[..i]) == Parent(b[..i])
              && (Last(a[..i]) < Last(b[..i]) ==> Before(a, b)) && (Last(a[..i]) >= Last(b[..i]) ==> Before(b, a))
  {
    NotBothEnded(a, b, i);
    var p, x, y := a[..i - 1], a[i - 1..], b[i - 1..];
    assert a == p + x && b == p + y;
    BeforeFromSplit(p, x, y);
    BeforeFromSplit(p, y, x);
    assert i == |a| + 1 ==> p == a;
    assert i == |b| + 1 ==> b[..i - 1] == b;
    if i <= |a| && i <= |b| {
      AncestorsIn(t, a, i);
      AncestorsIn(t, b, i);
      SplitSiblings(a, b, i);
    }
  }

  lemma SplitSiblings(a: Path, b: Path, i: nat)
    requires 0 < i <= |a| && i <= |b| && a[..i - 1] == b[..i - 1] && a[..i] != b[..i]
    ensures Parent(a[..i]) == Parent(b[..i]) && Last(a[..i]) == a[i - 1] != b[i - 1] == Last(b[..i])
  {
    assert Parent(a[..i]) == a[..i - 1] && Parent(b[..i]) == b[..i - 1];
    assert a[..i] == a[..i - 1] + [a[i - 1]] && b[..i] == b[..i - 1] + [b[i - 1]];
  }

  /** The comparator's order is strict and total on the nodes of a document. */
  lemma {:induction false} OrderIsStrictAndTotal(a: Path, b: Path, c: Path)
    ensures !Before(a, a)
    ensures Before(a, b) ==> !Before(b, a)
    ensures a != b ==> Before(a, b) || Before(b, a)
    ensures Before(a, b) && Before(b, c) ==> Before(a, c)
  {
    BeforeIrreflexive(a);
    if Before(a, b) {
      BeforeAsymmetric(a, b);
      if Before(b, c) {
        BeforeTransitive(a, b, c);
      }
    }
    if a != b {
      BeforeTotal(a, b);
    }
  }

  /** Before is the order in which a walk of the document meets the nodes. */
  lemma BeforeIsPreorder(t: Node, i: nat, j: nat)
    requires i < |Preorder(t, [])| && j < |Preorder(t, [])|
    ensures Before(Preorder(t, [])[i], Preorder(t, [])[j]) <==> i < j
  {
    PreorderIncreasing(t, []);
    var ps := Preorder(t, []);
    if i < j {
    } else if i == j {
      BeforeIrreflexive(ps[i]);
    } else {
      BeforeAsymmetric(ps[j], ps[i]);
    }
  }

  // ---------- sorting without repeats ----------

  /** Sorted as a sort with the comparator leaves a list: equal nodes side by side. */
  ghost predicate Sorted(s: seq<Path>) {
    forall i, j :: 0 <= i < j < |s| ==> s[i] == s[j] || Before(s[i], s[j])
  }

  predicate Repeats(s: seq<Path>, k: nat) {
    0 < k < |s| && s[k - 1] == s[k]
  }

  /** What is left of s from k on once every repeat is dropped. */
  function Dedup(s: seq<Path>, k: nat): seq<Path>
    requires k <= |s|
    decreases |s| - k
  {
    if k == |s| then []
    else (if Repeats(s, k) then [] else [s[k]]) + Dedup(s, k + 1)
  }

  lemma {:induction false} DedupMembers(s: seq<Path>, k: nat)
    requires k <= |s| && Sorted(s)
    ensures forall p :: p in Dedup(s, k) ==> p in s[k..]
    ensures forall p :: p in s[k..] ==> p in Dedup(s, k) || (k > 0 && p == s[k - 1])
    ensures k > 0 ==> forall p :: p in Dedup(s, k) ==> Before(s[k - 1], p)
    decreases |s| - k
  {
    if k < |s| {
      DedupMembers(s, k + 1);
      assert s[k..] == [s[k]] + s[k + 1..];
      if k > 0 {
        forall p | p in Dedup(s, k) ensures Before(s[k - 1], p) {
          if p in Dedup(s, k + 1) && !Repeats(s, k) {
            BeforeTransitive(s[k - 1], s[k], p);
          }
        }
      }
    }
  }

  lemma {:induction false} DedupIncreasing(s: seq<Path>, k: nat)
    requires k <= |s| && Sorted(s)
    ensures Increasing(Dedup(s, k))
    decreases |s| - k
  {
    if k < |s| {
      DedupIncreasing(s, k + 1);
      DedupMembers(s, k + 1);
      var rest := Dedup(s, k + 1);
      forall j | 0 <= j < |rest| ensures Before(s[k], rest[j]) {
        assert rest[j] in rest;
      }
    }
  }

  lemma {:induction false} DedupNothing(s: seq<Path>, k: nat)
    requires k <= |s| && forall m :: k <= m < |s| ==> !Repeats(s, m)
    ensures Dedup(s, k) == s[k..]
    decreases |s| - k
  {
    if k < |s| {
      DedupNothing(s, k + 1);
      assert s[k..] == [s[k]] + s[k + 1..];
    }
  }

  lemma {:induction false} DedupSkips(s: seq<Path>, k: nat, m: nat)
    requires k <= m <= |s| && forall x :: k <= x < m ==> !Repeats(s, x)
    ensures Dedup(s, k) == s[k..m] + Dedup(s, m)
    decreases m - k
  {
    if k < m {
      DedupSkips(s, k + 1, m);
      var head, middle, rest := [s[k]], s[k + 1..m], Dedup(s, m);
      assert Dedup(s, k) == head + Dedup(s, k + 1);
      assert s[k..m] == head + middle;
      assert head + (middle + rest) == (head + middle) + rest;
    } else {
      assert s[k..m] == [];
    }
  }

  /** Two strictly increasing lists of the same nodes are the same list. */
  lemma {:induction false} IncreasingUnique(xs: seq<Path>, ys: seq<Path>)
    requires Increasing(xs) && Increasing(ys) && forall p :: p in xs <==> p in ys
    ensures xs == ys
    decreases |xs|
  {
    if xs == [] {
      if ys != [] {
        HeadIsMember(ys);
      }
    } else {
      assert xs[0] in ys;
      HeadIsLeast(xs, ys);
      forall p ensures p in xs[1..] <==> p in ys[1..] {
        TailMembers(xs, p);
        TailMembers(ys, p);
      }
      IncreasingUnique(xs[1..], ys[1..]);
      assert xs == [xs[0]] + xs[1..] && ys == [ys[0]] + ys[1..];
    }
  }

  lemma HeadIsMember(ys: seq<Path>)
    requires ys != []
    ensures ys[0] in ys
  {
  }

  lemma HeadIsLeast(xs: seq<Path>, ys: seq<Path>)
    requires Increasing(xs) && Increasing(ys) && xs != [] && ys != [] && forall p :: p in xs <==> p in ys
    ensures xs[0] == ys[0]
  {
    assert xs[0] in ys && ys[0] in xs;
    var i :| 0 <= i < |ys| && ys[i] == xs[0];
    var j :| 0 <= j < |xs| && xs[j] == ys[0];
    if i > 0 && j > 0 {
      BeforeAsymmetric(xs[0], xs[j]);
    }
  }

  lemma TailMembers(xs: seq<Path>, p: Path)
    requires Increasing(xs) && xs != []
    ensures p in xs[1..] <==> p in xs && p != xs[0]
  {
    BeforeIrreflexive(xs[0]);
    if p in xs && p != xs[0] {
      var i :| 0 <= i < |xs| && xs[i] == p;
      assert xs[1..][i - 1] == p;
    }
  }

  ghost predicate AnyRepeat(s: seq<Path>) {
    exists k :: Repeats(s, k)
  }

  /** x belongs between the first j elements, none of which follows it, and the rest, which all do. */
  lemma InsertedSorted(s: seq<Path>, x: Path, j: nat)
    requires Sorted(s) && j <= |s| && (j > 0 ==> s[j - 1] == x || Before(s[j - 1], x))
    requires forall k :: j <= k < |s| ==> Before(x, s[k])
    ensures Sorted(s[..j] + [x] + s[j..])
  {
    var r := s[..j] + [x] + s[j..];
    forall i | 0 <= i < j ensures s[i] == x || Before(s[i], x) {
      if i < j - 1 && Before(s[i], s[j - 1]) && Before(s[j - 1], x) {
        BeforeTransitive(s[i], s[j - 1], x);
      }
    }
    forall i, k | 0 <= i < k < |r| ensures r[i] == r[k] || Before(r[i], r[k]) {
      assert r[i] == if i < j then s[i] else if i == j then x else s[i - 1];
      assert r[k] == if k < j then s[k] else if k == j then x else s[k - 1];
    }
  }

  /** The only repeat that inserting x there can bring is of the element before it. */
  lemma InsertedRepeats(s: seq<Path>, x: Path, j: nat, k: nat)
    requires j <= |s| && Repeats(s[..j] + [x] + s[j..], k) && (j < |s| ==> Before(x, s[j]))
    ensures AnyRepeat(s) || (j > 0 && s[j - 1] == x)
  {
    var r := s[..j] + [x] + s[j..];
    if j < |s| {
      BeforeIrreflexive(x);
    }
    if k < j {
      assert Repeats(s, k);
    } else if k > j + 1 {
      assert r[k] == s[k - 1] && r[k - 1] == s[k - 2];
      assert Repeats(s, k - 1);
    }
  }

  /** Comparing from the right, the first place where an element does not follow x, and whether it is x. */
  method FindPlace(t: Node, s: seq<Path>, x: Path) returns (j: nat, duplicate: bool)
    requires Has(t, x) && forall p :: p in s ==> Has(t, p)
    ensures j <= |s| && (j > 0 ==> s[j - 1] == x || Before(s[j - 1], x))
    ensures forall k :: j <= k < |s| ==> Before(x, s[k])
    ensures duplicate <==> j > 0 && s[j - 1] == x
  {
    j := |s|;
    while j > 0
      invariant 0 <= j <= |s|
      invariant forall k :: j <= k < |s| ==> Before(x, s[k])
    {
      assert s[j - 1] in s;
      var order, same := SortOrder(t, s[j - 1], x);
      if order <= 0 {
        return j, same;
      }
      j := j - 1;
    }
    return 0, false;
  }

  lemma InsertedItems(s: seq<Path>, x: Path, j: nat)
    requires j <= |s|
    ensures multiset(s[..j] + [x] + s[j..]) == multiset(s) + multiset{x}
  {
    assert s == s[..j] + s[j..];
  }

  lemma InsertedRepeat(s: seq<Path>, x: Path, j: nat)
    requires j <= |s| && (j < |s| ==> Before(x, s[j]))
    ensures AnyRepeat(s[..j] + [x] + s[j..]) ==> AnyRepeat(s) || (j > 0 && s[j - 1] == x)
  {
    if k :| Repeats(s[..j] + [x] + s[j..], k) {
      InsertedRepeats(s, x, j, k);
    }
  }

  method Insert(t: Node, s: seq<Path>, x: Path, detected: bool) returns (r: seq<Path>, hasDuplicate: bool)
    requires Sorted(s) && Has(t, x) && forall p :: p in s ==> Has(t, p)
    requires AnyRepeat(s) ==> detected
    ensures multiset(r) == multiset(s) + multiset{x} && Sorted(r) && (AnyRepeat(r) ==> hasDuplicate)
    ensures detected ==> hasDuplicate
  {
    var j, duplicate := FindPlace(t, s, x);
    r, hasDuplicate := s[..j] + [x] + s[j..], detected || duplicate;
    InsertedSorted(s, x, j);
    InsertedItems(s, x, j);
    InsertedRepeat(s, x, j);
  }

  /** results.sort( sortOrder ), in one of the ways an engine may do it: by inserting one element after the other. */
  method SortResults(t: Node, results: seq<Path>, detected: bool) returns (sorted: seq<Path>, hasDuplicate: bool)
    requires forall p :: p in results ==> Has(t, p)
    ensures multiset(sorted) == multiset(results) && Sorted(sorted)
    ensures AnyRepeat(sorted) ==> hasDuplicate
  {
    sorted, hasDuplicate := [], detected;
    for i := 0 to |results|
      invariant multiset(sorted) == multiset(results[..i]) && Sorted(sorted)
      invariant AnyRepeat(sorted) ==> hasDuplicate
    {
      assert results[..i + 1] == results[..i] + [results[i]];
      forall p | p in sorted ensures Has(t, p) {
        assert p in multiset(sorted);
        assert p in results[..i];
      }
      sorted, hasDuplicate := Insert(t, sorted, results[i], hasDuplicate);
    }
    assert results[..|results|] == results;
  }

  /** uniqueSort; an engine that may leave equal elements uncompared is not trusted to detect duplicates. */
  method UniqueSort(t: Node, results: seq<Path>, detectDuplicates: bool) returns (r: seq<Path>)
    requires forall p :: p in results ==> Has(t, p)
    ensures Increasing(r) && forall p :: p in r <==> p in results
    ensures r == Keep(Preorder(t, []), p => p in results)
  {
    var sorted, hasDuplicate := SortResults(t, results, !detectDuplicates);
    r := sorted;
    if hasDuplicate {
      var duplicates := FindRepeats(sorted);
      r := DropRepeats(sorted, duplicates);
    } else {
      DedupNothing(sorted, 0);
      assert sorted[0..] == sorted;
    }
    DedupMembers(sorted, 0);
    DedupIncreasing(sorted, 0);
    assert sorted[0..] == sorted;
    forall p ensures p in r <==> p in results {
      assert p in sorted <==> p in multiset(sorted);
      assert p in results <==> p in multiset(results);
    }
    IsDocumentOrder(t, results, r);
  }

  lemma IsDocumentOrder(t: Node, results: seq<Path>, r: seq<Path>)
    requires (forall p :: p in results ==> Has(t, p)) && Increasing(r) && forall p :: p in r <==> p in results
    ensures r == Keep(Preorder(t, []), p => p in results)
  {
    var kept := Keep(Preorder(t, []), p => p in results);
    KeepMembers(Preorder(t, []), p => p in results);
    PreorderIncreasing(t, []);
    KeepIncreasing(Preorder(t, []), p => p in results);
    forall p ensures p in r <==> p in kept {
      PreorderMembers(t, [], p);
      assert [] + p == p;
    }
    IncreasingUnique(r, kept);
  }

  /** The scan that collects the index of every repeat. */
  method FindRepeats(s: seq<Path>) returns (duplicates: seq<nat>)
    ensures forall m: nat :: m in duplicates <==> Repeats(s, m)
    ensures forall i, j :: 0 <= i < j < |duplicates| ==> duplicates[i] < duplicates[j]
  {
    duplicates := [];
    var i := 0;
    while i < |s|
      invariant 0 <= i <= |s|
      invariant forall m: nat :: m in duplicates <==> m <= i && Repeats(s, m)
      invariant forall a, b :: 0 <= a < b < |duplicates| ==> duplicates[a] < duplicates[b]
    {
      var elem := s[i];
      i := i + 1;
      if i < |s| && elem == s[i] {
        assert forall a :: 0 <= a < |duplicates| ==> duplicates[a] in duplicates;
        duplicates := duplicates + [i];
      }
    }
  }

  /** The splices, from the last repeat to the first. */
  method DropRepeats(s: seq<Path>, duplicates: seq<nat>) returns (r: seq<Path>)
    requires forall m: nat :: m in duplicates <==> Repeats(s, m)
    requires forall i, j :: 0 <= i < j < |duplicates| ==> duplicates[i] < duplicates[j]
    ensures r == Dedup(s, 0)
  {
    r := s;
    var j := |duplicates|;
    ghost var p: nat := |s|;
    assert forall k :: 0 <= k < |duplicates| ==> duplicates[k] in duplicates;
    while j > 0
      invariant 0 <= j <= |duplicates| && p <= |s|
      invariant r == s[..p] + Dedup(s, p)
      invariant forall k :: 0 <= k < j ==> duplicates[k] < p
      invariant forall k :: j <= k < |duplicates| ==> duplicates[k] >= p
    {
      j := j - 1;
      var d := duplicates[j];
      assert d in duplicates;
      NoneBetween(s, duplicates, j, p);
      SpliceRepeat(s, d, p);
      r := r[..d] + r[d + 1..];
      p := d;
    }
    NoneBelow(s, duplicates, p);
    DedupSkips(s, 0, p);
    assert s[..p] == s[0..p];
  }

  lemma CutOne(a: seq<Path>, x: Path, b: seq<Path>)
    ensures var r := a + [x] + b; r[..|a|] == a && r[|a| + 1..] == b
  {
  }

  lemma CutMiddle(s: seq<Path>, d: nat, p: nat, rest: seq<Path>)
    requires d < p <= |s|
    ensures s[..p] + rest == s[..d] + [s[d]] + (s[d + 1..p] + rest)
  {
    assert s[..p] == s[..d] + [s[d]] + s[d + 1..p];
  }

  /** Splicing the last repeat before p out leaves what the rest of s is without its repeats. */
  lemma SpliceRepeat(s: seq<Path>, d: nat, p: nat)
    requires d < p <= |s| && Repeats(s, d) && forall x: nat :: d < x < p ==> !Repeats(s, x)
    ensures var r := s[..p] + Dedup(s, p);
            r[..d] + r[d + 1..] == s[..d] + Dedup(s, d)
  {
    DedupSkips(s, d + 1, p);
    assert Dedup(s, d) == [] + Dedup(s, d + 1);
    CutMiddle(s, d, p, Dedup(s, p));
    CutOne(s[..d], s[d], s[d + 1..p] + Dedup(s, p));
  }

  lemma NoneBetween(s: seq<Path>, duplicates: seq<nat>, j: nat, p: nat)
    requires (forall m: nat :: m in duplicates <==> Repeats(s, m)) && j < |duplicates|
    requires forall k, l :: 0 <= k < l < |duplicates| ==> duplicates[k] < duplicates[l]
    requires forall k :: j < k < |duplicates| ==> duplicates[k] >= p
    ensures forall x: nat :: duplicates[j] < x < p ==> !Repeats(s, x)
  {
    forall x: nat | duplicates[j] < x < p ensures !Repeats(s, x) {
      forall k | 0 <= k < |duplicates| ensures duplicates[k] != x {
      }
      assert x !in duplicates;
    }
  }

  lemma NoneBelow(s: seq<Path>, duplicates: seq<nat>, p: nat)
    requires (forall m: nat :: m in duplicates <==> Repeats(s, m)) && forall k :: 0 <= k < |duplicates| ==>
           duplicates[k] >= p
    ensures forall x: nat :: x < p ==> !Repeats(s, x)
  {
    forall x: nat | x < p ensures !Repeats(s, x) {
      assert x !in duplicates;
    }
  }
}
