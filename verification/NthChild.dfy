/**
 The CHILD filter of Sizzle (Expr.filter.CHILD in jquery-1.11.1.js): sibling scans with index caches, and the closing
 an+b test.
 */
module NthChild {
  import opened Wrappers

  // ---------- the test ----------

  /** JavaScript's x % y === 0 and x / y >= 0; with y == 0 the remainder is NaN and the first is false. */
  predicate RemainderZero(x: int, y: int) {
    y != 0 && x % y == 0
  }

  predicate QuotientNonNegative(x: int, y: int)
    requires y != 0
  {
    x == 0 || (x > 0 <==> y > 0)
  }

  /** The last two lines of the filter: index against a*n + b with first = a and last = b. */
  predicate NthTest(index: int, first: int, last: int) {
    var diff := index - last;
    diff == first || (RemainderZero(diff, first) && QuotientNonNegative(diff, first))
  }

  lemma ProductSign(n: int, first: int)
    requires first != 0
    ensures n >= 0 ==> QuotientNonNegative(first * n, first)
    ensures n < 0 ==> !QuotientNonNegative(first * n, first)
  {
    if n > 0 {
      if first > 0 {
        assert first * n > 0;
      } else {
        assert first * n < 0;
      }
    } else if n < 0 {
      if first > 0 {
        assert first * n < 0;
      } else {
        assert first * n > 0;
      }
    }
  }

  lemma MagnitudeGrows(y: int, k: int)
    requires y != 0 && k != 0
    ensures y * k >= (if y > 0 then y else -y) || y * k <= (if y > 0 then -y else y)
  {
    if y > 0 {
      if k > 0 {
        assert y * k >= y;
      } else {
        assert y * k <= -y;
      }
    } else {
      if k > 0 {
        assert y * k <= y;
      } else {
        assert y * k >= -y;
      }
    }
  }

  lemma MultipleLeavesNothing(first: int, n: int)
    requires first != 0
    ensures (first * n) % first == 0
  {
    var x := first * n;
    var q, r := x / first, x % first;
    assert x == first * q + r;
    assert first * (n - q) == r;
    if n != q {
      MagnitudeGrows(first, n - q);
    }
  }

  /** The test is true exactly when some n >= 0 gives index = a*n + b (section 6.6.5.2 of W3C Selectors Level 3). */
  lemma NthTestMeansNth(index: int, first: int, last: int)
    ensures NthTest(index, first, last) <==> exists n: nat :: index == first * n + last
  {
    var diff := index - last;
    if NthTest(index, first, last) {
      if diff == first {
        assert index == first * 1 + last;
      } else {
        var n := diff / first;
        assert diff == first * n;
        ProductSign(n, first);
        assert index == first * n + last;
      }
    }
    if n: nat :| index == first * n + last {
      assert diff == first * n;
      if first == 0 {
        assert first * n == 0;
      } else {
        MultipleLeavesNothing(first, n);
        ProductSign(n, first);
      }
    }
  }

  // ---------- the index ----------

  /** How many of the siblings count (are elements, or elements of the right type). */
  function Count(counts: seq<bool>): nat {
    if counts == [] then 0 else Count(counts[..|counts| - 1]) + (if counts[|counts| - 1] then 1 else 0)
  }

  /** The 1-based index of sibling e among those that count, from the front of the list. */
  function IndexOf(counts: seq<bool>, e: nat): nat
    requires e < |counts|
  {
    Count(counts[..e + 1])
  }

  lemma CountSnoc(counts: seq<bool>, j: nat)
    requires j < |counts|
    ensures Count(counts[..j + 1]) == Count(counts[..j]) + (if counts[j] then 1 else 0)
  {
    assert counts[..j + 1][..j] == counts[..j];
  }

  lemma {:induction false} CountMonotone(counts: seq<bool>, i: nat, j: nat)
    requires i <= j <= |counts|
    ensures Count(counts[..i]) <= Count(counts[..j])
    decreases j
  {
    if i < j {
      CountSnoc(counts, j - 1);
      CountMonotone(counts, i, j - 1);
    }
  }

  /** Only the counting siblings have an index, and no two of them the same one. */
  lemma IndexIsPosition(counts: seq<bool>, i: nat, j: nat)
    requires i < j < |counts| && counts[i] && counts[j]
    ensures 1 <= IndexOf(counts, i) < IndexOf(counts, j)
  {
    CountSnoc(counts, i);
    CountSnoc(counts, j);
    CountMonotone(counts, i + 1, j);
  }

  /** The siblings in the order of the walk: from the first child on, or from the last one back. */
  function InWalkOrder(counts: seq<bool>, forward: bool): (r: seq<bool>)
    ensures |r| == |counts|
  {
    if forward then counts else seq(|counts|, i requires 0 <= i < |counts| => counts[|counts| - 1 - i])
  }

  function WalkPosition(n: nat, e: nat, forward: bool): nat
    requires e < n
  {
    if forward then e else n - 1 - e
  }

  /** What :nth-child and :nth-of-type (forward), :nth-last-child and :nth-last-of-type (backward) count to. */
  function SiblingIndex(counts: seq<bool>, e: nat, forward: bool): nat
    requires e < |counts|
  {
    IndexOf(InWalkOrder(counts, forward), WalkPosition(|counts|, e, forward))
  }

  /** One sibling of the walk back: the count grows when it counts, and is then its index. */
  lemma BackwardStep(counts: seq<bool>, e: nat)
    requires e < |counts|
    ensures var order, at := InWalkOrder(counts, false), |counts| - 1 - e;
            && Count(order[..at + 1]) == Count(order[..at]) + (if counts[e] then 1 else 0)
            && SiblingIndex(counts, e, false) == Count(order[..at + 1])
  {
    CountSnoc(InWalkOrder(counts, false), |counts| - 1 - e);
  }

  /** [ dirruns, nodeIndex, diff ], stored on the parent. */
  datatype ParentCache = ParentCache(run: nat, nodeIndex: nat, diff: nat)

  /** [ dirruns, diff ], stored on a child. */
  datatype ChildCache = ChildCache(run: nat, diff: nat)

  datatype SimpleType = FirstOne | LastOne | OnlyOne

  ghost predicate ChildCachesOk(elements: seq<bool>, run: nat, caches: map<nat, ChildCache>) {
    && (forall j :: j in caches ==> caches[j].run <= run)
    && (forall j :: j in caches && caches[j].run == run ==>
          j < |elements| && caches[j].diff == SiblingIndex(elements, j, false))
  }

  lemma OneMoreCached(elements: seq<bool>, run: nat, caches: map<nat, ChildCache>, e: nat)
    requires ChildCachesOk(elements, run, caches) && e < |elements|
    ensures ChildCachesOk(elements, run, caches[e := ChildCache(run, SiblingIndex(elements, e, false))])
  {
  }

  /** The children of one parent and the caches on them; which children are elements may change between runs. */
  class Siblings {
    var elements: seq<bool>
    var dirruns: nat
    var parentCache: Option<ParentCache>
    var childCaches: map<nat, ChildCache>

    /** Entries of the current run are right; older ones may be about children that have changed. */
    ghost predicate Valid()
      reads this
    {
      && (parentCache.Some? ==> parentCache.value.run <= dirruns)
      && (parentCache.Some? && parentCache.value.run == dirruns ==>
            && parentCache.value.nodeIndex < |elements|
            && parentCache.value.diff == IndexOf(elements, parentCache.value.nodeIndex))
      && ChildCachesOk(elements, dirruns, childCaches)
    }

    constructor (elements: seq<bool>)
      ensures Valid() && this.elements == elements
    {
      this.elements := elements;
      dirruns := 0;
      parentCache := None;
      childCaches := map[];
    }

    /** The next run, before which the children may have changed in any way. */
    method NextRun(elements: seq<bool>)
      requires Valid()
      modifies this
      ensures Valid() && this.elements == elements && dirruns == old(dirruns) + 1
    {
      this.elements := elements;
      dirruns := dirruns + 1;
    }

    /** :nth-child: go on from the cached child and wrap around to the first one when the end comes before elem. */
    method ForwardIndex(elem: nat) returns (diff: nat)
      requires Valid() && elem < |elements| && elements[elem]
      modifies this`parentCache
      ensures Valid()
      ensures diff == SiblingIndex(elements, elem, true)
    {
      var live := parentCache.Some? && parentCache.value.run == dirruns;
      var nodeIndex := if live then parentCache.value.nodeIndex else 0;
      diff := if live then parentCache.value.diff else 0;
      var node: Option<nat> := if nodeIndex != 0 then Some(nodeIndex) else None;
      var startLeft := true;
      while true
        invariant Valid()
        invariant node.Some? ==> node.value == nodeIndex < |elements| && diff == IndexOf(elements, nodeIndex)
        invariant !startLeft ==> node.Some? && nodeIndex < elem
        decreases startLeft, |elements| - nodeIndex
      {
        nodeIndex := nodeIndex + 1;
        if node.Some? && node.value + 1 < |elements| {
          node := Some(node.value + 1);
        } else {
          diff, nodeIndex := 0, 0;
          if !startLeft {
            assert false;  // the second pass meets elem before the end
          }
          node := Some(0);
          startLeft := false;
        }
        CountSnoc(elements, nodeIndex);
        assert elements[..0] == [];
        if elements[nodeIndex] {
          diff := diff + 1;
          if nodeIndex == elem {
            parentCache := Some(ParentCache(dirruns, nodeIndex, diff));
            return;
          }
        }
      }
    }

    /** :nth-last-child: the index stored on the child, or a scan that stores the index of every element it meets. */
    method BackwardIndex(elem: nat) returns (diff: nat)
      requires Valid() && elem < |elements| && elements[elem]
      modifies this`childCaches
      ensures Valid()
      ensures diff == SiblingIndex(elements, elem, false)
    {
      if elem in childCaches && childCaches[elem].run == dirruns {
        return childCaches[elem].diff;
      }
      diff := 0;
      ghost var order := InWalkOrder(elements, false);
      var node := |elements|;
      assert order[..0] == [];
      while true
        invariant Valid()
        invariant elem < node <= |elements|
        invariant diff == Count(order[..|elements| - node])
        decreases node
      {
        node := node - 1;
        BackwardStep(elements, node);
        if elements[node] {
          diff := diff + 1;
          OneMoreCached(elements, dirruns, childCaches, node);
          childCaches := childCaches[node := ChildCache(dirruns, diff)];
          if node == elem {
            return;
          }
        }
      }
    }

    /** The sibling scan without caches, as for the of-type variants: counts says which siblings are of the type. */
    method TypeIndex(counts: seq<bool>, elem: nat, forward: bool) returns (diff: nat)
      requires elem < |counts| && counts[elem]
      ensures diff == SiblingIndex(counts, elem, forward)
    {
      diff := 0;
      ghost var order := InWalkOrder(counts, forward);
      ghost var target := WalkPosition(|counts|, elem, forward);
      var node := if forward then 0 else |counts| - 1;
      ghost var at := 0;
      assert order[..0] == [];
      while true
        invariant 0 <= at <= target && node == WalkPosition(|counts|, at, forward)
        invariant diff == Count(order[..at])
        decreases |counts| - at
      {
        CountSnoc(order, at);
        if counts[node] {
          diff := diff + 1;
          if node == elem {
            return;
          }
        }
        at := at + 1;
        node := if forward then node + 1 else node - 1;
      }
    }

    /** :first-child, :last-child, :only-child and their of-type variants: nothing that counts on the tested sides. */
    method SimpleChild(which: SimpleType, counts: seq<bool>, elem: nat) returns (b: bool)
      requires elem < |counts|
      ensures b <==> forall j :: 0 <= j < |counts| && counts[j] ==>
                       (which.FirstOne? ==> j >= elem) && (which.LastOne? ==> j <= elem)
                           && (which.OnlyOne? ==> j == elem)
    {
      if !which.LastOne? {
        var before := elem;
        while before > 0
          invariant 0 <= before <= elem
          invariant forall j :: before <= j < elem ==> !counts[j]
        {
          before := before - 1;
          if counts[before] {
            return false;
          }
        }
      }
      if !which.FirstOne? {
        var after := elem + 1;
        while after < |counts|
          invariant elem < after <= |counts|
          invariant forall j :: elem < j < after ==> !counts[j]
        {
          if counts[after] {
            return false;
          }
          after := after + 1;
        }
      }
      return true;
    }

    /** :nth-child(an+b) and :nth-last-child(an+b), with the shortcut for a = 1, b = 0. */
    method NthChild(elem: nat, first: int, last: int, forward: bool) returns (b: bool)
      requires Valid() && elem < |elements| && elements[elem]
      modifies this`parentCache, this`childCaches
      ensures Valid()
      ensures b <==> exists n: nat :: SiblingIndex(elements, elem, forward) == first * n + last
    {
      NthTestMeansNth(SiblingIndex(elements, elem, forward), first, last);
      if first == 1 && last == 0 {
        assert SiblingIndex(elements, elem, forward) == 1 * SiblingIndex(elements, elem, forward) + 0;
        return true;
      }
      var index;
      if forward {
        index := ForwardIndex(elem);
      } else {
        index := BackwardIndex(elem);
      }
      b := NthTest(index, first, last);
    }
  }
}
