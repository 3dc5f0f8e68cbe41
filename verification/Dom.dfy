/**
 A document as a finite tree. A node is named by its path from the document node: the child indices to follow. Parent
 and sibling links are then operations on paths.
 */
module Dom {
  import opened Wrappers

  const ELEMENT := 1
  const DOCUMENT := 9

  datatype Node = Node(kind: nat, tag: string, id: Option<string>, classes: set<string>, attrs: map<string, string>,
                       children: seq<Node>)

  type Path = seq<nat>

  function Lookup(t: Node, p: Path): Option<Node>
    decreases |p|
  {
    if p == [] then Some(t)
    else if p[0] < |t.children| then Lookup(t.children[p[0]], p[1..])
    else None
  }

  predicate Has(t: Node, p: Path) {
    Lookup(t, p).Some?
  }

  predicate IsElement(t: Node, p: Path) {
    Has(t, p) && Lookup(t, p).value.kind == ELEMENT
  }

  /** Only the root is a document, and only it and elements have children. */
  ghost predicate WellFormed(t: Node) {
    t.kind == DOCUMENT && forall p :: Has(t, p) && p != [] ==> ProperInner(Lookup(t, p).value)
  }

  ghost predicate ProperInner(n: Node) {
    n.kind != DOCUMENT && (n.children != [] ==> n.kind == ELEMENT)
  }

  // ---------- links ----------

  function Parent(p: Path): Path
    requires p != []
  {
    p[..|p| - 1]
  }

  function Last(p: Path): nat
    requires p != []
  {
    p[|p| - 1]
  }

  function ParentNode(p: Path): Option<Path> {
    if p == [] then None else Some(Parent(p))
  }

  function PreviousSibling(p: Path): Option<Path> {
    if p == [] || Last(p) == 0 then None else Some(Parent(p) + [Last(p) - 1])
  }

  function NextSibling(t: Node, p: Path): Option<Path> {
    if p == [] || !Has(t, Parent(p) + [Last(p) + 1]) then None else Some(Parent(p) + [Last(p) + 1])
  }

  lemma {:induction false} LookupSnoc(t: Node, p: Path)
    requires p != []
    ensures Has(t, p) <==> Has(t, Parent(p)) && Last(p) < |Lookup(t, Parent(p)).value.children|
    ensures Has(t, p) ==> Lookup(t, p) == Some(Lookup(t, Parent(p)).value.children[Last(p)])
    decreases |p|
  {
    if |p| == 1 {
      assert Parent(p) == [] && p[1..] == [];
      assert Lookup(t, Parent(p)) == Some(t);
      if p[0] < |t.children| {
        assert Lookup(t.children[p[0]], p[1..]) == Some(t.children[p[0]]);
      }
    } else {
      assert Parent(p)[0] == p[0] && Parent(p)[1..] == Parent(p[1..]);
      if p[0] < |t.children| {
        LookupSnoc(t.children[p[0]], p[1..]);
      }
    }
  }

  /** A node's ancestors are in the document, and they are elements up to the document itself. */
  lemma {:induction false} AncestorsIn(t: Node, p: Path, n: nat)
    requires Has(t, p) && n <= |p|
    ensures Has(t, p[..n])
    ensures WellFormed(t) && 0 < n < |p| ==> IsElement(t, p[..n])
    decreases |p| - n
  {
    if n < |p| {
      AncestorsIn(t, p, n + 1);
      LookupSnoc(t, p[..n + 1]);
      assert Parent(p[..n + 1]) == p[..n];
    } else {
      assert p[..n] == p;
    }
  }

  // ---------- document order ----------

  /** Preorder on paths: an ancestor before its descendants, and otherwise by the first differing child index. */
  predicate Before(p: Path, q: Path)
    decreases |q|
  {
    q != [] && (p == [] || p[0] < q[0] || (p[0] == q[0] && Before(p[1..], q[1..])))
  }

  /** The nodes of the subtree t at path at, in the order a walk of the document meets them. */
  function Preorder(t: Node, at: Path): seq<Path>
    decreases t, 1, 0
  {
    [at] + PreorderFrom(t, at, 0)
  }

  function PreorderFrom(t: Node, at: Path, i: nat): seq<Path>
    requires i <= |t.children|
    decreases t, 0, |t.children| - i
  {
    if i == |t.children| then []
    else Preorder(t.children[i], at + [i]) + PreorderFrom(t, at, i + 1)
  }

  ghost predicate Increasing(ps: seq<Path>) {
    forall i, j :: 0 <= i < j < |ps| ==> Before(ps[i], ps[j])
  }

  /** The paths that f accepts, in the same order. */
  function Keep(ps: seq<Path>, f: Path -> bool): seq<Path> {
    if ps == [] then []
    else Keep(ps[..|ps| - 1], f) + (if f(ps[|ps| - 1]) then [ps[|ps| - 1]] else [])
  }

  lemma {:induction false} KeepMembers(ps: seq<Path>, f: Path -> bool)
    ensures forall p :: p in Keep(ps, f) <==> p in ps && f(p)
  {
    if ps != [] {
      KeepMembers(ps[..|ps| - 1], f);
      assert ps == ps[..|ps| - 1] + [ps[|ps| - 1]];
    }
  }

  lemma {:induction false} KeepSame(ps: seq<Path>, f: Path -> bool, g: Path -> bool)
    requires forall p :: p in ps ==> f(p) == g(p)
    ensures Keep(ps, f) == Keep(ps, g)
  {
    if ps != [] {
      KeepSame(ps[..|ps| - 1], f, g);
    }
  }

  lemma {:induction false} KeepNone(ps: seq<Path>, f: Path -> bool)
    requires forall p :: !f(p)
    ensures Keep(ps, f) == []
  {
    if ps != [] {
      KeepNone(ps[..|ps| - 1], f);
    }
  }

  lemma {:induction false} KeepIncreasing(ps: seq<Path>, f: Path -> bool)
    requires Increasing(ps)
    ensures Increasing(Keep(ps, f))
  {
    if ps != [] {
      var init, last := ps[..|ps| - 1], ps[|ps| - 1];
      KeepIncreasing(init, f);
      KeepMembers(init, f);
      var kept := Keep(init, f);
      forall i | 0 <= i < |kept| ensures Before(kept[i], last) {
        assert kept[i] in kept;
        var j :| 0 <= j < |init| && init[j] == kept[i];
        assert ps[j] == kept[i];
      }
    }
  }

  /** Keeping twice is keeping what both accept. */
  lemma {:induction false} KeepTwice(ps: seq<Path>, f: Path -> bool, g: Path -> bool)
    ensures Keep(Keep(ps, f), g) == Keep(ps, p => f(p) && g(p))
  {
    if ps != [] {
      var init, last := ps[..|ps| - 1], ps[|ps| - 1];
      KeepTwice(init, f, g);
      if f(last) {
        assert (Keep(init, f) + [last])[..|Keep(init, f)|] == Keep(init, f);
      } else {
        assert Keep(init, f) + [] == Keep(init, f);
      }
    }
  }

  lemma {:induction false} BeforeIrreflexive(p: Path)
    ensures !Before(p, p)
    decreases |p|
  {
    if p != [] {
      BeforeIrreflexive(p[1..]);
    }
  }

  lemma {:induction false} BeforeTransitive(p: Path, q: Path, r: Path)
    requires Before(p, q) && Before(q, r)
    ensures Before(p, r)
    decreases |p|
  {
    if p != [] && p[0] == q[0] == r[0] {
      BeforeTransitive(p[1..], q[1..], r[1..]);
    }
  }

  lemma {:induction false} BeforeTotal(p: Path, q: Path)
    requires p != q
    ensures Before(p, q) || Before(q, p)
    decreases |p|
  {
    if p != [] && q != [] && p[0] == q[0] {
      assert p == [p[0]] + p[1..] && q == [q[0]] + q[1..];
      BeforeTotal(p[1..], q[1..]);
    }
  }

  lemma BeforeAsymmetric(p: Path, q: Path)
    requires Before(p, q)
    ensures !Before(q, p) && p != q
  {
    BeforeIrreflexive(p);
    if Before(q, p) {
      BeforeTransitive(p, q, p);
    }
  }

  lemma {:induction false} BeforeUnder(at: Path, p: Path, q: Path)
    ensures Before(at + p, at + q) <==> Before(p, q)
    decreases |at|
  {
    if at == [] {
      assert at + p == p && at + q == q;
    } else {
      assert (at + p)[1..] == at[1..] + p && (at + q)[1..] == at[1..] + q;
      BeforeUnder(at[1..], p, q);
    }
  }

  /** The walk meets exactly the nodes of the subtree. */
  lemma {:induction false} PreorderMembers(t: Node, at: Path, q: Path)
    ensures at + q in Preorder(t, at) <==> Has(t, q)
    decreases t, 1, 0
  {
    if q == [] {
      assert at + q == at && Preorder(t, at)[0] == at;
    } else {
      PreorderFromMembers(t, at, 0, q);
      assert at + q != at;
    }
  }

  lemma {:induction false} PreorderFromMembers(t: Node, at: Path, i: nat, q: Path)
    requires i <= |t.children| && q != []
    ensures at + q in PreorderFrom(t, at, i) <==> i <= q[0] && Has(t, q)
    decreases t, 0, |t.children| - i
  {
    if i < |t.children| {
      PreorderFromMembers(t, at, i + 1, q);
      if q[0] == i {
        assert at + q == (at + [i]) + q[1..];
        PreorderMembers(t.children[i], at + [i], q[1..]);
      } else {
        PreorderPrefix(t.children[i], at + [i]);
        forall r | r in Preorder(t.children[i], at + [i]) ensures |r| > |at| && r[|at|] == i {
          assert r[|at|] == r[..|at| + 1][|at|];
        }
        assert (at + q)[|at|] == q[0];
      }
    }
  }

  lemma {:induction false} PreorderPrefix(t: Node, at: Path)
    ensures forall r :: r in Preorder(t, at) ==> |r| >= |at| && r[..|at|] == at
    decreases t, 1, 0
  {
    PreorderFromPrefix(t, at, 0);
  }

  lemma {:induction false} PreorderFromPrefix(t: Node, at: Path, i: nat)
    requires i <= |t.children|
    ensures forall r :: r in PreorderFrom(t, at, i) ==> |r| > |at| && r[..|at|] == at && r[|at|] >= i
    decreases t, 0, |t.children| - i
  {
    if i < |t.children| {
      PreorderFromPrefix(t, at, i + 1);
      PreorderPrefix(t.children[i], at + [i]);
      forall r | r in Preorder(t.children[i], at + [i]) ensures |r| > |at| && r[..|at|] == at && r[|at|] == i {
        assert r[..|at|] == r[..|at| + 1][..|at|];
        assert r[|at|] == r[..|at| + 1][|at|];
      }
    }
  }

  /** The walk meets the nodes in strictly increasing path order. */
  lemma {:induction false} PreorderIncreasing(t: Node, at: Path)
    ensures Increasing(Preorder(t, at))
    decreases t, 1, 0
  {
    PreorderFromIncreasing(t, at, 0);
    PreorderFromPrefix(t, at, 0);
    var ps := PreorderFrom(t, at, 0);
    forall j | 0 <= j < |ps| ensures Before(at, ps[j]) {
      assert ps[j] in ps && ps[j] == at + ps[j][|at|..];
      assert at + [] == at;
      BeforeUnder(at, [], ps[j][|at|..]);
    }
  }

  lemma {:induction false} PreorderFromIncreasing(t: Node, at: Path, i: nat)
    requires i <= |t.children|
    ensures Increasing(PreorderFrom(t, at, i))
    decreases t, 0, |t.children| - i
  {
    if i < |t.children| {
      PreorderFromIncreasing(t, at, i + 1);
      PreorderIncreasing(t.children[i], at + [i]);
      PreorderPrefix(t.children[i], at + [i]);
      PreorderFromPrefix(t, at, i + 1);
      var xs, ys := Preorder(t.children[i], at + [i]), PreorderFrom(t, at, i + 1);
      forall j, k | 0 <= j < |xs| && 0 <= k < |ys| ensures Before(xs[j], ys[k]) {
        assert xs[j] in xs && ys[k] in ys;
        assert xs[j][|at|] == xs[j][..|at| + 1][|at|] == i;
        assert xs[j][..|at|] == xs[j][..|at| + 1][..|at|] == at;
        assert xs[j] == at + xs[j][|at|..] && ys[k] == at + ys[k][|at|..];
        BeforeUnder(at, xs[j][|at|..], ys[k][|at|..]);
      }
    }
  }
}
