/**
 jQuery.Callbacks (jquery-1.11.1.js): the callback list as a re-entrant machine. A firing loop hands control to a
 callback, which may call any operation of the list, and takes it back when the callback returns; so the machine's
 steps are the operations, "call the callback at the firing index" and "the callback returned".
 */
module CallbackList {
  import opened Wrappers

  datatype Options = Options(once: bool, memory: bool, unique: bool, stopOnFalse: bool)

  /** A list entry. The code compares functions only; occ is history that tells apart the additions of one function. */
  datatype Item<F> = Item(fn: F, occ: nat)

  /** The variables of one Callbacks object; data is the argument of the fire in progress, next numbers additions. */
  datatype CB<F, D> = CB(list: Option<seq<Item<F>>>, stack: Option<seq<D>>, memory: Option<D>, fired: bool,
                         firing: bool, index: int, length: int, start: nat, data: Option<D>, next: nat)

  function Fresh<F, D>(o: Options): CB<F, D> {
    CB(Some([]), if o.once then None else Some([]), None, false, false, 0, 0, 0, None, 0)
  }

  predicate Has<F(==)>(items: seq<Item<F>>, fn: F) {
    exists i :: 0 <= i < |items| && items[i].fn == fn
  }

  /** items without every entry for fn. */
  function Without<F(==)>(items: seq<Item<F>>, fn: F): (r: seq<Item<F>>)
    ensures |r| <= |items|
  {
    if items == [] then []
    else if items[|items| - 1].fn == fn then Without(items[..|items| - 1], fn)
    else Without(items[..|items| - 1], fn) + [items[|items| - 1]]
  }

  /** The entries one add call appends, in argument order. */
  function Appended<F(==)>(o: Options, items: seq<Item<F>>, fns: seq<F>, next: nat): seq<Item<F>>
    decreases |fns|
  {
    if fns == [] then []
    else if o.unique && Has(items, fns[0]) then Appended(o, items, fns[1..], next)
    else [Item(fns[0], next)] + Appended(o, items + [Item(fns[0], next)], fns[1..], next + 1)
  }

  // ---------- the operations ----------

  /** The head of fire: everything before its loop. */
  function Begin<F, D>(o: Options, s: CB<F, D>, d: D): CB<F, D>
    requires s.list.Some?
  {
    s.(memory := if o.memory then Some(d) else None, fired := true, index := s.start, start := 0,
       length := |s.list.value|, firing := true, data := Some(d))
  }

  /** The callback the firing loop is about to call, or none when the loop is over. */
  function Current<F, D>(s: CB<F, D>): Option<Item<F>> {
    if s.firing && s.list.Some? && 0 <= s.index < s.length && s.index < |s.list.value|
    then Some(s.list.value[s.index]) else None
  }

  function Disabled<F, D>(s: CB<F, D>): CB<F, D> {
    s.(list := None, stack := None, memory := None)
  }

  /** What fire does after its loop. */
  function Finish<F, D>(o: Options, s: CB<F, D>): CB<F, D> {
    var t := s.(firing := false);
    if t.list.None? then t
    else if t.stack.Some? then
      if t.stack.value == [] then t else Begin(o, t.(stack := Some(t.stack.value[1..])), t.stack.value[0])
    else if t.memory.Some? then t.(list := Some([]))
    else Disabled(t)
  }

  /** A callback has returned: on to the next index, or out of the loop on false with stopOnFalse. */
  function Returned<F, D>(o: Options, s: CB<F, D>, isFalse: bool): CB<F, D> {
    if isFalse && o.stopOnFalse then Finish(o, s.(memory := None)) else s.(index := s.index + 1)
  }

  function Added<F(==), D>(o: Options, s: CB<F, D>, fns: seq<F>): CB<F, D> {
    if s.list.None? then s
    else
      var more := Appended(o, s.list.value, fns, s.next);
      var t := s.(list := Some(s.list.value + more), next := s.next + |more|);
      if s.firing then t.(length := |t.list.value|)
      else if s.memory.Some? then Begin(o, t.(start := |s.list.value|), s.memory.value)
      else t
  }

  /** How many of the first n entries are for fn. */
  function CountIn<F(==)>(items: seq<Item<F>>, n: int, fn: F): nat {
    var m := if n < 0 then 0 else if n > |items| then |items| else n;
    m - |Without(items[..m], fn)|
  }

  /** All entries for fn leave; a firing loop's end and index move back by the entries that left before them. */
  function Removed1<F(==), D>(s: CB<F, D>, fn: F): CB<F, D> {
    if s.list.None? then s
    else
      var items := s.list.value;
      var t := s.(list := Some(Without(items, fn)));
      if s.firing then
        t.(length := s.length - CountIn(items, |items|, fn), index := s.index - CountIn(items, s.index + 1, fn))
      else t
  }

  function Removed<F(==), D>(s: CB<F, D>, fns: seq<F>): CB<F, D>
    decreases |fns|
  {
    if fns == [] then s else Removed(Removed1(s, fns[0]), fns[1..])
  }

  function Emptied<F, D>(s: CB<F, D>): CB<F, D> {
    s.(list := Some([]), length := 0)
  }

  function Locked<F, D>(s: CB<F, D>): CB<F, D> {
    var t := s.(stack := None);
    if t.memory.None? then Disabled(t) else t
  }

  /** Whether fireWith takes a fire at all. */
  predicate Accepts<F, D>(s: CB<F, D>) {
    s.list.Some? && (!s.fired || s.stack.Some?)
  }

  function FiredWith<F, D>(o: Options, s: CB<F, D>, d: D): CB<F, D> {
    if !Accepts(s) then s
    else if s.firing && s.stack.Some? then s.(stack := Some(s.stack.value + [d]))
    else Begin(o, s, d)
  }

  // ---------- facts about the lists ----------

  lemma {:induction false} WithoutConcat<F(!new)>(xs: seq<Item<F>>, ys: seq<Item<F>>, fn: F)
    ensures Without(xs + ys, fn) == Without(xs, fn) + Without(ys, fn)
    decreases |ys|
  {
    if ys == [] {
      assert xs + ys == xs;
    } else {
      var init := ys[..|ys| - 1];
      assert (xs + ys)[..|xs + ys| - 1] == xs + init;
      WithoutConcat(xs, init, fn);
    }
  }

  lemma {:induction false} WithoutMembers<F(!new)>(xs: seq<Item<F>>, fn: F)
    ensures forall it :: it in Without(xs, fn) <==> it in xs && it.fn != fn
  {
    if xs != [] {
      WithoutMembers(xs[..|xs| - 1], fn);
      assert xs == xs[..|xs| - 1] + [xs[|xs| - 1]];
    }
  }

  lemma {:induction false} WithoutNothing<F(!new)>(xs: seq<Item<F>>, fn: F)
    requires !Has(xs, fn)
    ensures Without(xs, fn) == xs
  {
    if xs != [] {
      assert xs[|xs| - 1].fn != fn;
      assert forall i :: 0 <= i < |xs| - 1 ==> xs[..|xs| - 1][i] == xs[i];
      WithoutNothing(xs[..|xs| - 1], fn);
    }
  }

  /** items without the entries for any of these functions, in their order. */
  function Rest<F(==)>(items: seq<Item<F>>, fns: seq<F>): seq<Item<F>> {
    if items == [] then []
    else (if items[0].fn in fns then [] else [items[0]]) + Rest(items[1..], fns)
  }

  lemma {:induction false} RestMembers<F(!new)>(items: seq<Item<F>>, fns: seq<F>)
    ensures forall it :: it in Rest(items, fns) <==> it in items && it.fn !in fns
  {
    if items != [] {
      RestMembers(items[1..], fns);
      assert items == [items[0]] + items[1..];
    }
  }

  lemma {:induction false} RestConcat<F(!new)>(xs: seq<Item<F>>, ys: seq<Item<F>>, fns: seq<F>)
    ensures Rest(xs + ys, fns) == Rest(xs, fns) + Rest(ys, fns)
  {
    if xs == [] {
      assert xs + ys == ys;
    } else {
      assert (xs + ys)[1..] == xs[1..] + ys;
      RestConcat(xs[1..], ys, fns);
    }
  }

  /** Taking one function out before the others is taking all of them out. */
  lemma {:induction false} RestOfWithout<F(!new)>(items: seq<Item<F>>, fns: seq<F>)
    requires fns != []
    ensures Rest(Without(items, fns[0]), fns[1..]) == Rest(items, fns)
  {
    if items != [] {
      var init, last := items[..|items| - 1], items[|items| - 1];
      RestOfWithout(init, fns);
      assert items == init + [last];
      RestConcat(init, [last], fns);
      RestConcat(Without(init, fns[0]), [last], fns[1..]);
      RestOfOne(last, fns);
      RestOfOne(last, fns[1..]);
      assert last.fn in fns <==> last.fn == fns[0] || last.fn in fns[1..];
    }
  }

  lemma RestOfOne<F(!new)>(it: Item<F>, fns: seq<F>)
    ensures Rest([it], fns) == if it.fn in fns then [] else [it]
  {
    assert [it][1..] == [];
  }

  lemma {:induction false} RestOfNothing<F(!new)>(items: seq<Item<F>>)
    ensures Rest(items, []) == items
  {
    if items != [] {
      RestOfNothing(items[1..]);
    }
  }

  /** Removing functions leaves exactly the entries for other functions, in their order. */
  lemma {:induction false} RemovedIs<F(!new), D>(s: CB<F, D>, fns: seq<F>)
    requires s.list.Some?
    ensures Removed(s, fns).list == Some(Rest(s.list.value, fns))
    ensures forall it :: it in Removed(s, fns).list.value <==> it in s.list.value && it.fn !in fns
    decreases |fns|
  {
    RestMembers(s.list.value, fns);
    if fns == [] {
      RestOfNothing(s.list.value);
    } else {
      RemovedIs(Removed1(s, fns[0]), fns[1..]);
      RestOfWithout(s.list.value, fns);
    }
  }

  // ---------- facts about adding ----------

  /** Without unique every named function gets an entry, in argument order. */
  lemma {:induction false} AllAreAppended<F(!new)>(o: Options, items: seq<Item<F>>, fns: seq<F>, next: nat)
    requires !o.unique
    ensures var more := Appended(o, items, fns, next);
            |more| == |fns| && forall i :: 0 <= i < |fns| ==> more[i] == Item(fns[i], next + i)
    decreases |fns|
  {
    if fns != [] {
      AllAreAppended(o, items + [Item(fns[0], next)], fns[1..], next + 1);
    }
  }

  /** With unique exactly the named functions that the list does not hold yet get an entry, one each. */
  lemma {:induction false} NewOnesAreAppended<F(!new)>(o: Options, items: seq<Item<F>>, fns: seq<F>, next: nat)
    requires o.unique
    ensures var more := Appended(o, items, fns, next);
            && (forall fn :: Has(more, fn) <==> fn in fns && !Has(items, fn))
            && (forall i, j :: 0 <= i < j < |more| ==> more[i].fn != more[j].fn)
    decreases |fns|
  {
    if fns != [] {
      var it := Item(fns[0], next);
      if Has(items, fns[0]) {
        NewOnesAreAppended(o, items, fns[1..], next);
      } else {
        NewOnesAreAppended(o, items + [it], fns[1..], next + 1);
        var rest := Appended(o, items + [it], fns[1..], next + 1);
        forall fn ensures Has([it] + rest, fn) <==> fn in fns && !Has(items, fn) {
          HasConcat([it], rest, fn);
          HasConcat(items, [it], fn);
          HasOne(it, fn);
          assert fn in fns <==> fn == fns[0] || fn in fns[1..];
        }
        forall j | 0 <= j < |rest| ensures rest[j].fn != it.fn {
          HasConcat(items, [it], rest[j].fn);
          HasOne(it, rest[j].fn);
          assert Has(rest, rest[j].fn);
        }
      }
    }
  }

  lemma HasOne<F(!new)>(it: Item<F>, fn: F)
    ensures Has([it], fn) <==> it.fn == fn
  {
    assert [it][0] == it;
  }

  lemma HasConcat<F(!new)>(xs: seq<Item<F>>, ys: seq<Item<F>>, fn: F)
    ensures Has(xs + ys, fn) <==> Has(xs, fn) || Has(ys, fn)
  {
    if i :| 0 <= i < |xs| && xs[i].fn == fn {
      assert (xs + ys)[i].fn == fn;
    }
    if i :| 0 <= i < |ys| && ys[i].fn == fn {
      assert (xs + ys)[|xs| + i].fn == fn;
    }
  }

  // ---------- the object ----------

  class Callbacks<F(==,!new), D> {
    const options: Options
    var list: Option<seq<Item<F>>>
    var stack: Option<seq<D>>
    var memory: Option<D>
    var fired: bool
    var firing: bool
    var firingIndex: int
    var firingLength: int
    var firingStart: nat
    var data: Option<D>
    var next: nat

    ghost function Model(): CB<F, D>
      reads this
    {
      CB(list, stack, memory, fired, firing, firingIndex, firingLength, firingStart, data, next)
    }

    /** A firing loop's end is always the end of the list, and a firing list counts as fired. */
    ghost predicate Valid()
      reads this
    {
      (firing && list.Some? ==> firingLength == |list.value|) && (firing ==> fired)
    }

    constructor (options: Options)
      ensures Valid() && this.options == options && Model() == Fresh(options)
    {
      this.options := options;
      list := Some([]);
      stack := if options.once then None else Some([]);
      memory := None;
      fired, firing := false, false;
      firingIndex, firingLength, firingStart := 0, 0, 0;
      data := None;
      next := 0;
    }

    method Fire(d: D)
      requires list.Some?
      modifies this
      ensures Valid() && Model() == Begin(options, old(Model()), d)
    {
      memory := if options.memory then Some(d) else None;
      fired := true;
      firingIndex := firingStart;
      firingStart := 0;
      firingLength := |list.value|;
      firing := true;
      data := Some(d);
    }

    /** The end of fire, with its recursive call on the next queued fire. */
    method AfterLoop()
      requires Valid()
      modifies this
      ensures Valid() && Model() == Finish(options, old(Model()))
    {
      firing := false;
      if list.Some? {
        if stack.Some? {
          if stack.value != [] {
            var d := stack.value[0];
            stack := Some(stack.value[1..]);
            Fire(d);
          }
        } else if memory.Some? {
          list := Some([]);
        } else {
          Disable();
        }
      }
    }

    method CallbackReturned(isFalse: bool)
      requires Valid() && firing
      modifies this
      ensures Valid() && Model() == Returned(options, old(Model()), isFalse)
    {
      if isFalse && options.stopOnFalse {
        memory := None;
        AfterLoop();
      } else {
        firingIndex := firingIndex + 1;
      }
    }

    method HasFn(fn: F) returns (b: bool)
      requires list.Some?
      ensures b == Has(list.value, fn)
    {
      var i := InArray(fn, list.value, 0);
      b := i >= 0;
    }

    /** The first index from start on that holds fn, or -1. */
    method InArray(fn: F, items: seq<Item<F>>, start: nat) returns (i: int)
      requires start <= |items|
      ensures i == -1 || start <= i < |items|
      ensures i == -1 ==> forall k :: start <= k < |items| ==> items[k].fn != fn
      ensures i >= 0 ==> items[i].fn == fn && forall k :: start <= k < i ==> items[k].fn != fn
    {
      i := start;
      while i < |items|
        invariant start <= i <= |items|
        invariant forall k :: start <= k < i ==> items[k].fn != fn
      {
        if items[i].fn == fn {
          return;
        }
        i := i + 1;
      }
      i := -1;
    }

    method Add(fns: seq<F>)
      requires Valid()
      modifies this
      ensures Valid() && Model() == Added(options, old(Model()), fns)
    {
      if list.Some? {
        var start := |list.value|;
        ghost var items, first := list.value, next;
        var i := 0;
        while i < |fns|
          invariant 0 <= i <= |fns| && list.Some? && |list.value| >= start
          invariant list.value + Appended(options, list.value, fns[i..], next)
                 == items + Appended(options, items, fns, first)
          invariant next + |Appended(options, list.value, fns[i..], next)|
                 == first + |Appended(options, items, fns, first)|
          invariant Model() == old(Model()).(list := list, next := next)
        {
          assert fns[i..][0] == fns[i] && fns[i..][1..] == fns[i + 1..];
          var present := false;
          if options.unique {
            present := HasFn(fns[i]);
          }
          if !present {
            AppendOne(fns[i]);
          }
          i := i + 1;
        }
        assert fns[i..] == [] && list.value + [] == list.value;
        if firing {
          firingLength := |list.value|;
        } else if memory.Some? {
          firingStart := start;
          Fire(memory.value);
        }
      }
    }

    method AppendOne(fn: F)
      requires list.Some?
      modifies this`list, this`next
      ensures list == Some(old(list).value + [Item(fn, old(next))]) && next == old(next) + 1
    {
      list := Some(list.value + [Item(fn, next)]);
      next := next + 1;
    }

    method Remove(fns: seq<F>)
      requires Valid()
      modifies this
      ensures Valid() && Model() == Removed(old(Model()), fns)
      ensures list == if old(list).Some? then Some(Rest(old(list).value, fns)) else None
    {
      if list.Some? {
        RemovedIs(Model(), fns);
        var i := 0;
        while i < |fns|
          invariant 0 <= i <= |fns| && list.Some? && Valid()
          invariant Removed(Model(), fns[i..]) == Removed(old(Model()), fns)
        {
          assert fns[i..][0] == fns[i] && fns[i..][1..] == fns[i + 1..];
          RemoveFn(fns[i]);
          i := i + 1;
        }
      } else {
        RemovedFromNothing(Model(), fns);
      }
    }

    /** list.splice( index, 1 ) and the repair of the firing indices. */
    method SpliceAt(index: nat)
      requires Valid() && list.Some? && index < |list.value|
      modifies this
      ensures Valid() && Model() == Spliced(old(Model()), index)
    {
      list := Some(list.value[..index] + list.value[index + 1..]);
      if firing {
        if index <= firingLength {
          firingLength := firingLength - 1;
        }
        if index <= firingIndex {
          firingIndex := firingIndex - 1;
        }
      }
    }

    /** The inner loop of remove, with its repair of the firing indices after every splice. */
    method RemoveFn(fn: F)
      requires Valid() && list.Some?
      modifies this
      ensures Valid() && list.Some? && Model() == Removed1(old(Model()), fn)
    {
      ghost var items, before := list.value, Model();
      ghost var p := 0;
      RemovalBegins(before, fn);
      var index := NextHit(fn, 0, items, p);
      while index >= 0
        invariant -1 <= index && Valid()
        invariant RemovalAt(items, list, p, index, fn)
        invariant Model() == Repaired(before, list, p, fn)
        decreases |items| - p
      {
        p := SpliceKeeps(before, Model(), p, index, fn);
        SpliceAt(index);
        index := NextHit(fn, index, items, p);
      }
      RemovalEnds(before, list, p, fn);
    }

    /** The search remove repeats: the next entry for fn at or behind start. */
    method NextHit(fn: F, start: nat, ghost items: seq<Item<F>>, ghost p: nat) returns (index: int)
      requires list.Some? && p <= |items| && list.value == Without(items[..p], fn) + items[p..]
      requires start == |Without(items[..p], fn)|
      ensures -1 <= index && RemovalAt(items, list, p, index, fn)
    {
      index := InArray(fn, list.value, start);
    }

    method Empty()
      requires Valid()
      modifies this
      ensures Valid() && Model() == Emptied(old(Model()))
      ensures Current(Model()).None?
    {
      list := Some([]);
      firingLength := 0;
    }

    method Disable()
      requires firing ==> fired
      modifies this
      ensures Valid() && Model() == Disabled(old(Model()))
    {
      list, stack, memory := None, None, None;
    }

    method Lock()
      requires Valid()
      modifies this
      ensures Valid() && Model() == Locked(old(Model()))
    {
      stack := None;
      if memory.None? {
        Disable();
      }
    }

    method FireWith(d: D)
      requires Valid()
      modifies this
      ensures Valid() && Model() == FiredWith(options, old(Model()), d)
    {
      if list.Some? && (!fired || stack.Some?) {
        if firing {
          stack := Some(stack.value + [d]);
        } else {
          Fire(d);
        }
      }
    }
  }

  // ---------- the removal loop ----------

  function Smaller(a: int, b: int): int {
    if a <= b then a else b
  }

  /** The variables during a removal, p entries into the original list. */
  ghost function Repaired<F, D>(before: CB<F, D>, list: Option<seq<Item<F>>>, p: nat, fn: F): CB<F, D>
    requires before.list.Some?
  {
    var items := before.list.value;
    if before.firing then
      before.(list := list, length := before.length - CountIn(items, p, fn),
              index := before.index - CountIn(items, Smaller(p, before.index + 1), fn))
    else before.(list := list)
  }

  /** The list during a removal: the first p entries are already rid of fn; index is the next hit, or -1. */
  ghost predicate RemovalAt<F(!new)>(items: seq<Item<F>>, list: Option<seq<Item<F>>>, p: nat, index: int, fn: F) {
    && list.Some? && p <= |items|
    && list.value == Without(items[..p], fn) + items[p..]
    && (index >= 0 ==> |Without(items[..p], fn)| <= index < |list.value| && list.value[index].fn == fn
                       && forall k :: |Without(items[..p], fn)| <= k < index ==> list.value[k].fn != fn)
    && (index < 0 ==> forall k :: |Without(items[..p], fn)| <= k < |list.value| ==> list.value[k].fn != fn)
  }

  lemma HitIsEntry<F(!new)>(items: seq<Item<F>>, list: Option<seq<Item<F>>>, p: nat, q: nat, index: int, fn: F)
    requires index >= 0 && RemovalAt(items, list, p, index, fn) && q == p + index - |Without(items[..p], fn)|
    ensures p <= q < |items| && items[q].fn == fn && !Has(items[p..q], fn)
    ensures list.value[..index] == Without(items[..p], fn) + items[p..q] && list.value[index + 1..] == items[q + 1..]
  {
    var w := Without(items[..p], fn);
    assert list.value[index] == items[q];
    forall k | 0 <= k < |items[p..q]| ensures items[p..q][k].fn != fn {
      assert list.value[|w| + k] == items[p..q][k];
    }
  }

  lemma SkipAndDrop<F(!new)>(items: seq<Item<F>>, p: nat, q: nat, fn: F)
    requires p <= q < |items| && items[q].fn == fn && !Has(items[p..q], fn)
    ensures Without(items[..q], fn) == Without(items[..p], fn) + items[p..q]
    ensures Without(items[..q + 1], fn) == Without(items[..q], fn)
  {
    WithoutNothing(items[p..q], fn);
    WithoutConcat(items[..p], items[p..q], fn);
    assert items[..p] + items[p..q] == items[..q];
    DropHit(items, q, fn);
  }

  lemma DropHit<F(!new)>(items: seq<Item<F>>, q: nat, fn: F)
    requires q < |items| && items[q].fn == fn
    ensures Without(items[..q + 1], fn) == Without(items[..q], fn)
  {
    assert items[..q + 1][..q] == items[..q];
  }

  /** The hit at index is entry q of the original list; nothing between p and q is for fn. */
  lemma SpliceStep<F(!new)>(items: seq<Item<F>>, list: Option<seq<Item<F>>>, p: nat, q: nat, index: int, fn: F)
    requires index >= 0 && RemovalAt(items, list, p, index, fn) && q == p + index - |Without(items[..p], fn)|
    ensures p <= q < |items| && items[q].fn == fn
    ensures Without(items[..q], fn) == Without(items[..p], fn) + items[p..q]
    ensures Without(items[..q + 1], fn) == Without(items[..q], fn)
    ensures CountIn(items, q, fn) == CountIn(items, p, fn) && CountIn(items, q + 1, fn) == CountIn(items, p, fn) + 1
    ensures index == |Without(items[..q], fn)|
    ensures list.value[..index] + list.value[index + 1..] == Without(items[..q + 1], fn) + items[q + 1..]
  {
    HitIsEntry(items, list, p, q, index, fn);
    SkipAndDrop(items, p, q, fn);
  }

  /** A hit lies at or before the firing index exactly when its original entry did. */
  lemma IndexStep<F(!new)>(items: seq<Item<F>>, p: nat, q: nat, index0: int, fn: F)
    requires p <= q < |items| && items[q].fn == fn && CountIn(items, q, fn) == CountIn(items, p, fn)
    requires CountIn(items, q + 1, fn) == CountIn(items, p, fn) + 1
    ensures var at := index0 - CountIn(items, Smaller(p, index0 + 1), fn);
            && (|Without(items[..q], fn)| <= at <==> q <= index0)
            && index0 - CountIn(items, Smaller(q + 1, index0 + 1), fn) == if q <= index0 then at - 1 else at
  {
    assert |Without(items[..q], fn)| == q - CountIn(items, q, fn);
    if index0 < q && index0 + 1 >= 0 {
      var n := index0 + 1;
      CountMonotone(items, n, q, q, fn);
      CountGap(items, n, q, fn);
      if p < n {
        CountMonotone(items, p, n, q, fn);
      }
    }
  }

  /** Between two positions no more entries can leave than there are. */
  lemma CountGap<F(!new)>(items: seq<Item<F>>, a: nat, b: nat, fn: F)
    requires a <= b <= |items|
    ensures CountIn(items, b, fn) - CountIn(items, a, fn) <= b - a
  {
    assert items[..b] == items[..a] + items[a..b];
    WithoutConcat(items[..a], items[a..b], fn);
  }

  function Spliced<F, D>(s: CB<F, D>, index: nat): CB<F, D>
    requires s.list.Some? && index < |s.list.value|
  {
    var t := s.(list := Some(s.list.value[..index] + s.list.value[index + 1..]));
    if s.firing then t.(length := s.length - 1, index := if index <= s.index then s.index - 1 else s.index) else t
  }

  lemma SplicedIsRepaired<F(!new), D>(before: CB<F, D>, s: CB<F, D>, p: nat, q: nat, index: int, fn: F)
    requires before.list.Some? && s.list.Some? && 0 <= index < |s.list.value| && s == Repaired(before, s.list, p, fn)
    requires var items, n := before.list.value, before.index + 1;
             var at := before.index - CountIn(items, Smaller(p, n), fn);
             && CountIn(items, q + 1, fn) == CountIn(items, p, fn) + 1
             && (index <= at <==> q <= before.index)
             && before.index - CountIn(items, Smaller(q + 1, n), fn) == if q <= before.index then at - 1 else at
    ensures Spliced(s, index) == Repaired(before, Spliced(s, index).list, q + 1, fn)
  {
  }

  /** One splice moves the removal on to just behind its hit. */
  lemma SpliceKeeps<F(!new), D>(before: CB<F, D>, s: CB<F, D>, p: nat, index: int, fn: F) returns (p': nat)
    requires before.list.Some? && index >= 0 && RemovalAt(before.list.value, s.list, p, index, fn)
    requires s == Repaired(before, s.list, p, fn)
    ensures p < p' <= |before.list.value| && index == |Without(before.list.value[..p'], fn)|
    ensures var s' := Spliced(s, index);
            && s'.list.value == Without(before.list.value[..p'], fn) + before.list.value[p'..]
            && s' == Repaired(before, s'.list, p', fn)
  {
    var items := before.list.value;
    var q := p + index - |Without(items[..p], fn)|;
    SpliceStep(items, s.list, p, q, index, fn);
    IndexStep(items, p, q, before.index, fn);
    p' := q + 1;
    SplicedIsRepaired(before, s, p, q, index, fn);
  }

  lemma CountMonotone<F(!new)>(items: seq<Item<F>>, a: nat, b: nat, c: nat, fn: F)
    requires a <= b <= c <= |items|
    ensures CountIn(items, a, fn) <= CountIn(items, b, fn) <= CountIn(items, c, fn)
  {
    assert items[..b] == items[..a] + items[a..b] && items[..c] == items[..b] + items[b..c];
    WithoutConcat(items[..a], items[a..b], fn);
    WithoutConcat(items[..b], items[b..c], fn);
  }

  lemma {:induction false} RemovalEnd<F(!new)>(items: seq<Item<F>>, list: Option<seq<Item<F>>>, p: nat, fn: F)
    requires RemovalAt(items, list, p, -1, fn)
    ensures list == Some(Without(items, fn))
    ensures CountIn(items, p, fn) == CountIn(items, |items|, fn)
  {
    var w := Without(items[..p], fn);
    forall k | 0 <= k < |items[p..]| ensures items[p..][k].fn != fn {
      assert list.value[|w| + k] == items[p..][k];
    }
    WithoutNothing(items[p..], fn);
    WithoutConcat(items[..p], items[p..], fn);
    assert items[..p] + items[p..] == items && items[..|items|] == items;
  }

  lemma RemovalBegins<F(!new), D>(before: CB<F, D>, fn: F)
    requires before.list.Some?
    ensures before.list.value[..0] == [] && Without(before.list.value[..0], fn) == []
    ensures before.list.value == Without(before.list.value[..0], fn) + before.list.value[0..]
    ensures Repaired(before, before.list, 0, fn) == before
  {
    assert before.list.value[..0] == [];
  }

  lemma RemovalEnds<F(!new), D>(before: CB<F, D>, list: Option<seq<Item<F>>>, p: nat, fn: F)
    requires before.list.Some? && RemovalAt(before.list.value, list, p, -1, fn)
    ensures Repaired(before, list, p, fn) == Removed1(before, fn)
  {
    RemovalEnd(before.list.value, list, p, fn);
    CountRest(before.list.value, p, before.index + 1, fn);
  }

  lemma CountRest<F(!new)>(items: seq<Item<F>>, p: nat, n: int, fn: F)
    requires p <= |items| && CountIn(items, p, fn) == CountIn(items, |items|, fn)
    ensures CountIn(items, Smaller(p, n), fn) == CountIn(items, n, fn)
  {
    if p < n {
      var m := Smaller(n, |items|);
      CountMonotone(items, p, m, |items|, fn);
    }
  }

  lemma {:induction false} RemovedFromNothing<F(!new), D>(s: CB<F, D>, fns: seq<F>)
    requires s.list.None?
    ensures Removed(s, fns) == s
  {
    if fns != [] {
      RemovedFromNothing(s, fns[1..]);
    }
  }
}
