/** Views of an array: slices of slices resolve to byte addresses of the original buffer. */
module TinyViews {
  import opened Numbers
  import opened TinyNumpy
  import opened Wrappers

  datatype Error = IndexError | SizeMismatch

  /** One component of an array key. */
  datatype Selector = Int(k: nat) | Slice(start: Option<int>, stop: Option<int>, step: nat)

  /** Shape, strides in bytes, item size, and the byte offset of the first item in the buffer. */
  datatype View = View(shape: Shape, strides: seq<nat>, item: nat, offset: nat)

  // ---------------------------------------------------------------- slices

  /** slice.indices(n) for a positive step. */
  function Clamp(bound: Option<int>, default: nat, n: nat): nat {
    match bound
    case None => default
    case Some(b) => if b < 0 then (if b + n < 0 then 0 else b + n) else if b > n then n else b
  }

  function First(s: Selector, n: nat): nat
    requires s.Slice?
  {
    Clamp(s.start, 0, n)
  }

  function Past(s: Selector, n: nat): nat
    requires s.Slice?
  {
    Clamp(s.stop, n, n)
  }

  /** How many positions a non-empty slice selects: ceil((stop - start) / step). */
  function Count(s: Selector, n: nat): nat
    requires s.Slice? && s.step > 0 && First(s, n) < Past(s, n)
  {
    (Past(s, n) - First(s, n) + s.step - 1) / s.step
  }

  /** The selectors the model covers: integers, and non-empty slices with a positive step. */
  predicate Selects(keys: seq<Selector>, shape: Shape) {
    forall i :: 0 <= i < |keys| && i < |shape| && keys[i].Slice? ==>
      keys[i].step > 0 && First(keys[i], shape[i]) < Past(keys[i], shape[i])
  }

  lemma SelectsTail(keys: seq<Selector>, shape: Shape)
    requires Selects(keys, shape) && keys != [] && shape != []
    ensures Selects(keys[1..], shape[1..])
  {
    SelectsFrom(keys, shape, 1);
  }

  /** The items skipped by position k on an axis. */
  function Skip(k: nat, stride: nat, item: nat): nat
    requires item > 0
  {
    k * stride / item
  }

  predicate Hits(keys: seq<Selector>, shape: Shape)
    requires |keys| <= |shape|
  {
    forall i :: 0 <= i < |keys| && keys[i].Int? ==> keys[i].k < shape[i]
  }

  /** Items to skip, shape and strides of what the selectors select. */
  function Selected(keys: seq<Selector>, shape: Shape, strides: seq<nat>, item: nat): (r: (nat, Shape, seq<nat>))
    requires item > 0 && |keys| <= |shape| == |strides| && Selects(keys, shape)
    ensures |r.1| == |r.2|
  {
    if keys == [] then (0, shape, strides)
    else
      SelectsTail(keys, shape);
      var r := Selected(keys[1..], shape[1..], strides[1..], item);
      match keys[0]
      case Int(k) => (Skip(k, strides[0], item) + r.0, r.1, r.2)
      case Slice(_, _, step) =>
        (Skip(First(keys[0], shape[0]), strides[0], item) + r.0,
         [Count(keys[0], shape[0])] + r.1, [step * strides[0]] + r.2)
  }

  lemma SelectsFrom(keys: seq<Selector>, shape: Shape, axis: nat)
    requires Selects(keys, shape) && axis <= |keys| && axis <= |shape|
    ensures Selects(keys[axis..], shape[axis..])
  {
    forall i | 0 <= i < |keys| - axis && i < |shape| - axis && keys[axis..][i].Slice?
      ensures keys[axis..][i].step > 0
      ensures First(keys[axis..][i], shape[axis..][i]) < Past(keys[axis..][i], shape[axis..][i])
    {
      assert keys[axis..][i] == keys[i + axis] && shape[axis..][i] == shape[i + axis];
    }
  }

  /** What is still to be selected from axis on. */
  ghost function SelectedFrom(keys: seq<Selector>, v: View, axis: nat): (r: (nat, Shape, seq<nat>))
    requires v.item > 0 && |v.shape| == |v.strides| && axis <= |keys| <= |v.shape| && Selects(keys, v.shape)
    ensures |r.1| == |r.2|
  {
    SelectsFrom(keys, v.shape, axis);
    Selected(keys[axis..], v.shape[axis..], v.strides[axis..], v.item)
  }

  lemma SelectedStep(keys: seq<Selector>, v: View, axis: nat)
    requires v.item > 0 && |v.shape| == |v.strides| && axis < |keys| <= |v.shape| && Selects(keys, v.shape)
    ensures var r := SelectedFrom(keys, v, axis + 1);
      SelectedFrom(keys, v, axis) ==
      match keys[axis]
      case Int(k) => (Skip(k, v.strides[axis], v.item) + r.0, r.1, r.2)
      case Slice(_, _, step) =>
        (Skip(First(keys[axis], v.shape[axis]), v.strides[axis], v.item) + r.0,
         [Count(keys[axis], v.shape[axis])] + r.1, [step * v.strides[axis]] + r.2)
  {
    SelectsFrom(keys, v.shape, axis);
    SelectsFrom(keys, v.shape, axis + 1);
    assert keys[axis..][1..] == keys[axis + 1..] && v.shape[axis..][1..] == v.shape[axis + 1..]
      && v.strides[axis..][1..] == v.strides[axis + 1..];
  }

  lemma SelectedEnds(keys: seq<Selector>, v: View)
    requires v.item > 0 && |v.shape| == |v.strides| && |keys| <= |v.shape| && Selects(keys, v.shape)
    ensures SelectedFrom(keys, v, 0) == Selected(keys, v.shape, v.strides, v.item)
    ensures SelectedFrom(keys, v, |keys|) == (0, v.shape[|keys|..], v.strides[|keys|..])
  {
    assert keys[0..] == keys && v.shape[0..] == v.shape && v.strides[0..] == v.strides;
  }

  lemma Push<T>(a: seq<T>, x: T, b: seq<T>)
    ensures a + ([x] + b) == (a + [x]) + b
  {
  }

  /** Where the loop of _index_helper stands: what it has, with what is still to be selected. */
  ghost predicate Selecting(keys: seq<Selector>, v: View, axis: nat, offset: nat, shape: Shape, strides: seq<nat>) {
    && v.item > 0 && |v.shape| == |v.strides| && Selects(keys, v.shape) && axis <= |keys| && |shape| == |strides|
    && (|keys| <= |v.shape| ==>
          var r := SelectedFrom(keys, v, axis);
          Selected(keys, v.shape, v.strides, v.item) == (offset + r.0, shape + r.1, strides + r.2))
  }

  lemma SelectNone(keys: seq<Selector>, v: View)
    requires v.item > 0 && |v.shape| == |v.strides| && Selects(keys, v.shape)
    ensures Selecting(keys, v, 0, 0, [], [])
  {
    if |keys| <= |v.shape| {
      SelectedEnds(keys, v);
      var r := Selected(keys, v.shape, v.strides, v.item);
      assert [] + r.1 == r.1 && [] + r.2 == r.2;
    }
  }

  lemma SelectInt(keys: seq<Selector>, v: View, axis: nat, offset: nat, shape: Shape, strides: seq<nat>)
    requires Selecting(keys, v, axis, offset, shape, strides) && axis < |keys| && axis < |v.shape| && keys[axis].Int?
    ensures Selecting(keys, v, axis + 1, offset + Skip(keys[axis].k, v.strides[axis], v.item), shape, strides)
  {
    hide Selected, SelectedFrom, First, Past, Count, Skip, Selects;
    if |keys| <= |v.shape| { SelectedStep(keys, v, axis); }
  }

  lemma SelectSlice(keys: seq<Selector>, v: View, axis: nat, offset: nat, shape: Shape, strides: seq<nat>)
    requires Selecting(keys, v, axis, offset, shape, strides) && axis < |keys| && axis < |v.shape| && keys[axis].Slice?
    ensures keys[axis].step > 0 && First(keys[axis], v.shape[axis]) < Past(keys[axis], v.shape[axis])
    ensures Selecting(keys, v, axis + 1, offset + Skip(First(keys[axis], v.shape[axis]), v.strides[axis], v.item),
                      shape + [Count(keys[axis], v.shape[axis])], strides + [keys[axis].step * v.strides[axis]])
  {
    hide Selected, SelectedFrom, First, Past, Count, Skip;
    if |keys| <= |v.shape| {
      SelectedStep(keys, v, axis);
      var r := SelectedFrom(keys, v, axis + 1);
      Push(shape, Count(keys[axis], v.shape[axis]), r.1);
      Push(strides, keys[axis].step * v.strides[axis], r.2);
    }
  }

  lemma SelectDone(keys: seq<Selector>, v: View, offset: nat, shape: Shape, strides: seq<nat>)
    requires Selecting(keys, v, |keys|, offset, shape, strides) && |keys| <= |v.shape|
    ensures Selected(keys, v.shape, v.strides, v.item)
         == (offset, shape + v.shape[|keys|..], strides + v.strides[|keys|..])
  {
    SelectedEnds(keys, v);
  }

  /** The loop of _index_helper: offset in items, shape and strides, axis by axis. */
  method IndexHelper(keys: seq<Selector>, v: View) returns (r: Result<(nat, Shape, seq<nat>), Error>)
    requires v.item > 0 && |v.shape| == |v.strides| && Selects(keys, v.shape)
    ensures r.Ok? <==> |keys| <= |v.shape| && Hits(keys, v.shape)
    ensures r.Ok? ==> r.value == Selected(keys, v.shape, v.strides, v.item)
    ensures r.Err? ==> r.error == IndexError
  {
    hide Selected, SelectedFrom, Selecting, Selects, First, Past, Count, Skip;
    var shape: Shape, strides: seq<nat>, offset: nat := [], [], 0;
    SelectNone(keys, v);
    for axis := 0 to |keys|
      invariant axis <= |v.shape| && Selecting(keys, v, axis, offset, shape, strides)
      invariant forall i :: 0 <= i < axis && keys[i].Int? ==> keys[i].k < v.shape[i]
    {
      if axis >= |v.shape| { return Err(IndexError); }
      var size := v.shape[axis];
      match keys[axis]
      case Int(k) =>
        if k >= size { return Err(IndexError); }
        SelectInt(keys, v, axis, offset, shape, strides);
        offset := offset + Skip(k, v.strides[axis], v.item);
      case Slice(_, _, step) =>
        SelectSlice(keys, v, axis, offset, shape, strides);
        shape := shape + [Count(keys[axis], size)];
        strides := strides + [step * v.strides[axis]];
        offset := offset + Skip(First(keys[axis], size), v.strides[axis], v.item);
    }
    SelectDone(keys, v, offset, shape, strides);
    r := Ok((offset, shape + v.shape[|keys|..], strides + v.strides[|keys|..]));
  }

  // ---------------------------------------------------------------- addresses

  predicate Multiples(strides: seq<nat>, item: nat)
    requires item > 0
  {
    forall i :: 0 <= i < |strides| ==> strides[i] % item == 0
  }

  /** The original key that a key of the selected view stands for. */
  function Compose(keys: seq<Selector>, shape: Shape, key: Key): (c: Key)
    requires |keys| <= |shape|
    requires |key| == |shape| - Ints(keys)
    ensures |c| == |shape|
  {
    if keys == [] then key
    else
      match keys[0]
      case Int(k) => [k] + Compose(keys[1..], shape[1..], key)
      case Slice(_, _, step) => [First(keys[0], shape[0]) + step * key[0]] + Compose(keys[1..], shape[1..], key[1..])
  }

  function Ints(keys: seq<Selector>): (n: nat)
    ensures n <= |keys|
  {
    if keys == [] then 0 else (if keys[0].Int? then 1 else 0) + Ints(keys[1..])
  }

  lemma ExactDiv(a: nat, s: nat, item: nat)
    requires item > 0 && s % item == 0
    ensures Skip(a, s, item) * item == a * s && a * s % item == 0
  {
    var q := s / item;
    assert s == q * item;
    MulAssoc(a, q, item);
    DivUnique((a * q) * item, item, a * q, 0);
  }

  lemma InSlice(s: Selector, n: nat, k: nat)
    requires s.Slice? && s.step > 0 && First(s, n) < Past(s, n) && k < Count(s, n)
    ensures First(s, n) + s.step * k < Past(s, n) <= n
  {
    var len := Past(s, n) - First(s, n);
    var c := Count(s, n);
    DivMod(len + s.step - 1, s.step);
    assert c * s.step <= len + s.step - 1;
    MulMono(k, c - 1, s.step);
    Distribute(c - 1, 1, s.step);
  }

  lemma CountPositive(s: Selector, n: nat)
    requires s.Slice? && s.step > 0 && First(s, n) < Past(s, n)
    ensures Count(s, n) > 0
  {
    var x := Past(s, n) - First(s, n) + s.step - 1;
    if x / s.step == 0 { DivMod(x, s.step); }
  }

  ghost predicate Applicable(keys: seq<Selector>, shape: Shape, strides: seq<nat>, item: nat) {
    item > 0 && |keys| <= |shape| == |strides| && Selects(keys, shape) && Hits(keys, shape) && Multiples(strides, item)
  }

  /** The key of the selection stands for an in-range key of the array, at the same address, and
      the strides stay multiples of the item size. */
  ghost predicate StandsFor(keys: seq<Selector>, shape: Shape, strides: seq<nat>, item: nat, key: Key) {
    && Applicable(keys, shape, strides, item) && |key| == |shape| - Ints(keys)
    && var r := Selected(keys, shape, strides, item);
    && |r.2| == |key| && Multiples(r.2, item)
    && InRange(Compose(keys, shape, key), shape)
    && r.0 * item + Dot(key, r.2) == Dot(Compose(keys, shape, key), strides)
  }

  lemma IntStandsFor(keys: seq<Selector>, shape: Shape, strides: seq<nat>, item: nat, key: Key)
    requires Applicable(keys, shape, strides, item) && keys != [] && keys[0].Int?
    requires StandsFor(keys[1..], shape[1..], strides[1..], item, key)
    ensures StandsFor(keys, shape, strides, item, key)
  {
    var k, t := keys[0].k, Selected(keys[1..], shape[1..], strides[1..], item);
    ExactDiv(k, strides[0], item);
    Distribute(Skip(k, strides[0], item), t.0, item);
    InRangeFirst(k, Compose(keys[1..], shape[1..], key), shape);
    assert Compose(keys, shape, key)[1..] == Compose(keys[1..], shape[1..], key);
    hide InRange, Compose, Hits, Selects, Multiples, Applicable;
  }

  lemma SliceStandsFor(keys: seq<Selector>, shape: Shape, strides: seq<nat>, item: nat, key: Key)
    requires Applicable(keys, shape, strides, item) && keys != [] && keys[0].Slice? && key != []
    requires key[0] < Count(keys[0], shape[0])
    requires StandsFor(keys[1..], shape[1..], strides[1..], item, key[1..])
    ensures StandsFor(keys, shape, strides, item, key)
  {
    var step, first := keys[0].step, First(keys[0], shape[0]);
    var r, t := Selected(keys, shape, strides, item), Selected(keys[1..], shape[1..], strides[1..], item);
    assert r.1[1..] == t.1 && r.2[1..] == t.2;
    InSlice(keys[0], shape[0], key[0]);
    ExactDiv(first, strides[0], item);
    ExactDiv(step, strides[0], item);
    Distribute(Skip(first, strides[0], item), t.0, item);
    Distribute(first, step * key[0], strides[0]);
    SliceTerm(step, key[0], strides[0]);
    InRangeFirst(first + step * key[0], Compose(keys[1..], shape[1..], key[1..]), shape);
    assert Compose(keys, shape, key)[1..] == Compose(keys[1..], shape[1..], key[1..]);
  }

  lemma InRangeFirst(k: nat, rest: Key, shape: Shape)
    requires shape != [] && k < shape[0] && InRange(rest, shape[1..])
    ensures InRange([k] + rest, shape)
  {
    InRangeCons([k] + rest, shape);
  }

  /** One key of selectors: in-range keys of the view go to in-range keys of the original, at the
      same address; the strides stay multiples of the item size. */
  lemma {:induction false} SelectedAddress(keys: seq<Selector>, shape: Shape, strides: seq<nat>, item: nat, key: Key)
    requires item > 0 && |keys| <= |shape| == |strides| && Selects(keys, shape) && Hits(keys, shape)
    requires Multiples(strides, item)
    requires InRange(key, Selected(keys, shape, strides, item).1)
    ensures |Selected(keys, shape, strides, item).1| == |shape| - Ints(keys)
    ensures StandsFor(keys, shape, strides, item, key)
  {
    SelectedRank(keys, shape, strides, item);
    if keys != [] {
      SelectsTail(keys, shape);
      var r := Selected(keys, shape, strides, item);
      if keys[0].Int? {
        SelectedAddress(keys[1..], shape[1..], strides[1..], item, key);
        IntStandsFor(keys, shape, strides, item, key);
      } else {
        var t := Selected(keys[1..], shape[1..], strides[1..], item);
        assert r.1[1..] == t.1;
        assert InRange(key[1..], t.1);
        SelectedAddress(keys[1..], shape[1..], strides[1..], item, key[1..]);
        assert key[0] < Count(keys[0], shape[0]);
        SliceStandsFor(keys, shape, strides, item, key);
      }
    }
  }

  lemma SliceTerm(step: nat, k: nat, stride: nat)
    ensures (step * k) * stride == k * (step * stride)
  {
  }

  lemma {:induction false} SelectedRank(keys: seq<Selector>, shape: Shape, strides: seq<nat>, item: nat)
    requires item > 0 && |keys| <= |shape| == |strides| && Selects(keys, shape)
    ensures |Selected(keys, shape, strides, item).1| == |shape| - Ints(keys)
    ensures Positive(shape) ==> Positive(Selected(keys, shape, strides, item).1)
  {
    if keys != [] {
      SelectsTail(keys, shape);
      SelectedRank(keys[1..], shape[1..], strides[1..], item);
      if keys[0].Slice? { CountPositive(keys[0], shape[0]); }
    }
  }

  // ---------------------------------------------------------------- which positions are selected

  /** Position p of an axis of n lies at or after a bound: a negative bound counts from the end, and
      without one every position does. */
  predicate Reaches(bound: Option<int>, n: nat, p: int) {
    bound.Some? ==> p >= if bound.value < 0 then n + bound.value else bound.value
  }

  /** The first position at or after the bound. */
  predicate Foremost(bound: Option<int>, n: nat, q: nat) {
    Reaches(bound, n, q) && (q == 0 || !Reaches(bound, n, q - 1))
  }

  predicate Stops(bound: Option<int>, n: nat, p: int) {
    bound.Some? && Reaches(bound, n, p)
  }

  /** The positions of start:stop:step, as Python's slices define them: of those from start on and
      before stop, the first and every step-th after it. */
  ghost predicate Chosen(s: Selector, n: nat, p: nat)
    requires s.Slice? && s.step > 0
  {
    && p < n && Reaches(s.start, n, p) && !Stops(s.stop, n, p)
    && exists q: nat :: Foremost(s.start, n, q) && (p - q) % s.step == 0
  }

  lemma ForemostIs(s: Selector, n: nat, p: nat, q: nat)
    requires s.Slice? && p < n && Reaches(s.start, n, p)
    ensures Foremost(s.start, n, q) <==> q == First(s, n)
    ensures First(s, n) <= p && (Stops(s.stop, n, p) <==> p >= Past(s, n))
  {
  }

  lemma StepsFrom(first: nat, step: nat, p: nat)
    requires step > 0 && first <= p
    ensures (p - first) % step == 0 <==> p == first + step * ((p - first) / step)
  {
    assert p - first == step * ((p - first) / step) + (p - first) % step;
  }

  lemma StepOf(first: nat, step: nat, j: nat)
    requires step > 0
    ensures (first + step * j - first) % step == 0 && (first + step * j - first) / step == j
  {
    DivUnique(step * j, step, j, 0);
  }

  /** Position k of an axis of the view is a chosen one, the k-th from the first. */
  lemma SelectedIsChosen(s: Selector, n: nat, k: nat)
    requires s.Slice? && s.step > 0 && First(s, n) < Past(s, n) && k < Count(s, n)
    ensures Chosen(s, n, First(s, n) + s.step * k)
  {
    InSlice(s, n, k);
    var p := First(s, n) + s.step * k;
    ForemostIs(s, n, p, First(s, n));
    StepOf(First(s, n), s.step, k);
  }

  /** And every chosen position is one of the view's. */
  lemma ChosenIsSelected(s: Selector, n: nat, p: nat) returns (k: nat)
    requires s.Slice? && s.step > 0 && Chosen(s, n, p)
    ensures First(s, n) < Past(s, n) && k < Count(s, n) && p == First(s, n) + s.step * k
  {
    var q: nat :| Foremost(s.start, n, q) && (p - q) % s.step == 0;
    ForemostIs(s, n, p, q);
    StepsFrom(q, s.step, p);
    k := (p - q) / s.step;
    CountCovers(Past(s, n) - q, s.step, k);
  }

  lemma CountCovers(len: nat, step: nat, k: nat)
    requires step > 0 && step * k < len
    ensures k < (len + step - 1) / step
  {
    var c := (len + step - 1) / step;
    DivMod(len + step - 1, step);
    if c <= k { MulMono(c, k, step); }
  }

  /** Each axis of c is where its selector puts it: at the index, at a position of the slice, or
      anywhere on an axis without a selector. */
  ghost predicate Picked(keys: seq<Selector>, shape: Shape, c: Key) {
    && |keys| <= |shape| == |c|
    && forall i :: 0 <= i < |c| ==> if i < |keys| then PickedAt(keys[i], shape[i], c[i]) else c[i] < shape[i]
  }

  ghost predicate PickedAt(s: Selector, n: nat, p: nat) {
    if s.Int? then p == s.k < n else s.step > 0 && Chosen(s, n, p)
  }

  lemma PickedCons(keys: seq<Selector>, shape: Shape, c: Key)
    requires keys != [] && shape != [] && c != []
    ensures Picked(keys, shape, c) <==> PickedAt(keys[0], shape[0], c[0]) && Picked(keys[1..], shape[1..], c[1..])
  {
    hide PickedAt;
    if Picked(keys[1..], shape[1..], c[1..]) && PickedAt(keys[0], shape[0], c[0]) {
      forall i | 0 <= i < |c|
        ensures if i < |keys| then PickedAt(keys[i], shape[i], c[i]) else c[i] < shape[i]
      {
        if i > 0 { assert c[i] == c[1..][i - 1] && shape[i] == shape[1..][i - 1]; }
        if 0 < i < |keys| { assert keys[i] == keys[1..][i - 1]; }
      }
    }
  }

  /** The items of a view are items that its selectors pick ... */
  lemma {:induction false} ViewPicks(keys: seq<Selector>, shape: Shape, strides: seq<nat>, item: nat, key: Key)
    requires item > 0 && |keys| <= |shape| == |strides| && Selects(keys, shape) && Hits(keys, shape)
    requires InRange(key, Selected(keys, shape, strides, item).1)
    ensures |key| == |shape| - Ints(keys) && Picked(keys, shape, Compose(keys, shape, key))
  {
    SelectedRank(keys, shape, strides, item);
    if keys != [] {
      SelectsTail(keys, shape);
      var r := Selected(keys, shape, strides, item);
      if keys[0].Int? {
        ViewPicks(keys[1..], shape[1..], strides[1..], item, key);
      } else {
        ViewPicks(keys[1..], shape[1..], strides[1..], item, key[1..]);
        SelectedIsChosen(keys[0], shape[0], key[0]);
      }
      PickedCons(keys, shape, Compose(keys, shape, key));
    }
  }

  /** ... and every item they pick is one of the view's. */
  lemma {:induction false} PickedInView(keys: seq<Selector>, shape: Shape, strides: seq<nat>, item: nat, c: Key)
    returns (key: Key)
    requires item > 0 && |keys| <= |shape| == |strides| && Picked(keys, shape, c)
    ensures Selects(keys, shape) && Hits(keys, shape)
    ensures InRange(key, Selected(keys, shape, strides, item).1)
    ensures |key| == |shape| - Ints(keys) && Compose(keys, shape, key) == c
  {
    key := c;
    if keys != [] {
      PickedCons(keys, shape, c);
      var rest := PickedInView(keys[1..], shape[1..], strides[1..], item, c[1..]);
      if keys[0].Int? { key := rest; }
      else {
        var k := ChosenIsSelected(keys[0], shape[0], c[0]);
        key := [k] + rest;
      }
    }
  }

  /** a[first:past:step] within the axis: its items are those at first, first + step, ... before past. */
  lemma PlainSlice(first: nat, past: nat, step: nat, n: nat, stride: nat, item: nat, j: nat)
    requires first < past <= n && step > 0 && item > 0
    ensures var keys := [Slice(Some(first), Some(past), step)];
      && Selects(keys, [n])
      && (InRange([j], Selected(keys, [n], [stride], item).1) <==> first + step * j < past)
      && Compose(keys, [n], [j]) == [first + step * j]
  {
    var s := Slice(Some(first), Some(past), step);
    OneSelects(s, n);
    assert First(s, n) == first && Past(s, n) == past;
    assert [s][1..] == [] && Selected([s], [n], [stride], item).1 == [Count(s, n)];
    if j < Count(s, n) { InSlice(s, n, j); }
    if first + step * j < past { CountCovers(past - first, step, j); }
  }

  /** Both slices select the same items of an axis of n. */
  ghost predicate Alike(s: Selector, t: Selector, n: nat, stride: nat, item: nat, k: nat)
    requires s.Slice? && t.Slice? && item > 0
  {
    && (Selects([s], [n]) <==> Selects([t], [n]))
    && (Selects([s], [n]) ==>
          && Selected([s], [n], [stride], item) == Selected([t], [n], [stride], item)
          && Compose([s], [n], [k]) == Compose([t], [n], [k]))
  }

  /** A negative bound counts from the end, one beyond either end is that end, and an absent one is
      the axis's own end. */
  lemma BoundsMean(s: Selector, n: nat, m: int, stride: nat, item: nat, k: nat)
    requires s.Slice? && item > 0
    ensures 0 < m <= n ==> Alike(s.(start := Some(-m)), s.(start := Some(n - m)), n, stride, item, k)
    ensures 0 < m <= n ==> Alike(s.(stop := Some(-m)), s.(stop := Some(n - m)), n, stride, item, k)
    ensures m > n ==> Alike(s.(start := Some(-m)), s.(start := Some(0)), n, stride, item, k)
    ensures m > n ==> Alike(s.(stop := Some(m)), s.(stop := Some(n)), n, stride, item, k)
    ensures Alike(s.(start := None), s.(start := Some(0)), n, stride, item, k)
    ensures Alike(s.(stop := None), s.(stop := Some(n)), n, stride, item, k)
  {
    forall a: Option<int>, b: Option<int> | Clamp(a, 0, n) == Clamp(b, 0, n)
      ensures Alike(s.(start := a), s.(start := b), n, stride, item, k)
    {
      SameBounds(s.(start := a), s.(start := b), n, stride, item, k);
    }
    forall a: Option<int>, b: Option<int> | Clamp(a, n, n) == Clamp(b, n, n)
      ensures Alike(s.(stop := a), s.(stop := b), n, stride, item, k)
    {
      SameBounds(s.(stop := a), s.(stop := b), n, stride, item, k);
    }
  }

  lemma SameBounds(s: Selector, t: Selector, n: nat, stride: nat, item: nat, k: nat)
    requires s.Slice? && t.Slice? && s.step == t.step && item > 0
    requires First(s, n) == First(t, n) && Past(s, n) == Past(t, n)
    ensures Alike(s, t, n, stride, item, k)
  {
    OneSelects(s, n);
    OneSelects(t, n);
    assert [s][1..] == [] && [t][1..] == [];
  }

  lemma OneSelects(s: Selector, n: nat)
    requires s.Slice?
    ensures Selects([s], [n]) <==> s.step > 0 && First(s, n) < Past(s, n)
  {
    assert [s][0] == s && [n][0] == n;
  }

  // ---------------------------------------------------------------- chains of views

  predicate WellFormed(v: View) {
    v.item > 0 && |v.shape| == |v.strides| && Positive(v.shape) && Multiples(v.strides, v.item)
  }

  predicate Applies(keys: seq<Selector>, v: View) {
    |keys| <= |v.shape| && Selects(keys, v.shape) && Hits(keys, v.shape)
  }

  /** a[keys] as a view (a view without dimensions stands for a single item). */
  function Subview(v: View, keys: seq<Selector>): (r: View)
    requires WellFormed(v) && Applies(keys, v)
  {
    var s := Selected(keys, v.shape, v.strides, v.item);
    View(s.1, s.2, v.item, v.offset + s.0 * v.item)
  }

  /** The byte address of an item of a view. */
  function Address(v: View, key: Key): nat
    requires |key| == |v.strides|
  {
    v.offset + Dot(key, v.strides)
  }

  /** A whole array of its own: contiguous, at the start of its buffer. */
  function Whole(shape: Shape, item: nat): View {
    View(shape, Strides(shape, item), item, 0)
  }

  lemma {:induction false} StridesMultiples(shape: Shape, item: nat)
    requires item > 0
    ensures Multiples(Strides(shape, item), item)
  {
    if shape != [] {
      StridesMultiples(shape[1..], item);
      DivUnique(Size(shape[1..]) * item, item, Size(shape[1..]), 0);
    }
  }

  lemma SubviewAddress(v: View, keys: seq<Selector>, key: Key)
    requires WellFormed(v) && Applies(keys, v) && InRange(key, Subview(v, keys).shape)
    ensures WellFormed(Subview(v, keys))
    ensures |key| == |v.shape| - Ints(keys) && |key| == |Subview(v, keys).strides|
    ensures InRange(Compose(keys, v.shape, key), v.shape)
    ensures Address(Subview(v, keys), key) == Address(v, Compose(keys, v.shape, key))
  {
    SelectedRank(keys, v.shape, v.strides, v.item);
    SelectedAddress(keys, v.shape, v.strides, v.item, key);
  }

  /** Every key applies in turn. */
  predicate ChainApplies(v: View, chain: seq<seq<Selector>>)
    requires WellFormed(v)
    decreases |chain|
  {
    || chain == []
    || (&& Applies(chain[0], v) && WellFormed(Subview(v, chain[0]))
        && ChainApplies(Subview(v, chain[0]), chain[1..]))
  }

  /** a[chain[0]][chain[1]]... */
  function Sliced(v: View, chain: seq<seq<Selector>>): (r: View)
    requires WellFormed(v) && ChainApplies(v, chain)
    ensures WellFormed(r) && r.item == v.item
    decreases |chain|
  {
    if chain == [] then v else Sliced(Subview(v, chain[0]), chain[1..])
  }

  /** The key of the original array that a key of the last view stands for. */
  function Original(v: View, chain: seq<seq<Selector>>, key: Key): (c: Key)
    requires WellFormed(v) && ChainApplies(v, chain) && InRange(key, Sliced(v, chain).shape)
    ensures InRange(c, v.shape) && |c| == |v.strides|
    decreases |chain|
  {
    if chain == [] then key
    else
      var sub := Subview(v, chain[0]);
      var c := Original(sub, chain[1..], key);
      SubviewAddress(v, chain[0], c);
      Compose(chain[0], v.shape, c)
  }

  /** Any chain of in-range indexes and slices resolves to the composed key's address. */
  lemma {:induction false} ChainAddress(v: View, chain: seq<seq<Selector>>, key: Key)
    requires WellFormed(v) && ChainApplies(v, chain) && InRange(key, Sliced(v, chain).shape)
    ensures |key| == |Sliced(v, chain).strides|
    ensures Address(Sliced(v, chain), key) == Address(v, Original(v, chain, key))
    decreases |chain|
  {
    if chain != [] {
      var sub := Subview(v, chain[0]);
      ChainAddress(sub, chain[1..], key);
      SubviewAddress(v, chain[0], Original(sub, chain[1..], key));
    }
  }

  lemma {:induction false} DotScales(key: Key, shape: Shape, item: nat)
    requires |key| == |shape|
    ensures Dot(key, Strides(shape, item)) == Dot(key, Strides(shape, 1)) * item
  {
    if key != [] {
      DotScales(key[1..], shape[1..], item);
      assert Strides(shape, item)[1..] == Strides(shape[1..], item) && Strides(shape, 1)[1..] == Strides(shape[1..], 1);
      MulAssoc(key[0], Size(shape[1..]), item);
      Distribute(key[0] * Size(shape[1..]), Dot(key[1..], Strides(shape[1..], 1)), item);
    }
  }

  /** Starting from a whole array, every view reached by a chain stays inside the buffer, on
      item boundaries. */
  lemma ChainInBuffer(shape: Shape, item: nat, chain: seq<seq<Selector>>, key: Key)
    requires shape != [] && Positive(shape) && item > 0
    requires WellFormed(Whole(shape, item)) && ChainApplies(Whole(shape, item), chain)
    requires InRange(key, Sliced(Whole(shape, item), chain).shape)
    ensures |key| == |Sliced(Whole(shape, item), chain).strides|
    ensures var a := Address(Sliced(Whole(shape, item), chain), key);
      a % item == 0 && a + item <= Size(shape) * item
  {
    var v := Whole(shape, item);
    ChainAddress(v, chain, key);
    var c := Original(v, chain, key);
    OffsetKey(c, shape);
    DotScales(c, shape, item);
    var k := Dot(c, Strides(shape, 1));
    DivUnique(k * item, item, k, 0);
    MulMono(k + 1, Size(shape), item);
    Distribute(k, 1, item);
  }
}
