/** Index arithmetic of the arrays behind register-only devices: row-major keys and strides,
    and the odometer that walks them. */
module TinyNumpy {
  import opened Numbers


  type Key = seq<nat>
  type Shape = seq<nat>

  // ---------------------------------------------------------------- row-major order

  function Size(shape: Shape): nat {
    if shape == [] then 1 else shape[0] * Size(shape[1..])
  }

  function Strides(shape: Shape, item: nat): (s: seq<nat>)
    ensures |s| == |shape|
  {
    if shape == [] then [] else [Size(shape[1..]) * item] + Strides(shape[1..], item)
  }

  function Dot(key: Key, strides: seq<nat>): nat
    requires |key| == |strides|
  {
    if key == [] then 0 else key[0] * strides[0] + Dot(key[1..], strides[1..])
  }

  predicate InRange(key: Key, shape: Shape) {
    |key| == |shape| && forall i :: 0 <= i < |key| ==> key[i] < shape[i]
  }

  predicate Positive(shape: Shape) {
    forall i :: 0 <= i < |shape| ==> shape[i] > 0
  }

  /** The k-th key in row-major order. */
  function KeyOf(k: nat, shape: Shape): (key: Key)
    requires shape != [] && Positive(shape)
    ensures |key| == |shape|
  {
    if |shape| == 1 then [k]
    else
      var s := Size(shape[1..]);
      PositiveSize(shape[1..]);
      [k / s] + KeyOf(k % s, shape[1..])
  }

  lemma {:induction false} PositiveSize(shape: Shape)
    requires Positive(shape)
    ensures Size(shape) > 0
  {
    if shape != [] {
      PositiveSize(shape[1..]);
      MulPositive(shape[0], Size(shape[1..]));
    }
  }

  lemma DivBound(k: nat, a: nat, s: nat)
    requires s > 0 && k < a * s
    ensures k / s < a && k % s < s && k == (k / s) * s + k % s
  {
    if k / s >= a { MulMono(a, k / s, s); }
  }

  /** The k-th key is in range, and its offset is k items. */
  lemma {:induction false} KeyOffset(k: nat, shape: Shape, item: nat)
    requires shape != [] && Positive(shape) && k < Size(shape)
    ensures InRange(KeyOf(k, shape), shape)
    ensures Dot(KeyOf(k, shape), Strides(shape, item)) == k * item
  {
    hide *;
    if |shape| == 1 {
      LastAxis(k, shape, item);
    } else {
      OneAxis(k, shape, item);
      var rest, s := shape[1..], Size(shape[1..]);
      KeyOffset(k % s, rest, item);
      OffsetSum(k / s, s, k % s, item);
      FirstAxis(k / s, KeyOf(k % s, rest), s * item, Strides(rest, item), shape);
    }
  }

  lemma LastAxis(k: nat, shape: Shape, item: nat)
    requires |shape| == 1 && Positive(shape) && k < Size(shape)
    ensures InRange(KeyOf(k, shape), shape) && Dot(KeyOf(k, shape), Strides(shape, item)) == k * item
  {
    assert shape[1..] == [];
    assert [k][1..] == [];
    assert Strides(shape, item)[0] == item;
  }

  /** Key and strides from the second axis on. */
  lemma OneAxis(k: nat, shape: Shape, item: nat)
    requires |shape| > 1 && Positive(shape) && k < Size(shape)
    ensures var s := Size(shape[1..]);
      && s > 0 && k / s < shape[0] && k % s < s && k == (k / s) * s + k % s && Positive(shape[1..])
      && KeyOf(k, shape) == [k / s] + KeyOf(k % s, shape[1..])
      && Strides(shape, item) == [s * item] + Strides(shape[1..], item)
  {
    PositiveSize(shape[1..]);
    DivBound(k, shape[0], Size(shape[1..]));
    DivMod(k, Size(shape[1..]));
  }

  lemma FirstAxis(q: nat, key: Key, stride: nat, strides: seq<nat>, shape: Shape)
    requires shape != [] && q < shape[0] && InRange(key, shape[1..]) && |key| == |strides|
    ensures InRange([q] + key, shape) && Dot([q] + key, [stride] + strides) == q * stride + Dot(key, strides)
  {
    InRangeCons([q] + key, shape);
  }

  lemma InRangeCons(key: Key, shape: Shape)
    requires |key| == |shape| > 0 && key[0] < shape[0] && InRange(key[1..], shape[1..])
    ensures InRange(key, shape)
  {
    forall i | 0 <= i < |key| ensures key[i] < shape[i] {
      if i > 0 { assert key[i] == key[1..][i - 1] && shape[i] == shape[1..][i - 1]; }
    }
  }

  lemma OffsetSum(q: nat, s: nat, r: nat, item: nat)
    ensures q * (s * item) + r * item == (q * s + r) * item
  {
    Distribute(q * s, r, item);
    MulAssoc(q, s, item);
  }

  /** Every key in range is the key of exactly its own offset. */
  lemma {:induction false} OffsetKey(key: Key, shape: Shape)
    requires shape != [] && Positive(shape) && InRange(key, shape)
    ensures Dot(key, Strides(shape, 1)) < Size(shape)
    ensures KeyOf(Dot(key, Strides(shape, 1)), shape) == key
  {
    var rest := shape[1..];
    if |shape| == 1 {
      assert rest == [] && key[1..] == [] && key == [key[0]];
      assert Strides(shape, 1)[0] == 1;
    } else {
      var s := Size(rest);
      PositiveSize(rest);
      OffsetKey(key[1..], rest);
      assert Strides(shape, 1)[1..] == Strides(rest, 1) && Strides(shape, 1)[0] == s;
      var r := Dot(key[1..], Strides(rest, 1));
      DivUnique(key[0] * s + r, s, key[0], r);
      MulMono(key[0] + 1, shape[0], s);
      Distribute(key[0], 1, s);
      assert key == [key[0]] + key[1..];
    }
  }

  predicate Before(a: Key, b: Key)
    requires |a| == |b|
  {
    a != [] && (a[0] < b[0] || (a[0] == b[0] && Before(a[1..], b[1..])))
  }

  /** Keys come in lexicographic order. */
  lemma {:induction false} KeysAscend(k: nat, l: nat, shape: Shape)
    requires shape != [] && Positive(shape) && k < l < Size(shape)
    ensures Before(KeyOf(k, shape), KeyOf(l, shape))
  {
    var a, b := KeyOf(k, shape), KeyOf(l, shape);
    if |shape| > 1 {
      var rest := shape[1..];
      var s := Size(rest);
      PositiveSize(rest);
      DivBound(k, shape[0], s);
      DivBound(l, shape[0], s);
      assert a[1..] == KeyOf(k % s, rest) && b[1..] == KeyOf(l % s, rest);
      if k / s > l / s { MulMono(l / s + 1, k / s, s); Distribute(l / s, 1, s); }
      if k / s == l / s { KeysAscend(k % s, l % s, rest); }
    }
  }

  // ---------------------------------------------------------------- the loops that compute them

  lemma {:induction false} StridesAt(shape: Shape, item: nat, j: nat)
    requires j < |shape|
    ensures Strides(shape, item)[j] == Size(shape[j + 1..]) * item
  {
    if j > 0 {
      StridesAt(shape[1..], item, j - 1);
      assert shape[1..][j..] == shape[j + 1..];
    }
  }

  method StridesForShape(shape: Shape, item: nat) returns (r: seq<nat>)
    ensures r == Strides(shape, item)
  {
    var strides: seq<nat> := [];
    var product := 1;
    var n := |shape|;
    assert shape[n..] == [];
    for i := n downto 0
      invariant |strides| == n - i && product == Size(shape[i..])
      invariant forall j :: 0 <= j < n - i ==> strides[j] == Size(shape[n - j..])
    {
      strides := strides + [product];
      product := product * shape[i];
      assert shape[i..][1..] == shape[i + 1..];
    }
    r := seq(n, j requires 0 <= j < n => strides[n - 1 - j] * item);
    forall j | 0 <= j < n ensures r[j] == Strides(shape, item)[j] { StridesAt(shape, item, j); }
  }

  method SizeForShape(shape: Shape) returns (product: nat)
    ensures product == Size(shape)
  {
    product := 1;
    assert shape[0..] == shape;
    for i := 0 to |shape|
      invariant product * Size(shape[i..]) == Size(shape)
    {
      assert shape[i..][1..] == shape[i + 1..];
      MulAssoc(product, shape[i], Size(shape[i + 1..]));
      product := product * shape[i];
    }
    assert shape[|shape|..] == [];
  }

  /** The sizes of the trailing parts of the shape. */
  method CumulativeShape(shape: Shape) returns (cumshape: seq<nat>)
    ensures |cumshape| == |shape| + 1
    ensures forall j :: 0 <= j <= |shape| ==> cumshape[j] == Size(shape[j..])
  {
    var n := |shape|;
    cumshape := [1];
    assert shape[n..] == [];
    for i := n downto 0
      invariant |cumshape| == n - i + 1
      invariant forall j :: 0 <= j <= n - i ==> cumshape[j] == Size(shape[i + j..])
    {
      assert shape[i..][1..] == shape[i + 1..];
      cumshape := [cumshape[0] * shape[i]] + cumshape;
    }
  }

  method KeyForIndex(index: nat, shape: Shape) returns (key: Key)
    requires shape != [] && Positive(shape)
    ensures key == KeyOf(index, shape)
  {
    hide *;
    var cumshape := CumulativeShape(shape);
    key := [];
    var rest := index;
    KeyWhole(index, shape);
    for a := 1 to |shape|
      invariant key + KeyOf(rest, shape[a - 1..]) == KeyOf(index, shape)
    {
      var s := cumshape[a];
      KeyDigit(rest, shape, a);
      var q := rest / s;
      Regroup(key, [q], KeyOf(rest - q * s, shape[a..]));
      key := key + [q];
      rest := rest - q * s;
    }
    KeyEnd(rest, shape);
    key := key + [rest];
  }

  lemma KeyWhole(index: nat, shape: Shape)
    requires shape != [] && Positive(shape)
    ensures shape[0..] == shape && Positive(shape[0..])
    ensures forall a :: 0 <= a < |shape| ==> shape[a..] != [] && Positive(shape[a..])
  {
  }

  /** The next digit of a mixed-radix number. */
  lemma KeyDigit(rest: nat, shape: Shape, a: nat)
    requires 0 < a < |shape| && Positive(shape)
    ensures Size(shape[a..]) > 0 && Positive(shape[a - 1..]) && Positive(shape[a..])
    ensures var s := Size(shape[a..]); var q := rest / s;
      0 <= rest - q * s && KeyOf(rest, shape[a - 1..]) == [q] + KeyOf(rest - q * s, shape[a..])
  {
    var tail := shape[a - 1..];
    assert tail[1..] == shape[a..];
    PositiveSize(tail[1..]);
    DivMod(rest, Size(tail[1..]));
  }

  lemma KeyEnd(rest: nat, shape: Shape)
    requires shape != [] && Positive(shape)
    ensures Positive(shape[|shape| - 1..]) && KeyOf(rest, shape[|shape| - 1..]) == [rest]
  {
  }

  lemma Regroup(a: Key, b: Key, c: Key)
    ensures a + (b + c) == (a + b) + c
  {
  }

  /** All the axes from a on are at their last position. */
  predicate Full(key: Key, shape: Shape)
    requires |key| == |shape|
  {
    forall i :: 0 <= i < |key| ==> key[i] + 1 == shape[i]
  }

  lemma {:induction false} FullOffset(key: Key, shape: Shape)
    requires |key| == |shape| && Positive(shape) && Full(key, shape)
    ensures Dot(key, Strides(shape, 1)) + 1 == Size(shape)
  {
    if key != [] {
      var rest := shape[1..];
      FullOffset(key[1..], rest);
      assert Strides(shape, 1)[1..] == Strides(rest, 1);
      Distribute(key[0], 1, Size(rest));
    }
  }

  lemma {:induction false} ZeroOffset(key: Key, strides: seq<nat>)
    requires |key| == |strides| && forall i :: 0 <= i < |key| ==> key[i] == 0
    ensures Dot(key, strides) == 0
  {
    if key != [] { ZeroOffset(key[1..], strides[1..]); }
  }

  /** Where two keys agree below axis a, where one is advanced there, and where everything
      after it has wrapped from full to zero, the offsets differ by one. */
  lemma {:induction false} Advance(key: Key, next: Key, shape: Shape, a: nat)
    requires |key| == |next| == |shape| && a < |shape| && Positive(shape)
    requires forall i :: 0 <= i < a ==> next[i] == key[i]
    requires next[a] == key[a] + 1
    requires forall i :: a < i < |shape| ==> key[i] + 1 == shape[i] && next[i] == 0
    ensures Dot(next, Strides(shape, 1)) == Dot(key, Strides(shape, 1)) + 1
  {
    var rest := shape[1..];
    assert Strides(shape, 1)[1..] == Strides(rest, 1);
    if a == 0 {
      FullOffset(key[1..], rest);
      ZeroOffset(next[1..], Strides(rest, 1));
      Distribute(key[0], 1, Size(rest));
    } else {
      Advance(key[1..], next[1..], rest, a - 1);
    }
  }

  /** The odometer: advance the key in place; false after the last key. */
  method IncrementMutableKey(key: array<nat>, shape: Shape) returns (more: bool)
    requires shape != [] && Positive(shape) && InRange(key[..], shape)
    modifies key
    ensures more <==> Dot(old(key[..]), Strides(shape, 1)) + 1 < Size(shape)
    ensures more ==>
      InRange(key[..], shape) && Dot(key[..], Strides(shape, 1)) == Dot(old(key[..]), Strides(shape, 1)) + 1
  {
    ghost var was := key[..];
    for axis := |shape| downto 0
      invariant forall i :: 0 <= i < axis ==> key[i] == was[i]
      invariant forall i :: axis <= i < |shape| ==> was[i] + 1 == shape[i] && key[i] == 0
    {
      key[axis] := key[axis] + 1;
      if key[axis] < shape[axis] {
        Advance(was, key[..], shape, axis);
        OffsetKey(key[..], shape);
        return true;
      }
      if axis == 0 {
        FullOffset(was, shape);
        return false;
      }
      key[axis] := 0;
    }
    FullOffset(was, shape);
    more := false;
  }

  /** Walking an array: the keys handed out so far and the one to come. */
  class NdIter {
    const shape: Shape
    const key: array<nat>
    var done: bool
    ghost var count: nat          // how many keys have been handed out

    ghost predicate Valid()
      reads this, key
    {
      && shape != [] && Positive(shape) && key.Length == |shape|
      && (done <==> count == Size(shape))
      && (!done ==> count < Size(shape) && key[..] == KeyOf(count, shape))
    }

    constructor (shape: Shape)
      requires shape != [] && Positive(shape)
      ensures Valid() && this.shape == shape && count == 0 && fresh(key)
    {
      this.shape := shape;
      key := new nat[|shape|](_ => 0);
      done := false;
      count := 0;
      new;
      PositiveSize(shape);
      ZeroOffset(key[..], Strides(shape, 1));
      OffsetKey(key[..], shape);
    }

    /** __next__: the next key, or nothing once every key has been handed out. */
    method Next() returns (more: bool, k: Key)
      requires Valid()
      modifies this, key
      ensures Valid()
      ensures more <==> old(count) < Size(shape)
      ensures more ==> k == KeyOf(old(count), shape) && count == old(count) + 1
      ensures !more ==> count == old(count)
    {
      if done { return false, []; }
      k := key[..];
      KeyOffset(count, shape, 1);
      var again := IncrementMutableKey(key, shape);
      if again { OffsetKey(key[..], shape); } else { done := true; }
      count := count + 1;
      more := true;
    }
  }
}
