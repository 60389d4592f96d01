/** Assigning a list of values through a view of an array.  The assignment looks for blocks it
    can walk with one step, and writes every block from the start of the view's data - so it
    does what it should exactly when there is a single block. */
module TinyAssign {
  import opened Numbers
  import opened TinyNumpy
  import opened TinyViews
  import opened Wrappers

  // ---------------------------------------------------------------- items in bytes

  /** struct.pack of an unsigned item, little-endian. */
  function Encode(v: nat, n: nat): (s: seq<nat>)
    ensures |s| == n
  {
    if n == 0 then [] else [v % 256] + Encode(v / 256, n - 1)
  }

  /** struct.unpack. */
  function Decode(s: seq<nat>): nat {
    if s == [] then 0 else s[0] + 256 * Decode(s[1..])
  }

  lemma {:induction false} DecodeEncode(v: nat, n: nat)
    requires v < Limit(n)
    ensures Decode(Encode(v, n)) == v
  {
    if n > 0 {
      DecodeEncode(v / 256, n - 1);
      assert Encode(v, n)[1..] == Encode(v / 256, n - 1);
    }
  }

  /** The lowest byte comes first. */
  lemma {:induction false} EncodeByte(v: nat, n: nat, k: nat)
    requires k < n
    ensures Limit(k) > 0 && Encode(v, n)[k] == v / Limit(k) % 256
  {
    LimitPositive(k);
    if k > 0 {
      EncodeByte(v / 256, n - 1, k - 1);
      LimitPositive(k - 1);
      DivDiv(v, 256, Limit(k - 1));
    }
  }

  lemma DivDiv(v: nat, a: nat, b: nat)
    requires a > 0 && b > 0
    ensures a * b > 0 && v / a / b == v / (a * b)
  {
    MulPositive(a, b);
    var q, r := v / a, v % a;
    var p, s := q / b, q % b;
    DivMod(v, a);
    DivMod(q, b);
    Rejoin(v, a, b, q, r, p, s);
    DivUnique(v, a * b, p, s * a + r);
  }

  lemma Rejoin(v: nat, a: nat, b: nat, q: nat, r: nat, p: nat, s: nat)
    requires v == q * a + r && q == p * b + s && r < a && s < b
    ensures v == p * (a * b) + (s * a + r) && s * a + r < a * b
  {
    Distribute(p * b, s, a);
    MulAssoc(p, b, a);
    MulMono(s + 1, b, a);
    Distribute(s, 1, a);
  }

  function Load(bytes: seq<nat>, o: nat, item: nat): nat
    requires o + item <= |bytes|
  {
    Decode(bytes[o..o + item])
  }

  function Store(bytes: seq<nat>, o: nat, item: nat, v: nat): (r: seq<nat>)
    requires o + item <= |bytes|
    ensures |r| == |bytes|
    ensures forall a :: 0 <= a < |bytes| && (a < o || o + item <= a) ==> r[a] == bytes[a]
    ensures r[o..o + item] == Encode(v, item)
  {
    bytes[..o] + Encode(v, item) + bytes[o + item..]
  }

  // ---------------------------------------------------------------- a run of items

  /** Where item j of a run starts. */
  function Slot(o: nat, gap: nat, j: nat): nat {
    o + j * gap
  }

  /** A run of count items, gap bytes apart, lies inside the buffer. */
  predicate RunFits(len: nat, o: nat, gap: nat, item: nat, count: nat) {
    0 < item <= gap && forall j :: 0 <= j < count ==> Slot(o, gap, j) + item <= len
  }

  /** Writing a list to an extended slice of the buffer: value j goes to item position j * step. */
  function StoreRun(bytes: seq<nat>, o: nat, gap: nat, item: nat, values: seq<nat>): (r: seq<nat>)
    requires RunFits(|bytes|, o, gap, item, |values|)
    ensures |r| == |bytes|
  {
    if values == [] then bytes
    else
      var k := |values| - 1;
      Store(StoreRun(bytes, o, gap, item, values[..k]), Slot(o, gap, k), item, values[k])
  }

  /** The byte at a belongs to item j of the run. */
  predicate InItem(a: int, o: nat, gap: nat, item: nat, j: nat) {
    Slot(o, gap, j) <= a < Slot(o, gap, j) + item
  }

  lemma ItemsApart(o: nat, gap: nat, item: nat, i: nat, j: nat)
    requires item <= gap && i < j
    ensures Slot(o, gap, i) + item <= Slot(o, gap, j)
  {
    MulMono(i + 1, j, gap);
    Distribute(i, 1, gap);
  }

  /** A later store elsewhere does not disturb an item. */
  lemma LoadStoreElsewhere(bytes: seq<nat>, o: nat, item: nat, v: nat, p: nat)
    requires o + item <= |bytes| && p + item <= o
    ensures Load(Store(bytes, o, item, v), p, item) == Load(bytes, p, item)
  {
    assert Store(bytes, o, item, v)[p..p + item] == bytes[p..p + item];
  }

  /** Every value of the run can be read back. */
  lemma {:induction false} RunLoads(bytes: seq<nat>, o: nat, gap: nat, item: nat, values: seq<nat>, j: nat)
    requires RunFits(|bytes|, o, gap, item, |values|) && j < |values| && values[j] < Limit(item)
    ensures Load(StoreRun(bytes, o, gap, item, values), Slot(o, gap, j), item) == values[j]
  {
    var k := |values| - 1;
    hide Slot;
    if j == k { DecodeEncode(values[k], item); }
    else {
      RunLoads(bytes, o, gap, item, values[..k], j);
      ItemsApart(o, gap, item, j, k);
      LoadStoreElsewhere(StoreRun(bytes, o, gap, item, values[..k]), Slot(o, gap, k), item, values[k], Slot(o, gap, j));
    }
  }

  /** Bytes outside the run are unchanged. */
  lemma {:induction false} RunLeaves(bytes: seq<nat>, o: nat, gap: nat, item: nat, values: seq<nat>, a: nat)
    requires RunFits(|bytes|, o, gap, item, |values|) && a < |bytes|
    requires forall j: nat :: j < |values| ==> !InItem(a, o, gap, item, j)
    ensures StoreRun(bytes, o, gap, item, values)[a] == bytes[a]
  {
    if values != [] {
      var k := |values| - 1;
      assert !InItem(a, o, gap, item, k);
      RunLeaves(bytes, o, gap, item, values[..k], a);
    }
  }

  // ---------------------------------------------------------------- steps and blocks

  /** The step, in items, with which the view can be walked from its start; 0 if there is none. */
  function GetStep(shape: Shape, strides: seq<nat>, item: nat): nat
    requires shape != [] && |shape| == |strides| && item > 0
  {
    var cont := Strides(shape, item);
    var last := |shape| - 1;
    StridesAt(shape, item, last);
    assert shape[last + 1..] == [];
    var step := strides[last] / cont[last];
    if strides == Scaled(cont, step) then step else 0
  }

  function Scaled(s: seq<nat>, step: nat): (r: seq<nat>)
    ensures |r| == |s| && forall i :: 0 <= i < |s| ==> r[i] == s[i] * step
  {
    seq(|s|, i requires 0 <= i < |s| => s[i] * step)
  }

  lemma {:induction false} DotScaled(key: Key, s: seq<nat>, step: nat)
    requires |key| == |s|
    ensures Dot(key, Scaled(s, step)) == Dot(key, s) * step
  {
    if key != [] {
      DotScaled(key[1..], s[1..], step);
      assert Scaled(s, step)[1..] == Scaled(s[1..], step);
      MulAssoc(key[0], s[0], step);
      Distribute(key[0] * s[0], Dot(key[1..], s[1..]), step);
    }
  }

  /** A view with a step is a run: its k-th item, in row-major order, is k steps on. */
  lemma StepWalks(shape: Shape, strides: seq<nat>, item: nat, k: nat)
    requires shape != [] && |shape| == |strides| && item > 0 && Positive(shape) && k < Size(shape)
    requires GetStep(shape, strides, item) > 0
    ensures |KeyOf(k, shape)| == |strides|
    ensures Dot(KeyOf(k, shape), strides) == k * (GetStep(shape, strides, item) * item)
  {
    var step := GetStep(shape, strides, item);
    KeyOffset(k, shape, item);
    DotScaled(KeyOf(k, shape), Strides(shape, item), step);
    SliceTerm(item, k, step);
    assert (item * k) * step == k * (item * step);
  }

  /** What is left of the view after fixing the first d positions. */
  ghost predicate Inner(v: View, d: nat) {
    WellFormed(v) && d < |v.shape| && forall i :: 0 <= i < |v.strides| ==> v.strides[i] > 0
  }

  function StepAt(v: View, d: nat): nat
    requires v.item > 0 && |v.shape| == |v.strides| && d < |v.shape|
  {
    GetStep(v.shape[d..], v.strides[d..], v.item)
  }

  function SizeAt(v: View, d: nat): nat
    requires d <= |v.shape|
  {
    Size(v.shape[d..])
  }

  /** A one-dimensional view always has a step. */
  lemma LastHasStep(v: View)
    requires WellFormed(v) && v.shape != [] && v.strides[|v.shape| - 1] > 0
    ensures StepAt(v, |v.shape| - 1) > 0
  {
    var d := |v.shape| - 1;
    var shape, strides := v.shape[d..], v.strides[d..];
    assert shape[1..] == [];
    assert Strides(shape, v.item) == [v.item];
    var q := strides[0] / v.item;
    DivMod(strides[0], v.item);
    assert strides[0] == q * v.item;
    assert strides == Scaled([v.item], q);
    if q == 0 { assert false; }
  }

  lemma NotLast(v: View, d: nat)
    requires Inner(v, d) && StepAt(v, d) == 0
    ensures d + 1 < |v.shape|
  {
    if d + 1 == |v.shape| { LastHasStep(v); }
  }

  /** The work left in a queue of sub-views, each given by how many positions are fixed. */
  ghost function Work(shape: Shape, d: nat): nat
    requires d < |shape|
    decreases |shape| - d
  {
    if d + 1 == |shape| then 1 else 1 + shape[d] * Work(shape, d + 1)
  }

  ghost predicate Depths(shape: Shape, queue: seq<nat>) {
    forall i :: 0 <= i < |queue| ==> queue[i] < |shape|
  }

  ghost function QueueWork(shape: Shape, queue: seq<nat>): nat
    requires Depths(shape, queue)
  {
    if queue == [] then 0 else Work(shape, queue[0]) + QueueWork(shape, queue[1..])
  }

  ghost function QueueSize(v: View, queue: seq<nat>): nat
    requires Depths(v.shape, queue)
  {
    if queue == [] then 0 else SizeAt(v, queue[0]) + QueueSize(v, queue[1..])
  }

  function Copies(d: nat, n: nat): (r: seq<nat>)
    ensures |r| == n && forall i :: 0 <= i < n ==> r[i] == d
  {
    seq(n, _ => d)
  }

  lemma {:induction false} QueueSums(v: View, queue: seq<nat>, d: nat, n: nat)
    requires Depths(v.shape, queue) && d < |v.shape|
    ensures Depths(v.shape, queue + Copies(d, n))
    ensures QueueWork(v.shape, queue + Copies(d, n)) == QueueWork(v.shape, queue) + n * Work(v.shape, d)
    ensures QueueSize(v, queue + Copies(d, n)) == QueueSize(v, queue) + n * SizeAt(v, d)
    decreases |queue|, n
  {
    var all := queue + Copies(d, n);
    if queue != [] {
      assert all[1..] == queue[1..] + Copies(d, n);
      QueueSums(v, queue[1..], d, n);
    } else if n > 0 {
      assert all[1..] == [] + Copies(d, n - 1);
      QueueSums(v, [], d, n - 1);
      Distribute(n - 1, 1, Work(v.shape, d));
      Distribute(n - 1, 1, SizeAt(v, d));
    }
  }

  lemma SizeSplit(v: View, d: nat)
    requires d < |v.shape|
    ensures SizeAt(v, d) == v.shape[d] * SizeAt(v, d + 1)
  {
    assert v.shape[d..][1..] == v.shape[d + 1..];
  }

  /** A block: where its values start in the list, and the sub-view it was found for. */
  datatype Block = Block(at: nat, depth: nat)

  /** The blocks the assignment writes, in order. */
  ghost function Blocks(v: View, queue: seq<nat>, at: nat): seq<Block>
    requires Inner(v, 0) && Depths(v.shape, queue)
    decreases QueueWork(v.shape, queue)
  {
    if queue == [] then []
    else
      var d := queue[0];
      if StepAt(v, d) > 0 then [Block(at, d)] + Blocks(v, queue[1..], at + SizeAt(v, d))
      else
        SplitShrinks(v, queue);
        Blocks(v, Split(v.shape, queue), at)
  }

  /** The queue after its first view, which has no step, is replaced by its sub-views at the end. */
  ghost function Split(shape: Shape, queue: seq<nat>): seq<nat>
    requires Depths(shape, queue) && queue != []
  {
    queue[1..] + Copies(queue[0] + 1, shape[queue[0]])
  }

  lemma SplitShrinks(v: View, queue: seq<nat>)
    requires Inner(v, 0) && Depths(v.shape, queue) && queue != [] && StepAt(v, queue[0]) == 0
    ensures Depths(v.shape, Split(v.shape, queue)) && Split(v.shape, queue) != []
    ensures QueueWork(v.shape, Split(v.shape, queue)) < QueueWork(v.shape, queue)
    ensures QueueSize(v, Split(v.shape, queue)) == QueueSize(v, queue)
    ensures queue[0] + 1 < |v.shape|
    ensures |queue| > 1 || v.shape[queue[0]] > 1 ==> |Split(v.shape, queue)| > 1
    ensures |queue| == 1 && v.shape[queue[0]] == 1 ==> Split(v.shape, queue) == [queue[0] + 1]
  {
    var d := queue[0];
    NotLast(v, d);
    QueueSums(v, queue[1..], d + 1, v.shape[d]);
    SizeSplit(v, d);
  }

  /** A sub-view's run stays where the view is. */
  ghost predicate ViewFits(v: View, len: nat) {
    WellFormed(v) && forall key :: InRange(key, v.shape) ==> Address(v, key) + v.item <= len
  }

  lemma {:induction false} Padded(v: View, d: nat, key: Key)
    requires WellFormed(v) && d <= |v.shape| && InRange(key, v.shape[d..])
    ensures InRange(Copies(0, d) + key, v.shape)
    ensures Dot(Copies(0, d) + key, v.strides) == Dot(key, v.strides[d..])
  {
    PaddedDot(v.strides, d, key);
    var c := Copies(0, d) + key;
    forall i | 0 <= i < |c| ensures c[i] < v.shape[i] {
      if i >= d { assert v.shape[d..][i - d] == v.shape[i]; }
    }
  }

  lemma {:induction false} PaddedDot(strides: seq<nat>, d: nat, key: Key)
    requires d <= |strides| && |key| == |strides| - d
    ensures Dot(Copies(0, d) + key, strides) == Dot(key, strides[d..])
  {
    if d > 0 {
      PaddedDot(strides[1..], d - 1, key);
      assert (Copies(0, d) + key)[1..] == Copies(0, d - 1) + key;
      assert strides[1..][d - 1..] == strides[d..];
    } else {
      assert Copies(0, 0) + key == key && strides[0..] == strides;
    }
  }

  lemma BlockFits(v: View, d: nat, len: nat)
    requires Inner(v, d) && ViewFits(v, len) && StepAt(v, d) > 0
    ensures RunFits(len, v.offset, StepAt(v, d) * v.item, v.item, SizeAt(v, d))
  {
    var shape, strides := v.shape[d..], v.strides[d..];
    var gap := StepAt(v, d) * v.item;
    MulMono(1, StepAt(v, d), v.item);
    forall j: nat | j < SizeAt(v, d) ensures Slot(v.offset, gap, j) + v.item <= len {
      KeyOffset(j, shape, 1);
      StepWalks(shape, strides, v.item, j);
      Padded(v, d, KeyOf(j, shape));
      assert Address(v, Copies(0, d) + KeyOf(j, shape)) + v.item <= len;
    }
  }

  // ---------------------------------------------------------------- what the assignment leaves behind

  ghost predicate BlockOk(v: View, from: nat, b: Block, values: seq<nat>)
    requires Inner(v, 0)
  {
    b.depth < |v.shape| && StepAt(v, b.depth) > 0 && from <= b.at && b.at + SizeAt(v, b.depth) <= |values|
  }

  /** The blocks take their values from the list, at from or later. */
  ghost predicate BlocksOk(v: View, from: nat, blocks: seq<Block>, values: seq<nat>) {
    Inner(v, 0) && forall i :: 0 <= i < |blocks| ==> BlockOk(v, from, blocks[i], values)
  }

  lemma BlocksTail(v: View, from: nat, blocks: seq<Block>, values: seq<nat>)
    requires BlocksOk(v, from, blocks, values) && blocks != []
    ensures BlocksOk(v, from, blocks[1..], values) && BlockOk(v, from, blocks[0], values) && Inner(v, blocks[0].depth)
  {
    forall i | 0 <= i < |blocks| - 1 ensures BlockOk(v, from, blocks[1..][i], values) {
      assert BlockOk(v, from, blocks[i + 1], values);
    }
    assert BlockOk(v, from, blocks[0], values);
  }

  lemma BlocksCons(v: View, from: nat, b: Block, later: nat, blocks: seq<Block>, values: seq<nat>)
    requires BlocksOk(v, later, blocks, values) && from <= later && BlockOk(v, from, b, values)
    ensures BlocksOk(v, from, [b] + blocks, values)
  {
    var all := [b] + blocks;
    forall i | 0 <= i < |all| ensures BlockOk(v, from, all[i], values) {
      if i > 0 { assert all[i] == blocks[i - 1] && BlockOk(v, later, blocks[i - 1], values); }
    }
  }

  ghost function BlockValues(v: View, b: Block, values: seq<nat>): (s: seq<nat>)
    requires b.depth <= |v.shape| && b.at + SizeAt(v, b.depth) <= |values|
    ensures |s| == SizeAt(v, b.depth)
  {
    values[b.at..b.at + SizeAt(v, b.depth)]
  }

  /** Every block is written from the start of the view's data. */
  ghost function WriteBlocks(bytes: seq<nat>, v: View, blocks: seq<Block>, values: seq<nat>): (r: seq<nat>)
    requires BlocksOk(v, 0, blocks, values) && ViewFits(v, |bytes|)
    ensures |r| == |bytes|
    decreases |blocks|
  {
    if blocks == [] then bytes
    else
      var b := blocks[0];
      BlocksTail(v, 0, blocks, values);
      BlockFits(v, b.depth, |bytes|);
      WriteBlocks(StoreRun(bytes, v.offset, StepAt(v, b.depth) * v.item, v.item, BlockValues(v, b, values)), v,
          blocks[1..], values)
  }

  /** The blocks use up the list, each block the next stretch of it. */
  lemma {:induction false} BlocksUseList(v: View, queue: seq<nat>, at: nat, values: seq<nat>)
    requires Inner(v, 0) && Depths(v.shape, queue) && at + QueueSize(v, queue) == |values|
    ensures BlocksOk(v, at, Blocks(v, queue, at), values)
    decreases QueueWork(v.shape, queue)
  {
    hide StepAt, SizeAt;
    if queue == [] {
      assert Blocks(v, queue, at) == [];
    } else {
      var d := queue[0];
      if StepAt(v, d) > 0 {
        assert BlockOk(v, at, Block(at, d), values);
        BlocksUseList(v, queue[1..], at + SizeAt(v, d), values);
        BlocksCons(v, at, Block(at, d), at + SizeAt(v, d), Blocks(v, queue[1..], at + SizeAt(v, d)), values);
      } else {
        SplitShrinks(v, queue);
        BlocksUseList(v, Split(v.shape, queue), at, values);
      }
    }
  }

  /** The memory after assigning the list to the view. */
  ghost function Assigned(bytes: seq<nat>, v: View, values: seq<nat>): (r: seq<nat>)
    requires Inner(v, 0) && ViewFits(v, |bytes|) && |values| == Size(v.shape)
  {
    QueueOfOne(v);
    BlocksUseList(v, [0], 0, values);
    WriteBlocks(bytes, v, Blocks(v, [0], 0), values)
  }

  lemma QueueOfOne(v: View)
    requires v.shape != []
    ensures Depths(v.shape, [0]) && QueueSize(v, [0]) == Size(v.shape)
  {
    assert v.shape[0..] == v.shape && [0][1..] == [];
    assert QueueSize(v, []) == 0;
  }

  /** The item at the view's j-th key is x. */
  ghost predicate Holds(bytes: seq<nat>, v: View, j: nat, x: nat)
    requires WellFormed(v) && v.shape != []
  {
    var a := Address(v, KeyOf(j, v.shape));
    a + v.item <= |bytes| && Load(bytes, a, v.item) == x
  }

  /** What assigning a list should do: value j is at the view's j-th key, and no byte outside the
      view's items has changed. */
  ghost predicate Lawful(before: seq<nat>, after: seq<nat>, v: View, values: seq<nat>)
    requires WellFormed(v) && v.shape != [] && |values| == Size(v.shape)
  {
    && |after| == |before|
    && (forall j: nat :: j < |values| ==> Holds(after, v, j, values[j]))
    && (forall a :: 0 <= a < |before| && !Covered(v, a) ==> after[a] == before[a])
  }

  /** The byte at a belongs to an item of the view. */
  ghost predicate Covered(v: View, a: int)
    requires WellFormed(v)
  {
    exists key :: InRange(key, v.shape) && Address(v, key) <= a < Address(v, key) + v.item
  }

  /** The view is one block: it has a step, perhaps after leading axes of length one. */
  predicate OneBlock(v: View, d: nat)
    requires v.item > 0 && |v.shape| == |v.strides| && d < |v.shape|
    decreases |v.shape| - d
  {
    StepAt(v, d) > 0 || (d + 1 < |v.shape| && v.shape[d] == 1 && OneBlock(v, d + 1))
  }

  /** From axis d on the view's items are step items apart, in row-major order. */
  predicate EvenFrom(v: View, d: nat, step: nat)
    requires |v.shape| == |v.strides|
  {
    step > 0 && forall i :: d <= i < |v.shape| ==> v.strides[i] == v.item * Size(v.shape[i + 1..]) * step
  }

  lemma StepByStrides(v: View, d: nat)
    requires WellFormed(v) && d < |v.shape|
    ensures StepAt(v, d) > 0 ==> EvenFrom(v, d, StepAt(v, d))
    ensures forall step: nat :: EvenFrom(v, d, step) ==> StepAt(v, d) == step
  {
    var shape, strides := v.shape[d..], v.strides[d..];
    var cont, last := Strides(shape, v.item), |shape| - 1;
    forall i: nat | i < |shape| ensures cont[i] == v.item * Size(v.shape[d + i + 1..]) {
      StridesAt(shape, v.item, i);
      assert shape[i + 1..] == v.shape[d + i + 1..];
    }
    hide Strides, Size;
    if StepAt(v, d) > 0 {
      forall i | d <= i < |v.shape| ensures v.strides[i] == v.item * Size(v.shape[i + 1..]) * StepAt(v, d) {
        assert v.strides[i] == strides[i - d] && cont[i - d] == v.item * Size(v.shape[d + (i - d) + 1..]);
      }
    }
    forall step: nat | EvenFrom(v, d, step) ensures StepAt(v, d) == step {
      forall i | 0 <= i < |strides| ensures strides[i] == cont[i] * step { assert strides[i] == v.strides[d + i]; }
      LastStride(shape, v.item);
      DivUnique(strides[last], cont[last], step, 0);
      assert strides == Scaled(cont, step);
    }
  }

  lemma LastStride(shape: Shape, item: nat)
    requires shape != [] && item > 0
    ensures |Strides(shape, item)| == |shape| && Strides(shape, item)[|shape| - 1] == item
  {
    StridesAt(shape, item, |shape| - 1);
    assert shape[|shape| - 1 + 1..] == [];
  }

  /** Told from shape and strides: the view is one block exactly if, after leading axes of length
      one, its items are evenly spaced. */
  lemma {:induction false} OneBlockByStrides(v: View, d: nat)
    requires WellFormed(v) && d < |v.shape|
    ensures OneBlock(v, d) <==> exists b, step: nat ::
      d <= b < |v.shape| && (forall i :: d <= i < b ==> v.shape[i] == 1) && EvenFrom(v, b, step)
    decreases |v.shape| - d
  {
    hide Size;
    StepByStrides(v, d);
    if d + 1 < |v.shape| { OneBlockByStrides(v, d + 1); }
  }

  /** Where a single block is found. */
  function BlockDepth(v: View, d: nat): (b: nat)
    requires v.item > 0 && |v.shape| == |v.strides| && d < |v.shape| && OneBlock(v, d)
    ensures d <= b < |v.shape| && StepAt(v, b) > 0 && forall i :: d <= i < b ==> v.shape[i] == 1
    decreases |v.shape| - d
  {
    if StepAt(v, d) > 0 then d else BlockDepth(v, d + 1)
  }

  lemma {:induction false} SingleBlock(v: View, d: nat)
    requires Inner(v, d) && OneBlock(v, d)
    ensures Blocks(v, [d], 0) == [Block(0, BlockDepth(v, d))]
    decreases |v.shape| - d
  {
    assert [d][1..] == [];
    if StepAt(v, d) > 0 {
      assert Blocks(v, [], SizeAt(v, d)) == [];
    } else {
      SplitShrinks(v, [d]);
      SingleBlock(v, d + 1);
    }
  }

  lemma {:induction false} UnitAxes(v: View, d: nat, b: nat, k: nat)
    requires WellFormed(v) && d <= b < |v.shape| && k < SizeAt(v, d)
    requires forall i :: d <= i < b ==> v.shape[i] == 1
    ensures SizeAt(v, b) == SizeAt(v, d)
    ensures v.shape[d..] != [] && Positive(v.shape[d..]) && Positive(v.shape[b..])
    ensures KeyOf(k, v.shape[d..]) == Copies(0, b - d) + KeyOf(k, v.shape[b..])
    decreases b - d
  {
    if d < b {
      assert v.shape[d..][1..] == v.shape[d + 1..];
      UnitAxes(v, d + 1, b, k);
      var s := SizeAt(v, d + 1);
      DivUnique(k, s, 0, k);
      assert KeyOf(k, v.shape[d..]) == [0] + KeyOf(k, v.shape[d + 1..]);
      assert [0] + Copies(0, b - d - 1) == Copies(0, b - d);
    } else {
      assert Copies(0, 0) == [];
    }
  }

  /** A view of one block is a run. */
  lemma BlockIsRun(v: View, j: nat)
    requires Inner(v, 0) && OneBlock(v, 0) && j < Size(v.shape)
    ensures InRange(KeyOf(j, v.shape), v.shape)
    ensures Address(v, KeyOf(j, v.shape)) == Slot(v.offset, StepAt(v, BlockDepth(v, 0)) * v.item, j)
  {
    hide *;
    AtStartOf(v);
    var b := BlockDepth(v, 0);
    AtDepth(v, b);
    UnitAxes(v, 0, b, j);
    InnerKey(v, b, j);
  }

  lemma AtStartOf(v: View)
    requires Inner(v, 0)
    ensures v.item > 0 && |v.shape| == |v.strides| && 0 < |v.shape| && WellFormed(v)
  {
  }

  lemma AtDepth(v: View, d: nat)
    requires Inner(v, 0) && d < |v.shape|
    ensures WellFormed(v) && v.shape != [] && |v.strides| == |v.shape| && v.item > 0 && Positive(v.shape)
    ensures v.shape[0..] == v.shape && SizeAt(v, 0) == Size(v.shape)
    ensures v.shape[d..] != [] && v.strides[d..] != [] && Positive(v.shape[d..])
    ensures StepAt(v, d) == GetStep(v.shape[d..], v.strides[d..], v.item) && SizeAt(v, d) == Size(v.shape[d..])
  {
  }

  /** The j-th key below axis d, with zeros before it. */
  lemma InnerKey(v: View, d: nat, j: nat)
    requires Inner(v, 0) && d < |v.shape| && StepAt(v, d) > 0 && j < SizeAt(v, d)
    requires v.shape[d..] != [] && Positive(v.shape[d..])
    ensures var key := Copies(0, d) + KeyOf(j, v.shape[d..]);
      InRange(key, v.shape) && |key| == |v.strides| && Address(v, key) == Slot(v.offset, StepAt(v, d) * v.item, j)
  {
    AtDepth(v, d);
    KeyOffset(j, v.shape[d..], 1);
    StepWalks(v.shape[d..], v.strides[d..], v.item, j);
    Padded(v, d, KeyOf(j, v.shape[d..]));
    hide Inner, WellFormed, StepAt, SizeAt, Size, KeyOf, InRange, Copies, GetStep, Dot, Positive;
  }

  lemma OneRun(bytes: seq<nat>, v: View, values: seq<nat>)
    requires Inner(v, 0) && ViewFits(v, |bytes|) && |values| == Size(v.shape) && OneBlock(v, 0)
    ensures RunFits(|bytes|, v.offset, StepAt(v, BlockDepth(v, 0)) * v.item, v.item, |values|)
    ensures Assigned(bytes, v, values)
         == StoreRun(bytes, v.offset, StepAt(v, BlockDepth(v, 0)) * v.item, v.item, values)
  {
    SingleBlock(v, 0);
    var b := BlockDepth(v, 0);
    assert v.shape[0..] == v.shape;
    PositiveSize(v.shape);
    UnitAxes(v, 0, b, 0);
    BlockFits(v, b, |bytes|);
    QueueOfOne(v);
    BlocksUseList(v, [0], 0, values);
    var blk := Block(0, b);
    assert BlockValues(v, blk, values) == values;
    WriteOne(bytes, v, blk, values);
  }

  lemma WriteOne(bytes: seq<nat>, v: View, b: Block, values: seq<nat>)
    requires BlocksOk(v, 0, [b], values) && ViewFits(v, |bytes|)
    ensures BlockOk(v, 0, b, values)
    ensures RunFits(|bytes|, v.offset, StepAt(v, b.depth) * v.item, v.item, SizeAt(v, b.depth))
    ensures WriteBlocks(bytes, v, [b], values)
         == StoreRun(bytes, v.offset, StepAt(v, b.depth) * v.item, v.item, BlockValues(v, b, values))
  {
    BlocksTail(v, 0, [b], values);
    BlockFits(v, b.depth, |bytes|);
    assert [b][1..] == [];
    var r := StoreRun(bytes, v.offset, StepAt(v, b.depth) * v.item, v.item, BlockValues(v, b, values));
    assert WriteBlocks(r, v, [], values) == r;
  }

  /** With one block, the assignment does what it should. */
  lemma OneBlockIsLawful(bytes: seq<nat>, v: View, values: seq<nat>)
    requires Inner(v, 0) && ViewFits(v, |bytes|) && |values| == Size(v.shape) && OneBlock(v, 0)
    requires forall j :: 0 <= j < |values| ==> values[j] < Limit(v.item)
    ensures Lawful(bytes, Assigned(bytes, v, values), v, values)
  {
    var gap := StepAt(v, BlockDepth(v, 0)) * v.item;
    OneRun(bytes, v, values);
    var after := Assigned(bytes, v, values);
    forall j: nat | j < |values| ensures Holds(after, v, j, values[j]) {
      BlockIsRun(v, j);
      RunLoads(bytes, v.offset, gap, v.item, values, j);
    }
    forall a | 0 <= a < |bytes| && !Covered(v, a) ensures after[a] == bytes[a] {
      forall j: nat | j < |values| ensures !InItem(a, v.offset, gap, v.item, j) { BlockIsRun(v, j); }
      RunLeaves(bytes, v.offset, gap, v.item, values, a);
    }
  }

  // ---------------------------------------------------------------- more than one block

  /** The last of a non-empty list of blocks starts here. */
  ghost function LastAt(blocks: seq<Block>): nat
    requires blocks != []
  {
    blocks[|blocks| - 1].at
  }

  lemma LastOfCons(b: Block, rest: seq<Block>)
    requires rest != []
    ensures LastAt([b] + rest) == LastAt(rest)
  {
  }

  lemma {:induction false} BlocksFrom(v: View, queue: seq<nat>, at: nat)
    requires Inner(v, 0) && Depths(v.shape, queue) && queue != []
    ensures Blocks(v, queue, at) != [] && LastAt(Blocks(v, queue, at)) >= at
    decreases QueueWork(v.shape, queue)
  {
    hide StepAt, SizeAt;
    var d := queue[0];
    if StepAt(v, d) > 0 {
      var rest := Blocks(v, queue[1..], at + SizeAt(v, d));
      if |queue| > 1 {
        BlocksFrom(v, queue[1..], at + SizeAt(v, d));
        LastOfCons(Block(at, d), rest);
      } else {
        assert rest == [];
      }
    } else {
      SplitShrinks(v, queue);
      BlocksFrom(v, Split(v.shape, queue), at);
    }
  }

  lemma SizePositive(v: View, d: nat)
    requires WellFormed(v) && d <= |v.shape|
    ensures SizeAt(v, d) > 0
  {
    PositiveSize(v.shape[d..]);
  }

  /** With more than one block, the last one takes its values from further on in the list. */
  lemma {:induction false} LastBlockLate(v: View, queue: seq<nat>, at: nat)
    requires Inner(v, 0) && Depths(v.shape, queue) && queue != []
    requires |queue| == 1 ==> !OneBlock(v, queue[0])
    ensures Blocks(v, queue, at) != [] && LastAt(Blocks(v, queue, at)) > at
    decreases QueueWork(v.shape, queue)
  {
    var d := queue[0];
    if StepAt(v, d) > 0 {
      FirstOfMany(v, queue, at);
    } else {
      SplitShrinks(v, queue);
      assert v.shape[d] > 0;
      assert |queue| == 1 && v.shape[d] == 1 ==> !OneBlock(v, d + 1);
      assert Blocks(v, queue, at) == Blocks(v, Split(v.shape, queue), at);
      assert |Split(v.shape, queue)| == 1 ==> !OneBlock(v, Split(v.shape, queue)[0]);
      hide *;
      LastBlockLate(v, Split(v.shape, queue), at);
    }
  }

  lemma FirstOfMany(v: View, queue: seq<nat>, at: nat)
    requires Inner(v, 0) && Depths(v.shape, queue) && |queue| > 0 && StepAt(v, queue[0]) > 0
    requires |queue| == 1 ==> !OneBlock(v, queue[0])
    ensures Blocks(v, queue, at) != [] && LastAt(Blocks(v, queue, at)) > at
  {
    hide *;
    var d := queue[0];
    ManyLeft(v, queue);
    SizePositive(v, d);
    FirstBlock(v, queue, at);
    BlocksFrom(v, queue[1..], at + SizeAt(v, d));
    LastOfCons(Block(at, d), Blocks(v, queue[1..], at + SizeAt(v, d)));
  }

  lemma ManyLeft(v: View, queue: seq<nat>)
    requires Inner(v, 0) && Depths(v.shape, queue) && |queue| > 0 && StepAt(v, queue[0]) > 0
    requires |queue| == 1 ==> !OneBlock(v, queue[0])
    ensures WellFormed(v) && queue[0] < |v.shape| && |v.shape| == |v.strides| && |queue| > 1 && queue[1..] != []
    ensures Depths(v.shape, queue[1..])
  {
    assert OneBlock(v, queue[0]);
    hide StepAt;
  }

  lemma FirstBlock(v: View, queue: seq<nat>, at: nat)
    requires Inner(v, 0) && Depths(v.shape, queue) && |queue| > 0 && StepAt(v, queue[0]) > 0
    ensures Depths(v.shape, queue[1..])
    ensures Blocks(v, queue, at) == [Block(at, queue[0])] + Blocks(v, queue[1..], at + SizeAt(v, queue[0]))
  {
    hide StepAt, SizeAt, Work, QueueWork;
  }

  lemma OnlyBlock(bytes: seq<nat>, v: View, b: Block, values: seq<nat>)
    requires BlocksOk(v, 0, [b], values) && ViewFits(v, |bytes|)
    requires forall j :: 0 <= j < |values| ==> values[j] < Limit(v.item)
    ensures b.at < |values| && v.offset + v.item <= |bytes|
    ensures Load(WriteBlocks(bytes, v, [b], values), v.offset, v.item) == values[b.at]
  {
    WriteOne(bytes, v, b, values);
    SizePositive(v, b.depth);
    var gap := StepAt(v, b.depth) * v.item;
    assert Slot(v.offset, gap, 0) == v.offset;
    var run := BlockValues(v, b, values);
    assert run[0] == values[b.at];
    hide StepAt, SizeAt, StoreRun, Load, WriteBlocks, BlocksOk, ViewFits, BlockValues, Slot;
    RunLoads(bytes, v.offset, gap, v.item, run, 0);
  }

  /** All blocks start at the view's first item, so the last block decides what it holds. */
  lemma {:induction false} LastBlockWins(bytes: seq<nat>, v: View, blocks: seq<Block>, values: seq<nat>)
    requires BlocksOk(v, 0, blocks, values) && ViewFits(v, |bytes|) && blocks != []
    requires forall j :: 0 <= j < |values| ==> values[j] < Limit(v.item)
    ensures LastAt(blocks) < |values| && v.offset + v.item <= |bytes|
    ensures Load(WriteBlocks(bytes, v, blocks, values), v.offset, v.item) == values[LastAt(blocks)]
    decreases |blocks|
  {
    var b := blocks[0];
    BlocksTail(v, 0, blocks, values);
    BlockFits(v, b.depth, |bytes|);
    if |blocks| == 1 {
      assert blocks == [b];
      OnlyBlock(bytes, v, b, values);
    } else {
      var r := StoreRun(bytes, v.offset, StepAt(v, b.depth) * v.item, v.item, BlockValues(v, b, values));
      assert WriteBlocks(bytes, v, blocks, values) == WriteBlocks(r, v, blocks[1..], values);
      hide StepAt, SizeAt, StoreRun, Load, WriteBlocks, BlocksOk, ViewFits, BlockValues, RunFits;
      LastBlockWins(r, v, blocks[1..], values);
    }
  }

  /** Zero first, ones after it. */
  function ZeroThenOnes(n: nat): (s: seq<nat>)
    ensures |s| == n
  {
    seq(n, i => if i == 0 then 0 else 1)
  }

  /** With more than one block the first item ends up with a later value. */
  lemma MoreBlocksUnlawful(bytes: seq<nat>, v: View)
    requires Inner(v, 0) && ViewFits(v, |bytes|) && !OneBlock(v, 0)
    ensures var values := ZeroThenOnes(Size(v.shape)); !Lawful(bytes, Assigned(bytes, v, values), v, values)
  {
    var values := ZeroThenOnes(Size(v.shape));
    var after := Assigned(bytes, v, values);
    FirstItemIsOne(bytes, v);
    FirstAddress(v);
    PositiveSize(v.shape);
    assert !Holds(after, v, 0, values[0]);
  }

  lemma FirstItemIsOne(bytes: seq<nat>, v: View)
    requires Inner(v, 0) && ViewFits(v, |bytes|) && !OneBlock(v, 0)
    ensures v.offset + v.item <= |bytes|
    ensures Load(Assigned(bytes, v, ZeroThenOnes(Size(v.shape))), v.offset, v.item) == 1
  {
    var values := ZeroThenOnes(Size(v.shape));
    QueueOfOne(v);
    BlocksUseList(v, [0], 0, values);
    LastBlockLate(v, [0], 0);
    OneFits(v.item);
    LastBlockWins(bytes, v, Blocks(v, [0], 0), values);
  }

  /** The view's first item is at its offset. */
  lemma FirstAddress(v: View)
    requires WellFormed(v) && v.shape != []
    ensures |KeyOf(0, v.shape)| == |v.strides| && Address(v, KeyOf(0, v.shape)) == v.offset
  {
    FirstKey(v.shape);
    ZeroOffset(KeyOf(0, v.shape), v.strides);
  }

  lemma OneFits(item: nat)
    requires item > 0
    ensures 1 < Limit(item)
  {
    LimitPositive(item - 1);
  }

  lemma {:induction false} FirstKey(shape: Shape)
    requires shape != [] && Positive(shape)
    ensures forall i :: 0 <= i < |shape| ==> KeyOf(0, shape)[i] == 0
  {
    if |shape| > 1 {
      FirstKey(shape[1..]);
      PositiveSize(shape[1..]);
      DivUnique(0, Size(shape[1..]), 0, 0);
      assert KeyOf(0, shape)[1..] == KeyOf(0, shape[1..]);
    }
  }

  /** What assigning a number should do: every item of the view is n, and no byte outside the view's
      items has changed. */
  ghost predicate Filled(before: seq<nat>, after: seq<nat>, v: View, n: nat)
    requires WellFormed(v)
  {
    && |after| == |before|
    && (forall key :: InRange(key, v.shape) ==>
          Address(v, key) + v.item <= |after| && Load(after, Address(v, key), v.item) == n)
    && (forall a :: 0 <= a < |before| && !Covered(v, a) ==> after[a] == before[a])
  }

  /** The value at a key of the view is the one at the key's offset in the list. */
  lemma LawfulAt(before: seq<nat>, after: seq<nat>, v: View, values: seq<nat>, key: Key)
    requires WellFormed(v) && v.shape != [] && |values| == Size(v.shape) && Lawful(before, after, v, values)
    requires InRange(key, v.shape)
    ensures |key| == |Strides(v.shape, 1)| == |v.strides| && Dot(key, Strides(v.shape, 1)) < |values|
    ensures Address(v, key) + v.item <= |after|
    ensures Load(after, Address(v, key), v.item) == values[Dot(key, Strides(v.shape, 1))]
  {
    hide Load, Covered, KeyOf, Size, Dot;
    OffsetKey(key, v.shape);
    var j := Dot(key, Strides(v.shape, 1));
    assert Holds(after, v, j, values[j]);
  }

  lemma LawfulIsFilled(before: seq<nat>, after: seq<nat>, v: View, n: nat)
    requires WellFormed(v) && v.shape != [] && Lawful(before, after, v, Copies(n, Size(v.shape)))
    ensures Filled(before, after, v, n)
  {
    hide Load, Covered, KeyOf, Size, Dot, Holds, InRange, Multiples, Positive;
    forall key | InRange(key, v.shape)
      ensures |key| == |v.strides| && Address(v, key) + v.item <= |after|
      ensures Load(after, Address(v, key), v.item) == n
    {
      LawfulAt(before, after, v, Copies(n, Size(v.shape)), key);
    }
  }

  lemma OneBlockIsFilled(bytes: seq<nat>, v: View, n: nat)
    requires Inner(v, 0) && ViewFits(v, |bytes|) && OneBlock(v, 0) && n < Limit(v.item)
    ensures Filled(bytes, Assigned(bytes, v, Copies(n, Size(v.shape))), v, n)
  {
    hide Lawful, Filled, Assigned, OneBlock, ViewFits;
    OneBlockIsLawful(bytes, v, Copies(n, Size(v.shape)));
    LawfulIsFilled(bytes, Assigned(bytes, v, Copies(n, Size(v.shape))), v, n);
  }

  lemma StoreLoads(bytes: seq<nat>, o: nat, item: nat, n: nat)
    requires o + item <= |bytes| && n < Limit(item)
    ensures Load(Store(bytes, o, item, n), o, item) == n
  {
    DecodeEncode(n, item);
  }

  ghost predicate FitsItem(v: View, values: seq<nat>) {
    |values| == Size(v.shape) && forall j :: 0 <= j < |values| ==> values[j] < Limit(v.item)
  }

  /** Exactly for which views assigning a list does what it should: for every list, if and only
      if the view has a step once leading axes of length one are dropped. */
  lemma AssignmentIsLawfulIff(bytes: seq<nat>, v: View)
    requires Inner(v, 0) && ViewFits(v, |bytes|)
    ensures OneBlock(v, 0) <==>
      forall values :: FitsItem(v, values) ==> Lawful(bytes, Assigned(bytes, v, values), v, values)
  {
    if OneBlock(v, 0) {
      forall values | FitsItem(v, values) ensures Lawful(bytes, Assigned(bytes, v, values), v, values) {
        OneBlockIsLawful(bytes, v, values);
      }
    } else {
      MoreBlocksUnlawful(bytes, v);
      var values := ZeroThenOnes(Size(v.shape));
      OneFits(v.item);
      assert FitsItem(v, values);
    }
  }

  /** a[:, :2] */
  function FirstTwoColumns(): seq<Selector> {
    [Slice(None, None, 1), Slice(None, Some(2), 1)]
  }

  /** The first two columns of a 2 by 3 array of bytes. */
  lemma TwoColumnsView()
    ensures var a, v := Whole([2, 3], 1), View([2, 2], [3, 1], 1, 0);
      && WellFormed(a) && Applies(FirstTwoColumns(), a) && Subview(a, FirstTwoColumns()) == v
  {
    var a, keys := Whole([2, 3], 1), FirstTwoColumns();
    assert [2, 3][1..] == [3] && [3][1..] == [] && Size([3]) == 3 && Strides([3], 1) == [1];
    assert a.strides == [3, 1];
    StridesMultiples([2, 3], 1);
    assert [3, 1][1..] == [1] && [1][1..] == [];
    assert keys[1..] == [Slice(None, Some(2), 1)] && keys[1..][1..] == [];
    assert Count(keys[0], 2) == 2 && Count(keys[1], 3) == 2;
    assert First(keys[0], 2) == First(keys[1], 3) == 0 && Skip(0, 3, 1) == Skip(0, 1, 1) == 0;
    var none := Selected([], [], [], 1);
    assert none == (0, [], []);
    var inner := Selected([Slice(None, Some(2), 1)], [3], [1], 1);
    assert inner.0 == 0 && inner.1 == [2] + none.1 && inner.2 == [1 * 1] + none.2;
    assert inner.1 == [2] && inner.2 == [1];
    var both := Selected(keys, [2, 3], [3, 1], 1);
    assert both.0 == 0 && both.1 == [2] + inner.1 && both.2 == [1 * 3] + inner.2;
    assert both.1 == [2, 2] && both.2 == [3, 1];
  }

  lemma DotTwo(key: Key, strides: seq<nat>)
    requires |key| == |strides| == 2
    ensures Dot(key, strides) == key[0] * strides[0] + key[1] * strides[1]
  {
    var k, s := key[1..], strides[1..];
    assert k[0] == key[1] && s[0] == strides[1] && k[1..] == [] && s[1..] == [];
    assert Dot(k[1..], s[1..]) == 0;
    assert Dot(k, s) == key[1] * strides[1];
  }

  lemma TwoColumnsBlocks()
    ensures var v := View([2, 2], [3, 1], 1, 0); Inner(v, 0) && ViewFits(v, 6) && !OneBlock(v, 0)
  {
    var v := View([2, 2], [3, 1], 1, 0);
    assert v.shape[0..] == [2, 2] && v.strides[0..] == [3, 1];
    assert [2, 2][1..] == [2] && [2][1..] == [];
    assert Size([2]) == 2 && Strides([2], 1) == [1];
    assert Strides([2, 2], 1) == [2, 1];
    assert Scaled([2, 1], 1)[0] == 2;
    forall key | InRange(key, v.shape) ensures Address(v, key) + v.item <= 6 {
      DotTwo(key, v.strides);
    }
  }

  /** A failing input: whatever the six bytes hold, assigning 0, 1, 1, 1 to the first two columns
      of a 2 by 3 array of bytes goes wrong. */
  lemma TwoColumns(bytes: seq<nat>)
    requires |bytes| == 6
    ensures var a := Whole([2, 3], 1);
      && WellFormed(a) && Applies(FirstTwoColumns(), a)
      && var v, values := Subview(a, FirstTwoColumns()), ZeroThenOnes(4);
      && Inner(v, 0) && ViewFits(v, |bytes|) && Size(v.shape) == 4
      && !Lawful(bytes, Assigned(bytes, v, values), v, values)
  {
    TwoColumnsView();
    TwoColumnsBlocks();
    assert [2, 2][1..] == [2] && [2][1..] == [] && Size([2]) == 2 && Size([2, 2]) == 4;
    hide *;
    MoreBlocksUnlawful(bytes, View([2, 2], [3, 1], 1, 0));
  }

  // ---------------------------------------------------------------- the code

  /** One item into the byte array. */
  method StoreItem(bytes: array<nat>, o: nat, item: nat, v: nat)
    requires o + item <= bytes.Length
    modifies bytes
    ensures bytes[..] == Store(old(bytes[..]), o, item, v)
  {
    var data := Encode(v, item);
    for i := 0 to item
      invariant forall a :: 0 <= a < bytes.Length ==> bytes[a] == if o <= a < o + i then data[a - o] else old(bytes[a])
    {
      bytes[o + i] := data[i];
    }
  }

  /** Assigning a list to an extended slice of a buffer. */
  method StoreSlice(bytes: array<nat>, o: nat, gap: nat, item: nat, block: seq<nat>)
    requires RunFits(bytes.Length, o, gap, item, |block|)
    modifies bytes
    ensures bytes[..] == StoreRun(old(bytes[..]), o, gap, item, block)
  {
    ghost var before := bytes[..];
    for i := 0 to |block|
      invariant bytes[..] == StoreRun(before, o, gap, item, block[..i])
    {
      assert block[..i + 1][..i] == block[..i];
      StoreItem(bytes, Slot(o, gap, i), item, block[i]);
    }
    assert block[..|block|] == block;
  }

  datatype Value = Scalar(n: nat) | List(items: seq<nat>)

  function Listed(value: Value, size: nat): seq<nat> {
    match value
    case Scalar(n) => Copies(n, size)
    case List(items) => items
  }

  /** A sub-view stays in the buffer and keeps positive strides. */
  lemma SubviewInner(v: View, keys: seq<Selector>, len: nat)
    requires WellFormed(v) && Applies(keys, v) && ViewFits(v, len)
    requires forall i :: 0 <= i < |v.strides| ==> v.strides[i] > 0
    ensures ViewFits(Subview(v, keys), len)
    ensures forall i :: 0 <= i < |Subview(v, keys).strides| ==> Subview(v, keys).strides[i] > 0
  {
    var w := Subview(v, keys);
    SelectedRank(keys, v.shape, v.strides, v.item);
    StridesStayPositive(keys, v.shape, v.strides, v.item);
    forall key | InRange(key, w.shape)
      ensures |key| == |w.strides| && Address(w, key) + w.item <= len
    {
      SubviewAddress(v, keys, key);
    }
    FirstInRange(w.shape);
    SubviewAddress(v, keys, Copies(0, |w.shape|));
  }

  lemma FirstInRange(shape: Shape)
    requires Positive(shape)
    ensures InRange(Copies(0, |shape|), shape)
  {
  }

  lemma {:induction false} StridesStayPositive(keys: seq<Selector>, shape: Shape, strides: seq<nat>, item: nat)
    requires item > 0 && |keys| <= |shape| == |strides| && Selects(keys, shape)
    requires forall i :: 0 <= i < |strides| ==> strides[i] > 0
    ensures forall i :: 0 <= i < |Selected(keys, shape, strides, item).2| ==>
      Selected(keys, shape, strides, item).2[i] > 0
  {
    if keys != [] {
      SelectsTail(keys, shape);
      StridesStayPositive(keys[1..], shape[1..], strides[1..], item);
      if keys[0].Slice? { MulPositive(keys[0].step, strides[0]); }
    }
  }

  /** Fixing the first position of a view. */
  lemma FixFirst(v: View, i: nat)
    requires WellFormed(v) && v.shape != [] && i < v.shape[0]
    ensures Applies([Int(i)], v)
    ensures Subview(v, [Int(i)]).shape == v.shape[1..] && Subview(v, [Int(i)]).strides == v.strides[1..]
  {
    assert [Int(i)][1..] == [];
    assert Selected([], v.shape[1..], v.strides[1..], v.item) == (0, v.shape[1..], v.strides[1..]);
  }

  /** The queued views are the view with its first positions fixed. */
  ghost predicate Queued(w: View, subviews: seq<View>, queue: seq<nat>) {
    && |subviews| == |queue| && |w.shape| == |w.strides| && Depths(w.shape, queue)
    && forall i :: 0 <= i < |queue| ==>
         && WellFormed(subviews[i]) && subviews[i].item == w.item
         && subviews[i].shape == w.shape[queue[i]..] && subviews[i].strides == w.strides[queue[i]..]
  }

  /** An accepted assignment of values that fit an item has done what it should, if the view is a
      single item or one block. */
  ghost predicate Obeyed(before: seq<nat>, after: seq<nat>, w: View, value: Value, ok: bool) {
    ok && WellFormed(w) && (w.shape == [] || OneBlock(w, 0)) ==>
      match value
      case Scalar(n) => n < Limit(w.item) ==> Filled(before, after, w, n)
      case List(items) => w.shape != [] && FitsItem(w, items) ==> Lawful(before, after, w, items)
  }

  lemma ItemObeyed(bytes: seq<nat>, w: View, value: Value)
    requires WellFormed(w) && w.shape == [] && w.offset + w.item <= |bytes| && value.Scalar?
    ensures Obeyed(bytes, Store(bytes, w.offset, w.item, value.n), w, value, true)
  {
    if value.n < Limit(w.item) {
      StoreLoads(bytes, w.offset, w.item, value.n);
      assert InRange([], w.shape) && Address(w, []) == w.offset;
      forall a | 0 <= a < |bytes| && !Covered(w, a) ensures !(w.offset <= a < w.offset + w.item) {}
    }
  }

  lemma ViewObeyed(bytes: seq<nat>, w: View, value: Value)
    requires Inner(w, 0) && ViewFits(w, |bytes|) && |Listed(value, Size(w.shape))| == Size(w.shape)
    ensures Obeyed(bytes, Assigned(bytes, w, Listed(value, Size(w.shape))), w, value, true)
  {
    if OneBlock(w, 0) {
      match value
      case Scalar(n) => if n < Limit(w.item) { OneBlockIsFilled(bytes, w, n); }
      case List(items) => if FitsItem(w, items) { OneBlockIsLawful(bytes, w, items); }
    }
    hide Assigned, OneBlock, Filled, Lawful, ViewFits;
  }

  lemma Refused(before: seq<nat>, w: View, value: Value)
    ensures Obeyed(before, before, w, value, false)
    ensures |Listed(value, Size(w.shape))| != Size(w.shape) <==> value.List? && |value.items| != Size(w.shape)
  {
  }

  /** a[keys] = value, with a list or a single number. */
  method SetItem(bytes: array<nat>, v: View, keys: seq<Selector>, value: Value) returns (r: Result<(), Error>)
    requires WellFormed(v) && ViewFits(v, bytes.Length) && (forall i :: 0 <= i < |v.strides| ==> v.strides[i] > 0)
    requires Selects(keys, v.shape)
    requires Applies(keys, v) && Subview(v, keys).shape == [] ==> value.Scalar?
    modifies bytes
    ensures !Applies(keys, v) ==> r == Err(IndexError) && bytes[..] == old(bytes[..])
    ensures Applies(keys, v) ==>
      var w := Subview(v, keys);
      if w.shape == [] then
        && r == Ok(()) && w.offset + w.item <= bytes.Length
        && bytes[..] == Store(old(bytes[..]), w.offset, w.item, value.n)
      else if |Listed(value, Size(w.shape))| != Size(w.shape) then
        r == Err(SizeMismatch) && bytes[..] == old(bytes[..])
      else
        && r == Ok(()) && Inner(w, 0) && ViewFits(w, |old(bytes[..])|)
        && bytes[..] == Assigned(old(bytes[..]), w, Listed(value, Size(w.shape)))
    ensures Applies(keys, v) && Subview(v, keys).shape != [] ==>
      (r == Err(SizeMismatch) <==> value.List? && |value.items| != Size(Subview(v, keys).shape))
    ensures Applies(keys, v) ==> Obeyed(old(bytes[..]), bytes[..], Subview(v, keys), value, r.Ok?)
  {
    hide *;
    ViewFacts(v, keys);
    var sel := IndexHelper(keys, v);
    if sel.Err? { return Err(sel.error); }
    SelectionFacts(v, keys, bytes.Length);
    var w := View(sel.value.1, sel.value.2, v.item, v.offset + sel.value.0 * v.item);
    Refused(bytes[..], w, value);
    if w.shape == [] {
      ItemObeyed(bytes[..], w, value);
      StoreItem(bytes, w.offset, w.item, value.n);
      return Ok(());
    }
    var size := SizeForShape(w.shape);
    var values := Listed(value, size);
    if size != |values| { return Err(SizeMismatch); }
    ViewObeyed(bytes[..], w, value);
    AssignBlocks(bytes, w, values);
    r := Ok(());
  }

  lemma ViewFacts(v: View, keys: seq<Selector>)
    requires WellFormed(v)
    ensures v.item > 0 && |v.shape| == |v.strides|
    ensures Applies(keys, v) <==> |keys| <= |v.shape| && Selects(keys, v.shape) && Hits(keys, v.shape)
  {
  }

  /** What __setitem__ needs to know about the view it makes. */
  lemma SelectionFacts(v: View, keys: seq<Selector>, len: nat)
    requires WellFormed(v) && Applies(keys, v) && ViewFits(v, len)
    requires forall i :: 0 <= i < |v.strides| ==> v.strides[i] > 0
    ensures var s, w := Selected(keys, v.shape, v.strides, v.item), Subview(v, keys);
      && w == View(s.1, s.2, v.item, v.offset + s.0 * v.item) && WellFormed(w) && ViewFits(w, len)
      && (w.shape == [] ==> w.offset + w.item <= len) && (w.shape != [] ==> Inner(w, 0))
  {
    SubviewInner(v, keys, len);
    SelectedRank(keys, v.shape, v.strides, v.item);
    var w := Subview(v, keys);
    if w.shape == [] { assert Address(w, []) == w.offset && InRange([], w.shape); }
  }

  /** The views of subview[0], subview[1], ... follow the ones already queued. */
  ghost predicate Appended(subviews: seq<View>, subview: View, r: seq<View>) {
    && WellFormed(subview) && subview.shape != []
    && |r| == |subviews| + subview.shape[0] && r[..|subviews|] == subviews
    && forall i :: |subviews| <= i < |r| ==>
         && WellFormed(r[i]) && r[i].item == subview.item
         && r[i].shape == subview.shape[1..] && r[i].strides == subview.strides[1..]
  }

  /** subview[i] for every i, at the end of the queue. */
  method AppendSubviews(subviews: seq<View>, subview: View) returns (r: seq<View>)
    requires WellFormed(subview) && subview.shape != []
    ensures Appended(subviews, subview, r)
  {
    r := subviews;
    for i := 0 to subview.shape[0]
      invariant |r| == |subviews| + i && r[..|subviews|] == subviews
      invariant forall j :: |subviews| <= j < |r| ==>
        && WellFormed(r[j]) && r[j].item == subview.item
        && r[j].shape == subview.shape[1..] && r[j].strides == subview.strides[1..]
    {
      FixFirst(subview, i);
      var sel := IndexHelper([Int(i)], subview);
      r := r + [View(sel.value.1, sel.value.2, subview.item, subview.offset + sel.value.0 * subview.item)];
    }
  }

  lemma QueuedSplit(w: View, subviews: seq<View>, queue: seq<nat>, r: seq<View>)
    requires Inner(w, 0) && Queued(w, subviews, queue) && queue != [] && StepAt(w, queue[0]) == 0
    requires Appended(subviews[1..], subviews[0], r)
    ensures Queued(w, r, Split(w.shape, queue))
  {
    SplitShrinks(w, queue);
    var d, next := queue[0], Split(w.shape, queue);
    assert w.shape[d..][1..] == w.shape[d + 1..] && w.strides[d..][1..] == w.strides[d + 1..];
    forall i | 0 <= i < |next|
      ensures WellFormed(r[i]) && r[i].item == w.item && r[i].shape == w.shape[next[i]..]
      ensures r[i].strides == w.strides[next[i]..]
    {
      if i < |subviews| - 1 {
        assert r[i] == r[..|subviews| - 1][i] == subviews[1..][i] == subviews[i + 1] && next[i] == queue[i + 1];
      }
    }
  }

  lemma WorkPositive(shape: Shape, d: nat)
    requires d < |shape|
    ensures Work(shape, d) > 0
  {
  }

  lemma NoBlocks(bytes: seq<nat>, w: View, queue: seq<nat>, at: nat, values: seq<nat>)
    requires Inner(w, 0) && ViewFits(w, |bytes|) && queue == []
    ensures Blocks(w, queue, at) == [] && BlocksOk(w, 0, [], values) && WriteBlocks(bytes, w, [], values) == bytes
  {
  }

  /** One round of the loop when it has none. */
  lemma SplitFirst(w: View, queue: seq<nat>, at: nat)
    requires Inner(w, 0) && Depths(w.shape, queue) && queue != [] && StepAt(w, queue[0]) == 0
    ensures Depths(w.shape, Split(w.shape, queue))
    ensures Blocks(w, queue, at) == Blocks(w, Split(w.shape, queue), at)
  {
    SplitShrinks(w, queue);
  }

  /** The block of the sub-view with d positions fixed can be written with the values at at. */
  ghost predicate Writable(bytes: seq<nat>, w: View, d: nat, at: nat, values: seq<nat>) {
    && Inner(w, 0) && d < |w.shape| && at + SizeAt(w, d) <= |values|
    && RunFits(|bytes|, w.offset, StepAt(w, d) * w.item, w.item, SizeAt(w, d))
  }

  ghost function Written(bytes: seq<nat>, w: View, d: nat, at: nat, values: seq<nat>): (r: seq<nat>)
    requires Writable(bytes, w, d, at, values)
  {
    StoreRun(bytes, w.offset, StepAt(w, d) * w.item, w.item, values[at..at + SizeAt(w, d)])
  }

  /** One round of the loop when the first view has a step. */
  lemma WriteFirst(bytes: seq<nat>, w: View, queue: seq<nat>, at: nat, values: seq<nat>)
    requires Inner(w, 0) && ViewFits(w, |bytes|) && Depths(w.shape, queue) && queue != [] && StepAt(w, queue[0]) > 0
    requires at + QueueSize(w, queue) == |values| && BlocksOk(w, 0, Blocks(w, queue, at), values)
    ensures Writable(bytes, w, queue[0], at, values)
    ensures BlocksOk(w, 0, Blocks(w, queue[1..], at + SizeAt(w, queue[0])), values)
    ensures WriteBlocks(bytes, w, Blocks(w, queue, at), values)
         == WriteBlocks(Written(bytes, w, queue[0], at, values), w, Blocks(w, queue[1..], at + SizeAt(w, queue[0])),
             values)
  {
    hide StepAt, SizeAt, StoreRun, Blocks, Work, QueueWork, QueueSize, ViewFits, BlocksOk, RunFits;
    var d := queue[0];
    var b, rest := Block(at, d), Blocks(w, queue[1..], at + SizeAt(w, d));
    FirstBlock(w, queue, at);
    HeadTail(b, rest);
    BlocksTail(w, 0, [b] + rest, values);
    BlockFits(w, d, |bytes|);
  }

  lemma HeadTail(b: Block, rest: seq<Block>)
    ensures ([b] + rest)[0] == b && ([b] + rest)[1..] == rest && [b] + rest != []
  {
  }

  lemma QueueShrinks(w: View, queue: seq<nat>)
    requires Inner(w, 0) && Depths(w.shape, queue) && queue != []
    ensures Depths(w.shape, queue[1..]) && QueueSize(w, queue) == SizeAt(w, queue[0]) + QueueSize(w, queue[1..])
    ensures Remaining(w, queue[1..]) < Remaining(w, queue)
  {
    WorkPositive(w.shape, queue[0]);
  }

  ghost function Remaining(w: View, queue: seq<nat>): nat {
    if Depths(w.shape, queue) then QueueWork(w.shape, queue) else 0
  }

  /** Where the block loop stands: the rest of its work, done on the memory as it is, leads to goal. */
  ghost predicate Progress(bytes: seq<nat>, w: View, subviews: seq<View>, queue: seq<nat>, at: nat, values: seq<nat>,
        goal: seq<nat>) {
    && Inner(w, 0) && ViewFits(w, |bytes|) && Queued(w, subviews, queue)
    && at + QueueSize(w, queue) == |values|
    && BlocksOk(w, 0, Blocks(w, queue, at), values)
    && WriteBlocks(bytes, w, Blocks(w, queue, at), values) == goal
  }

  lemma AtStart(bytes: seq<nat>, w: View, values: seq<nat>)
    requires Inner(w, 0) && ViewFits(w, |bytes|) && |values| == Size(w.shape)
    ensures Progress(bytes, w, [w], [0], 0, values, Assigned(bytes, w, values))
  {
    QueueOfOne(w);
    BlocksUseList(w, [0], 0, values);
    assert w.shape[0..] == w.shape && w.strides[0..] == w.strides;
    hide QueueSize, Blocks, BlocksOk, WriteBlocks, ViewFits;
  }

  /** The first view of the queue, seen as the sub-view it is. */
  lemma AtFront(bytes: seq<nat>, w: View, subviews: seq<View>, queue: seq<nat>, at: nat, values: seq<nat>,
        goal: seq<nat>)
    requires Progress(bytes, w, subviews, queue, at, values, goal) && subviews != []
    ensures queue != [] && Inner(w, 0) && queue[0] < |w.shape|
    ensures |subviews[0].shape| == |subviews[0].strides| && subviews[0].item > 0
    ensures WellFormed(subviews[0]) && subviews[0].shape != [] && subviews[0].item == w.item
    ensures GetStep(subviews[0].shape, subviews[0].strides, subviews[0].item) == StepAt(w, queue[0])
    ensures Size(subviews[0].shape) == SizeAt(w, queue[0])
  {
    hide QueueSize, Blocks, BlocksOk, WriteBlocks, ViewFits, GetStep, Size;
  }

  lemma AtEnd(bytes: seq<nat>, w: View, queue: seq<nat>, at: nat, values: seq<nat>, goal: seq<nat>)
    requires Progress(bytes, w, [], queue, at, values, goal)
    ensures bytes == goal
  {
    NoBlocks(bytes, w, queue, at, values);
  }

  lemma QueuedTail(w: View, subviews: seq<View>, queue: seq<nat>)
    requires Queued(w, subviews, queue) && queue != []
    ensures Queued(w, subviews[1..], queue[1..])
  {
  }

  /** One round of the loop when the first view has a step. */
  lemma WriteRound(bytes: seq<nat>, w: View, subviews: seq<View>, queue: seq<nat>, at: nat, values: seq<nat>,
        goal: seq<nat>)
    requires Progress(bytes, w, subviews, queue, at, values, goal) && subviews != [] && queue != []
    requires Inner(w, 0) && queue[0] < |w.shape| && StepAt(w, queue[0]) > 0
    ensures Writable(bytes, w, queue[0], at, values)
    ensures Progress(Written(bytes, w, queue[0], at, values), w, subviews[1..], queue[1..], at + SizeAt(w, queue[0]),
                     values, goal)
    ensures Remaining(w, queue[1..]) < Remaining(w, queue)
  {
    assert Depths(w.shape, queue);
    hide StepAt, SizeAt, StoreRun, Blocks, BlocksOk, WriteBlocks, ViewFits, QueueSize, QueueWork, Queued, RunFits;
    hide Written, Writable, Inner, Depths, Remaining;
    WriteFirst(bytes, w, queue, at, values);
    QueueShrinks(w, queue);
    QueuedTail(w, subviews, queue);
  }

  /** One round of the loop when it has none. */
  lemma SplitRound(bytes: seq<nat>, w: View, subviews: seq<View>, queue: seq<nat>, at: nat, values: seq<nat>,
        goal: seq<nat>, next: seq<View>)
    requires Progress(bytes, w, subviews, queue, at, values, goal) && subviews != [] && queue != []
    requires Inner(w, 0) && queue[0] < |w.shape| && StepAt(w, queue[0]) == 0
    requires Appended(subviews[1..], subviews[0], next)
    ensures Depths(w.shape, queue) && Progress(bytes, w, next, Split(w.shape, queue), at, values, goal)
    ensures Remaining(w, Split(w.shape, queue)) < Remaining(w, queue)
  {
    SplitShrinks(w, queue);
    SplitFirst(w, queue, at);
    QueuedSplit(w, subviews, queue, next);
    hide StepAt, Blocks, BlocksOk, WriteBlocks, ViewFits, QueueSize, QueueWork, Split;
  }

  lemma WritableRun(bytes: seq<nat>, w: View, d: nat, at: nat, values: seq<nat>)
    requires Writable(bytes, w, d, at, values)
    ensures Inner(w, 0) && d < |w.shape| && at + SizeAt(w, d) <= |values|
    ensures RunFits(|bytes|, w.offset, StepAt(w, d) * w.item, w.item, SizeAt(w, d))
    ensures Written(bytes, w, d, at, values)
         == StoreRun(bytes, w.offset, StepAt(w, d) * w.item, w.item, values[at..at + SizeAt(w, d)])
  {
    hide StepAt, SizeAt, RunFits, StoreRun, Inner, Slot;
  }

  /** The block of one sub-view, and where the next block's values start. */
  method WriteSubview(bytes: array<nat>, w: View, subview: View, step: nat, at: nat, values: seq<nat>, ghost d: nat)
    returns (next: nat)
    requires Writable(bytes[..], w, d, at, values)
    requires Size(subview.shape) == SizeAt(w, d) && step == StepAt(w, d)
    modifies bytes
    ensures bytes[..] == Written(old(bytes[..]), w, d, at, values) && next == at + SizeAt(w, d)
  {
    WritableRun(bytes[..], w, d, at, values);
    hide *;
    var size := SizeForShape(subview.shape);
    StoreSlice(bytes, w.offset, step * w.item, w.item, values[at..at + size]);
    next := at + size;
  }

  /** One round of the block loop: the first view of the queue is written or split. */
  method Round(bytes: array<nat>, w: View, subviews: seq<View>, at: nat, values: seq<nat>, ghost queue: seq<nat>,
        ghost goal: seq<nat>)
    returns (left: seq<View>, next: nat, ghost pending: seq<nat>)
    requires Progress(bytes[..], w, subviews, queue, at, values, goal) && subviews != []
    modifies bytes
    ensures Progress(bytes[..], w, left, pending, next, values, goal)
    ensures Remaining(w, pending) < Remaining(w, queue)
  {
    hide *;
    var subview := subviews[0];
    ghost var memory := bytes[..];
    AtFront(memory, w, subviews, queue, at, values, goal);
    var step := GetStep(subview.shape, subview.strides, subview.item);
    if step > 0 {
      WriteRound(memory, w, subviews, queue, at, values, goal);
      next := WriteSubview(bytes, w, subview, step, at, values, queue[0]);
      left, pending := subviews[1..], queue[1..];
    } else {
      next := at;
      left := AppendSubviews(subviews[1..], subview);
      SplitRound(memory, w, subviews, queue, at, values, goal, left);
      pending := Split(w.shape, queue);
    }
  }

  /** The block loop of __setitem__. */
  method AssignBlocks(bytes: array<nat>, w: View, values: seq<nat>)
    requires Inner(w, 0) && ViewFits(w, bytes.Length) && |values| == Size(w.shape)
    modifies bytes
    ensures bytes[..] == Assigned(old(bytes[..]), w, values)
  {
    var subviews := [w];
    var valueIndex: nat := 0;
    ghost var queue := [0];
    ghost var goal := Assigned(bytes[..], w, values);
    AtStart(bytes[..], w, values);
    hide *;
    while subviews != []
      invariant Progress(bytes[..], w, subviews, queue, valueIndex, values, goal)
      decreases Remaining(w, queue)
    {
      subviews, valueIndex, queue := Round(bytes, w, subviews, valueIndex, values, queue, goal);
    }
    AtEnd(bytes[..], w, queue, valueIndex, values, goal);
  }
}
