/** Bit-field access to 32- and 64-bit registers: read-modify-write of slices in either
    direction, and named fields that behave as independent variables. */
module Registers {
  import opened Bits
  import opened Numbers
  import opened Wrappers

  /** The key of a register access: an integer, a Python slice, or anything else. */
  datatype Index = At(i: int) | Slice(start: Option<int>, stop: Option<int>, step: Option<int>) | Other

  /** The bits lower to upper, both included; reversed when the slice names the low end first. */
  datatype Range = Range(lower: int, upper: int, reversed: bool)

  datatype Error =
    | BadStep | BadEndpoint(endpoint: int) | BadIndex
    | NegativeShift | NotABit | TooLarge | ReadOnly | NoSuchField

  datatype Access = ReadAndWrite | ReadOnlyAccess | WriteOnly

  /** What a read returns: a number, or the text "write-only". */
  datatype Reading = Number(n: nat) | Hidden

  function GetOr<T>(o: Option<T>, default: T): T {
    if o.Some? then o.value else default
  }

  function CalcIndex(index: Index, width: nat): (r: Result<Range, Error>)
    ensures r.Ok? ==> r.value.lower <= r.value.upper && (r.value.lower == r.value.upper ==> !r.value.reversed)
    ensures r.Ok? && index.Slice? ==> Proper(r.value, width)
    ensures !index.Slice? ==> r == if index.At? then Ok(Range(index.i, index.i, false)) else Err(BadIndex)
  {
    match index
    case At(i) => Ok(Range(i, i, false))
    case Slice(start, stop, step) =>
      if step == None || step == Some(-1) then Endpoints(GetOr(start, width - 1), GetOr(stop, 0), width)
      else if step == Some(1) then Endpoints(GetOr(start, 0), GetOr(stop, width - 1), width)
      else Err(BadStep)
    case Other => Err(BadIndex)
  }

  function Endpoints(start: int, stop: int, width: nat): Result<Range, Error> {
    if !(0 <= start < width) then Err(BadEndpoint(start))
    else if !(0 <= stop < width) then Err(BadEndpoint(stop))
    else if start >= stop then Ok(Range(stop, start, false))
    else Ok(Range(start, stop, true))
  }

  // ---------------------------------------------------------------- reversing bits

  /** The binary digits of val, most significant first, padded to width. */
  function Digits(val: nat, width: nat): (s: seq<bool>)
    ensures |s| == width
  {
    if width == 0 then [] else Digits(val / 2, width - 1) + [val % 2 == 1]
  }

  function Backwards(s: seq<bool>): (r: seq<bool>)
    ensures |r| == |s| && forall i :: 0 <= i < |s| ==> r[i] == s[|s| - 1 - i]
  {
    seq(|s|, i requires 0 <= i < |s| => s[|s| - 1 - i])
  }

  /** The number a string of binary digits denotes. */
  function Denoted(s: seq<bool>): nat {
    if s == [] then 0 else 2 * Denoted(s[..|s| - 1]) + (if s[|s| - 1] then 1 else 0)
  }

  function ReverseBits(val: nat, width: nat): nat {
    Denoted(Backwards(Digits(val, width)))
  }

  lemma {:induction false} DigitsBit(val: nat, width: nat, i: nat)
    requires i < width
    ensures Digits(val, width)[width - 1 - i] == Bit(val, i)
  {
    if i > 0 { DigitsBit(val / 2, width - 1, i - 1); }
  }

  lemma {:induction false} DenotedBit(s: seq<bool>, i: nat)
    ensures Bit(Denoted(s), i) == (i < |s| && s[|s| - 1 - i])
  {
    if s == [] { BitZero(i); }
    else {
      var pre := s[..|s| - 1];
      assert Denoted(s) / 2 == Denoted(pre);
      if i > 0 { DenotedBit(pre, i - 1); }
    }
  }

  /** Reversal sends bit i to bit width - 1 - i. */
  lemma ReverseBit(val: nat, width: nat, i: nat)
    ensures Bit(ReverseBits(val, width), i) == (i < width && Bit(val, width - 1 - i))
  {
    var s := Digits(val, width);
    DenotedBit(Backwards(s), i);
    if i < width { DigitsBit(val, width, width - 1 - i); }
  }

  /** Reversal is its own inverse on numbers that fit. */
  lemma ReverseTwice(val: nat, width: nat)
    requires val < Pow2(width)
    ensures ReverseBits(val, width) < Pow2(width)
    ensures ReverseBits(ReverseBits(val, width), width) == val
  {
    var r := ReverseBits(val, width);
    forall i: nat | i >= width ensures !Bit(r, i) { ReverseBit(val, width, i); }
    FitsBits(r, width);
    forall i: nat ensures Bit(ReverseBits(r, width), i) == Bit(val, i) {
      ReverseBit(r, width, i);
      if i < width { ReverseBit(val, width, width - 1 - i); } else { SmallBits(val, width, i); }
    }
    SameBits(ReverseBits(r, width), val);
  }

  // ---------------------------------------------------------------- reading and writing a range

  /** (1 << w) - 1 */
  function Mask(w: nat): (m: nat)
    ensures m == Pow2(w) - 1
  {
    ShlOne(w);
    Shl(1, w) - 1
  }

  lemma ShlOne(k: nat)
    ensures Shl(1, k) == Pow2(k)
  {
    ShlIsMul(1, k);
  }

  /** What reading the range of a register holding x computes. */
  function Extract(x: nat, rg: Range): nat
    requires 0 <= rg.lower <= rg.upper
  {
    if rg.lower == rg.upper then Shr(And(x, Shl(1, rg.lower)), rg.lower)
    else
      var width := rg.upper - rg.lower + 1;
      var raw := And(Shr(x, rg.lower), Mask(width));
      if rg.reversed then ReverseBits(raw, width) else raw
  }

  /** The register value that writing v to the range of a register holding x stores. */
  function Insert(x: nat, rg: Range, v: nat, width: nat): nat
    requires 0 <= rg.lower <= rg.upper < width
  {
    if rg.lower == rg.upper then Or(AndNot(x, Shl(1, rg.lower)), Shl(v, rg.lower))
    else
      var w := rg.upper - rg.lower + 1;
      var bits := if rg.reversed then ReverseBits(v, w) else v;
      if w == width then bits
      else Or(AndNot(x, Shl(Mask(w), rg.lower)), Shl(bits, rg.lower))
  }

  /** Where bit i of a range sits in the register. */
  function Position(rg: Range, i: nat): int {
    if rg.reversed then rg.upper - i else rg.lower + i
  }

  predicate Proper(rg: Range, width: nat) {
    0 <= rg.lower <= rg.upper < width && (rg.lower == rg.upper ==> !rg.reversed)
  }

  function Size(rg: Range): nat
    requires rg.lower <= rg.upper
  {
    rg.upper - rg.lower + 1
  }

  /** Bit i read from a range is the register's bit at its position. */
  lemma ExtractBit(x: nat, rg: Range, i: nat)
    requires 0 <= rg.lower <= rg.upper && (rg.lower == rg.upper ==> !rg.reversed)
    ensures Bit(Extract(x, rg), i) == (i < Size(rg) && Bit(x, Position(rg, i)))
  {
    var w := rg.upper - rg.lower + 1;
    if rg.lower == rg.upper {
      BitShr(And(x, Shl(1, rg.lower)), rg.lower, i);
      BitAnd(x, Shl(1, rg.lower), i + rg.lower);
      BitShl(1, rg.lower, i + rg.lower);
      BitOne(i);
    } else {
      var raw := And(Shr(x, rg.lower), Mask(w));
      forall j: nat ensures Bit(raw, j) == (j < w && Bit(x, rg.lower + j)) {
        BitAnd(Shr(x, rg.lower), Mask(w), j);
        BitShr(x, rg.lower, j);
        BitMask(w, j);
      }
      if rg.reversed {
        ReverseBit(raw, w, i);
        if i < w { assert Bit(raw, w - 1 - i) == Bit(x, rg.lower + (w - 1 - i)); }
      }
    }
  }

  /** Where a slice starts or stops: at its endpoint, by default at the high end for the start of a
      downward slice and the stop of an upward one, at the low end otherwise. */
  function Endpoint(e: Option<int>, high: bool, width: nat): int {
    if e.Some? then e.value else if high then width - 1 else 0
  }

  /** What a slice means: it is valid iff its step is absent, -1 or 1 and its endpoints are bits of
      the register, and bit i of what it reads is the bit i steps from its stop towards its start. */
  lemma SliceReads(start: Option<int>, stop: Option<int>, step: Option<int>, width: nat, x: nat, i: nat)
    ensures var r := CalcIndex(Slice(start, stop, step), width);
      var up := step == Some(1);
      var a, b := Endpoint(start, !up, width), Endpoint(stop, up, width);
      && (r == Err(BadStep) <==> step !in {None, Some(-1), Some(1)})
      && (r.Ok? <==> step in {None, Some(-1), Some(1)} && 0 <= a < width && 0 <= b < width)
      && (r.Err? && r.error != BadStep ==> r.error == BadEndpoint(if 0 <= a < width then b else a))
      && (r.Ok? ==>
            var n := if a >= b then a - b + 1 else b - a + 1;
            Bit(Extract(x, r.value), i) == (i < n && Bit(x, if a >= b then b + i else b - i)))
  {
    hide Extract, Bit;
    var r := CalcIndex(Slice(start, stop, step), width);
    if r.Ok? { ExtractBit(x, r.value, i); }
  }

  lemma ExtractFits(x: nat, rg: Range)
    requires 0 <= rg.lower <= rg.upper && (rg.lower == rg.upper ==> !rg.reversed)
    ensures Extract(x, rg) < Pow2(Size(rg))
  {
    forall i: nat | i >= Size(rg) ensures !Bit(Extract(x, rg), i) { ExtractBit(x, rg, i); }
    FitsBits(Extract(x, rg), Size(rg));
  }

  /** A write replaces exactly the bits of the range. */
  lemma InsertBit(x: nat, rg: Range, v: nat, width: nat, j: nat)
    requires Proper(rg, width) && x < Pow2(width) && v < Pow2(Size(rg))
    ensures Bit(Insert(x, rg, v, width), j)
         == if rg.lower <= j <= rg.upper then Bit(v, if rg.reversed then rg.upper - j else j - rg.lower) else Bit(x, j)
  {
    var w := rg.upper - rg.lower + 1;
    SmallBitsAll(v, w);
    if rg.lower == rg.upper {
      BitOr(AndNot(x, Shl(1, rg.lower)), Shl(v, rg.lower), j);
      BitAndNot(x, Shl(1, rg.lower), j);
      BitShl(1, rg.lower, j);
      BitShl(v, rg.lower, j);
      if j >= rg.lower { BitOne(j - rg.lower); }
    } else {
      var bits := if rg.reversed then ReverseBits(v, w) else v;
      forall i: nat ensures Bit(bits, i) == (i < w && Bit(v, if rg.reversed then w - 1 - i else i)) {
        if rg.reversed { ReverseBit(v, w, i); }
      }
      if w == width {
        if j >= width { SmallBits(x, width, j); }
      } else {
        BitOr(AndNot(x, Shl(Mask(w), rg.lower)), Shl(bits, rg.lower), j);
        BitAndNot(x, Shl(Mask(w), rg.lower), j);
        BitShl(Mask(w), rg.lower, j);
        BitShl(bits, rg.lower, j);
        if j >= rg.lower { BitMask(w, j - rg.lower); }
      }
    }
  }

  lemma SmallBitsAll(x: nat, n: nat)
    requires x < Pow2(n)
    ensures forall i: nat :: i >= n ==> !Bit(x, i)
  {
    forall i: nat | i >= n ensures !Bit(x, i) { SmallBits(x, n, i); }
  }

  lemma InsertFits(x: nat, rg: Range, v: nat, width: nat)
    requires Proper(rg, width) && x < Pow2(width) && v < Pow2(Size(rg))
    ensures Insert(x, rg, v, width) < Pow2(width)
  {
    var y := Insert(x, rg, v, width);
    forall j: nat | j >= width ensures !Bit(y, j) {
      InsertBit(x, rg, v, width, j);
      SmallBits(x, width, j);
    }
    FitsBits(y, width);
  }

  /** Reading back what was written, through the same slice. */
  lemma ReadBack(x: nat, rg: Range, v: nat, width: nat)
    requires Proper(rg, width) && x < Pow2(width) && v < Pow2(Size(rg))
    ensures Extract(Insert(x, rg, v, width), rg) == v
  {
    var y := Insert(x, rg, v, width);
    SmallBitsAll(v, Size(rg));
    forall i: nat ensures Bit(Extract(y, rg), i) == Bit(v, i) {
      ExtractBit(y, rg, i);
      if i < Size(rg) { InsertBit(x, rg, v, width, Position(rg, i)); }
    }
    SameBits(Extract(y, rg), v);
  }

  predicate Apart(a: Range, b: Range) {
    a.upper < b.lower || b.upper < a.lower
  }

  /** A write does not show through a slice that shares no bit with it. */
  lemma WriteElsewhere(x: nat, rg: Range, v: nat, width: nat, other: Range)
    requires Proper(rg, width) && Proper(other, width) && Apart(rg, other) && x < Pow2(width) && v < Pow2(Size(rg))
    ensures Extract(Insert(x, rg, v, width), other) == Extract(x, other)
  {
    var y := Insert(x, rg, v, width);
    forall i: nat ensures Bit(Extract(y, other), i) == Bit(Extract(x, other), i) {
      ExtractBit(y, other, i);
      ExtractBit(x, other, i);
      if i < Size(other) { InsertBit(x, rg, v, width, Position(other, i)); }
    }
    SameBits(Extract(y, other), Extract(x, other));
  }

  /** Writing back what a slice reads changes nothing. */
  lemma WriteBack(x: nat, rg: Range, width: nat)
    requires Proper(rg, width) && x < Pow2(width)
    ensures Extract(x, rg) < Pow2(Size(rg)) && Insert(x, rg, Extract(x, rg), width) == x
  {
    ExtractFits(x, rg);
    var v := Extract(x, rg);
    var y := Insert(x, rg, v, width);
    forall j: nat ensures Bit(y, j) == Bit(x, j) {
      InsertBit(x, rg, v, width, j);
      if rg.lower <= j <= rg.upper { ExtractBit(x, rg, if rg.reversed then rg.upper - j else j - rg.lower); }
    }
    SameBits(y, x);
  }

  // ---------------------------------------------------------------- named fields

  datatype Field = Field(access: Access, bitOffset: nat, bitWidth: nat)

  /** A property of the generated register class: the slice it accesses, and whether it has a setter. */
  datatype Property = Property(index: Index, writable: bool)

  predicate IsWord(c: char) { IsDigit(c) || 'a' <= c <= 'z' || 'A' <= c <= 'Z' || c == '_' }

  /** A field name turned into an attribute name. */
  function SafeName(name: string): (r: string)
    requires name != []
    ensures forall c :: c in r ==> IsWord(c)
    ensures r != [] && !IsDigit(r[0])
  {
    var n := if IsDigit(name[0]) then "r" + name else name;
    seq(|n|, i requires 0 <= i < |n| => if IsWord(n[i]) then n[i] else '_')
  }

  /** A name that is an identifier already stays as it is, and a leading digit gets an r before it. */
  lemma NamesStay(name: string)
    requires name != [] && forall c :: c in name ==> IsWord(c)
    ensures SafeName(name) == if IsDigit(name[0]) then "r" + name else name
  {
    var n := if IsDigit(name[0]) then "r" + name else name;
    forall i | 0 <= i < |n| ensures IsWord(n[i]) { assert n[i] == 'r' || n[i] in name; }
  }

  function PropertyOf(f: Field): Property {
    Property(Slice(Some(f.bitOffset + f.bitWidth - 1), Some(f.bitOffset), Some(-1)), f.access != ReadOnlyAccess)
  }

  predicate Named(fields: seq<(string, Field)>) {
    forall i :: 0 <= i < |fields| ==> fields[i].0 != []
  }

  /** The properties of a register class, field by field. */
  function Properties(fields: seq<(string, Field)>): map<string, Property>
    requires Named(fields)
  {
    if fields == [] then map[]
    else
      var last := fields[|fields| - 1];
      Properties(fields[..|fields| - 1])[SafeName(last.0) := PropertyOf(last.1)]
  }

  /** Of fields that share an attribute name the last one wins. */
  lemma {:induction false} LastFieldWins(fields: seq<(string, Field)>, i: nat)
    requires Named(fields) && i < |fields|
    requires forall j :: i < j < |fields| ==> SafeName(fields[j].0) != SafeName(fields[i].0)
    ensures SafeName(fields[i].0) in Properties(fields)
    ensures Properties(fields)[SafeName(fields[i].0)] == PropertyOf(fields[i].1)
    ensures Properties(fields)[SafeName(fields[i].0)].writable <==> fields[i].1.access != ReadOnlyAccess
  {
    if i < |fields| - 1 {
      var pre := fields[..|fields| - 1];
      assert forall j :: 0 <= j < |pre| ==> pre[j] == fields[j];
      LastFieldWins(pre, i);
    }
  }

  method CreateSubclass(fields: seq<(string, Field)>) returns (props: map<string, Property>)
    requires Named(fields)
    ensures props == Properties(fields)
  {
    props := map[];
    for k := 0 to |fields|
      invariant props == Properties(fields[..k])
    {
      var attrname := SafeName(fields[k].0);
      var stop := fields[k].1.bitOffset;
      var start := stop + fields[k].1.bitWidth - 1;
      var index := Slice(Some(start), Some(stop), Some(-1));
      props := props[attrname := Property(index, fields[k].1.access != ReadOnlyAccess)];
      assert fields[..k + 1][..k] == fields[..k];
    }
    assert fields[..|fields|] == fields;
  }

  type Layout = map<string, Range>

  /** The ranges of a register's named fields: inside the register and pairwise disjoint. */
  ghost predicate Laid(fields: Layout, width: nat) {
    && (forall n :: n in fields ==> Proper(fields[n], width))
    && (forall m, n :: m in fields && n in fields && m != n ==> Apart(fields[m], fields[n]))
  }

  /** A property whose field lies inside the register accesses exactly the field's bits. */
  lemma PropertyRange(f: Field, width: nat)
    requires 0 < f.bitWidth && f.bitOffset + f.bitWidth <= width
    ensures CalcIndex(PropertyOf(f).index, width) == Ok(Range(f.bitOffset, f.bitOffset + f.bitWidth - 1, false))
    ensures Proper(Range(f.bitOffset, f.bitOffset + f.bitWidth - 1, false), width)
    ensures Size(Range(f.bitOffset, f.bitOffset + f.bitWidth - 1, false)) == f.bitWidth
  {
  }

  /** The named values a register holds. */
  ghost function View(x: nat, fields: Layout, width: nat): (m: map<string, nat>)
    requires Laid(fields, width)
  {
    map n | n in fields :: Extract(x, fields[n])
  }

  ghost predicate Writable(fields: Layout, w: (string, nat)) {
    w.0 in fields && fields[w.0].lower <= fields[w.0].upper && w.1 < Pow2(Size(fields[w.0]))
  }

  /** The register after a series of field writes. */
  ghost function Written(x: nat, fields: Layout, width: nat, ws: seq<(string, nat)>): (y: nat)
    requires Laid(fields, width) && x < Pow2(width)
    requires forall w :: w in ws ==> Writable(fields, w)
    ensures y < Pow2(width)
  {
    if ws == [] then x
    else
      var w := ws[|ws| - 1];
      var before := Written(x, fields, width, ws[..|ws| - 1]);
      assert Writable(fields, w);
      InsertFits(before, fields[w.0], w.1, width);
      Insert(before, fields[w.0], w.1, width)
  }

  /** The same writes to a map from names to values. */
  ghost function Assigned(m: map<string, nat>, ws: seq<(string, nat)>): map<string, nat> {
    if ws == [] then m else Assigned(m, ws[..|ws| - 1])[ws[|ws| - 1].0 := ws[|ws| - 1].1]
  }

  /** One write to a field updates that field's value and no other. */
  lemma WriteIsUpdate(x: nat, fields: Layout, width: nat, n: string, v: nat)
    requires Laid(fields, width) && x < Pow2(width) && Writable(fields, (n, v))
    ensures View(Insert(x, fields[n], v, width), fields, width) == View(x, fields, width)[n := v]
  {
    ReadBack(x, fields[n], v, width);
    forall m | m in fields && m != n
      ensures Extract(Insert(x, fields[n], v, width), fields[m]) == Extract(x, fields[m])
    {
      WriteElsewhere(x, fields[n], v, width, fields[m]);
    }
  }

  /** Any series of writes to disjoint fields behaves like assignments to independent variables,
      and leaves every bit outside the written fields alone. */
  lemma {:induction false} IndependentStore(x: nat, fields: Layout, width: nat, ws: seq<(string, nat)>)
    requires Laid(fields, width) && x < Pow2(width)
    requires forall w :: w in ws ==> Writable(fields, w)
    ensures View(Written(x, fields, width, ws), fields, width) == Assigned(View(x, fields, width), ws)
    ensures forall j: nat :: (forall w :: w in ws ==> !(fields[w.0].lower <= j <= fields[w.0].upper)) ==>
      Bit(Written(x, fields, width, ws), j) == Bit(x, j)
  {
    if ws != [] {
      var pre, w := ws[..|ws| - 1], ws[|ws| - 1];
      IndependentStore(x, fields, width, pre);
      var before := Written(x, fields, width, pre);
      assert Writable(fields, w);
      WriteIsUpdate(before, fields, width, w.0, w.1);
      forall j: nat | forall w :: w in ws ==> !(fields[w.0].lower <= j <= fields[w.0].upper)
        ensures Bit(Written(x, fields, width, ws), j) == Bit(x, j)
      {
        InsertBit(before, fields[w.0], w.1, width, j);
      }
    }
  }

  // ---------------------------------------------------------------- fields through properties

  predicate FieldFits(f: Field, width: nat) {
    0 < f.bitWidth && f.bitOffset + f.bitWidth <= width
  }

  function FieldRange(f: Field): Range {
    Range(f.bitOffset, f.bitOffset + f.bitWidth - 1, false)
  }

  /** Fields of a register: inside it, with different attribute names, sharing no bit. */
  ghost predicate FieldsOk(fields: seq<(string, Field)>, width: nat) {
    && Named(fields)
    && (forall i :: 0 <= i < |fields| ==> FieldFits(fields[i].1, width))
    && (forall i, j :: 0 <= i < j < |fields| ==> SafeName(fields[i].0) != SafeName(fields[j].0))
    && (forall i, j :: 0 <= i < j < |fields| ==> Apart(FieldRange(fields[i].1), FieldRange(fields[j].1)))
  }

  /** The bits every property accesses. */
  ghost function LayoutOf(fields: seq<(string, Field)>): Layout
    requires Named(fields)
  {
    if fields == [] then map[]
    else
      var last := fields[|fields| - 1];
      LayoutOf(fields[..|fields| - 1])[SafeName(last.0) := FieldRange(last.1)]
  }

  lemma {:induction false} LayoutHas(fields: seq<(string, Field)>, n: string) returns (i: nat)
    requires Named(fields) && (n in LayoutOf(fields) || n in Properties(fields))
    ensures i < |fields| && SafeName(fields[i].0) == n
    ensures n in LayoutOf(fields) && n in Properties(fields)
    ensures LayoutOf(fields)[n] == FieldRange(fields[i].1) && Properties(fields)[n] == PropertyOf(fields[i].1)
  {
    var k := |fields| - 1;
    if SafeName(fields[k].0) == n { i := k; } else { i := LayoutHas(fields[..k], n); }
  }

  /** The generated properties of proper fields access disjoint ranges of the register. */
  lemma PropertiesLaid(fields: seq<(string, Field)>, width: nat)
    requires FieldsOk(fields, width)
    ensures Laid(LayoutOf(fields), width) && LayoutOf(fields).Keys == Properties(fields).Keys
    ensures forall n :: n in Properties(fields) ==>
      CalcIndex(Properties(fields)[n].index, width) == Ok(LayoutOf(fields)[n])
  {
    var layout, props := LayoutOf(fields), Properties(fields);
    forall n | n in layout || n in props
      ensures n in layout && n in props && Proper(layout[n], width) && CalcIndex(props[n].index, width) == Ok(layout[n])
    {
      PropertyLaid(fields, width, n);
    }
    forall m, n | m in layout && n in layout && m != n ensures Apart(layout[m], layout[n]) {
      PropertiesApart(fields, width, m, n);
    }
    hide LayoutOf, Properties, FieldsOk, CalcIndex, Apart, Proper;
  }

  lemma PropertyLaid(fields: seq<(string, Field)>, width: nat, n: string)
    requires FieldsOk(fields, width) && (n in LayoutOf(fields) || n in Properties(fields))
    ensures n in LayoutOf(fields) && n in Properties(fields) && Proper(LayoutOf(fields)[n], width)
    ensures CalcIndex(Properties(fields)[n].index, width) == Ok(LayoutOf(fields)[n])
  {
    var i := LayoutHas(fields, n);
    PropertyRange(fields[i].1, width);
  }

  lemma PropertiesApart(fields: seq<(string, Field)>, width: nat, m: string, n: string)
    requires FieldsOk(fields, width) && m in LayoutOf(fields) && n in LayoutOf(fields) && m != n
    ensures Apart(LayoutOf(fields)[m], LayoutOf(fields)[n])
  {
    var i := LayoutHas(fields, m);
    var j := LayoutHas(fields, n);
    var a, b := FieldRange(fields[i].1), FieldRange(fields[j].1);
    assert if i < j then Apart(a, b) else Apart(b, a);
  }

  /** reg[index], for a register holding x. */
  function Read(x: nat, access: Access, index: Index, width: nat): Result<Reading, Error> {
    var rg := CalcIndex(index, width);
    if rg.Err? then Err(rg.error)
    else if access == WriteOnly then Ok(Hidden)
    else if rg.value.lower < 0 then Err(NegativeShift)
    else Ok(Number(Extract(x, rg.value)))
  }

  /** reg[k] is bit k, and a negative k is an error. */
  lemma ReadsBit(x: nat, access: Access, k: int, width: nat)
    requires access != WriteOnly
    ensures var r := Read(x, access, At(k), width);
      if k < 0 then r == Err(NegativeShift) else r == Ok(Number(if Bit(x, k) then 1 else 0))
  {
    if k >= 0 {
      var rg := Range(k, k, false);
      ExtractBit(x, rg, 0);
      ExtractFits(x, rg);
      OneBitFits();
    }
  }

  /** reg[start:stop:step], in the order the slice names the bits: from its stop towards its start. */
  lemma ReadsSlice(x: nat, access: Access, start: Option<int>, stop: Option<int>, step: Option<int>, width: nat, i: nat)
    requires access != WriteOnly && step in {None, Some(-1), Some(1)}
    requires 0 <= Endpoint(start, step != Some(1), width) < width && 0 <= Endpoint(stop, step == Some(1), width) < width
    ensures var r := Read(x, access, Slice(start, stop, step), width);
      var a, b := Endpoint(start, step != Some(1), width), Endpoint(stop, step == Some(1), width);
      var n := if a >= b then a - b + 1 else b - a + 1;
      && r.Ok? && r.value.Number? && r.value.n < Pow2(n)
      && Bit(r.value.n, i) == (i < n && Bit(x, if a >= b then b + i else b - i))
  {
    hide Extract, Bit, Pow2;
    SliceReads(start, stop, step, width, x, i);
    var rg := CalcIndex(Slice(start, stop, step), width).value;
    ExtractFits(x, rg);
  }

  /** Which assignments are accepted: to a valid slice, of a value that fits it. */
  predicate Fits(index: Index, v: nat, width: nat) {
    var rg := CalcIndex(index, width);
    rg.Ok? && 0 <= rg.value.lower && v < Pow2(Size(rg.value))
  }

  /** Assigning to a slice is accepted exactly if the slice is valid and the value has no more bits. */
  lemma AcceptsSlice(start: Option<int>, stop: Option<int>, step: Option<int>, width: nat, v: nat)
    ensures Fits(Slice(start, stop, step), v, width) <==>
      && step in {None, Some(-1), Some(1)}
      && var a, b := Endpoint(start, step != Some(1), width), Endpoint(stop, step == Some(1), width);
         0 <= a < width && 0 <= b < width && v < Pow2(if a >= b then a - b + 1 else b - a + 1)
  {
    hide Pow2;
  }

  /** Why an assignment is refused: a key that is none, or a value too large for what it names. */
  function Refusal(index: Index, v: nat, width: nat): Error
    requires !Fits(index, v, width)
  {
    match CalcIndex(index, width)
    case Err(e) => e
    case Ok(rg) => if rg.lower < rg.upper then TooLarge else if v > 1 then NotABit else NegativeShift
  }

  /** The assignment of v to the property name is accepted. */
  predicate Settable(props: map<string, Property>, width: nat, name: string, v: nat) {
    name in props && props[name].writable && Fits(props[name].index, v, width)
  }

  /** What a register holding x holds after that assignment, accepted or not. */
  function Stored(x: nat, props: map<string, Property>, width: nat, name: string, v: nat): nat
    requires forall n :: n in props ==> props[n].index.Slice?
  {
    if Settable(props, width, name, v) then Insert(x, CalcIndex(props[name].index, width).value, v, width) else x
  }

  ghost function StoredAll(x: nat, props: map<string, Property>, width: nat, ws: seq<(string, nat)>): nat
    requires forall n :: n in props ==> props[n].index.Slice?
  {
    if ws == [] then x
    else
      var w := ws[|ws| - 1];
      Stored(StoredAll(x, props, width, ws[..|ws| - 1]), props, width, w.0, w.1)
  }

  /** The assignments among ws that are accepted. */
  ghost function Accepted(props: map<string, Property>, width: nat, ws: seq<(string, nat)>): seq<(string, nat)> {
    if ws == [] then []
    else
      var w := ws[|ws| - 1];
      Accepted(props, width, ws[..|ws| - 1]) + if Settable(props, width, w.0, w.1) then [w] else []
  }

  lemma {:induction false} PropertySlices(fields: seq<(string, Field)>)
    requires Named(fields)
    ensures forall n :: n in Properties(fields) ==> Properties(fields)[n].index.Slice?
  {
    if fields != [] { PropertySlices(fields[..|fields| - 1]); }
  }

  /** Any series of assignments to the properties of proper fields, accepted or rejected, leaves the
      fields as the accepted ones leave independent variables. */
  lemma {:induction false} StoreFields(x: nat, fields: seq<(string, Field)>, width: nat, ws: seq<(string, nat)>)
    requires FieldsOk(fields, width) && x < Pow2(width)
    ensures Laid(LayoutOf(fields), width)
    ensures forall n :: n in Properties(fields) ==> Properties(fields)[n].index.Slice?
    ensures var y := StoredAll(x, Properties(fields), width, ws);
      && y < Pow2(width)
      && View(y, LayoutOf(fields), width)
           == Assigned(View(x, LayoutOf(fields), width), Accepted(Properties(fields), width, ws))
  {
    PropertiesLaid(fields, width);
    PropertySlices(fields);
    if ws != [] {
      var pre, w := ws[..|ws| - 1], ws[|ws| - 1];
      StoreFields(x, fields, width, pre);
      StoreField(StoredAll(x, Properties(fields), width, pre), fields, width, w.0, w.1);
      AssignedMore(View(x, LayoutOf(fields), width), Accepted(Properties(fields), width, pre), w);
    }
  }

  lemma AssignedMore(m: map<string, nat>, ws: seq<(string, nat)>, w: (string, nat))
    ensures Assigned(m, ws + [w]) == Assigned(m, ws)[w.0 := w.1] && ws + [] == ws
  {
    assert (ws + [w])[..|ws|] == ws;
  }

  lemma StoreField(x: nat, fields: seq<(string, Field)>, width: nat, name: string, v: nat)
    requires FieldsOk(fields, width) && x < Pow2(width) && Laid(LayoutOf(fields), width)
    requires forall n :: n in Properties(fields) ==> Properties(fields)[n].index.Slice?
    ensures var y, layout := Stored(x, Properties(fields), width, name, v), LayoutOf(fields);
      && y < Pow2(width)
      && View(y, layout, width) ==
           if Settable(Properties(fields), width, name, v) then View(x, layout, width)[name := v]
           else View(x, layout, width)
  {
    PropertiesLaid(fields, width);
    if Settable(Properties(fields), width, name, v) {
      InsertFits(x, LayoutOf(fields)[name], v, width);
      WriteIsUpdate(x, LayoutOf(fields), width, name, v);
    }
  }

  /** Reading a property after any such series returns what the variable holds. */
  lemma ReadFields(x: nat, fields: seq<(string, Field)>, width: nat, ws: seq<(string, nat)>, access: Access, n: string)
    requires FieldsOk(fields, width) && x < Pow2(width) && n in Properties(fields) && access != WriteOnly
    ensures Laid(LayoutOf(fields), width)
    ensures forall n :: n in Properties(fields) ==> Properties(fields)[n].index.Slice?
    ensures var vars := Assigned(View(x, LayoutOf(fields), width), Accepted(Properties(fields), width, ws));
      && n in vars
      && Read(StoredAll(x, Properties(fields), width, ws), access, Properties(fields)[n].index, width)
           == Ok(Number(vars[n]))
  {
    PropertiesLaid(fields, width);
    StoreFields(x, fields, width, ws);
  }

  lemma OneBitFits()
    ensures Pow2(1) == 2
  {
  }

  // ---------------------------------------------------------------- the register object

  class Register {
    const width: nat
    const access: Access
    var value: nat

    constructor (width: nat, access: Access, value: nat)
      requires (width == 32 || width == 64) && value < Pow2(width)
      ensures Valid() && this.width == width && this.access == access && this.value == value
    {
      this.width, this.access, this.value := width, access, value;
    }

    ghost predicate Valid()
      reads this
    {
      (width == 32 || width == 64) && value < Pow2(width)
    }

    /** reg[index] */
    function GetItem(index: Index): (r: Result<Reading, Error>)
      requires Valid()
      reads this
    {
      Read(value, access, index, width)
    }

    /** reg[index] = v */
    method SetItem(index: Index, v: nat) returns (r: Result<(), Error>)
      requires Valid()
      requires index.At? ==> index.i < width
      modifies this
      ensures Valid()
      ensures r.Ok? <==> Fits(index, v, width)
      ensures r.Err? ==> r.error == Refusal(index, v, width)
      ensures value == if r.Ok? then Insert(old(value), CalcIndex(index, width).value, v, width) else old(value)
    {
      hide CalcIndex, ReverseBits, Or, AndNot, Shl, Pow2, Bit;
      OneBitFits();
      var range := CalcIndex(index, width);
      if range.Err? { return Err(range.error); }
      var lower, upper, reverse := range.value.lower, range.value.upper, range.value.reversed;
      ghost var x := value;
      if upper == lower {
        if v != 0 && v != 1 { return Err(NotABit); }
        if lower < 0 { return Err(NegativeShift); }
        InsertFits(x, range.value, v, width);
        var mask := Shl(1, lower);
        value := Or(AndNot(value, mask), Shl(v, lower));
      } else {
        var w := upper - lower + 1;
        var mask := Mask(w);
        if v > mask { return Err(TooLarge); }
        InsertFits(x, range.value, v, width);
        var bits := if reverse then ReverseBits(v, w) else v;
        if w == width {
          value := bits;
        } else {
          value := Or(AndNot(value, Shl(mask, lower)), Shl(bits, lower));
        }
      }
      r := Ok(());
    }

    /** Assigning a named property. */
    method SetField(props: map<string, Property>, name: string, v: nat) returns (r: Result<(), Error>)
      requires Valid()
      requires forall n :: n in props ==> props[n].index.Slice?
      modifies this
      ensures Valid()
      ensures r.Ok? <==> Settable(props, width, name, v)
      ensures r == Err(NoSuchField) <==> name !in props
      ensures r == Err(ReadOnly) <==> name in props && !props[name].writable
      ensures value == Stored(old(value), props, width, name, v)
    {
      if name !in props { return Err(NoSuchField); }
      if !props[name].writable { return Err(ReadOnly); }
      r := SetItem(props[name].index, v);
    }
  }
}
