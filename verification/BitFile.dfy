/** The header of a .bit file and the word swap that turns its payload into .bin data. */
module BitFile {
  import opened Numbers
  import opened Wrappers

  type Byte = b: nat | b < 256
  type Bytes = seq<Byte>

  datatype Error = Truncated | BadIndex | BadLength | NotAscii | InvalidLength | UnknownField | NotWords

  /** The fields of the header by name; a field that is not in the file has no entry. */
  datatype Header = Header(design: Option<string>, version: Option<string>, part: Option<string>, date: Option<string>,
    time: Option<string>)

  /** The header, the length entry and the payload. */
  datatype Parsed = Parsed(header: Header, length: int, data: Bytes)

  const NO_FIELDS := Header(None, None, None, None, None)

  // ---------------------------------------------------------------- Python's indexing

  function Clip(n: nat, i: int): (r: nat)
    ensures r <= n
  {
    if i < 0 then (if n + i < 0 then 0 else n + i) else if i > n then n else i
  }

  /** c[a:b]; negative positions count from the end. */
  function Slice(c: Bytes, a: int, b: int): Bytes {
    var lo, hi := Clip(|c|, a), Clip(|c|, b);
    if lo <= hi then c[lo..hi] else []
  }

  /** c[i], if there is such a byte. */
  function Item(c: Bytes, i: int): Option<Byte> {
    if 0 <= i < |c| then Some(c[i]) else if -|c| <= i < 0 then Some(c[|c| + i]) else None
  }

  // ---------------------------------------------------------------- numbers and text

  /** An unsigned big-endian number. */
  function Big(s: Bytes): nat {
    if s == [] then 0 else 256 * Big(s[..|s| - 1]) + s[|s| - 1]
  }

  /** A number in n bytes, big-endian. */
  function Wide(x: nat, n: nat): (s: Bytes)
    ensures |s| == n
  {
    if n == 0 then [] else Wide(x / 256, n - 1) + [x % 256]
  }

  /** struct.unpack(">h") and (">i"): two's complement of exactly 2 or 4 bytes. */
  function Signed(s: Bytes): int
    requires |s| == 2 || |s| == 4
  {
    var half := if |s| == 2 then 0x8000 else 0x8000_0000;
    if Big(s) < half then Big(s) else Big(s) - 2 * half
  }

  lemma {:induction false} BigWide(x: nat, n: nat)
    requires x < Limit(n)
    ensures Big(Wide(x, n)) == x
  {
    if n > 0 {
      BigWide(x / 256, n - 1);
      assert Wide(x, n)[..n - 1] == Wide(x / 256, n - 1);
    }
  }

  lemma {:induction false} WideBig(s: Bytes)
    ensures Big(s) < Limit(|s|) && Wide(Big(s), |s|) == s
  {
    if s != [] { WideBig(s[..|s| - 1]); }
  }

  lemma SignedWide(x: nat, n: nat)
    requires (n == 2 && x < 0x8000) || (n == 4 && x < 0x8000_0000)
    ensures Signed(Wide(x, n)) == x
  {
    assert Limit(2) == 0x1_0000 && Limit(4) == 0x1_0000_0000 by {
      assert Limit(1) == 256;
      assert Limit(3) == 256 * Limit(2);
    }
    BigWide(x, n);
  }

  lemma WideSigned(s: Bytes)
    requires (|s| == 2 || |s| == 4) && Signed(s) >= 0
    ensures Wide(Signed(s), |s|) == s && (|s| == 2 ==> Signed(s) < 0x8000) && (|s| == 4 ==> Signed(s) < 0x8000_0000)
  {
    assert Limit(2) == 0x1_0000 && Limit(4) == 0x1_0000_0000 by {
      assert Limit(1) == 256;
      assert Limit(3) == 256 * Limit(2);
    }
    WideBig(s);
  }

  predicate Ascii(s: Bytes) {
    forall i :: 0 <= i < |s| ==> s[i] < 128
  }

  function Text(s: Bytes): (t: string)
    requires Ascii(s)
    ensures |t| == |s|
  {
    seq(|s|, i requires 0 <= i < |s| => s[i] as char)
  }

  /** data.decode("ascii")[:-1] */
  function Trimmed(s: Bytes): string
    requires Ascii(s)
  {
    if s == [] then "" else Text(s)[..|s| - 1]
  }

  /** data.split(";") */
  function Split(s: string): (parts: seq<string>)
    ensures parts != []
  {
    if s == [] then [""]
    else
      var rest := Split(s[1..]);
      if s[0] == ';' then [""] + rest else [[s[0]] + rest[0]] + rest[1..]
  }

  lemma {:induction false} SplitNone(s: string)
    requires ';' !in s
    ensures Split(s) == [s]
  {
    if s != [] {
      SplitNone(s[1..]);
      assert [s[0]] + s[1..] == s;
    }
  }

  /** The first part is what precedes the first semicolon. */
  lemma {:induction false} SplitFirst(a: string, s: string)
    requires ';' !in a
    ensures Split(a + ";" + s) == [a] + Split(s)
  {
    var all := a + ";" + s;
    if a == [] {
      assert all[1..] == s;
    } else {
      SplitFirst(a[1..], s);
      assert all[1..] == a[1..] + ";" + s;
      assert [a[0]] + a[1..] == a;
    }
  }

  /** The last part is what follows the last one. */
  lemma {:induction false} SplitLast(s: string, b: string)
    requires ';' !in b
    ensures Split(s + ";" + b) == Split(s) + [b]
  {
    var all := s + ";" + b;
    if s == [] {
      assert all[1..] == b;
      SplitNone(b);
    } else {
      SplitLast(s[1..], b);
      assert all[1..] == s[1..] + ";" + b;
    }
  }

  // ---------------------------------------------------------------- parsing

  const DESIGN: Byte := 0x61
  const PART: Byte := 0x62
  const DATE: Byte := 0x63
  const TIME: Byte := 0x64
  const DATA: Byte := 0x65

  predicate Tagged(desc: Byte) {
    DESIGN <= desc <= TIME
  }

  /** The entries a text field sets. */
  function Put(h: Header, desc: Byte, text: string): Header
    requires Tagged(desc)
  {
    if desc == DESIGN then
      var s := Split(text);
      h.(design := Some(s[0]), version := Some(s[|s| - 1]))
    else if desc == PART then h.(part := Some(text))
    else if desc == DATE then h.(date := Some(text))
    else h.(time := Some(text))
  }

  /** struct.unpack of an n-byte number at a position. */
  function Number(c: Bytes, at: int, n: nat): Result<int, Error>
    requires n == 2 || n == 4
  {
    var s := Slice(c, at, at + n);
    if |s| != n then Err(Truncated) else Ok(Signed(s))
  }

  /** The bytes of a text field of that length, which must be there and decode. */
  function Chars(c: Bytes, at: int, length: int): (r: Result<Bytes, Error>)
    ensures r.Ok? ==> Ascii(r.value) && |r.value| == length
  {
    if length < 0 then Err(BadLength)
    else
      var s := Slice(c, at, at + length);
      if |s| != length then Err(Truncated) else if !Ascii(s) then Err(NotAscii) else Ok(s)
  }

  /** A counted text field at a position. */
  function TextAt(c: Bytes, at: int): (r: Result<Bytes, Error>)
    ensures r.Ok? ==> Ascii(r.value)
  {
    match Number(c, at, 2)
    case Err(e) => Err(e)
    case Ok(length) => Chars(c, at + 2, length)
  }

  /** The counted payload, which must reach the end of the file. */
  function PayloadAt(c: Bytes, at: int, h: Header): Result<Parsed, Error> {
    match Number(c, at, 4)
    case Err(e) => Err(e)
    case Ok(length) =>
      if length + (at + 4) != |c| then Err(InvalidLength) else Ok(Parsed(h, length, Slice(c, at + 4, at + 4 + length)))
  }

  /** The fields from offset on. */
  function ParseFrom(c: Bytes, offset: int, h: Header): Result<Parsed, Error>
    decreases |c| - offset
  {
    match Item(c, offset)
    case None => Err(BadIndex)
    case Some(desc) =>
      if desc == DATA then PayloadAt(c, offset + 1, h)
      else
        match TextAt(c, offset + 1)
        case Err(e) => Err(e)
        case Ok(raw) =>
          if !Tagged(desc) then Err(UnknownField)
          else ParseFrom(c, offset + 3 + |raw|, Put(h, desc, Trimmed(raw)))
  }

  function Parse(c: Bytes): Result<Parsed, Error> {
    match Number(c, 0, 2)
    case Err(e) => Err(e)
    case Ok(length) => ParseFrom(c, length + 4, NO_FIELDS)
  }

  lemma ParseStep(c: Bytes, offset: int, h: Header)
    ensures Item(c, offset).None? ==> ParseFrom(c, offset, h) == Err(BadIndex)
    ensures Item(c, offset).Some? ==> offset < |c|
    ensures Item(c, offset) == Some(DATA) ==> ParseFrom(c, offset, h) == PayloadAt(c, offset + 1, h)
    ensures Item(c, offset).Some? && Item(c, offset).value != DATA && TextAt(c, offset + 1).Err? ==>
      ParseFrom(c, offset, h) == Err(TextAt(c, offset + 1).error)
    ensures Item(c, offset).Some? && Item(c, offset).value != DATA && TextAt(c, offset + 1).Ok? ==>
      var desc, raw := Item(c, offset).value, TextAt(c, offset + 1).value;
      if !Tagged(desc) then ParseFrom(c, offset, h) == Err(UnknownField)
      else ParseFrom(c, offset, h) == ParseFrom(c, offset + 3 + |raw|, Put(h, desc, Trimmed(raw)))
  {
    hide PayloadAt, TextAt, Put, Trimmed, Tagged;
  }

  lemma ParseStart(c: Bytes)
    ensures Number(c, 0, 2).Err? ==> Parse(c) == Err(Number(c, 0, 2).error)
    ensures Number(c, 0, 2).Ok? ==> Parse(c) == ParseFrom(c, Number(c, 0, 2).value + 4, NO_FIELDS)
  {
    hide Number, ParseFrom;
  }

  method ParseBitHeader(contents: Bytes) returns (r: Result<Parsed, Error>)
    ensures r == Parse(contents)
  {
    hide *;
    ParseStart(contents);
    var offset: int := 0;
    var bits := NO_FIELDS;
    var length := Number(contents, offset, 2);
    if length.Err? { return Err(length.error); }
    offset := offset + 2 + length.value;
    offset := offset + 2;
    while true
      invariant ParseFrom(contents, offset, bits) == Parse(contents)
      decreases |contents| - offset
    {
      ParseStep(contents, offset, bits);
      var desc := Item(contents, offset);
      if desc.None? { return Err(BadIndex); }
      if desc.value == DATA {
        r := ReadPayload(contents, offset + 1, bits);
        return r;
      }
      var raw := ReadText(contents, offset + 1);
      if raw.Err? { return Err(raw.error); }
      if !Tagged(desc.value) { return Err(UnknownField); }
      offset := offset + 3 + |raw.value|;
      bits := StoreField(bits, desc.value, Trimmed(raw.value));
    }
  }

  /** A text field's count and bytes. */
  method ReadText(contents: Bytes, start: int) returns (r: Result<Bytes, Error>)
    ensures r == TextAt(contents, start)
  {
    var offset := start;
    var length := Number(contents, offset, 2);
    if length.Err? { return Err(length.error); }
    offset := offset + 2;
    r := Chars(contents, offset, length.value);
  }

  /** The data field ends the header. */
  method ReadPayload(contents: Bytes, start: int, bits: Header) returns (r: Result<Parsed, Error>)
    ensures r == PayloadAt(contents, start, bits)
  {
    var offset := start;
    var length := Number(contents, offset, 4);
    if length.Err? { return Err(length.error); }
    offset := offset + 4;
    if length.value + offset != |contents| { return Err(InvalidLength); }
    r := Ok(Parsed(bits, length.value, Slice(contents, offset, offset + length.value)));
  }

  /** The branches that fill in the dictionary. */
  method StoreField(bits: Header, desc: Byte, data: string) returns (r: Header)
    requires Tagged(desc)
    ensures r == Put(bits, desc, data)
  {
    if desc == DESIGN {
      var s := Split(data);
      r := bits.(design := Some(s[0]), version := Some(s[|s| - 1]));
    } else if desc == PART {
      r := bits.(part := Some(data));
    } else if desc == DATE {
      r := bits.(date := Some(data));
    } else {
      r := bits.(time := Some(data));
    }
  }

  // ---------------------------------------------------------------- the layout

  /** A text field: its tag and its bytes, the last of which is the terminator. */
  datatype Field = Field(desc: Byte, data: Bytes)

  predicate FieldOk(f: Field) {
    Tagged(f.desc) && Ascii(f.data) && |f.data| < 0x8000
  }

  predicate FieldsOk(fields: seq<Field>) {
    forall i :: 0 <= i < |fields| ==> FieldOk(fields[i])
  }

  function FieldBytes(f: Field): Bytes {
    [f.desc] + Wide(|f.data|, 2) + f.data
  }

  function Body(fields: seq<Field>, payload: Bytes): Bytes {
    if fields == [] then [DATA] + Wide(|payload|, 4) + payload
    else FieldBytes(fields[0]) + Body(fields[1..], payload)
  }

  /** The file: a counted preamble, two bytes nobody knows, the fields, the payload. */
  function File(preamble: Bytes, unknown: Bytes, fields: seq<Field>, payload: Bytes): Bytes {
    Wide(|preamble|, 2) + preamble + unknown + Body(fields, payload)
  }

  function PutAll(h: Header, fields: seq<Field>): Header
    requires FieldsOk(fields)
    decreases |fields|
  {
    if fields == [] then h else PutAll(Put(h, fields[0].desc, Trimmed(fields[0].data)), fields[1..])
  }

  lemma SliceIn(c: Bytes, pre: Bytes, part: Bytes, post: Bytes)
    requires c == pre + part + post
    ensures Slice(c, |pre|, |pre| + |part|) == part
  {
  }

  lemma NumberIn(c: Bytes, pre: Bytes, x: nat, n: nat, post: Bytes)
    requires (n == 2 && x < 0x8000) || (n == 4 && x < 0x8000_0000)
    requires c == pre + Wide(x, n) + post
    ensures Number(c, |pre|, n) == Ok(x)
  {
    SliceIn(c, pre, Wide(x, n), post);
    SignedWide(x, n);
  }

  lemma {:induction false} ParseBody(c: Bytes, pre: Bytes, fields: seq<Field>, payload: Bytes, h: Header)
    requires c == pre + Body(fields, payload) && FieldsOk(fields) && |payload| < 0x8000_0000
    ensures ParseFrom(c, |pre|, h) == Ok(Parsed(PutAll(h, fields), |payload|, payload))
    decreases |fields|
  {
    if fields == [] {
      assert Body(fields, payload) == [DATA] + Wide(|payload|, 4) + payload;
      ParsePayload(c, pre, payload, h);
    } else {
      var f := fields[0];
      var rest := Body(fields[1..], payload);
      var h' := Put(h, f.desc, Trimmed(f.data));
      assert FieldOk(f) && FieldsOk(fields[1..]) && Body(fields, payload) == FieldBytes(f) + rest;
      assert PutAll(h, fields) == PutAll(h', fields[1..]);
      hide *;
      ParseField(c, pre, f, rest, h);
      Regroup(pre, FieldBytes(f), rest);
      ParseBody(c, pre + FieldBytes(f), fields[1..], payload, h');
    }
  }

  lemma Regroup(a: Bytes, b: Bytes, c: Bytes)
    ensures a + (b + c) == (a + b) + c
  {
  }

  lemma ParsePayload(c: Bytes, pre: Bytes, payload: Bytes, h: Header)
    requires c == pre + ([DATA] + Wide(|payload|, 4) + payload) && |payload| < 0x8000_0000
    ensures ParseFrom(c, |pre|, h) == Ok(Parsed(h, |payload|, payload))
  {
    var size := Wide(|payload|, 4);
    var start := pre + [DATA];
    assert c == start + size + payload;
    NumberIn(c, start, |payload|, 4, payload);
    assert c == (start + size) + payload + [];
    SliceIn(c, start + size, payload, []);
    assert Item(c, |pre|) == Some(DATA);
    hide Slice, Number, Wide;
  }

  lemma TextIn(c: Bytes, pre: Bytes, data: Bytes, post: Bytes)
    requires c == pre + (Wide(|data|, 2) + data) + post && |data| < 0x8000 && Ascii(data)
    ensures TextAt(c, |pre|) == Ok(data)
  {
    var size := Wide(|data|, 2);
    Regroup(pre + size, data, post);
    Regroup(pre, size, data);
    assert c == pre + size + (data + post);
    NumberIn(c, pre, |data|, 2, data + post);
    CharsIn(c, pre + size, data, post);
    hide Slice, Number, Wide, Chars;
  }

  lemma CharsIn(c: Bytes, pre: Bytes, data: Bytes, post: Bytes)
    requires c == pre + data + post && Ascii(data)
    ensures Chars(c, |pre|, |data|) == Ok(data)
  {
    SliceIn(c, pre, data, post);
    hide Slice;
  }

  lemma ParseField(c: Bytes, pre: Bytes, f: Field, rest: Bytes, h: Header)
    requires c == pre + (FieldBytes(f) + rest) && FieldOk(f)
    ensures ParseFrom(c, |pre|, h) == ParseFrom(c, |pre + FieldBytes(f)|, Put(h, f.desc, Trimmed(f.data)))
  {
    hide *;
    FieldFacts(c, pre, f, rest);
    TextIn(c, pre + [f.desc], f.data, rest);
    ParseStep(c, |pre|, h);
  }

  lemma FieldFacts(c: Bytes, pre: Bytes, f: Field, rest: Bytes)
    requires c == pre + (FieldBytes(f) + rest) && FieldOk(f)
    ensures c == (pre + [f.desc]) + (Wide(|f.data|, 2) + f.data) + rest
    ensures Item(c, |pre|) == Some(f.desc)
    ensures |pre + FieldBytes(f)| == |pre| + 3 + |f.data| && |pre + [f.desc]| == |pre| + 1
    ensures Tagged(f.desc) && f.desc != DATA && |f.data| < 0x8000 && Ascii(f.data)
  {
    FieldSpread(pre, f, rest);
    hide Wide;
  }

  lemma FieldSpread(pre: Bytes, f: Field, rest: Bytes)
    ensures pre + (FieldBytes(f) + rest) == (pre + [f.desc]) + (Wide(|f.data|, 2) + f.data) + rest
  {
    hide Wide;
  }

  /** Parsing undoes the layout: any preamble, any fields in any order, any payload. */
  lemma ParseFile(preamble: Bytes, unknown: Bytes, fields: seq<Field>, payload: Bytes)
    requires |preamble| < 0x8000 && |unknown| == 2 && FieldsOk(fields) && |payload| < 0x8000_0000
    ensures Parse(File(preamble, unknown, fields, payload)) == Ok(Parsed(PutAll(NO_FIELDS, fields), |payload|, payload))
  {
    var c, size := File(preamble, unknown, fields, payload), Wide(|preamble|, 2);
    assert c == [] + size + (preamble + unknown + Body(fields, payload));
    SliceIn(c, [], size, preamble + unknown + Body(fields, payload));
    SignedWide(|preamble|, 2);
    assert c == (size + preamble + unknown) + Body(fields, payload);
    ParseBody(c, size + preamble + unknown, fields, payload, NO_FIELDS);
  }

  ghost predicate HasLayout(c: Bytes, preamble: Bytes, unknown: Bytes, fields: seq<Field>, payload: Bytes) {
    |preamble| < 0x8000 && |unknown| == 2 && FieldsOk(fields) && c == File(preamble, unknown, fields, payload)
  }

  /** Exactly which of the accepted files have the layout: those whose preamble's count is not
      negative as a signed number. */
  lemma AcceptedHasLayoutIff(c: Bytes)
    requires Parse(c).Ok?
    ensures Number(c, 0, 2).Ok?
    ensures (exists preamble, unknown, fields :: HasLayout(c, preamble, unknown, fields, Parse(c).value.data))
       <==> Number(c, 0, 2).value >= 0
  {
    hide *;
    ParseStart(c);
    var n := Number(c, 0, 2).value;
    if n >= 0 {
      NumberOut(c, 0, 2);
      var fields := AcceptedBody(c, n + 4, NO_FIELDS);
      WholeFile(c, n, fields, Parse(c).value.data);
    } else {
      forall preamble, unknown, fields | HasLayout(c, preamble, unknown, fields, Parse(c).value.data) ensures false {
        LayoutCount(c, preamble, unknown, fields, Parse(c).value.data);
      }
    }
  }

  lemma LayoutCount(c: Bytes, preamble: Bytes, unknown: Bytes, fields: seq<Field>, payload: Bytes)
    requires HasLayout(c, preamble, unknown, fields, payload)
    ensures Number(c, 0, 2) == Ok(|preamble|)
  {
    Regroup(Wide(|preamble|, 2), preamble + unknown, Body(fields, payload));
    assert c == [] + Wide(|preamble|, 2) + (preamble + unknown + Body(fields, payload));
    NumberIn(c, [], |preamble|, 2, preamble + unknown + Body(fields, payload));
  }

  /** Seven bytes that are accepted without having the layout: a count of -2 lets the fields begin
      where the unknown bytes should be. */
  lemma NegativeCount()
    ensures var c: Bytes := [0xFF, 0xFE, 0x65, 0, 0, 0, 0];
      && Parse(c) == Ok(Parsed(NO_FIELDS, 0, []))
      && !exists preamble, unknown, fields :: HasLayout(c, preamble, unknown, fields, [])
  {
    var c: Bytes := [0xFF, 0xFE, 0x65, 0, 0, 0, 0];
    assert Slice(c, 0, 2) == [0xFF, 0xFE] && [0xFF, 0xFE][..1] == [0xFF] && [0xFF][..0] == [];
    assert Big([0xFF]) == 0xFF && Big([0xFF, 0xFE]) == 0xFFFE;
    assert Number(c, 0, 2) == Ok(-2);
    assert Item(c, 2) == Some(DATA);
    assert Slice(c, 3, 7) == [0, 0, 0, 0];
    Zeros();
    assert Number(c, 3, 4) == Ok(0);
    assert Slice(c, 7, 7) == [];
    assert PayloadAt(c, 3, NO_FIELDS) == Ok(Parsed(NO_FIELDS, 0, []));
    ParseStep(c, 2, NO_FIELDS);
    AcceptedHasLayoutIff(c);
  }

  lemma Zeros()
    ensures Big([0, 0, 0, 0]) == 0
  {
    assert [0, 0, 0, 0][..3] == [0, 0, 0] && [0, 0, 0][..2] == [0, 0] && [0, 0][..1] == [0] && [0][..0] == [];
    assert Big([0]) == 0 && Big([0, 0]) == 0 && Big([0, 0, 0]) == 0;
  }

  lemma WholeFile(c: Bytes, n: nat, fields: seq<Field>, payload: Bytes)
    requires n + 4 <= |c| && n < 0x8000 && Wide(n, 2) == c[0..2] && FieldsOk(fields)
    requires c[n + 4..] == Body(fields, payload)
    ensures HasLayout(c, c[2..n + 2], c[n + 2..n + 4], fields, payload)
  {
    Pieces(c, n);
    hide Wide, Body, FieldsOk;
  }

  lemma Pieces(c: Bytes, n: nat)
    requires n + 4 <= |c|
    ensures c == c[0..2] + c[2..n + 2] + c[n + 2..n + 4] + c[n + 4..]
  {
  }

  lemma NumberOut(c: Bytes, at: nat, n: nat)
    requires (n == 2 || n == 4) && Number(c, at, n).Ok? && Number(c, at, n).value >= 0
    ensures at + n <= |c| && var x := Number(c, at, n).value;
      && Wide(x, n) == c[at..at + n] && (n == 2 ==> x < 0x8000) && (n == 4 ==> x < 0x8000_0000)
  {
    WideSigned(c[at..at + n]);
  }

  lemma TextOut(c: Bytes, at: nat)
    requires TextAt(c, at).Ok?
    ensures var data := TextAt(c, at).value;
      && at + 2 + |data| <= |c| && |data| < 0x8000 && Ascii(data)
      && c[at..] == Wide(|data|, 2) + data + c[at + 2 + |data|..]
  {
    var n, data := Number(c, at, 2).value, TextAt(c, at).value;
    assert Chars(c, at + 2, n) == Ok(data);
    NumberOut(c, at, 2);
    CharsOut(c, at + 2, n);
    Cut(c, at, at + 2, at + 2 + n);
    hide *;
  }

  lemma CharsOut(c: Bytes, at: nat, n: int)
    requires Chars(c, at, n).Ok? && at <= |c|
    ensures 0 <= n && at + n <= |c| && Chars(c, at, n).value == c[at..at + n] && Ascii(c[at..at + n])
  {
  }

  lemma Cut(c: Bytes, a: nat, b: nat, d: nat)
    requires a <= b <= d <= |c|
    ensures c[a..] == c[a..b] + c[b..d] + c[d..]
  {
  }

  lemma PayloadOut(c: Bytes, at: nat, h: Header)
    requires PayloadAt(c, at, h).Ok? && at <= |c|
    ensures var data := PayloadAt(c, at, h).value.data;
      c[at..] == Wide(|data|, 4) + data
  {
    NumberOut(c, at, 4);
    Rest(c, at, at + 4);
    hide Number, Wide;
  }

  lemma Rest(c: Bytes, a: nat, b: nat)
    requires a <= b <= |c|
    ensures c[a..] == c[a..b] + c[b..] && c[b..] == Slice(c, b, |c|)
  {
  }

  lemma {:induction false} AcceptedBody(c: Bytes, offset: nat, h: Header) returns (fields: seq<Field>)
    requires ParseFrom(c, offset, h).Ok?
    ensures offset <= |c| && FieldsOk(fields) && c[offset..] == Body(fields, ParseFrom(c, offset, h).value.data)
    decreases |c| - offset
  {
    hide *;
    AcceptedStep(c, offset, h);
    if c[offset] == DATA {
      fields := [];
      OnlyPayload(c, offset, ParseFrom(c, offset, h).value.data);
    } else {
      var data := TextAt(c, offset + 1).value;
      var rest := AcceptedBody(c, offset + 3 + |data|, Put(h, c[offset], Trimmed(data)));
      fields := [Field(c[offset], data)] + rest;
      FirstByte(c, offset);
      TextOut(c, offset + 1);
      JoinField(c, offset, Field(c[offset], data), rest, ParseFrom(c, offset, h).value.data);
    }
  }

  lemma FirstByte(c: Bytes, offset: nat)
    requires offset < |c|
    ensures c[offset..] == [c[offset]] + c[offset + 1..]
  {
  }

  lemma OnlyPayload(c: Bytes, offset: nat, payload: Bytes)
    requires offset < |c| && c[offset] == DATA && c[offset + 1..] == Wide(|payload|, 4) + payload
    ensures FieldsOk([]) && c[offset..] == Body([], payload)
  {
    FirstByte(c, offset);
    hide Wide;
  }

  /** What an accepted field is. */
  lemma AcceptedStep(c: Bytes, offset: nat, h: Header)
    requires ParseFrom(c, offset, h).Ok?
    ensures offset < |c|
    ensures c[offset] == DATA ==> var p := ParseFrom(c, offset, h).value.data; c[offset + 1..] == Wide(|p|, 4) + p
    ensures c[offset] != DATA ==>
      && Tagged(c[offset]) && TextAt(c, offset + 1).Ok? && offset + 3 + |TextAt(c, offset + 1).value| <= |c|
      && FieldOk(Field(c[offset], TextAt(c, offset + 1).value))
      && var raw := TextAt(c, offset + 1).value;
         ParseFrom(c, offset, h) == ParseFrom(c, offset + 3 + |raw|, Put(h, c[offset], Trimmed(raw)))
  {
    if c[offset] == DATA {
      PayloadOut(c, offset + 1, h);
      hide PayloadAt, Wide;
    } else {
      TextOut(c, offset + 1);
      hide TextAt, Wide, Put, Trimmed;
    }
  }

  lemma JoinField(c: Bytes, offset: nat, f: Field, rest: seq<Field>, payload: Bytes)
    requires offset + 3 + |f.data| <= |c| && c[offset..] == [f.desc] + c[offset + 1..]
    requires c[offset + 1..] == Wide(|f.data|, 2) + f.data + c[offset + 3 + |f.data|..]
    requires c[offset + 3 + |f.data|..] == Body(rest, payload) && FieldOk(f) && FieldsOk(rest)
    ensures FieldsOk([f] + rest) && c[offset..] == Body([f] + rest, payload)
  {
    assert ([f] + rest)[1..] == rest;
  }

  /** With each tag at most once, the order of the fields does not matter: each is returned. */
  lemma {:induction false} FieldReturned(h: Header, fields: seq<Field>, i: nat)
    requires FieldsOk(fields) && i < |fields| && forall j :: i < j < |fields| ==> fields[j].desc != fields[i].desc
    ensures var r, text := PutAll(h, fields), Trimmed(fields[i].data);
      && (fields[i].desc == DESIGN ==>
           r.design == Some(Split(text)[0]) && r.version == Some(Split(text)[|Split(text)| - 1]))
      && (fields[i].desc == PART ==> r.part == Some(text))
      && (fields[i].desc == DATE ==> r.date == Some(text))
      && (fields[i].desc == TIME ==> r.time == Some(text))
    decreases |fields|
  {
    var h' := Put(h, fields[0].desc, Trimmed(fields[0].data));
    assert FieldOk(fields[0]);
    if i == 0 {
      forall k | 0 <= k < |fields[1..]| ensures fields[1..][k].desc != fields[0].desc {
        assert fields[1..][k] == fields[k + 1];
      }
      OthersStay(h', fields[1..], fields[0].desc);
    } else {
      FieldReturned(h', fields[1..], i - 1);
    }
  }

  lemma {:induction false} OthersStay(h: Header, fields: seq<Field>, desc: Byte)
    requires FieldsOk(fields) && forall j :: 0 <= j < |fields| ==> fields[j].desc != desc
    ensures var r := PutAll(h, fields);
      && (desc == DESIGN ==> r.design == h.design && r.version == h.version) && (desc == PART ==> r.part == h.part)
      && (desc == DATE ==> r.date == h.date) && (desc == TIME ==> r.time == h.time)
    decreases |fields|
  {
    if fields != [] {
      assert FieldOk(fields[0]);
      OthersStay(Put(h, fields[0].desc, Trimmed(fields[0].data)), fields[1..], desc);
    }
  }

  predicate IsAscii(t: string) {
    forall c :: c in t ==> c < 128 as char
  }

  /** The bytes of a text. */
  function Codes(t: string): (s: Bytes)
    requires IsAscii(t)
    ensures |s| == |t| && Ascii(s)
  {
    seq<Byte>(|t|, i requires 0 <= i < |t| => Code(t, i))
  }

  function Code(t: string, i: nat): (b: Byte)
    requires IsAscii(t) && i < |t|
    ensures b < 128
  {
    assert t[i] in t;
    t[i] as nat
  }

  lemma TrimmedCodes(t: string, end: Byte)
    requires IsAscii(t) && end < 128
    ensures Ascii(Codes(t) + [end]) && Trimmed(Codes(t) + [end]) == t
  {
    var s := Codes(t) + [end];
    forall i | 0 <= i < |t| ensures Text(s)[i] == t[i] { assert s[i] == t[i] as int; }
    assert Text(s)[..|s| - 1] == t;
  }

  /** The field is the last of its tag, and its bytes are the codes of t and a terminator. */
  predicate Holds(fields: seq<Field>, i: nat, t: string, end: Byte) {
    && FieldsOk(fields) && i < |fields| && (forall j :: i < j < |fields| ==> fields[j].desc != fields[i].desc)
    && IsAscii(t) && end < 128 && fields[i].data == Codes(t) + [end]
  }

  /** A field that holds a text is returned as that text. */
  lemma TextReturned(h: Header, fields: seq<Field>, i: nat, t: string, end: Byte)
    requires Holds(fields, i, t, end)
    ensures var r := PutAll(h, fields);
      && (fields[i].desc == PART ==> r.part == Some(t))
      && (fields[i].desc == DATE ==> r.date == Some(t))
      && (fields[i].desc == TIME ==> r.time == Some(t))
      && (fields[i].desc == DESIGN && ';' !in t ==> r.design == Some(t) && r.version == Some(t))
  {
    TrimmedCodes(t, end);
    FieldReturned(h, fields, i);
    if ';' !in t { SplitNone(t); }
  }

  /** Of a design text the part before the first semicolon is returned, and the part after the last. */
  lemma DesignReturned(h: Header, fields: seq<Field>, i: nat, t: string, end: Byte, a: string, s: string, p: string,
        b: string)
    requires Holds(fields, i, t, end) && fields[i].desc == DESIGN
    requires t == a + ";" + s && t == p + ";" + b && ';' !in a && ';' !in b
    ensures PutAll(h, fields).design == Some(a) && PutAll(h, fields).version == Some(b)
  {
    TrimmedCodes(t, end);
    FieldReturned(h, fields, i);
    SplitFirst(a, s);
    SplitLast(p, b);
  }

  // ---------------------------------------------------------------- .bin data

  function Word(s: Bytes): (r: Bytes)
    requires |s| == 4
    ensures |r| == 4
  {
    [s[3], s[2], s[1], s[0]]
  }

  /** byteswap of 4-byte words */
  function Swap(s: Bytes): Bytes
    requires |s| % 4 == 0
  {
    if s == [] then [] else Word(s[..4]) + Swap(s[4..])
  }

  /** Byte k of the result is byte k mirrored within its word. */
  lemma {:induction false} SwapAt(s: Bytes, k: nat)
    requires |s| % 4 == 0 && k < |s|
    ensures |Swap(s)| == |s| && Swap(s)[k] == s[k - k % 4 + (3 - k % 4)]
  {
    hide Swap;
    SwapLength(s);
    SwapSplit(s);
    if k >= 4 {
      assert (k - 4) % 4 == k % 4;
      SwapAt(s[4..], k - 4);
    }
  }

  lemma SwapSplit(s: Bytes)
    requires |s| % 4 == 0 && s != []
    ensures Swap(s) == Word(s[..4]) + Swap(s[4..])
  {
  }

  lemma {:induction false} SwapLength(s: Bytes)
    requires |s| % 4 == 0
    ensures |Swap(s)| == |s|
  {
    if s != [] { SwapLength(s[4..]); }
  }

  lemma {:induction false} SwapTwice(s: Bytes)
    requires |s| % 4 == 0
    ensures |Swap(s)| % 4 == 0 && Swap(Swap(s)) == s
  {
    if s != [] {
      SwapTwice(s[4..]);
      SwapLength(s);
      var t := Swap(s);
      assert t[..4] == Word(s[..4]) && t[4..] == Swap(s[4..]);
      assert s == s[..4] + s[4..];
    }
  }

  function Bit2Bin(c: Bytes): Result<Bytes, Error> {
    match Parse(c)
    case Err(e) => Err(e)
    case Ok(p) => if |p.data| % 4 != 0 then Err(NotWords) else Ok(Swap(p.data))
  }

  /** Swapping the .bin data back gives the payload of the .bit file. */
  lemma BinHoldsPayload(preamble: Bytes, unknown: Bytes, fields: seq<Field>, payload: Bytes)
    requires |preamble| < 0x8000 && |unknown| == 2 && FieldsOk(fields) && |payload| < 0x8000_0000
    ensures var r := Bit2Bin(File(preamble, unknown, fields, payload));
      if |payload| % 4 == 0 then r.Ok? && |r.value| == |payload| && |r.value| % 4 == 0 && Swap(r.value) == payload
      else r == Err(NotWords)
  {
    ParseFile(preamble, unknown, fields, payload);
    if |payload| % 4 == 0 {
      SwapTwice(payload);
      SwapLength(payload);
    }
  }
}
