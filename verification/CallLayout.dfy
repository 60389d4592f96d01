/** Building the packed argument structure of a kernel call from its register map: a struct
    format string, the pointer flags and the call's parameters. */
module CallLayout {
  import opened Numbers
  import opened Wrappers

  datatype Reg = Reg(name: string, offset: int, ctype: string, memory: Option<string>)

  datatype Arg = Arg(name: string, index: nat, ctype: string, memory: Option<string>)

  datatype Parameter = Parameter(name: string, annotation: string)

  datatype Call = Call(parameters: seq<Parameter>, format: string, ptrList: seq<bool>, args: map<string, Arg>)

  datatype Error = GenerationFailed | UnknownType

  // ---------------------------------------------------------------- struct formats

  predicate IsPointer(ctype: string) {
    '*' in ctype
  }

  /** The struct code of a C type; a pointer is 64 bits wide. */
  function Code(ctype: string): (r: Option<char>)
    ensures r.Some? ==> Size(r.value) > 0 && r.value != 'x' && !IsDigit(r.value)
    ensures IsPointer(ctype) ==> r == Some('Q')
  {
    if IsPointer(ctype) then Some('Q')
    else if ctype == "char" then Some('c')
    else if ctype == "signed char" then Some('b')
    else if ctype == "unsigned char" then Some('B')
    else if ctype in {"short", "short int", "signed short", "signed short int"} then Some('h')
    else if ctype in {"unsigned short", "unsigned short int", "ushort"} then Some('H')
    else if ctype in {"int", "signed", "signed int"} then Some('i')
    else if ctype in {"unsigned", "unsigned int", "uint"} then Some('I')
    else if ctype in {"long", "long int", "signed long", "signed long int"} then Some('l')
    else if ctype in {"unsigned long", "unsigned long int"} then Some('L')
    else if ctype in {"long long", "long long int", "signed long long", "signed long long int"} then Some('q')
    else if ctype in {"unsigned long long", "unsigned long long int"} then Some('Q')
    else if ctype == "float" then Some('f')
    else if ctype == "double" then Some('d')
    else None
  }

  /** Standard sizes, as a format that starts with = has them. */
  function Size(code: char): nat {
    if code in {'c', 'b', 'B', 'x'} then 1
    else if code in {'h', 'H'} then 2
    else if code in {'i', 'I', 'l', 'L', 'f'} then 4
    else if code in {'q', 'Q', 'd'} then 8
    else 0
  }

  predicate Unsigned(code: char) {
    code in {'B', 'H', 'I', 'L', 'Q'}
  }

  predicate Floating(code: char) {
    code in {'f', 'd'}
  }

  /** How C writes an integer type: a sign or none, a length, and int or nothing. */
  function CType(sign: string, length: string, tail: string): string {
    sign + length + tail
  }

  /** The width of an integer type of that length; long is 4 bytes in a format that starts with =. */
  function Width(length: string): nat {
    if length == "short" then 2 else if length == "long long" then 8 else 4
  }

  /** Every way to write a short, long or long long has a code of that width, unsigned exactly if
      the type is. */
  lemma IntegerCode(sign: string, length: string, tail: string)
    requires sign in {"", "signed ", "unsigned "} && length in {"short", "long", "long long"} && tail in {"", " int"}
    ensures var c := Code(CType(sign, length, tail));
      && c.Some? && Size(c.value) == Width(length) && !Floating(c.value)
      && (Unsigned(c.value) <==> sign == "unsigned ")
  {
    if length == "short" { ShortNames(sign, tail); }
    else if length == "long" { LongNames(sign, tail); }
    else { LongLongNames(sign, tail); }
  }

  /** And every char, int and floating-point type has one of its width, unsigned or floating exactly
      if the type is. */
  lemma OtherCode(ctype: string)
    requires ctype in {"char", "signed char", "unsigned char", "int", "signed", "signed int", "unsigned",
                       "unsigned int", "uint", "ushort", "float", "double"}
    ensures var c := Code(ctype);
      && c.Some?
      && (Size(c.value) == 1 <==> ctype in {"char", "signed char", "unsigned char"})
      && (Size(c.value) == 2 <==> ctype == "ushort")
      && (Size(c.value) == 8 <==> ctype == "double")
      && Size(c.value) in {1, 2, 4, 8}
      && (Unsigned(c.value) <==> ctype in {"unsigned char", "unsigned", "unsigned int", "uint", "ushort"})
      && (Floating(c.value) <==> ctype in {"float", "double"})
  {
  }

  lemma ShortNames(sign: string, tail: string)
    requires sign in {"", "signed ", "unsigned "} && tail in {"", " int"}
    ensures var name := CType(sign, "short", tail);
      && !IsPointer(name)
      && name in if sign == "unsigned " then {"unsigned short", "unsigned short int"}
                 else {"short", "short int", "signed short", "signed short int"}
  {
    assert CType("", "short", "") == "short";
    assert CType("", "short", " int") == "short int";
    assert CType("signed ", "short", "") == "signed short";
    assert CType("signed ", "short", " int") == "signed short int";
    assert CType("unsigned ", "short", "") == "unsigned short";
    assert CType("unsigned ", "short", " int") == "unsigned short int";
  }

  lemma LongNames(sign: string, tail: string)
    requires sign in {"", "signed ", "unsigned "} && tail in {"", " int"}
    ensures var name := CType(sign, "long", tail);
      && !IsPointer(name)
      && name in if sign == "unsigned " then {"unsigned long", "unsigned long int"}
                 else {"long", "long int", "signed long", "signed long int"}
  {
    assert CType("", "long", "") == "long";
    assert CType("", "long", " int") == "long int";
    assert CType("signed ", "long", "") == "signed long";
    assert CType("signed ", "long", " int") == "signed long int";
    assert CType("unsigned ", "long", "") == "unsigned long";
    assert CType("unsigned ", "long", " int") == "unsigned long int";
  }

  lemma LongLongNames(sign: string, tail: string)
    requires sign in {"", "signed ", "unsigned "} && tail in {"", " int"}
    ensures var name := CType(sign, "long long", tail);
      && !IsPointer(name)
      && name in if sign == "unsigned " then {"unsigned long long", "unsigned long long int"}
                 else {"long long", "long long int", "signed long long", "signed long long int"}
  {
    assert CType("", "long long", "") == "long long";
    assert CType("", "long long", " int") == "long long int";
    assert CType("signed ", "long long", "") == "signed long long";
    assert CType("signed ", "long long", " int") == "signed long long int";
    assert CType("unsigned ", "long long", "") == "unsigned long long";
    assert CType("unsigned ", "long long", " int") == "unsigned long long int";
  }

  datatype Item = Item(at: nat, code: char)

  /** A format read so far: the bytes it takes, the items it places, and a count not used yet. */
  datatype Reading = Reading(size: nat, items: seq<Item>, count: Option<nat>)

  const START := Reading(0, [], None)

  function Times(count: Option<nat>): nat {
    if count.Some? then count.value else 1
  }

  function Repeated(at: nat, code: char, n: nat): seq<Item> {
    seq(n, i requires 0 <= i => Item(at + i * Size(code), code))
  }

  /** One character: a digit of a count, or a code, which is repeated as often as the count says. */
  function Read(r: Reading, ch: char): Reading {
    if IsDigit(ch) then
      r.(count := Some((if r.count.Some? then r.count.value else 0) * 10 + (ch - '0') as nat))
    else
      Reading(r.size + Times(r.count) * Size(ch),
              if ch == 'x' then r.items else r.items + Repeated(r.size, ch, Times(r.count)), None)
  }

  function ReadAll(r: Reading, s: string): Reading {
    if s == [] then r else Read(ReadAll(r, s[..|s| - 1]), s[|s| - 1])
  }

  /** The whole format, without its leading =. */
  function Layout(format: string): Reading {
    if format == [] then START else ReadAll(START, format[1..])
  }

  /** struct.calcsize */
  function CalcSize(format: string): nat {
    Layout(format).size
  }

  lemma {:induction false} ReadAppend(r: Reading, s: string, t: string)
    ensures ReadAll(r, s + t) == ReadAll(ReadAll(r, s), t)
  {
    if t == [] {
      assert s + t == s;
    } else {
      ReadAppend(r, s, t[..|t| - 1]);
      assert (s + t)[..|s + t| - 1] == s + t[..|t| - 1];
    }
  }

  /** Reading the digits of n gives the count n. */
  lemma {:induction false} ReadNumber(r: Reading, n: nat)
    requires r.count.None?
    ensures ReadAll(r, Str(n)) == r.(count := Some(n))
  {
    if n < 10 {
      assert Str(n)[..0] == [];
    } else {
      ReadNumber(r, n / 10);
      assert Str(n)[..|Str(n)| - 1] == Str(n / 10);
    }
  }

  /** Padding of n bytes moves on by n and places nothing. */
  lemma ReadPad(format: string, n: nat)
    requires format != [] && Layout(format).count.None?
    ensures Layout(format + (Str(n) + "x")) == Layout(format).(size := CalcSize(format) + n)
  {
    var r := Layout(format);
    assert (format + (Str(n) + "x"))[1..] == format[1..] + (Str(n) + "x");
    ReadAppend(START, format[1..], Str(n) + "x");
    ReadAppend(r, Str(n), "x");
    ReadNumber(r, n);
    ReadOne(r.(count := Some(n)), 'x');
  }

  lemma ReadOne(r: Reading, ch: char)
    ensures ReadAll(r, [ch]) == Read(r, ch)
  {
    assert [ch][..0] == [];
  }

  /** A code places one item at the current size. */
  lemma ReadCode(format: string, code: char)
    requires format != [] && Layout(format).count.None? && !IsDigit(code) && code != 'x'
    ensures var r := Layout(format);
      Layout(format + [code]) == Reading(r.size + Size(code), r.items + [Item(r.size, code)], None)
  {
    var r := Layout(format);
    assert (format + [code])[1..] == format[1..] + [code];
    ReadAppend(START, format[1..], [code]);
    ReadOne(r, code);
    assert Repeated(r.size, code, 1) == [Item(r.size, code)];
  }

  // ---------------------------------------------------------------- the loop

  /** The format, padded by n bytes if n is positive. */
  function Padded(format: string, n: int): string {
    if n > 0 then format + (Str(n) + "x") else format
  }

  /** What one register adds to the call. */
  function Add(c: Call, reg: Reg): Result<Call, Error> {
    var curr := CalcSize(c.format);
    if reg.offset < curr then Err(GenerationFailed)
    else
      var padded := Padded(c.format, reg.offset - curr);
      var code := Code(reg.ctype);
      if code.None? then Err(UnknownType)
      else
        var format := padded + [code.value];
        if reg.name == "CTRL" then Ok(c.(format := format))
        else
          var parameters := c.parameters + [Parameter(reg.name, reg.ctype)];
          Ok(Call(parameters, format, c.ptrList + [IsPointer(reg.ctype)],
                  c.args[reg.name := Arg(reg.name, |parameters|, reg.ctype, reg.memory)]))
  }

  const NOTHING := Call([], "=", [], map[])

  function Build(regs: seq<Reg>): Result<Call, Error> {
    if regs == [] then Ok(NOTHING)
    else
      match Build(regs[..|regs| - 1])
      case Err(e) => Err(e)
      case Ok(c) => Add(c, regs[|regs| - 1])
  }

  lemma {:induction false} BuildFails(regs: seq<Reg>, n: nat)
    requires n <= |regs| && Build(regs[..n]).Err?
    ensures Build(regs) == Build(regs[..n])
  {
    if n == |regs| {
      assert regs[..n] == regs;
    } else {
      assert regs[..|regs| - 1][..n] == regs[..n];
      BuildFails(regs[..|regs| - 1], n);
    }
  }

  /** A stable sort by address offset. */
  function Sorted(regs: seq<Reg>): seq<Reg> {
    if regs == [] then [] else Insert(Sorted(regs[..|regs| - 1]), regs[|regs| - 1])
  }

  function Insert(s: seq<Reg>, reg: Reg): seq<Reg> {
    if s != [] && reg.offset < s[|s| - 1].offset then Insert(s[..|s| - 1], reg) + [s[|s| - 1]] else s + [reg]
  }

  method CreateCall(regmap: seq<Reg>) returns (r: Result<Call, Error>)
    ensures r == Build(Sorted(regmap))
  {
    var sorted := Sorted(regmap);
    var parameters, structString, ptrList, args := [], "=", [], map[];
    for i := 0 to |sorted|
      invariant Build(sorted[..i]) == Ok(Call(parameters, structString, ptrList, args))
    {
      BuildStep(sorted, i);
      var curr := CalcSize(structString);
      var reg := sorted[i];
      if reg.offset < curr {
        BuildFails(sorted, i + 1);
        return Err(GenerationFailed);
      } else if reg.offset > curr {
        structString := structString + (Str(reg.offset - curr) + "x");
      }
      var code := Code(reg.ctype);
      if code.None? {
        BuildFails(sorted, i + 1);
        return Err(UnknownType);
      }
      structString := structString + [code.value];
      if reg.name != "CTRL" {
        ptrList := ptrList + [IsPointer(reg.ctype)];
        parameters := parameters + [Parameter(reg.name, reg.ctype)];
        args := args[reg.name := Arg(reg.name, |parameters|, reg.ctype, reg.memory)];
      }
    }
    assert sorted[..|sorted|] == sorted;
    r := Ok(Call(parameters, structString, ptrList, args));
  }

  lemma BuildStep(regs: seq<Reg>, i: nat)
    requires i < |regs| && Build(regs[..i]).Ok?
    ensures Build(regs[..i + 1]) == Add(Build(regs[..i]).value, regs[i])
  {
    assert regs[..i + 1][..i] == regs[..i];
  }

  // ---------------------------------------------------------------- when it succeeds

  /** The bytes a register takes. */
  predicate Usable(reg: Reg) {
    reg.offset >= 0 && Code(reg.ctype).Some?
  }

  function End(reg: Reg): int
    requires Usable(reg)
  {
    reg.offset + Size(Code(reg.ctype).value)
  }

  /** As byte ranges the two have nothing in common. */
  predicate Clear(a: Reg, b: Reg) {
    Usable(a) && Usable(b) && (End(a) <= b.offset || End(b) <= a.offset)
  }

  ghost predicate NoOverlap(regs: seq<Reg>) {
    && AllUsable(regs)
    && (forall i, j :: 0 <= i < j < |regs| ==> Clear(regs[i], regs[j]))
  }

  predicate InOrder(regs: seq<Reg>) {
    forall i, j :: 0 <= i < j < |regs| ==> regs[i].offset <= regs[j].offset
  }

  predicate AllUsable(regs: seq<Reg>) {
    forall i :: 0 <= i < |regs| ==> Usable(regs[i])
  }

  function LastEnd(regs: seq<Reg>): int
    requires AllUsable(regs)
  {
    if regs == [] then 0 else End(regs[|regs| - 1])
  }

  function ItemOf(reg: Reg): Item
    requires Usable(reg)
  {
    Item(reg.offset, Code(reg.ctype).value)
  }

  /** The items a format for the registers should place. */
  function Wanted(regs: seq<Reg>): seq<Item>
    requires AllUsable(regs)
  {
    if regs == [] then [] else Wanted(regs[..|regs| - 1]) + [ItemOf(regs[|regs| - 1])]
  }

  /** For registers in address order the format exists iff no two overlap; it then places every
      register at its own offset with its own code, and nothing else. */
  lemma {:induction false} BuildLaysOut(regs: seq<Reg>)
    requires InOrder(regs)
    ensures Build(regs).Ok? <==> NoOverlap(regs)
    ensures Build(regs).Ok? ==>
      var format := Build(regs).value.format;
      format != [] && Layout(format) == Reading(LastEnd(regs), Wanted(regs), None)
  {
    hide Layout, CalcSize, Code, Size, Add, Clear;
    if regs == [] {
      LayoutStart();
      assert Wanted(regs) == [];
    } else {
      var n := |regs| - 1;
      var front, reg := regs[..n], regs[n];
      BuildLaysOut(front);
      if Build(front).Ok? {
        AddLaysOut(Build(front).value, front, reg);
        assert front + [reg] == regs;
        NoOverlapLast(front, reg);
      } else {
        assert !NoOverlap(front);
        OverlapStays(regs, n);
      }
    }
  }

  lemma LayoutStart()
    ensures Layout("=") == START
  {
    assert "="[1..] == [];
  }

  lemma OverlapStays(regs: seq<Reg>, n: nat)
    requires n <= |regs| && !NoOverlap(regs[..n])
    ensures !NoOverlap(regs)
  {
  }

  /** The last register overlaps none if it starts where the one before it ends, or later. */
  lemma NoOverlapLast(front: seq<Reg>, reg: Reg)
    requires NoOverlap(front) && InOrder(front + [reg])
    ensures NoOverlap(front + [reg]) <==> Usable(reg) && LastEnd(front) <= reg.offset
  {
    var all, n := front + [reg], |front|;
    ClearOfAll(front, reg);
    if Usable(reg) && LastEnd(front) <= reg.offset {
      forall r | r in front ensures Clear(r, reg) {
        var i :| 0 <= i < n && front[i] == r;
        assert all[i].offset <= all[n - 1].offset;
        if i < n - 1 { assert Clear(front[i], front[n - 1]); }
      }
    }
    if NoOverlap(all) && n > 0 { assert front[n - 1] in front && all[n - 1].offset <= all[n].offset; }
  }

  lemma AddLaysOut(c: Call, front: seq<Reg>, reg: Reg)
    requires NoOverlap(front) && c.format != [] && Layout(c.format) == Reading(LastEnd(front), Wanted(front), None)
    ensures Add(c, reg).Ok? <==> Usable(reg) && LastEnd(front) <= reg.offset
    ensures Add(c, reg).Ok? ==> Add(c, reg).value.format != [] && NoOverlap(front) && Usable(reg)
    ensures Add(c, reg).Ok? ==>
      Layout(Add(c, reg).value.format) == Reading(End(reg), Wanted(front) + [ItemOf(reg)], None)
  {
    hide NoOverlap, Wanted, Code, Padded, Layout, Size, IsDigit, IsPointer, Add, CalcSize;
    AddFormat(c, reg);
    if Add(c, reg).Ok? {
      PaddedSize(c.format, reg.offset - CalcSize(c.format));
      ReadCode(Padded(c.format, reg.offset - CalcSize(c.format)), Code(reg.ctype).value);
    }
  }

  lemma AddFormat(c: Call, reg: Reg)
    ensures CalcSize(c.format) == Layout(c.format).size
    ensures Add(c, reg).Ok? <==> CalcSize(c.format) <= reg.offset && Code(reg.ctype).Some?
    ensures Add(c, reg).Ok? ==>
      Add(c, reg).value.format == Padded(c.format, reg.offset - CalcSize(c.format)) + [Code(reg.ctype).value]
  {
    hide Code, Padded, Layout, Size, IsDigit, IsPointer;
  }

  lemma PaddedSize(format: string, n: nat)
    requires format != [] && Layout(format).count.None?
    ensures Padded(format, n) != [] && Layout(Padded(format, n)) == Layout(format).(size := Layout(format).size + n)
  {
    if n > 0 { ReadPad(format, n); }
    hide Layout, Str;
  }

  // ---------------------------------------------------------------- sorting

  lemma {:induction false} InsertMembers(s: seq<Reg>, reg: Reg)
    ensures multiset(Insert(s, reg)) == multiset(s) + multiset{reg}
    ensures forall r :: r in Insert(s, reg) <==> r in s || r == reg
  {
    var t := Insert(s, reg);
    if s != [] && reg.offset < s[|s| - 1].offset {
      InsertMembers(s[..|s| - 1], reg);
      assert s == s[..|s| - 1] + [s[|s| - 1]];
    }
    assert forall r :: r in t <==> r in multiset(t);
    assert forall r :: r in s <==> r in multiset(s);
  }

  lemma OrderAppend(s: seq<Reg>, reg: Reg)
    ensures InOrder(s + [reg]) <==> InOrder(s) && forall r :: r in s ==> r.offset <= reg.offset
  {
    var all := s + [reg];
    if InOrder(all) {
      forall i, j | 0 <= i < j < |s| ensures s[i].offset <= s[j].offset { assert all[i].offset <= all[j].offset; }
      forall r | r in s ensures r.offset <= reg.offset {
        var i :| 0 <= i < |s| && s[i] == r;
        assert all[i].offset <= all[|s|].offset;
      }
    }
  }

  /** A register put in its place keeps the order, and overlaps what it would at the end. */
  lemma {:induction false} InsertKeeps(s: seq<Reg>, reg: Reg)
    requires InOrder(s)
    ensures InOrder(Insert(s, reg))
    ensures NoOverlap(Insert(s, reg)) <==> NoOverlap(s + [reg])
  {
    hide InOrder, NoOverlap;
    if s != [] {
      var front, last := s[..|s| - 1], s[|s| - 1];
      assert s == front + [last];
      OrderAppend(front, last);
      assert forall r :: r in s <==> r in front || r == last;
      assert Clear(reg, last) == Clear(last, reg);
      InsertKeeps(front, reg);
      InsertMembers(front, reg);
      OrderAppend(Insert(front, reg), last);
      OrderAppend(s, reg);
      ClearOfAll(Insert(front, reg), last);
      ClearOfAll(front, last);
      ClearOfAll(front, reg);
      ClearOfAll(s, reg);
    } else {
      OrderAppend(s, reg);
    }
  }

  lemma {:induction false} SortedKeeps(regs: seq<Reg>)
    ensures InOrder(Sorted(regs)) && multiset(Sorted(regs)) == multiset(regs)
    ensures NoOverlap(Sorted(regs)) <==> NoOverlap(regs)
  {
    if regs != [] {
      var front, reg := regs[..|regs| - 1], regs[|regs| - 1];
      SortedKeeps(front);
      InsertKeeps(Sorted(front), reg);
      InsertMembers(Sorted(front), reg);
      assert regs == front + [reg];
      hide NoOverlap, InOrder;
      NoOverlapAppend(Sorted(front), front, reg);
    }
  }

  lemma NoOverlapAppend(s: seq<Reg>, front: seq<Reg>, reg: Reg)
    requires multiset(s) == multiset(front) && (NoOverlap(s) <==> NoOverlap(front))
    ensures NoOverlap(s + [reg]) <==> NoOverlap(front + [reg])
  {
    hide NoOverlap;
    ClearOfAll(s, reg);
    ClearOfAll(front, reg);
    assert forall r :: r in s <==> r in multiset(s);
    assert forall r :: r in front <==> r in multiset(front);
  }

  lemma ClearOfAll(s: seq<Reg>, reg: Reg)
    ensures NoOverlap(s + [reg]) <==> NoOverlap(s) && Usable(reg) && forall r :: r in s ==> Clear(r, reg)
  {
    var all := s + [reg];
    if NoOverlap(all) {
      assert Usable(all[|s|]);
      OverlapFront(s, reg);
      forall r | r in s ensures Clear(r, reg) {
        var i :| 0 <= i < |s| && s[i] == r;
        assert Clear(all[i], all[|s|]);
      }
    }
    if NoOverlap(s) && Usable(reg) && forall r :: r in s ==> Clear(r, reg) {
      forall i, j | 0 <= i < j < |all| ensures Clear(all[i], all[j]) {
        if j == |s| { assert s[i] in s; }
      }
    }
  }

  lemma OverlapFront(s: seq<Reg>, reg: Reg)
    requires NoOverlap(s + [reg])
    ensures NoOverlap(s)
  {
    var all := s + [reg];
    assert all[..|s|] == s;
    if !NoOverlap(s) { OverlapStays(all, |s|); }
  }

  /** For any register map: the call can be built iff every type is known, no offset is negative
      and no two registers overlap; and then its format places exactly the registers, each at its
      own address offset. */
  lemma CreateOkIff(regmap: seq<Reg>)
    ensures Build(Sorted(regmap)).Ok? <==> NoOverlap(regmap)
    ensures NoOverlap(regmap) ==>
      NoOverlap(Sorted(regmap)) && Layout(Build(Sorted(regmap)).value.format).items == Wanted(Sorted(regmap))
  {
    SortedKeeps(regmap);
    BuildLaysOut(Sorted(regmap));
  }

  // ---------------------------------------------------------------- the parameters

  /** The registers a caller passes, in order. */
  function Passed(regs: seq<Reg>): seq<Reg> {
    if regs == [] then []
    else
      var n := |regs| - 1;
      if regs[n].name == "CTRL" then Passed(regs[..n]) else Passed(regs[..n]) + [regs[n]]
  }

  predicate Distinct(regs: seq<Reg>) {
    forall i, j :: 0 <= i < j < |regs| ==> regs[i].name != regs[j].name
  }

  function NamesOf(regs: seq<Reg>): set<string> {
    set r | r in regs :: r.name
  }

  /** The i-th parameter is the i-th register after CTRL is left out: its name and type, its
      pointer flag, and a detail with index i + 1. */
  ghost predicate DescribesAt(c: Call, passed: seq<Reg>, i: nat)
    requires i < |passed| == |c.parameters| == |c.ptrList|
  {
    var reg := passed[i];
    && c.parameters[i] == Parameter(reg.name, reg.ctype) && c.ptrList[i] == IsPointer(reg.ctype)
    && reg.name in c.args && c.args[reg.name] == Arg(reg.name, i + 1, reg.ctype, reg.memory)
  }

  ghost predicate Describes(c: Call, passed: seq<Reg>) {
    && |c.parameters| == |passed| && |c.ptrList| == |passed| && c.args.Keys == NamesOf(passed)
    && forall i: nat :: i < |passed| ==> DescribesAt(c, passed, i)
  }

  lemma {:induction false} PassedNames(regs: seq<Reg>)
    requires Distinct(regs)
    ensures NamesOf(Passed(regs)) == NamesOf(regs) - {"CTRL"}
  {
    if regs != [] {
      var front, reg := regs[..|regs| - 1], regs[|regs| - 1];
      PassedNames(front);
      NamesAppend(front, reg);
      NamesAppend(Passed(front), reg);
      assert regs == front + [reg];
    }
  }

  lemma NamesAppend(regs: seq<Reg>, reg: Reg)
    ensures NamesOf(regs + [reg]) == NamesOf(regs) + {reg.name}
  {
    assert reg in regs + [reg];
    assert forall r :: r in regs + [reg] <==> r in regs || r == reg;
  }

  lemma LastIsNew(regs: seq<Reg>)
    requires Distinct(regs) && regs != []
    ensures Distinct(regs[..|regs| - 1]) && regs[|regs| - 1].name !in NamesOf(regs[..|regs| - 1])
  {
  }

  /** The parameters, flags and details are those of the registers other than CTRL, in order. */
  lemma {:induction false} BuildDescribes(regs: seq<Reg>)
    requires Distinct(regs) && Build(regs).Ok?
    ensures Describes(Build(regs).value, Passed(regs))
  {
    if regs == [] {
      assert Passed(regs) == [];
    } else {
      var front, reg := regs[..|regs| - 1], regs[|regs| - 1];
      LastIsNew(regs);
      BuildDescribes(front);
      PassedNames(front);
      AddDescribes(Build(front).value, Passed(front), reg);
    }
  }

  lemma AddDescribes(c: Call, passed: seq<Reg>, reg: Reg)
    requires Describes(c, passed) && reg.name !in NamesOf(passed) && Add(c, reg).Ok?
    ensures Describes(Add(c, reg).value, if reg.name == "CTRL" then passed else passed + [reg])
  {
    var c' := Add(c, reg).value;
    hide CalcSize, Code, Str, NamesOf;
    if reg.name == "CTRL" {
      forall i: nat | i < |passed| ensures DescribesAt(c', passed, i) { assert DescribesAt(c, passed, i); }
    } else {
      var passed' := passed + [reg];
      NamesAppend(passed, reg);
      forall i: nat | i < |passed'| ensures DescribesAt(c', passed', i) {
        if i < |passed| { assert DescribesAt(c, passed, i); }
      }
    }
  }
}
