/** How the HWH parser finds the interrupts of a design: it walks the nets from a processor
    interrupt input, through concat cells and interrupt controllers, numbering what it meets. */
module InterruptTopology {
  import opened InterruptNets
  import opened Numbers
  import opened Wrappers

  import Registry = InterruptRegistry

  type Entry = Registry.Entry

  datatype Driver = Nobody | Concat(name: string) | Intc(name: string)

  predicate MarkedAt(p: string, mark: string, i: nat) {
    i + |mark| <= |p| && p[i..i + |mark|] == mark
  }

  /** The group of re.match("(.*)" + mark, p): what precedes the last occurrence of mark. */
  function Before(p: string, mark: string): (r: Option<string>)
    ensures match r
      case Some(name) =>
        MarkedAt(p, mark, |name|) && name <= p && forall i :: |name| < i <= |p| ==> !MarkedAt(p, mark, i)
      case None => forall i :: 0 <= i <= |p| ==> !MarkedAt(p, mark, i)
  {
    BeforeUpTo(p, mark, |p|)
  }

  function BeforeUpTo(p: string, mark: string, i: nat): (r: Option<string>)
    requires i <= |p| && forall j :: i < j <= |p| ==> !MarkedAt(p, mark, j)
    ensures match r
      case Some(name) =>
        MarkedAt(p, mark, |name|) && name <= p && forall j :: |name| < j <= |p| ==> !MarkedAt(p, mark, j)
      case None => forall j :: 0 <= j <= |p| ==> !MarkedAt(p, mark, j)
  {
    if MarkedAt(p, mark, i) then Some(p[..i])
    else if i == 0 then None
    else BeforeUpTo(p, mark, i - 1)
  }

  /** The cell a pin is an interrupt output of. */
  function DriverOf(d: Netlist, p: string): Driver {
    var dout := Before(p, "/dout");
    if dout.Some? && dout.value in d.concat then Concat(dout.value)
    else
      var irq := Before(p, "/irq");
      if irq.Some? && irq.value in d.intc then Intc(irq.value) else Nobody
  }

  /** The pins of a net; an unconnected input has the empty name for a net. */
  function PinsOf(d: Netlist, net: string): set<string>
    requires Known(d, net)
  {
    if net == "" then {} else d.nets[net]
  }

  predicate Known(d: Netlist, net: string) {
    net == "" || net in d.nets
  }

  ghost function NetDriver(d: Netlist, net: string): Driver
    requires Known(d, net)
  {
    if exists p :: p in PinsOf(d, net) && DriverOf(d, p) != Nobody then
      var p :| p in PinsOf(d, net) && DriverOf(d, p) != Nobody;
      DriverOf(d, p)
    else Nobody
  }

  function Port(name: string, i: nat): string {
    name + "/In" + Str(i)
  }

  /** An unconnected net is below all others. */
  ghost function Height(rank: map<string, nat>, net: string): nat {
    if net != "" && net in rank then rank[net] + 1 else 0
  }

  /** The pin is connected, to a net below the bound. */
  ghost predicate Below(d: Netlist, rank: map<string, nat>, pin: string, bound: nat) {
    pin in d.pins && Known(d, d.pins[pin]) && Height(rank, d.pins[pin]) < bound
  }

  ghost predicate PortsBelow(d: Netlist, rank: map<string, nat>, name: string, bound: nat) {
    name in d.concat && forall i: nat :: i < d.concat[name] ==> Below(d, rank, Port(name, i), bound)
  }

  predicate Drives(d: Netlist, net: string, p: string)
    requires net in d.nets
  {
    p in d.nets[net] && DriverOf(d, p) != Nobody
  }

  /** One driver a net, and an acyclic design: the nets behind a net's driver rank lower. */
  ghost predicate Sound(d: Netlist, rank: map<string, nat>) {
    && d.nets.Keys <= rank.Keys
    && (forall net, p, q :: net in d.nets && Drives(d, net, p) && Drives(d, net, q) ==>
         DriverOf(d, p) == DriverOf(d, q))
    && (forall net, p :: net in d.nets && net != "" && p in d.nets[net] ==>
          match DriverOf(d, p)
          case Concat(name) => PortsBelow(d, rank, name, Height(rank, net))
          case Intc(name) => Below(d, rank, name + "/intr", Height(rank, net))
          case Nobody => true)
  }

  lemma DriverIs(d: Netlist, rank: map<string, nat>, net: string, p: string)
    requires Sound(d, rank) && Known(d, net) && p in PinsOf(d, net) && DriverOf(d, p) != Nobody
    ensures NetDriver(d, net) == DriverOf(d, p)
  {
    assert Drives(d, net, p);
  }

  // ---------------------------------------------------------------- what is wired to an input

  /** What is wired to an interrupt input: nothing beside anything, a net that ends at plain
      pins, or an interrupt controller with what is wired to its own input. */
  datatype Tree =
    | Empty
    | Beside(first: Tree, rest: Tree)
    | Plain(pins: set<string>)
    | Controller(name: string, inside: Tree)

  ghost function NetTree(d: Netlist, rank: map<string, nat>, net: string): Tree
    requires Sound(d, rank) && Known(d, net)
    decreases Height(rank, net)
  {
    match NetDriver(d, net)
    case Concat(name) => PortTrees(d, rank, name, 0, Height(rank, net))
    case Intc(name) => Controller(name, NetTree(d, rank, d.pins[name + "/intr"]))
    case Nobody => Plain(PinsOf(d, net))
  }

  /** A concat cell's inputs from In(i) on, side by side. */
  ghost function PortTrees(d: Netlist, rank: map<string, nat>, name: string, i: nat, bound: nat): Tree
    requires Sound(d, rank) && PortsBelow(d, rank, name, bound) && i <= d.concat[name]
    decreases bound, d.concat[name] - i
  {
    if i == d.concat[name] then Empty
    else
      assert Below(d, rank, Port(name, i), bound);
      Beside(NetTree(d, rank, d.pins[Port(name, i)]), PortTrees(d, rank, name, i + 1, bound))
  }

  lemma PortsFrom(d: Netlist, rank: map<string, nat>, name: string, i: nat, bound: nat)
    requires Sound(d, rank) && PortsBelow(d, rank, name, bound) && i < d.concat[name]
    ensures Below(d, rank, Port(name, i), bound)
    ensures PortTrees(d, rank, name, i, bound)
         == Beside(NetTree(d, rank, d.pins[Port(name, i)]), PortTrees(d, rank, name, i + 1, bound))
  {
    assert Below(d, rank, Port(name, i), bound);
  }

  lemma PortsAre(d: Netlist, rank: map<string, nat>, name: string, bound: nat)
    requires Sound(d, rank) && PortsBelow(d, rank, name, bound)
    ensures name in d.concat && PortTrees(d, rank, name, d.concat[name], bound) == Empty
  {
  }

  lemma EmptyIs(s: Dicts, parent: string, offset: nat, raw: Option<seq<int>>)
    ensures Fits(Empty, offset, raw) && After(s, Empty, parent, offset, raw) == s && Lines(Empty) == []
  {
  }

  /** Walking two trees side by side. */
  lemma BesideIs(s: Dicts, a: Tree, b: Tree, parent: string, offset: nat, raw: Option<seq<int>>)
    ensures var n := offset + |Lines(a)|;
      && (Fits(Beside(a, b), offset, raw) <==> Fits(a, offset, raw) && Fits(b, n, raw))
      && After(s, Beside(a, b), parent, offset, raw) == After(After(s, a, parent, offset, raw), b, parent, n, raw)
      && |Lines(Beside(a, b))| == |Lines(a)| + |Lines(b)|
  {
  }

  lemma NoEntries(pins: map<string, Pin>, e: Entry)
    ensures pins + PinEntries({}, e) == pins
  {
  }

  lemma EntriesAdd(pins: map<string, Pin>, done: set<string>, p: string, e: Entry)
    ensures (pins + PinEntries(done, e))[p := Pin(p, e)] == pins + PinEntries(done + {p}, e)
  {
  }

  /** What is wired to a net, by its driver. */
  lemma NetTreeIs(d: Netlist, rank: map<string, nat>, net: string, offset: nat, raw: Option<seq<int>>)
    requires Sound(d, rank) && Known(d, net)
    ensures var t := NetTree(d, rank, net);
      match NetDriver(d, net)
      case Concat(name) =>
        PortsBelow(d, rank, name, Height(rank, net)) && t == PortTrees(d, rank, name, 0, Height(rank, net))
      case Intc(name) =>
        && Below(d, rank, name + "/intr", Height(rank, net))
        && t == Controller(name, NetTree(d, rank, d.pins[name + "/intr"]))
        && Fits(t.inside, 0, None) && (Fits(t, offset, raw) <==> Mapped(raw, offset)) && |Lines(t)| == 1
      case Nobody =>
        && t == Plain(PinsOf(d, net))
        && (Fits(t, offset, raw) <==> (PinsOf(d, net) != {} ==> Mapped(raw, offset))) && |Lines(t)| == 1
  {
    match NetDriver(d, net)
    case Concat(_) =>
    case Intc(name) => FitsInside(NetTree(d, rank, d.pins[name + "/intr"]), 0);
    case Nobody =>
  }

  /** The lines of an input in In0, In1, ... order: concat cells are flattened, controllers are not. */
  function Lines(t: Tree): seq<Tree> {
    match t
    case Empty => []
    case Beside(a, b) => Lines(a) + Lines(b)
    case Plain(_) => [t]
    case Controller(_, _) => [t]
  }

  // ---------------------------------------------------------------- the dictionaries

  datatype Pin = Pin(fullpath: string, at: Entry)

  datatype Dicts = Dicts(pins: map<string, Pin>, controllers: map<string, Entry>)

  /** The raw interrupt of a line; inside a controller there is no map of raw interrupts. */
  function Raw(raw: Option<seq<int>>, k: nat): Option<int> {
    if raw.Some? && k < |raw.value| then Some(raw.value[k]) else None
  }

  predicate Mapped(raw: Option<seq<int>>, k: nat) {
    raw.Some? ==> k < |raw.value|
  }

  /** Every line that is recorded has a raw interrupt, if there is a map of them. */
  predicate Fits(t: Tree, offset: nat, raw: Option<seq<int>>) {
    match t
    case Empty => true
    case Beside(a, b) => Fits(a, offset, raw) && Fits(b, offset + |Lines(a)|, raw)
    case Plain(ps) => ps != {} ==> Mapped(raw, offset)
    case Controller(_, _) => Mapped(raw, offset)
  }

  lemma {:induction false} FitsInside(t: Tree, offset: nat)
    ensures Fits(t, offset, None)
  {
    match t
    case Beside(a, b) => FitsInside(a, offset); FitsInside(b, offset + |Lines(a)|);
    case Empty =>
    case Plain(_) =>
    case Controller(_, _) =>
  }

  function PinEntries(pins: set<string>, e: Entry): map<string, Pin> {
    map p | p in pins :: Pin(p, e)
  }

  /** The dictionaries after walking an input of parent, numbering from offset on. */
  function After(s: Dicts, t: Tree, parent: string, offset: nat, raw: Option<seq<int>>): Dicts
    decreases t
  {
    match t
    case Empty => s
    case Beside(a, b) => After(After(s, a, parent, offset, raw), b, parent, offset + |Lines(a)|, raw)
    case Plain(ps) => s.(pins := s.pins + PinEntries(ps, Registry.Entry(parent, offset, Raw(raw, offset))))
    case Controller(name, inside) =>
      var s' := After(s, inside, name, 0, None);
      s'.(controllers := s'.controllers[name := Registry.Entry(parent, offset, Raw(raw, offset))])
  }

  // ---------------------------------------------------------------- what the walk records

  function Pins(t: Tree): set<string> {
    match t
    case Empty => {}
    case Beside(a, b) => Pins(a) + Pins(b)
    case Plain(ps) => ps
    case Controller(_, inside) => Pins(inside)
  }

  function Names(t: Tree): set<string> {
    match t
    case Empty => {}
    case Beside(a, b) => Names(a) + Names(b)
    case Plain(_) => {}
    case Controller(name, inside) => Names(inside) + {name}
  }

  /** No net is reached twice. */
  predicate Once(t: Tree) {
    match t
    case Empty => true
    case Beside(a, b) => Once(a) && Once(b) && Apart(a, b)
    case Plain(_) => true
    case Controller(name, inside) => Once(inside) && name !in Names(inside)
  }

  predicate Apart(a: Tree, b: Tree) {
    Pins(a) !! Pins(b) && Names(a) !! Names(b)
  }

  /** Inside t there is a controller named owner whose input is wired to u. */
  predicate Under(t: Tree, owner: string, u: Tree) {
    match t
    case Empty => false
    case Beside(a, b) => Under(a, owner, u) || Under(b, owner, u)
    case Plain(_) => false
    case Controller(name, inside) => (name == owner && u == inside) || Under(inside, owner, u)
  }

  ghost predicate Recorded(s: Dicts, line: Tree, e: Entry) {
    match line
    case Plain(ps) => forall p :: p in ps ==> p in s.pins && s.pins[p] == Pin(p, e)
    case Controller(name, _) => name in s.controllers && s.controllers[name] == e
    case Empty => true
    case Beside(_, _) => true
  }

  /** The k-th line of t is recorded as line offset + k of parent. */
  ghost predicate Numbered(s: Dicts, t: Tree, parent: string, offset: nat, raw: Option<seq<int>>) {
    forall k: nat :: k < |Lines(t)| ==>
      Recorded(s, Lines(t)[k], Registry.Entry(parent, offset + k, Raw(raw, offset + k)))
  }

  /** The walk adds exactly the pins and controllers it reaches; all other entries stay. */
  lemma {:induction false} WalkAdds(s: Dicts, t: Tree, parent: string, offset: nat, raw: Option<seq<int>>)
    ensures var r := After(s, t, parent, offset, raw);
      && r.pins.Keys == s.pins.Keys + Pins(t) && r.controllers.Keys == s.controllers.Keys + Names(t)
      && (forall p :: p in s.pins && p !in Pins(t) ==> r.pins[p] == s.pins[p])
      && (forall n :: n in s.controllers && n !in Names(t) ==> r.controllers[n] == s.controllers[n])
    decreases t
  {
    match t
    case Empty =>
    case Beside(a, b) =>
      WalkAdds(s, a, parent, offset, raw);
      WalkAdds(After(s, a, parent, offset, raw), b, parent, offset + |Lines(a)|, raw);
    case Plain(_) =>
    case Controller(name, inside) =>
      WalkAdds(s, inside, name, 0, None);
  }

  lemma {:induction false} LineInside(t: Tree, k: nat)
    requires k < |Lines(t)|
    ensures Pins(Lines(t)[k]) <= Pins(t) && Names(Lines(t)[k]) <= Names(t)
  {
    match t
    case Beside(a, b) => if k < |Lines(a)| { LineInside(a, k); } else { LineInside(b, k - |Lines(a)|); }
    case Plain(_) =>
    case Controller(_, _) =>
  }

  lemma {:induction false} UnderInside(t: Tree, owner: string, u: Tree)
    requires Under(t, owner, u)
    ensures Pins(u) <= Pins(t) && Names(u) <= Names(t) && owner in Names(t)
  {
    match t
    case Beside(a, b) => if Under(a, owner, u) { UnderInside(a, owner, u); } else { UnderInside(b, owner, u); }
    case Controller(_, inside) => if Under(inside, owner, u) { UnderInside(inside, owner, u); }
  }

  /** A later walk elsewhere leaves what is recorded. */
  lemma RecordsStay(s: Dicts, u: Tree, owner: string, o: nat, r: Option<seq<int>>, t: Tree, parent: string,
        offset: nat, raw: Option<seq<int>>)
    requires Numbered(s, u, owner, o, r) && Apart(u, t)
    ensures Numbered(After(s, t, parent, offset, raw), u, owner, o, r)
  {
    WalkAdds(s, t, parent, offset, raw);
    forall k: nat | k < |Lines(u)|
      ensures Recorded(After(s, t, parent, offset, raw), Lines(u)[k], Registry.Entry(owner, o + k, Raw(r, o + k)))
    {
      LineInside(u, k);
      assert Recorded(s, Lines(u)[k], Registry.Entry(owner, o + k, Raw(r, o + k)));
      NamesOfLine(Lines(u)[k]);
    }
  }

  lemma NamesOfLine(line: Tree)
    ensures line.Controller? ==> line.name in Names(line)
  {
  }

  /** Recording a controller leaves the entries of others. */
  lemma ControllerAdded(s: Dicts, u: Tree, owner: string, name: string, e: Entry)
    requires Numbered(s, u, owner, 0, None) && name !in Names(u)
    ensures Numbered(s.(controllers := s.controllers[name := e]), u, owner, 0, None)
  {
    forall k: nat | k < |Lines(u)|
      ensures Recorded(s.(controllers := s.controllers[name := e]), Lines(u)[k], Registry.Entry(owner, k, None))
    {
      LineInside(u, k);
      NamesOfLine(Lines(u)[k]);
      assert Recorded(s, Lines(u)[k], Registry.Entry(owner, 0 + k, Raw(None, 0 + k)));
    }
  }

  /** Lines are numbered consecutively, in flattening order, from the offset; and from 0 on
      inside every interrupt controller at any depth, without raw interrupts. */
  lemma {:induction false} WalkNumbers(s: Dicts, t: Tree, parent: string, offset: nat, raw: Option<seq<int>>)
    requires Once(t)
    ensures Numbered(After(s, t, parent, offset, raw), t, parent, offset, raw)
    ensures forall owner, u :: Under(t, owner, u) ==> Numbered(After(s, t, parent, offset, raw), u, owner, 0, None)
    decreases t
  {
    match t
    case Empty =>
    case Plain(ps) =>
    case Beside(a, b) =>
      var mid, next := After(s, a, parent, offset, raw), offset + |Lines(a)|;
      WalkNumbers(s, a, parent, offset, raw);
      WalkNumbers(mid, b, parent, next, raw);
      RecordsStay(mid, a, parent, offset, raw, b, parent, next, raw);
      SideBySide(After(s, t, parent, offset, raw), a, b, parent, offset, raw);
      forall owner, u | Under(t, owner, u) ensures Numbered(After(s, t, parent, offset, raw), u, owner, 0, None) {
        if Under(a, owner, u) && !Under(b, owner, u) {
          UnderInside(a, owner, u);
          RecordsStay(mid, u, owner, 0, None, b, parent, next, raw);
        }
      }
    case Controller(name, inside) =>
      var mid := After(s, inside, name, 0, None);
      WalkNumbers(s, inside, name, 0, None);
      var e := Registry.Entry(parent, offset, Raw(raw, offset));
      forall owner, u | Under(t, owner, u) ensures Numbered(After(s, t, parent, offset, raw), u, owner, 0, None) {
        if Under(inside, owner, u) { UnderInside(inside, owner, u); }
        ControllerAdded(mid, u, owner, name, e);
      }
  }

  lemma SideBySide(s: Dicts, a: Tree, b: Tree, parent: string, offset: nat, raw: Option<seq<int>>)
    requires Numbered(s, a, parent, offset, raw) && Numbered(s, b, parent, offset + |Lines(a)|, raw)
    ensures Numbered(s, Beside(a, b), parent, offset, raw)
  {
    var n := |Lines(a)|;
    forall k: nat | k < |Lines(Beside(a, b))|
      ensures Recorded(s, Lines(Beside(a, b))[k], Registry.Entry(parent, offset + k, Raw(raw, offset + k)))
    {
      if k >= n {
        var at := offset + n + (k - n);
        assert Recorded(s, Lines(b)[k - n], Registry.Entry(parent, at, Raw(raw, at)));
      }
    }
  }

  /** p is an interrupt pin on line k of t. */
  predicate PinOnLine(t: Tree, k: nat, p: string) {
    k < |Lines(t)| && Lines(t)[k].Plain? && p in Lines(t)[k].pins
  }

  /** p is on a line of a controller inside t. */
  ghost predicate PinUnder(t: Tree, p: string) {
    exists owner, u, k: nat :: Under(t, owner, u) && PinOnLine(u, k, p)
  }

  lemma PinIsUnder(t: Tree, owner: string, u: Tree, k: nat, p: string)
    requires Under(t, owner, u) && PinOnLine(u, k, p)
    ensures PinUnder(t, p)
  {
  }

  /** Every pin the walk adds is on a line: of the input itself or of a controller inside. */
  lemma {:induction false} PinHasLine(t: Tree, p: string)
    requires p in Pins(t)
    ensures (exists k: nat :: PinOnLine(t, k, p)) || PinUnder(t, p)
  {
    match t
    case Plain(_) => assert PinOnLine(t, 0, p);
    case Beside(a, b) =>
      var left := p in Pins(a);
      var part := if left then a else b;
      PinHasLine(part, p);
      if k: nat :| PinOnLine(part, k, p) { assert PinOnLine(t, if left then k else |Lines(a)| + k, p); }
      else {
        var owner, u, k: nat :| Under(part, owner, u) && PinOnLine(u, k, p);
        PinIsUnder(t, owner, u, k, p);
      }
    case Controller(name, inside) =>
      PinHasLine(inside, p);
      if k: nat :| PinOnLine(inside, k, p) { PinIsUnder(t, name, inside, k, p); }
      else {
        var owner, u, k: nat :| Under(inside, owner, u) && PinOnLine(u, k, p);
        PinIsUnder(t, owner, u, k, p);
      }
  }

  /** raw_irq is on exactly the entries whose parent is "". */
  ghost predicate RawAtTop(s: Dicts) {
    && (forall p :: p in s.pins ==> (s.pins[p].at.parent == "" <==> s.pins[p].at.rawIrq.Some?))
    && (forall n :: n in s.controllers ==> (s.controllers[n].parent == "" <==> s.controllers[n].rawIrq.Some?))
  }

  lemma {:induction false} WalkKeepsRawAtTop(s: Dicts, t: Tree, parent: string, offset: nat, raw: Option<seq<int>>)
    requires RawAtTop(s) && Fits(t, offset, raw) && "" !in Names(t) && (parent == "" <==> raw.Some?)
    ensures RawAtTop(After(s, t, parent, offset, raw))
    decreases t
  {
    match t
    case Empty =>
    case Beside(a, b) =>
      WalkKeepsRawAtTop(s, a, parent, offset, raw);
      WalkKeepsRawAtTop(After(s, a, parent, offset, raw), b, parent, offset + |Lines(a)|, raw);
    case Plain(_) =>
    case Controller(name, inside) =>
      FitsInside(inside, 0);
      WalkKeepsRawAtTop(s, inside, name, 0, None);
  }

  // ---------------------------------------------------------------- the processor's interrupt inputs

  /** A stretch of raw interrupt numbers. */
  datatype Range = Range(base: int, num: nat)

  /** An interrupt input of the processor, with the raw interrupts behind its lines. */
  datatype Input = Input(name: string, details: seq<Range>)

  /** The two device families. */
  function Zynq(): seq<Input> { [Input("IRQ_F2P", [Range(61, 8), Range(84, 8)])] }
  function Ultrascale(): seq<Input> { [Input("pl_ps_irq0", [Range(121, 8)]), Input("pl_ps_irq1", [Range(136, 8)])] }

  function RawMap(details: seq<Range>): seq<int> {
    if details == [] then []
    else
      var n := |details| - 1;
      RawMap(details[..n]) + Stretch(details[n], details[n].num)
  }

  function Stretch(r: Range, n: nat): (s: seq<int>)
    ensures |s| == n && forall i :: 0 <= i < n ==> s[i] == r.base + i
  {
    seq(n, i => r.base + i)
  }

  method CreateIrqMap(details: seq<Range>) returns (rawMap: seq<int>)
    ensures rawMap == RawMap(details)
  {
    rawMap := [];
    for j := 0 to |details|
      invariant rawMap == RawMap(details[..j])
    {
      assert details[..j + 1][..j] == details[..j];
      ghost var before := rawMap;
      for i := 0 to details[j].num
        invariant rawMap == before + Stretch(details[j], i)
      {
        rawMap := rawMap + [i + details[j].base];
      }
    }
    assert details[..|details|] == details;
  }

  predicate InRange(r: Range, x: int) {
    r.base <= x < r.base + r.num
  }

  ghost predicate Disjoint(details: seq<Range>) {
    forall i, j, x :: 0 <= i < j < |details| && InRange(details[i], x) ==> !InRange(details[j], x)
  }

  lemma {:induction false} RawMapIn(details: seq<Range>, k: nat)
    requires k < |RawMap(details)|
    ensures exists i :: 0 <= i < |details| && InRange(details[i], RawMap(details)[k])
  {
    var n := |details| - 1;
    if k < |RawMap(details[..n])| { RawMapIn(details[..n], k); }
    else { assert InRange(details[n], RawMap(details)[k]); }
  }

  /** With ranges apart, no two lines share a raw interrupt. */
  lemma {:induction false} RawMapDistinct(details: seq<Range>, k: nat, l: nat)
    requires Disjoint(details) && k < l < |RawMap(details)|
    ensures RawMap(details)[k] != RawMap(details)[l]
  {
    var n := |details| - 1;
    var front := details[..n];
    var m := |RawMap(front)|;
    if l < m {
      forall i, j, x | 0 <= i < j < |front| && InRange(front[i], x) ensures !InRange(front[j], x) {
        assert InRange(details[i], x);
      }
      RawMapDistinct(front, k, l);
    } else if k < m {
      RawMapIn(front, k);
      assert InRange(details[n], RawMap(details)[l]);
    }
  }

  /** Where range j starts in the map. */
  function Start(details: seq<Range>, j: nat): nat
    requires j <= |details|
  {
    |RawMap(details[..j])|
  }

  /** The i-th number of a range is in the map, after all the ranges before it. */
  lemma {:induction false} RawMapAt(details: seq<Range>, j: nat, i: nat)
    requires j < |details| && i < details[j].num
    ensures Start(details, j + 1) == Start(details, j) + details[j].num <= |RawMap(details)|
    ensures RawMap(details)[Start(details, j) + i] == details[j].base + i
  {
    var n := |details| - 1;
    assert details[..j + 1][..j] == details[..j];
    if j == n {
      assert details[..n + 1] == details;
    } else {
      assert details[..n][..j] == details[..j] && details[..n][..j + 1] == details[..j + 1];
      RawMapAt(details[..n], j, i);
    }
  }

  ghost predicate RangesApart(a: Range, b: Range) {
    forall x :: InRange(a, x) ==> !InRange(b, x)
  }

  /** No two ranges overlap, of one input or of two. */
  ghost predicate FamilyDisjoint(family: seq<Input>) {
    && (forall i :: 0 <= i < |family| ==> Disjoint(family[i].details))
    && (forall i, j, a, b :: 0 <= i < j < |family| && a in family[i].details && b in family[j].details ==>
         RangesApart(a, b))
  }

  /** Then no two lines share a raw interrupt, on one input or on two. */
  lemma FamilyDistinct(family: seq<Input>, i: nat, k: nat, j: nat, l: nat)
    requires FamilyDisjoint(family) && i < |family| && j < |family|
    requires k < |RawMap(family[i].details)| && l < |RawMap(family[j].details)|
    ensures RawMap(family[i].details)[k] == RawMap(family[j].details)[l] ==> i == j && k == l
  {
    var x, y := RawMap(family[i].details)[k], RawMap(family[j].details)[l];
    if i == j {
      if k < l { RawMapDistinct(family[i].details, k, l); }
      if l < k { RawMapDistinct(family[i].details, l, k); }
    } else {
      RawMapIn(family[i].details, k);
      RawMapIn(family[j].details, l);
      var a :| 0 <= a < |family[i].details| && InRange(family[i].details[a], x);
      var b :| 0 <= b < |family[j].details| && InRange(family[j].details[b], y);
      assert if i < j then RangesApart(family[i].details[a], family[j].details[b])
             else RangesApart(family[j].details[b], family[i].details[a]);
    }
  }

  /** Both families keep their ranges apart, and have at most as many lines as an input has. */
  lemma FamiliesApart()
    ensures FamilyDisjoint(Zynq()) && FamilyDisjoint(Ultrascale())
    ensures |RawMap(Zynq()[0].details)| == 16
    ensures |RawMap(Ultrascale()[0].details)| == |RawMap(Ultrascale()[1].details)| == 8
  {
    var z, u0, u1 := Zynq()[0].details, Ultrascale()[0].details, Ultrascale()[1].details;
    assert z[..2] == z && u0[..1] == u0 && u1[..1] == u1;
    assert z[..0] == [] && u0[..0] == [] && u1[..0] == [];
    RawMapAt(z, 0, 0);
    RawMapAt(z, 1, 0);
    RawMapAt(u0, 0, 0);
    RawMapAt(u1, 0, 0);
  }

  /** The raw interrupts of the families' lines. */
  lemma FamilyNumbers(i: nat)
    requires i < 8
    ensures |RawMap(Zynq()[0].details)| == 16
    ensures RawMap(Zynq()[0].details)[i] == 61 + i && RawMap(Zynq()[0].details)[8 + i] == 84 + i
    ensures |RawMap(Ultrascale()[0].details)| == |RawMap(Ultrascale()[1].details)| == 8
    ensures RawMap(Ultrascale()[0].details)[i] == 121 + i && RawMap(Ultrascale()[1].details)[i] == 136 + i
  {
    hide FamilyDisjoint, RawMap;
    FamiliesApart();
    var z, u0, u1 := Zynq()[0].details, Ultrascale()[0].details, Ultrascale()[1].details;
    NothingBefore(z);
    NothingBefore(u0);
    NothingBefore(u1);
    RawMapAt(z, 0, i);
    RawMapAt(z, 1, i);
    RawMapAt(u0, 0, i);
    RawMapAt(u1, 0, i);
  }

  lemma NothingBefore(details: seq<Range>)
    ensures Start(details, 0) == 0
  {
    assert details[..0] == [];
  }

  /** The net an input of the processor is on. */
  function InputPin(ps: string, irq: Input): string {
    ps + "/" + irq.name
  }

  ghost function InputTree(d: Netlist, rank: map<string, nat>, ps: string, irq: Input): Tree
    requires Sound(d, rank) && InputsKnown(d, ps, [irq])
  {
    assert [irq][0] == irq;
    if InputPin(ps, irq) in d.pins then NetTree(d, rank, d.pins[InputPin(ps, irq)]) else Empty
  }

  ghost predicate InputsKnown(d: Netlist, ps: string, family: seq<Input>) {
    forall i :: 0 <= i < |family| && InputPin(ps, family[i]) in d.pins ==> Known(d, d.pins[InputPin(ps, family[i])])
  }

  /** Each input is walked on its own, as lines 0, 1, ... of no parent, with its own raw interrupts. */
  ghost function AfterInputs(s: Dicts, d: Netlist, rank: map<string, nat>, ps: string, family: seq<Input>): Dicts
    requires Sound(d, rank) && InputsKnown(d, ps, family)
  {
    if family == [] then s
    else
      var n := |family| - 1;
      var before := AfterInputs(s, d, rank, ps, family[..n]);
      After(before, InputTree(d, rank, ps, family[n]), "", 0, Some(RawMap(family[n].details)))
  }

  ghost predicate InputsFit(d: Netlist, rank: map<string, nat>, ps: string, family: seq<Input>)
    requires Sound(d, rank) && InputsKnown(d, ps, family)
  {
    forall i :: 0 <= i < |family| ==> InputFits(d, rank, ps, family[i])
  }

  ghost predicate InputFits(d: Netlist, rank: map<string, nat>, ps: string, irq: Input) {
    Sound(d, rank) && InputsKnown(d, ps, [irq]) && Fits(InputTree(d, rank, ps, irq), 0, Some(RawMap(irq.details)))
  }

  /** What is wired to all inputs, side by side. */
  ghost function AllInputs(d: Netlist, rank: map<string, nat>, ps: string, family: seq<Input>): Tree
    requires Sound(d, rank) && InputsKnown(d, ps, family)
  {
    if family == [] then Empty
    else
      var n := |family| - 1;
      Beside(AllInputs(d, rank, ps, family[..n]), InputTree(d, rank, ps, family[n]))
  }

  lemma {:induction false} InputInside(d: Netlist, rank: map<string, nat>, ps: string, family: seq<Input>, i: nat)
    requires Sound(d, rank) && InputsKnown(d, ps, family) && i < |family| && Once(AllInputs(d, rank, ps, family))
    ensures var t, all := InputTree(d, rank, ps, family[i]), AllInputs(d, rank, ps, family);
      Once(t) && Pins(t) <= Pins(all) && Names(t) <= Names(all)
  {
    var n := |family| - 1;
    if i < n { InputInside(d, rank, ps, family[..n], i); }
  }

  /** Over all inputs: line k of input i is recorded as line k of no parent with the input's k-th
      raw interrupt, line k of any controller as line k of that controller with none. */
  lemma {:induction false} InputsNumber(s: Dicts, d: Netlist, rank: map<string, nat>, ps: string, family: seq<Input>,
        i: nat)
    requires Sound(d, rank) && InputsKnown(d, ps, family) && i < |family| && Once(AllInputs(d, rank, ps, family))
    ensures var r := AfterInputs(s, d, rank, ps, family);
      var t := InputTree(d, rank, ps, family[i]);
      && Numbered(r, t, "", 0, Some(RawMap(family[i].details)))
      && forall owner, u :: Under(t, owner, u) ==> Numbered(r, u, owner, 0, None)
  {
    var n := |family| - 1;
    var front := family[..n];
    var before := AfterInputs(s, d, rank, ps, front);
    var last, raw := InputTree(d, rank, ps, family[n]), Some(RawMap(family[n].details));
    if i == n {
      WalkNumbers(before, last, "", 0, raw);
    } else {
      InputsNumber(s, d, rank, ps, front, i);
      InputInside(d, rank, ps, front, i);
      var t := InputTree(d, rank, ps, family[i]);
      assert front[i] == family[i] && Apart(t, last);
      RecordsStay(before, t, "", 0, Some(RawMap(family[i].details)), last, "", 0, raw);
      forall owner, u | Under(t, owner, u) ensures Numbered(After(before, last, "", 0, raw), u, owner, 0, None) {
        UnderInside(t, owner, u);
        RecordsStay(before, u, owner, 0, None, last, "", 0, raw);
      }
    }
  }

  lemma {:induction false} InputsAdd(s: Dicts, d: Netlist, rank: map<string, nat>, ps: string, family: seq<Input>)
    requires Sound(d, rank) && InputsKnown(d, ps, family)
    ensures var r, t := AfterInputs(s, d, rank, ps, family), AllInputs(d, rank, ps, family);
      r.pins.Keys == s.pins.Keys + Pins(t) && r.controllers.Keys == s.controllers.Keys + Names(t)
  {
    if family != [] {
      var n := |family| - 1;
      InputsAdd(s, d, rank, ps, family[..n]);
      WalkAdds(AfterInputs(s, d, rank, ps, family[..n]), InputTree(d, rank, ps, family[n]), "", 0,
          Some(RawMap(family[n].details)));
    }
  }

  lemma {:induction false} PinHasInput(d: Netlist, rank: map<string, nat>, ps: string, family: seq<Input>, p: string)
    returns (i: nat)
    requires Sound(d, rank) && InputsKnown(d, ps, family) && p in Pins(AllInputs(d, rank, ps, family))
    ensures i < |family| && p in Pins(InputTree(d, rank, ps, family[i]))
  {
    var n := |family| - 1;
    if p in Pins(InputTree(d, rank, ps, family[n])) { i := n; } else { i := PinHasInput(d, rank, ps, family[..n], p); }
  }

  /** Starting from nothing, raw_irq ends up on exactly the entries whose parent is "". */
  lemma {:induction false} InputsRawAtTop(s: Dicts, d: Netlist, rank: map<string, nat>, ps: string, family: seq<Input>)
    requires Sound(d, rank) && InputsKnown(d, ps, family) && InputsFit(d, rank, ps, family)
    requires RawAtTop(s) && "" !in Names(AllInputs(d, rank, ps, family))
    ensures RawAtTop(AfterInputs(s, d, rank, ps, family))
  {
    if family != [] {
      var n := |family| - 1;
      var front := family[..n];
      forall i | 0 <= i < n ensures InputFits(d, rank, ps, front[i]) { assert InputFits(d, rank, ps, family[i]); }
      InputsRawAtTop(s, d, rank, ps, front);
      assert InputFits(d, rank, ps, family[n]);
      WalkKeepsRawAtTop(AfterInputs(s, d, rank, ps, front), InputTree(d, rank, ps, family[n]), "", 0,
          Some(RawMap(family[n].details)));
    }
  }
}
