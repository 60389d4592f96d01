/** The walk told from the names of the pins: which controllers and pins it records, and at which
    number, for every design with exact names. */
module InterruptWiring {
  import opened InterruptNets
  import opened InterruptTopology
  import opened Numbers
  import opened Wrappers

  import Registry = InterruptRegistry

  // ---------------------------------------------------------------- the driver of a net by name

  lemma LastMark(x: string, mark: string)
    requires mark != []
    ensures Before(x + mark, mark) == Some(x)
  {
    assert MarkedAt(x + mark, mark, |x|);
    var name := Before(x + mark, mark).value;
    assert |name| == |x|;
    assert name == (x + mark)[..|name|] == x;
  }

  /** A concat cell's output has that cell as its driver, and so has a controller's, unless the name
      passes for the output of a concat cell. */
  lemma OutputsDrive(d: Netlist, x: string)
    ensures x in d.concat ==> DriverOf(d, x + "/dout") == Concat(x)
    ensures x in d.intc && (forall y :: y in d.concat ==> Before(x + "/irq", "/dout") != Some(y)) ==>
      DriverOf(d, x + "/irq") == Intc(x)
  {
    LastMark(x, "/dout");
    LastMark(x, "/irq");
  }

  lemma GroupIsPrefix(p: string, mark: string, x: string)
    requires Before(p, mark) == Some(x)
    ensures x + mark <= p
  {
    assert MarkedAt(p, mark, |x|);
    assert p == x + mark + p[|x| + |mark|..];
  }

  lemma TwoOutputs(x: string, y: string)
    ensures x + "/dout" != y + "/irq"
  {
    var a, b := x + "/dout", y + "/irq";
    assert a[|a| - 1] == 't' && b[|b| - 1] == 'q';
  }

  lemma ExactDriver(d: Netlist, p: string, x: string)
    requires ExactName(d, p)
    ensures DriverOf(d, p) == Concat(x) <==> x in d.concat && p == x + "/dout"
    ensures DriverOf(d, p) == Intc(x) <==> x in d.intc && p == x + "/irq"
  {
    var dout, irq := Before(p, "/dout"), Before(p, "/irq");
    if dout.Some? { GroupIsPrefix(p, "/dout", dout.value); }
    if irq.Some? { GroupIsPrefix(p, "/irq", irq.value); }
    if p == x + "/dout" { LastMark(x, "/dout"); }
    if p == x + "/irq" {
      LastMark(x, "/irq");
      if dout.Some? { TwoOutputs(dout.value, x); }
    }
  }

  /** The driver the walk takes p for is the cell whose output p is by name, and nobody otherwise. */
  ghost predicate DrivesByName(d: Netlist, p: string) {
    && (forall x :: DriverOf(d, p) == Concat(x) <==> x in d.concat && p == x + "/dout")
    && (forall x :: DriverOf(d, p) == Intc(x) <==> x in d.intc && p == x + "/irq")
  }

  /** Exactly when that is so: if the group that makes p a cell's output is followed by nothing but
      the mark. */
  lemma DrivesByNameIff(d: Netlist, p: string)
    ensures DrivesByName(d, p) <==>
      match DriverOf(d, p)
      case Concat(x) => p == x + "/dout"
      case Intc(x) => p == x + "/irq"
      case Nobody => true
  {
    forall x | x in d.concat && p == x + "/dout" ensures DriverOf(d, p) == Concat(x) { LastMark(x, "/dout"); }
    forall x | p == x + "/irq"
      ensures Before(p, "/irq") == Some(x) && forall y :: p != y + "/dout"
    {
      LastMark(x, "/irq");
      forall y ensures p != y + "/dout" { TwoOutputs(y, x); }
    }
    OnlyOneName(p, "/dout");
    OnlyOneName(p, "/irq");
  }

  lemma OnlyOneName(p: string, mark: string)
    requires mark != []
    ensures forall x, y :: p == x + mark && p == y + mark ==> x == y
  {
    forall x, y | p == x + mark && p == y + mark ensures x == y { assert x == p[..|p| - |mark|] == y; }
  }

  lemma MarkStart(p: string, mark: string, i: nat)
    requires mark != []
    ensures MarkedAt(p, mark, i) ==> i < |p| && p[i] == mark[0]
  {
    if MarkedAt(p, mark, i) { assert p[i..i + |mark|][0] == p[i]; }
  }

  /** And an input on which it is not: the pin c/irq_ack of a controller c passes for its output. */
  lemma LooseName(d: Netlist)
    requires d.intc == {"c"} && d.concat == map[]
    ensures DriverOf(d, "c/irq_ack") == Intc("c") && !DrivesByName(d, "c/irq_ack")
  {
    var p := "c/irq_ack";
    assert p[1..5] == "/irq";
    assert MarkedAt(p, "/irq", 1);
    forall i: nat | i > 1 ensures !MarkedAt(p, "/irq", i) { MarkStart(p, "/irq", i); }
    var name := Before(p, "/irq").value;
    assert name == p[..1] == "c";
    DrivesByNameIff(d, p);
  }

  /** A net is driven by x exactly if x's output is on it. */
  lemma NetDriverIs(d: Netlist, rank: map<string, nat>, net: string, x: string)
    requires Sound(d, rank) && ExactNames(d) && Known(d, net)
    ensures NetDriver(d, net) == Concat(x) <==> x in d.concat && Has(d, net, x + "/dout")
    ensures NetDriver(d, net) == Intc(x) <==> x in d.intc && Has(d, net, x + "/irq")
  {
    hide Sound, DriverOf, Before, ExactName;
    forall p | p in PinsOf(d, net)
      ensures DriverOf(d, p) == Concat(x) <==> x in d.concat && p == x + "/dout"
      ensures DriverOf(d, p) == Intc(x) <==> x in d.intc && p == x + "/irq"
    {
      ExactDriver(d, p, x);
    }
    if Has(d, net, x + "/dout") && x in d.concat { DriverIs(d, rank, net, x + "/dout"); }
    if Has(d, net, x + "/irq") && x in d.intc { DriverIs(d, rank, net, x + "/irq"); }
  }

  lemma NobodyDrives(d: Netlist, rank: map<string, nat>, net: string)
    requires Sound(d, rank) && ExactNames(d) && Known(d, net)
    ensures NetDriver(d, net) == Nobody <==> Ends(d, net)
  {
    hide Sound, DriverOf, ExactNames, NetDriver;
    var drv := NetDriver(d, net);
    forall x ensures drv == Concat(x) <==> x in d.concat && Has(d, net, x + "/dout")
             ensures drv == Intc(x) <==> x in d.intc && Has(d, net, x + "/irq")
    {
      NetDriverIs(d, rank, net, x);
    }
    match drv
    case Concat(x) => assert Has(d, net, x + "/dout");
    case Intc(x) => assert Has(d, net, x + "/irq");
    case Nobody =>
  }

  // ---------------------------------------------------------------- what is behind a net is in its tree

  /** u is t or a part of it. */
  predicate Part(t: Tree, u: Tree) {
    || t == u
    || match t
       case Beside(a, b) => Part(a, u) || Part(b, u)
       case Controller(_, inside) => Part(inside, u)
       case Empty => false
       case Plain(_) => false
  }

  lemma {:induction false} PartTrans(t: Tree, u: Tree, v: Tree)
    requires Part(t, u) && Part(u, v)
    ensures Part(t, v)
  {
    if t != u {
      match t
      case Beside(a, b) => if Part(a, u) { PartTrans(a, u, v); } else { PartTrans(b, u, v); }
      case Controller(_, inside) => PartTrans(inside, u, v);
    }
  }

  lemma {:induction false} PartAdds(t: Tree, u: Tree)
    requires Part(t, u)
    ensures Pins(u) <= Pins(t) && Names(u) <= Names(t)
    ensures u.Controller? ==> Under(t, u.name, u.inside)
  {
    if t != u {
      match t
      case Beside(a, b) => if Part(a, u) { PartAdds(a, u); } else { PartAdds(b, u); }
      case Controller(_, inside) => PartAdds(inside, u);
    }
  }

  lemma {:induction false} PortPart(d: Netlist, rank: map<string, nat>, name: string, from: nat, i: nat, bound: nat)
    requires Sound(d, rank) && PortsBelow(d, rank, name, bound) && from <= i < d.concat[name]
    ensures Below(d, rank, Port(name, i), bound)
    ensures Part(PortTrees(d, rank, name, from, bound), NetTree(d, rank, d.pins[Port(name, i)]))
    decreases i - from
  {
    hide Sound, NetTree, PortTrees, PortsBelow, Below;
    PortsFrom(d, rank, name, from, bound);
    if from < i { PortPart(d, rank, name, from + 1, i, bound); }
  }

  lemma BehindIsPart(d: Netlist, rank: map<string, nat>, a: string, b: string)
    requires Sound(d, rank) && ExactNames(d) && Behind(d, a, b)
    ensures Known(d, a) && Known(d, b) && Part(NetTree(d, rank, a), NetTree(d, rank, b))
  {
    hide Sound, ExactNames, NetTree, PortTrees, NetDriver;
    if x, i: nat :| BehindConcat(d, a, b, x, i) {
      NetDriverIs(d, rank, a, x);
      NetTreeIs(d, rank, a, 0, None);
      PortPart(d, rank, x, 0, i, Height(rank, a));
    } else {
      var x :| BehindIntc(d, a, b, x);
      NetDriverIs(d, rank, a, x);
      NetTreeIs(d, rank, a, 0, None);
    }
  }

  lemma {:induction false} PathIsPart(d: Netlist, rank: map<string, nat>, nets: seq<string>)
    requires Sound(d, rank) && ExactNames(d) && Path(d, nets) && Known(d, nets[0])
    ensures Known(d, nets[|nets| - 1])
    ensures Part(NetTree(d, rank, nets[0]), NetTree(d, rank, nets[|nets| - 1]))
    decreases |nets|
  {
    hide Sound, ExactNames, NetTree, Behind;
    var rest := nets[1..];
    if |nets| > 1 {
      assert Behind(d, nets[0], nets[1]);
      BehindIsPart(d, rank, nets[0], nets[1]);
      forall j | 0 <= j < |rest| - 1 ensures Behind(d, rest[j], rest[j + 1]) { assert rest[j] == nets[j + 1]; }
      PathIsPart(d, rank, rest);
      PartTrans(NetTree(d, rank, nets[0]), NetTree(d, rank, nets[1]), NetTree(d, rank, nets[|nets| - 1]));
    }
  }

  lemma LeadsToPart(d: Netlist, rank: map<string, nat>, a: string, b: string)
    requires Sound(d, rank) && ExactNames(d) && Known(d, a) && LeadsTo(d, a, b)
    ensures Known(d, b) && Part(NetTree(d, rank, a), NetTree(d, rank, b))
  {
    hide Sound, ExactNames, NetTree, Behind;
    var nets :| Path(d, nets) && nets[0] == a && nets[|nets| - 1] == b;
    PathIsPart(d, rank, nets);
  }

  // ---------------------------------------------------------------- what is in the tree is behind the net

  /** The pin is on a net behind a that ends there. */
  ghost predicate EndsBehind(d: Netlist, a: string, p: string) {
    exists b :: LeadsTo(d, a, b) && Ends(d, b) && Has(d, b, p)
  }

  /** The controller's output is on a net behind a. */
  ghost predicate DrivesBehind(d: Netlist, a: string, x: string) {
    x in d.intc && exists b :: LeadsTo(d, a, b) && Has(d, b, x + "/irq")
  }

  lemma BehindBehind(d: Netlist, a: string, b: string)
    requires Behind(d, a, b)
    ensures forall p :: EndsBehind(d, b, p) ==> EndsBehind(d, a, p)
    ensures forall x :: DrivesBehind(d, b, x) ==> DrivesBehind(d, a, x)
  {
    forall c | LeadsTo(d, b, c) ensures LeadsTo(d, a, c) { LeadsOn(d, a, b, c); }
  }

  predicate Holds(t: Tree, q: string, pin: bool) {
    q in if pin then Pins(t) else Names(t)
  }

  lemma {:induction false} PortHolds(d: Netlist, rank: map<string, nat>, name: string, from: nat, bound: nat, q: string,
        pin: bool)
    returns (i: nat)
    requires Sound(d, rank) && PortsBelow(d, rank, name, bound) && from <= d.concat[name]
    requires Holds(PortTrees(d, rank, name, from, bound), q, pin)
    ensures name in d.concat && i < d.concat[name] && Below(d, rank, Port(name, i), bound)
    ensures Holds(NetTree(d, rank, d.pins[Port(name, i)]), q, pin)
    decreases d.concat[name] - from
  {
    hide Sound, NetTree, PortsBelow, Below;
    PortsAre(d, rank, name, bound);
    PortsFrom(d, rank, name, from, bound);
    i := from;
    if !Holds(NetTree(d, rank, d.pins[Port(name, i)]), q, pin) {
      i := PortHolds(d, rank, name, from + 1, bound, q, pin);
    }
  }

  /** Every pin in a net's tree is on a net behind it that ends, every controller's output on one. */
  lemma {:induction false} HeldBehind(d: Netlist, rank: map<string, nat>, a: string, q: string, pin: bool)
    requires Sound(d, rank) && ExactNames(d) && Known(d, a) && Holds(NetTree(d, rank, a), q, pin)
    ensures if pin then EndsBehind(d, a, q) else DrivesBehind(d, a, q)
    decreases Height(rank, a)
  {
    hide Sound, ExactNames, NetTree, PortTrees, PortsBelow, NetDriver, LeadsTo, Behind, Ends, Height;
    LeadsToSelf(d, a);
    NetTreeIs(d, rank, a, 0, None);
    match NetDriver(d, a)
    case Concat(x) =>
      var i := PortHolds(d, rank, x, 0, Height(rank, a), q, pin);
      ThroughConcat(d, rank, a, x, i);
      HeldBehind(d, rank, d.pins[Port(x, i)], q, pin);
      BehindBehind(d, a, d.pins[Port(x, i)]);
    case Intc(x) =>
      NetDriverIs(d, rank, a, x);
      var b := d.pins[x + "/intr"];
      ThroughIntc(d, a, b, x);
      if Holds(NetTree(d, rank, b), q, pin) {
        HeldBehind(d, rank, b, q, pin);
        BehindBehind(d, a, b);
      }
    case Nobody => NobodyDrives(d, rank, a);
  }

  lemma ThroughConcat(d: Netlist, rank: map<string, nat>, a: string, x: string, i: nat)
    requires Sound(d, rank) && ExactNames(d) && Known(d, a) && NetDriver(d, a) == Concat(x)
    requires x in d.concat && i < d.concat[x] && Port(x, i) in d.pins
    ensures Behind(d, a, d.pins[Port(x, i)])
  {
    hide Sound, ExactNames, NetDriver;
    NetDriverIs(d, rank, a, x);
    assert BehindConcat(d, a, d.pins[Port(x, i)], x, i);
  }

  lemma ThroughIntc(d: Netlist, a: string, b: string, x: string)
    requires BehindIntc(d, a, b, x)
    ensures Behind(d, a, b)
  {
  }

  lemma EndHolds(d: Netlist, rank: map<string, nat>, a: string, b: string, p: string)
    requires Sound(d, rank) && ExactNames(d) && Known(d, a) && LeadsTo(d, a, b) && Ends(d, b) && Has(d, b, p)
    ensures p in Pins(NetTree(d, rank, a))
  {
    hide Sound, ExactNames, NetTree, NetDriver, LeadsTo, Ends;
    LeadsToPart(d, rank, a, b);
    NobodyDrives(d, rank, b);
    NetTreeIs(d, rank, b, 0, None);
    PartAdds(NetTree(d, rank, a), NetTree(d, rank, b));
  }

  lemma OutputHolds(d: Netlist, rank: map<string, nat>, a: string, b: string, x: string)
    requires Sound(d, rank) && ExactNames(d) && Known(d, a) && LeadsTo(d, a, b) && x in d.intc && Has(d, b, x + "/irq")
    ensures Below(d, rank, x + "/intr", Height(rank, b)) && x in Names(NetTree(d, rank, a))
    ensures Under(NetTree(d, rank, a), x, NetTree(d, rank, d.pins[x + "/intr"]))
  {
    hide Sound, ExactNames, NetTree, NetDriver, LeadsTo;
    LeadsToPart(d, rank, a, b);
    NetDriverIs(d, rank, b, x);
    NetTreeIs(d, rank, b, 0, None);
    PartAdds(NetTree(d, rank, a), NetTree(d, rank, b));
  }

  /** What is in a net's tree is exactly what is behind the net by name. */
  lemma TreeByNames(d: Netlist, rank: map<string, nat>, a: string, q: string)
    requires Sound(d, rank) && ExactNames(d) && Known(d, a)
    ensures q in Pins(NetTree(d, rank, a)) <==> EndsBehind(d, a, q)
    ensures q in Names(NetTree(d, rank, a)) <==> DrivesBehind(d, a, q)
  {
    hide Sound, ExactNames, NetTree, LeadsTo, Ends, Pins, Names;
    var t := NetTree(d, rank, a);
    if Holds(t, q, true) { HeldBehind(d, rank, a, q, true); }
    if Holds(t, q, false) { HeldBehind(d, rank, a, q, false); }
    if EndsBehind(d, a, q) {
      var b :| LeadsTo(d, a, b) && Ends(d, b) && Has(d, b, q);
      EndHolds(d, rank, a, b, q);
    }
    if DrivesBehind(d, a, q) {
      var b :| LeadsTo(d, a, b) && Has(d, b, q + "/irq");
      OutputHolds(d, rank, a, b, q);
    }
  }

  // ---------------------------------------------------------------- what the parser records

  /** The net is on an interrupt input of the processor. */
  predicate StartsAt(d: Netlist, ps: string, irq: Input, a: string) {
    WiredTo(d, ps + "/" + irq.name, a)
  }

  /** The net is behind an interrupt input of the processor. */
  ghost predicate Reached(d: Netlist, ps: string, family: seq<Input>, net: string) {
    exists irq, a :: irq in family && StartsAt(d, ps, irq, a) && LeadsTo(d, a, net)
  }

  ghost predicate ControllerFound(d: Netlist, ps: string, family: seq<Input>, x: string) {
    x in d.intc && exists net :: Reached(d, ps, family, net) && Has(d, net, x + "/irq")
  }

  ghost predicate PinFound(d: Netlist, ps: string, family: seq<Input>, p: string) {
    exists net :: Reached(d, ps, family, net) && Ends(d, net) && Has(d, net, p)
  }

  ghost predicate FoundFrom(d: Netlist, ps: string, irq: Input, q: string, pin: bool) {
    exists a :: StartsAt(d, ps, irq, a) && if pin then EndsBehind(d, a, q) else DrivesBehind(d, a, q)
  }

  lemma InputByNames(d: Netlist, rank: map<string, nat>, ps: string, irq: Input, q: string, pin: bool)
    requires Sound(d, rank) && ExactNames(d) && InputsKnown(d, ps, [irq])
    ensures Holds(InputTree(d, rank, ps, irq), q, pin) <==> FoundFrom(d, ps, irq, q, pin)
  {
    hide Sound, ExactNames, NetTree, EndsBehind, DrivesBehind, Pins, Names;
    assert [irq][0] == irq;
    if InputPin(ps, irq) in d.pins {
      var a := d.pins[InputPin(ps, irq)];
      TreeByNames(d, rank, a, q);
      assert StartsAt(d, ps, irq, a);
    } else {
      assert InputTree(d, rank, ps, irq) == Empty;
      NothingInEmpty(q, pin);
    }
  }

  lemma NothingInEmpty(q: string, pin: bool)
    ensures !Holds(Empty, q, pin)
  {
  }

  lemma {:induction false} AllByNames(d: Netlist, rank: map<string, nat>, ps: string, family: seq<Input>, q: string,
        pin: bool)
    requires Sound(d, rank) && ExactNames(d) && InputsKnown(d, ps, family)
    ensures Holds(AllInputs(d, rank, ps, family), q, pin) <==>
      exists irq :: irq in family && FoundFrom(d, ps, irq, q, pin)
  {
    hide Sound, InputTree, FoundFrom;
    if family != [] {
      var n := |family| - 1;
      AllByNames(d, rank, ps, family[..n], q, pin);
      assert InputsKnown(d, ps, [family[n]]);
      InputByNames(d, rank, ps, family[n], q, pin);
    }
  }

  lemma FoundIs(d: Netlist, ps: string, family: seq<Input>, q: string)
    ensures PinFound(d, ps, family, q) <==> exists irq :: irq in family && FoundFrom(d, ps, irq, q, true)
    ensures ControllerFound(d, ps, family, q) <==> exists irq :: irq in family && FoundFrom(d, ps, irq, q, false)
  {
    hide StartsAt, LeadsTo, Ends, Has;
  }

  /** The parser finds exactly what is wired to the processor: starting from nothing, it records a
      controller exactly if its output is on a net behind an interrupt input, and a pin exactly if
      it is on such a net that no cell drives. */
  lemma FindsExactly(d: Netlist, rank: map<string, nat>, ps: string, family: seq<Input>)
    requires Sound(d, rank) && ExactNames(d) && InputsKnown(d, ps, family)
    ensures var r := AfterInputs(Dicts(map[], map[]), d, rank, ps, family);
      && (forall x :: x in r.controllers <==> ControllerFound(d, ps, family, x))
      && (forall p :: p in r.pins <==> PinFound(d, ps, family, p))
  {
    hide Sound, ExactNames, PinFound, ControllerFound, FoundFrom, AfterInputs, AllInputs;
    var s := Dicts(map[], map[]);
    var r, t := AfterInputs(s, d, rank, ps, family), AllInputs(d, rank, ps, family);
    InputsAdd(s, d, rank, ps, family);
    forall q
      ensures q in r.controllers <==> ControllerFound(d, ps, family, q)
      ensures q in r.pins <==> PinFound(d, ps, family, q)
    {
      FoundIs(d, ps, family, q);
      AllByNames(d, rank, ps, family, q, true);
      AllByNames(d, rank, ps, family, q, false);
    }
  }

  // ---------------------------------------------------------------- the numbers by name

  lemma ConcatBelow(d: Netlist, rank: map<string, nat>, net: string, x: string)
    requires Sound(d, rank) && ExactNames(d) && Known(d, net) && x in d.concat && Has(d, net, x + "/dout")
    ensures PortsBelow(d, rank, x, Height(rank, net)) && NetDriver(d, net) == Concat(x)
  {
    hide Sound, ExactNames, NetTree, PortTrees, NetDriver;
    NetDriverIs(d, rank, net, x);
    NetTreeIs(d, rank, net, 0, None);
  }

  ghost predicate Concatenates(d: Netlist, net: string) {
    exists x :: x in d.concat && Has(d, net, x + "/dout")
  }

  /** How many lines a net stands for: what a concat cell collects, or one. */
  ghost function Width(d: Netlist, rank: map<string, nat>, net: string): nat
    requires Sound(d, rank) && ExactNames(d) && Known(d, net)
    decreases Height(rank, net), 1, 0
  {
    if Concatenates(d, net) then
      var x :| x in d.concat && Has(d, net, x + "/dout");
      ConcatBelow(d, rank, net, x);
      LinesBefore(d, rank, x, d.concat[x], Height(rank, net))
    else 1
  }

  /** How many lines the first n inputs of a concat cell stand for. */
  ghost function LinesBefore(d: Netlist, rank: map<string, nat>, x: string, n: nat, bound: nat): nat
    requires Sound(d, rank) && ExactNames(d) && PortsBelow(d, rank, x, bound) && n <= d.concat[x]
    decreases bound, 0, n
  {
    if n == 0 then 0
    else
      assert Below(d, rank, Port(x, n - 1), bound);
      LinesBefore(d, rank, x, n - 1, bound) + Width(d, rank, d.pins[x + "/In" + Str(n - 1)])
  }

  lemma NoneBefore(d: Netlist, rank: map<string, nat>, x: string, bound: nat)
    requires Sound(d, rank) && ExactNames(d) && PortsBelow(d, rank, x, bound)
    ensures LinesBefore(d, rank, x, 0, bound) == 0
  {
  }

  lemma WidthIs(d: Netlist, rank: map<string, nat>, net: string, x: string)
    requires Sound(d, rank) && ExactNames(d) && Known(d, net)
    ensures x in d.concat && Has(d, net, x + "/dout") ==>
      && PortsBelow(d, rank, x, Height(rank, net))
      && Width(d, rank, net) == LinesBefore(d, rank, x, d.concat[x], Height(rank, net))
  {
    hide Sound, ExactNames, NetDriver, LinesBefore, PortsBelow;
    if x in d.concat && Has(d, net, x + "/dout") {
      ConcatBelow(d, rank, net, x);
      forall y | y in d.concat && Has(d, net, y + "/dout") ensures y == x { ConcatBelow(d, rank, net, y); }
    }
  }

  /** The lines of a net's tree, counted by name. */
  lemma {:induction false} WidthIsLines(d: Netlist, rank: map<string, nat>, net: string)
    requires Sound(d, rank) && ExactNames(d) && Known(d, net)
    ensures |Lines(NetTree(d, rank, net))| == Width(d, rank, net)
    decreases Height(rank, net), 1, 0
  {
    hide Sound, ExactNames, NetTree, PortTrees, PortsBelow, NetDriver, LinesBefore, Lines;
    NetTreeIs(d, rank, net, 0, None);
    match NetDriver(d, net)
    case Concat(x) =>
      NetDriverIs(d, rank, net, x);
      WidthIs(d, rank, net, x);
      NoneBefore(d, rank, x, Height(rank, net));
      LinesFrom(d, rank, x, 0, Height(rank, net));
    case _ => NotConcat(d, rank, net);
  }

  lemma NotConcat(d: Netlist, rank: map<string, nat>, net: string)
    requires Sound(d, rank) && ExactNames(d) && Known(d, net)
    ensures NetDriver(d, net).Concat? <==> Concatenates(d, net)
  {
    hide Sound, ExactNames, NetDriver;
    if NetDriver(d, net).Concat? { NetDriverIs(d, rank, net, NetDriver(d, net).name); }
    forall x | x in d.concat && Has(d, net, x + "/dout") ensures NetDriver(d, net).Concat? {
      NetDriverIs(d, rank, net, x);
    }
  }

  lemma {:induction false} LinesFrom(d: Netlist, rank: map<string, nat>, x: string, i: nat, bound: nat)
    requires Sound(d, rank) && ExactNames(d) && PortsBelow(d, rank, x, bound) && i <= d.concat[x]
    ensures LinesBefore(d, rank, x, i, bound) + |Lines(PortTrees(d, rank, x, i, bound))|
         == LinesBefore(d, rank, x, d.concat[x], bound)
    decreases bound, 0, d.concat[x] - i
  {
    hide Sound, ExactNames, NetTree, PortTrees, PortsBelow, NetDriver, Width;
    PortsAre(d, rank, x, bound);
    if i < d.concat[x] {
      PortsFrom(d, rank, x, i, bound);
      WidthIsLines(d, rank, d.pins[Port(x, i)]);
      LinesFrom(d, rank, x, i + 1, bound);
    }
  }

  /** A way through concat cells only: at each cell, the input it goes in by. */
  datatype Hop = Hop(cell: string, port: nat)

  ghost predicate Follows(d: Netlist, a: string, hops: seq<Hop>, b: string)
    decreases |hops|
  {
    if hops == [] then a == b
    else
      var pin := hops[0].cell + "/In" + Str(hops[0].port);
      && pin in d.pins && BehindConcat(d, a, d.pins[pin], hops[0].cell, hops[0].port)
      && Follows(d, d.pins[pin], hops[1..], b)
  }

  /** The lines that come before the way's end: at each cell, those of the inputs before. */
  ghost function Position(d: Netlist, rank: map<string, nat>, a: string, hops: seq<Hop>, b: string): nat
    requires Sound(d, rank) && ExactNames(d) && Known(d, a) && Follows(d, a, hops, b)
    decreases |hops|
  {
    if hops == [] then 0
    else
      var h := hops[0];
      ConcatBelow(d, rank, a, h.cell);
      assert Below(d, rank, Port(h.cell, h.port), Height(rank, a));
      LinesBefore(d, rank, h.cell, h.port, Height(rank, a))
      + Position(d, rank, d.pins[h.cell + "/In" + Str(h.port)], hops[1..], b)
  }

  lemma LinesBeside(a: Tree, b: Tree)
    ensures Lines(Beside(a, b)) == Lines(a) + Lines(b)
  {
  }

  lemma {:induction false} PortLines(d: Netlist, rank: map<string, nat>, x: string, from: nat, i: nat, bound: nat,
        k: nat)
    requires Sound(d, rank) && ExactNames(d) && PortsBelow(d, rank, x, bound) && from <= i < d.concat[x]
    requires Below(d, rank, Port(x, i), bound) && k < |Lines(NetTree(d, rank, d.pins[Port(x, i)]))|
    ensures LinesBefore(d, rank, x, from, bound) <= LinesBefore(d, rank, x, i, bound)
    ensures var t := PortTrees(d, rank, x, from, bound);
      var at := LinesBefore(d, rank, x, i, bound) - LinesBefore(d, rank, x, from, bound) + k;
      at < |Lines(t)| && Lines(t)[at] == Lines(NetTree(d, rank, d.pins[Port(x, i)]))[k]
    decreases i - from
  {
    hide Sound, ExactNames, NetTree, PortTrees, PortsBelow, NetDriver, Width, Lines;
    PortsFrom(d, rank, x, from, bound);
    LinesBeside(NetTree(d, rank, d.pins[Port(x, from)]), PortTrees(d, rank, x, from + 1, bound));
    if from < i {
      WidthIsLines(d, rank, d.pins[Port(x, from)]);
      PortLines(d, rank, x, from + 1, i, bound, k);
    }
  }

  /** The line at the end of a way has the way's position. */
  lemma {:induction false} LineAtPosition(d: Netlist, rank: map<string, nat>, a: string, hops: seq<Hop>, b: string)
    requires Sound(d, rank) && ExactNames(d) && Known(d, a) && Follows(d, a, hops, b) && !Concatenates(d, b)
    ensures Known(d, b)
    ensures var lines, at := Lines(NetTree(d, rank, a)), Position(d, rank, a, hops, b);
      at < |lines| && lines[at] == NetTree(d, rank, b)
    decreases |hops|
  {
    hide Sound, ExactNames, NetTree, PortTrees, PortsBelow, NetDriver, LinesBefore, Has;
    if hops == [] {
      NotConcat(d, rank, b);
      NetTreeIs(d, rank, b, 0, None);
    } else {
      var h := hops[0];
      ConcatBelow(d, rank, a, h.cell);
      NetTreeIs(d, rank, a, 0, None);
      PortsFrom(d, rank, h.cell, h.port, Height(rank, a));
      var next := d.pins[Port(h.cell, h.port)];
      NoneBefore(d, rank, h.cell, Height(rank, a));
      LineAtPosition(d, rank, next, hops[1..], b);
      PortLines(d, rank, h.cell, 0, h.port, Height(rank, a), Position(d, rank, next, hops[1..], b));
    }
  }

  /** What is on net b is recorded with entry e: the controller that drives it, or its pins. */
  ghost predicate RecordedAt(s: Dicts, d: Netlist, b: string, e: Entry) {
    && (forall x :: x in d.intc && Has(d, b, x + "/irq") ==> x in s.controllers && s.controllers[x] == e)
    && (Ends(d, b) ==> forall p :: Has(d, b, p) ==> p in s.pins && s.pins[p] == Pin(p, e))
  }

  lemma NetRecorded(s: Dicts, d: Netlist, rank: map<string, nat>, a: string, hops: seq<Hop>, b: string,
        parent: string, raw: Option<seq<int>>)
    requires Sound(d, rank) && ExactNames(d) && Known(d, a) && Follows(d, a, hops, b) && !Concatenates(d, b)
    requires Numbered(s, NetTree(d, rank, a), parent, 0, raw)
    ensures var at := Position(d, rank, a, hops, b);
      RecordedAt(s, d, b, Registry.Entry(parent, at, Raw(raw, at)))
  {
    hide Sound, ExactNames, NetTree, PortTrees, PortsBelow, NetDriver, Lines, Position, Follows, Ends, Raw;
    var at := Position(d, rank, a, hops, b);
    LineAtPosition(d, rank, a, hops, b);
    assert Recorded(s, Lines(NetTree(d, rank, a))[at], Registry.Entry(parent, 0 + at, Raw(raw, 0 + at)));
    NetTreeIs(d, rank, b, 0, None);
    NobodyDrives(d, rank, b);
    forall x | x in d.intc && Has(d, b, x + "/irq") ensures NetDriver(d, b) == Intc(x) { NetDriverIs(d, rank, b, x); }
  }

  /** The entries by name: over all inputs, what a way through concat cells ends at is recorded with
      the way's position for an index - under no parent, with the raw interrupt of that position, if
      the way starts at an input of the processor; and under x, with none, if it starts at the input
      of a controller x that is behind one. */
  lemma IndexedByNames(s: Dicts, d: Netlist, rank: map<string, nat>, ps: string, family: seq<Input>, irq: Input,
        a: string, hops: seq<Hop>, b: string)
    requires Sound(d, rank) && ExactNames(d) && InputsKnown(d, ps, family) && Once(AllInputs(d, rank, ps, family))
    requires irq in family && StartsAt(d, ps, irq, a) && Known(d, a) && !Concatenates(d, b)
    ensures Follows(d, a, hops, b) ==>
      var at := Position(d, rank, a, hops, b);
      RecordedAt(AfterInputs(s, d, rank, ps, family), d, b,
                 Registry.Entry("", at, Raw(Some(RawMap(irq.details)), at)))
    ensures forall net, x, c :: LeadsTo(d, a, net) && BehindIntc(d, net, c, x) && Follows(d, c, hops, b) ==>
      && Known(d, c)
      && RecordedAt(AfterInputs(s, d, rank, ps, family), d, b,
                    Registry.Entry(x, Position(d, rank, c, hops, b), None))
  {
    hide Sound, ExactNames, NetTree, Position, Follows, RecordedAt, AfterInputs, AllInputs, Once, LeadsTo, Numbered;
    var i :| 0 <= i < |family| && family[i] == irq;
    var r, t := AfterInputs(s, d, rank, ps, family), InputTree(d, rank, ps, irq);
    InputsNumber(s, d, rank, ps, family, i);
    if Follows(d, a, hops, b) { NetRecorded(r, d, rank, a, hops, b, "", Some(RawMap(irq.details))); }
    forall net, x, c | LeadsTo(d, a, net) && BehindIntc(d, net, c, x) && Follows(d, c, hops, b)
      ensures Known(d, c) && RecordedAt(r, d, b, Registry.Entry(x, Position(d, rank, c, hops, b), None))
    {
      OutputHolds(d, rank, a, net, x);
      NetRecorded(r, d, rank, c, hops, b, x, None);
    }
  }

  // ---------------------------------------------------------------- when the raw interrupts suffice

  predicate NeedsRaw(line: Tree) {
    line.Controller? || (line.Plain? && line.pins != {})
  }

  ghost predicate LinesFit(lines: seq<Tree>, offset: nat, raw: Option<seq<int>>) {
    forall k :: 0 <= k < |lines| && NeedsRaw(lines[k]) ==> Mapped(raw, offset + k)
  }

  lemma LinesFitJoin(a: seq<Tree>, b: seq<Tree>, offset: nat, raw: Option<seq<int>>)
    ensures LinesFit(a + b, offset, raw) <==> LinesFit(a, offset, raw) && LinesFit(b, offset + |a|, raw)
  {
    hide NeedsRaw, Mapped;
    if LinesFit(a + b, offset, raw) {
      forall k | 0 <= k < |a| && NeedsRaw(a[k]) ensures Mapped(raw, offset + k) { assert (a + b)[k] == a[k]; }
      forall k | 0 <= k < |b| && NeedsRaw(b[k]) ensures Mapped(raw, offset + |a| + k) {
        assert (a + b)[|a| + k] == b[k];
        assert Mapped(raw, offset + (|a| + k));
      }
    }
    if LinesFit(a, offset, raw) && LinesFit(b, offset + |a|, raw) {
      forall k | 0 <= k < |a + b| && NeedsRaw((a + b)[k]) ensures Mapped(raw, offset + k) {
        if k < |a| { assert a[k] == (a + b)[k]; }
        else {
          assert b[k - |a|] == (a + b)[k];
          assert Mapped(raw, offset + |a| + (k - |a|));
        }
      }
    }
  }

  lemma OneLineFits(line: Tree, offset: nat, raw: Option<seq<int>>)
    ensures LinesFit([line], offset, raw) <==> (NeedsRaw(line) ==> Mapped(raw, offset))
  {
    assert [line][0] == line;
    if LinesFit([line], offset, raw) && NeedsRaw(line) { assert Mapped(raw, offset + 0); }
  }

  lemma {:induction false} FitsLineByLine(t: Tree, offset: nat, raw: Option<seq<int>>)
    ensures Fits(t, offset, raw) <==> LinesFit(Lines(t), offset, raw)
  {
    match t
    case Empty =>
    case Plain(_) => OneLineFits(t, offset, raw);
    case Controller(_, _) => OneLineFits(t, offset, raw);
    case Beside(a, b) =>
      FitsLineByLine(a, offset, raw);
      FitsLineByLine(b, offset + |Lines(a)|, raw);
      LinesFitJoin(Lines(a), Lines(b), offset, raw);
  }

  /** The input of a concat cell that a line of the cell belongs to. */
  lemma {:induction false} PortOfLine(d: Netlist, rank: map<string, nat>, x: string, from: nat, bound: nat, k: nat)
    returns (i: nat, j: nat)
    requires Sound(d, rank) && ExactNames(d) && PortsBelow(d, rank, x, bound) && from <= d.concat[x]
    requires k < |Lines(PortTrees(d, rank, x, from, bound))|
    ensures x in d.concat && i < d.concat[x] && Below(d, rank, Port(x, i), bound)
    ensures j < |Lines(NetTree(d, rank, d.pins[Port(x, i)]))|
    ensures LinesBefore(d, rank, x, i, bound) + j == LinesBefore(d, rank, x, from, bound) + k
    decreases d.concat[x] - from
  {
    hide Sound, ExactNames, NetTree, PortsBelow, NetDriver, Width, Lines;
    PortsAre(d, rank, x, bound);
    NoLines();
    PortsFrom(d, rank, x, from, bound);
    var first := NetTree(d, rank, d.pins[Port(x, from)]);
    LinesBeside(first, PortTrees(d, rank, x, from + 1, bound));
    WidthIsLines(d, rank, d.pins[Port(x, from)]);
    if k < |Lines(first)| { i, j := from, k; }
    else { i, j := PortOfLine(d, rank, x, from + 1, bound, k - |Lines(first)|); }
  }

  lemma NoLines()
    ensures Lines(Empty) == []
  {
  }

  /** Every line of a net is at the end of a way, at the way's position. */
  lemma {:induction false} LineHasWay(d: Netlist, rank: map<string, nat>, a: string, k: nat)
    returns (hops: seq<Hop>, b: string)
    requires Sound(d, rank) && ExactNames(d) && Known(d, a) && k < Width(d, rank, a)
    ensures Follows(d, a, hops, b) && !Concatenates(d, b) && Position(d, rank, a, hops, b) == k
    decreases Height(rank, a)
  {
    hide Sound, ExactNames, NetTree, PortTrees, PortsBelow, NetDriver, LinesBefore, Has, Lines;
    hops, b := [], a;
    WidthIsLines(d, rank, a);
    NotConcat(d, rank, a);
    if Concatenates(d, a) {
      var x := NetDriver(d, a).name;
      NetDriverIs(d, rank, a, x);
      ConcatBelow(d, rank, a, x);
      NetTreeIs(d, rank, a, 0, None);
      var bound := Height(rank, a);
      NoneBefore(d, rank, x, bound);
      var i, j := PortOfLine(d, rank, x, 0, bound, k);
      var next := d.pins[Port(x, i)];
      WidthIsLines(d, rank, next);
      var rest, end := LineHasWay(d, rank, next, j);
      hops, b := [Hop(x, i)] + rest, end;
      assert hops[1..] == rest;
    }
  }

  lemma NeedsRawIs(d: Netlist, rank: map<string, nat>, b: string)
    requires Sound(d, rank) && ExactNames(d) && Known(d, b) && !Concatenates(d, b)
    ensures NeedsRaw(NetTree(d, rank, b)) <==> exists p :: Has(d, b, p)
  {
    hide Sound, ExactNames, NetTree, NetDriver;
    NotConcat(d, rank, b);
    NetTreeIs(d, rank, b, 0, None);
    if NetDriver(d, b).Intc? { NetDriverIs(d, rank, b, NetDriver(d, b).name); }
    if NetDriver(d, b).Nobody? && PinsOf(d, b) != {} {
      var p :| p in PinsOf(d, b);
      assert Has(d, b, p);
    }
  }

  /** The parser has a raw interrupt for everything it records at an input exactly if every way from
      the input that ends at a connected net has a position in the input's map. */
  lemma FitsByNames(d: Netlist, rank: map<string, nat>, ps: string, irq: Input, a: string)
    requires Sound(d, rank) && ExactNames(d) && InputsKnown(d, ps, [irq]) && StartsAt(d, ps, irq, a) && Known(d, a)
    ensures InputFits(d, rank, ps, irq) <==>
      forall hops, b :: Follows(d, a, hops, b) && !Concatenates(d, b) && (exists p :: Has(d, b, p)) ==>
        Position(d, rank, a, hops, b) < |RawMap(irq.details)|
  {
    hide Sound, ExactNames, NetTree, Position, Follows, RawMap, Lines, Fits, Has, Concatenates;
    var t, raw := NetTree(d, rank, a), Some(RawMap(irq.details));
    FitsLineByLine(t, 0, raw);
    WidthIsLines(d, rank, a);
    if Fits(t, 0, raw) {
      forall hops, b | Follows(d, a, hops, b) && !Concatenates(d, b) && (exists p :: Has(d, b, p))
        ensures Position(d, rank, a, hops, b) < |RawMap(irq.details)|
      {
        LineAtPosition(d, rank, a, hops, b);
        NeedsRawIs(d, rank, b);
        assert Mapped(raw, 0 + Position(d, rank, a, hops, b));
      }
    } else {
      var k :| 0 <= k < |Lines(t)| && NeedsRaw(Lines(t)[k]) && !Mapped(raw, 0 + k);
      var hops, b := LineHasWay(d, rank, a, k);
      LineAtPosition(d, rank, a, hops, b);
      NeedsRawIs(d, rank, b);
    }
  }
}
