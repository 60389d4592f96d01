/** The walk itself, as the parser's methods that fill its two dictionaries. */
module InterruptWalk {
  import opened InterruptNets
  import opened InterruptTopology
  import opened InterruptWiring
  import opened Numbers
  import opened Wrappers

  import Registry = InterruptRegistry

  class HwhParser {
    const nets: map<string, set<string>>
    const pins: map<string, string>
    const concatCells: map<string, nat>
    const intcNames: set<string>
    var interruptPins: map<string, Pin>
    var interruptControllers: map<string, Entry>

    constructor (d: Netlist)
      ensures Design() == d && State() == Dicts(map[], map[])
    {
      nets, pins, concatCells, intcNames := d.nets, d.pins, d.concat, d.intc;
      interruptPins, interruptControllers := map[], map[];
    }

    ghost function Design(): Netlist {
      Netlist(nets, pins, concatCells, intcNames)
    }

    ghost function State(): Dicts
      reads this
    {
      Dicts(interruptPins, interruptControllers)
    }

    /** The first loop of _add_interrupt_pins: the net's driver, if one of its pins is one. */
    method FindDriver(net: string, ghost rank: map<string, nat>) returns (driver: Driver)
      requires Sound(Design(), rank) && Known(Design(), net)
      ensures driver == NetDriver(Design(), net)
      ensures ExactNames(Design()) ==> forall x ::
        && (driver == Concat(x) <==> x in concatCells && Has(Design(), net, x + "/dout"))
        && (driver == Intc(x) <==> x in intcNames && Has(Design(), net, x + "/irq"))
    {
      if ExactNames(Design()) {
        forall x { NetDriverIs(Design(), rank, net, x); }
      }
      var left := if net != "" then nets[net] else {};
      while left != {}
        invariant left <= PinsOf(Design(), net)
        invariant forall p :: p in PinsOf(Design(), net) - left ==> DriverOf(Design(), p) == Nobody
      {
        var p :| p in left;
        var m := Before(p, "/dout");
        if m.Some? && m.value in concatCells {
          DriverIs(Design(), rank, net, p);
          return Concat(m.value);
        }
        m := Before(p, "/irq");
        if m.Some? && m.value in intcNames {
          DriverIs(Design(), rank, net, p);
          return Intc(m.value);
        }
        left := left - {p};
      }
      driver := Nobody;
    }

    /** The second loop: every pin of a net without a driver is an interrupt pin.  Not ok is the
        index error of a line beyond the map of raw interrupts. */
    method AddPins(net: string, parent: string, offset: nat, raw: Option<seq<int>>) returns (ok: bool)
      requires Known(Design(), net)
      modifies this`interruptPins
      ensures ok <==> (PinsOf(Design(), net) != {} ==> Mapped(raw, offset))
      ensures var e := Registry.Entry(parent, offset, Raw(raw, offset));
        ok ==> interruptPins == old(interruptPins) + PinEntries(PinsOf(Design(), net), e)
    {
      hide PinEntries;
      ghost var e := Registry.Entry(parent, offset, Raw(raw, offset));
      NoEntries(interruptPins, e);
      var all := if net != "" then nets[net] else {};
      var left := all;
      ghost var done: set<string> := {};
      while left != {}
        invariant done + left == all && done !! left && (done != {} ==> Mapped(raw, offset))
        invariant interruptPins == old(interruptPins) + PinEntries(done, e)
      {
        var p :| p in left;
        EntriesAdd(old(interruptPins), done, p, e);
        interruptPins := interruptPins[p := Pin(p, Registry.Entry(parent, offset, None))];
        if raw.Some? {
          if offset >= |raw.value| { return false; }
          interruptPins := interruptPins[p := Pin(p, Registry.Entry(parent, offset, Some(raw.value[offset])))];
        }
        done := done + {p};
        left := left - {p};
      }
      assert done == all;
      ok := true;
    }

    /** A controller's entry, with its raw interrupt if it has one. */
    method RecordController(name: string, parent: string, offset: nat, raw: Option<seq<int>>) returns (ok: bool)
      modifies this`interruptControllers
      ensures ok <==> Mapped(raw, offset)
      ensures ok ==>
        interruptControllers == old(interruptControllers)[name := Registry.Entry(parent, offset, Raw(raw, offset))]
    {
      interruptControllers := interruptControllers[name := Registry.Entry(parent, offset, None)];
      if raw.Some? {
        if offset >= |raw.value| { return false; }
        interruptControllers := interruptControllers[name := Registry.Entry(parent, offset, Some(raw.value[offset]))];
      }
      ok := true;
    }

    /** Everything wired to a net, from number offset on; returns the next number, or nothing for
        the index error of a recorded line without a raw interrupt. */
    method AddInterruptPins(net: string, parent: string, offset: nat, raw: Option<seq<int>>,
          ghost rank: map<string, nat>)
      returns (next: Option<nat>)
      requires Sound(Design(), rank) && Known(Design(), net)
      modifies this
      ensures next.Some? <==> Fits(NetTree(Design(), rank, net), offset, raw)
      ensures next.Some? ==>
        && State() == After(old(State()), NetTree(Design(), rank, net), parent, offset, raw)
        && next.value == offset + |Lines(NetTree(Design(), rank, net))|
      decreases Height(rank, net)
    {
      hide Sound, NetTree, PortTrees, NetDriver, PortsBelow, DriverOf, Before, Fits, Lines, PinEntries;
      NetTreeIs(Design(), rank, net, offset, raw);
      var driver := FindDriver(net, rank);
      match driver
      case Concat(name) =>
        next := AddConcatPins(name, parent, offset, raw, rank, Height(rank, net));
      case Intc(name) =>
        var _ := AddInterruptPins(pins[name + "/intr"], name, 0, None, rank);
        var ok := RecordController(name, parent, offset, raw);
        next := if ok then Some(offset + 1) else None;
      case Nobody =>
        var ok := AddPins(net, parent, offset, raw);
        next := if ok then Some(offset + 1) else None;
    }

    /** The inputs of a concat cell one after the other. */
    method AddConcatPins(name: string, parent: string, offset: nat, raw: Option<seq<int>>,
          ghost rank: map<string, nat>, ghost bound: nat)
      returns (next: Option<nat>)
      requires Sound(Design(), rank) && PortsBelow(Design(), rank, name, bound)
      modifies this
      ensures next.Some? <==> Fits(PortTrees(Design(), rank, name, 0, bound), offset, raw)
      ensures next.Some? ==>
        && State() == After(old(State()), PortTrees(Design(), rank, name, 0, bound), parent, offset, raw)
        && next.value == offset + |Lines(PortTrees(Design(), rank, name, 0, bound))|
      decreases bound, 0
    {
      hide Sound, PortTrees, NetTree, PortsBelow, Fits, After, Lines;
      PortsAre(Design(), rank, name, bound);
      var numPorts := concatCells[name];
      var at: nat := offset;
      ghost var all := PortTrees(Design(), rank, name, 0, bound);
      for i := 0 to numPorts
        invariant Fits(PortTrees(Design(), rank, name, i, bound), at, raw) == Fits(all, offset, raw)
        invariant After(State(), PortTrees(Design(), rank, name, i, bound), parent, at, raw)
             == After(old(State()), all, parent, offset, raw)
        invariant at + |Lines(PortTrees(Design(), rank, name, i, bound))| == offset + |Lines(all)|
      {
        PortsFrom(Design(), rank, name, i, bound);
        BesideIs(State(), NetTree(Design(), rank, pins[Port(name, i)]), PortTrees(Design(), rank, name, i + 1, bound),
                 parent, at, raw);
        var r := AddInterruptPins(pins[Port(name, i)], parent, at, raw, rank);
        if r.None? { return None; }
        at := r.value;
      }
      EmptyIs(State(), parent, at, raw);
      next := Some(at);
    }

    /** One input of the processor, if it is connected. */
    method InitInput(ps: string, irq: Input, ghost rank: map<string, nat>) returns (ok: bool)
      requires Sound(Design(), rank) && InputsKnown(Design(), ps, [irq])
      modifies this
      ensures ok <==> InputFits(Design(), rank, ps, irq)
      ensures ok ==>
        State() == After(old(State()), InputTree(Design(), rank, ps, irq), "", 0, Some(RawMap(irq.details)))
    {
      hide Sound, NetTree, Fits, Lines, RawMap;
      assert [irq][0] == irq;
      ok := true;
      if InputPin(ps, irq) in pins {
        var rawMap := CreateIrqMap(irq.details);
        var next := AddInterruptPins(pins[InputPin(ps, irq)], "", 0, Some(rawMap), rank);
        ok := next.Some?;
      } else {
        EmptyIs(State(), "", 0, Some(RawMap(irq.details)));
      }
    }

    /** Every input of the processor; not ok if one of them has more recorded lines than raw interrupts. */
    method InitInterrupts(ps: string, family: seq<Input>, ghost rank: map<string, nat>) returns (ok: bool)
      requires Sound(Design(), rank) && InputsKnown(Design(), ps, family)
      modifies this
      ensures ok <==> InputsFit(Design(), rank, ps, family)
      ensures ok ==> State() == AfterInputs(old(State()), Design(), rank, ps, family)
      ensures ok && old(State()) == Dicts(map[], map[]) && ExactNames(Design()) ==>
        && (forall x :: x in interruptControllers <==> ControllerFound(Design(), ps, family, x))
        && (forall p :: p in interruptPins <==> PinFound(Design(), ps, family, p))
    {
      hide Sound, ExactNames, InputFits, After, InputTree, RawMap, ControllerFound, PinFound, InputPin, Known;
      if ExactNames(Design()) { FindsExactly(Design(), rank, ps, family); }
      for i := 0 to |family|
        invariant InputsKnown(Design(), ps, family[..i])
        invariant State() == AfterInputs(old(State()), Design(), rank, ps, family[..i])
        invariant forall j :: 0 <= j < i ==> InputFits(Design(), rank, ps, family[j])
      {
        InputsStep(old(State()), Design(), rank, ps, family, i);
        var fits := InitInput(ps, family[i], rank);
        if !fits { return false; }
      }
      assert family[..|family|] == family;
      ok := true;
    }
  }

  lemma InputsStep(s: Dicts, d: Netlist, rank: map<string, nat>, ps: string, family: seq<Input>, i: nat)
    requires Sound(d, rank) && InputsKnown(d, ps, family) && i < |family|
    ensures InputsKnown(d, ps, family[..i]) && InputsKnown(d, ps, family[..i + 1]) && InputsKnown(d, ps, [family[i]])
    ensures AfterInputs(s, d, rank, ps, family[..i + 1])
         == After(AfterInputs(s, d, rank, ps, family[..i]), InputTree(d, rank, ps, family[i]), "", 0,
                  Some(RawMap(family[i].details)))
  {
    hide Sound, After, InputTree, RawMap;
    assert family[..i + 1][..i] == family[..i];
  }
}
