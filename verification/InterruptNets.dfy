/** A design as its nets, and what is wired to what in it by the names of the pins alone: a concat
    cell x has the output x/dout and the inputs x/In0, x/In1, ...; an interrupt controller x has the
    output x/irq and the input x/intr. */
module InterruptNets {
  import opened Numbers

  /** The nets by name with their pins, every pin's net, the concat cells with their number of
      inputs, and the interrupt controllers. */
  datatype Netlist = Netlist(nets: map<string, set<string>>, pins: map<string, string>, concat: map<string, nat>,
      intc: set<string>)

  /** The pin is on the net; the empty name is no net. */
  predicate Has(d: Netlist, net: string, pin: string) {
    net != "" && net in d.nets && pin in d.nets[net]
  }

  predicate WiredTo(d: Netlist, pin: string, net: string) {
    pin in d.pins && d.pins[pin] == net
  }

  /** Behind net a, driven by the concat cell x, is the net of its i-th input. */
  predicate BehindConcat(d: Netlist, a: string, b: string, x: string, i: nat) {
    x in d.concat && i < d.concat[x] && Has(d, a, x + "/dout") && WiredTo(d, x + "/In" + Str(i), b)
  }

  /** Behind net a, driven by the controller x, is the net of its interrupt input. */
  predicate BehindIntc(d: Netlist, a: string, b: string, x: string) {
    x in d.intc && Has(d, a, x + "/irq") && WiredTo(d, x + "/intr", b)
  }

  ghost predicate Behind(d: Netlist, a: string, b: string) {
    (exists x, i: nat :: BehindConcat(d, a, b, x, i)) || (exists x :: BehindIntc(d, a, b, x))
  }

  ghost predicate Path(d: Netlist, nets: seq<string>) {
    nets != [] && forall j :: 0 <= j < |nets| - 1 ==> Behind(d, nets[j], nets[j + 1])
  }

  /** Net b is behind net a, any number of cells away. */
  ghost predicate LeadsTo(d: Netlist, a: string, b: string) {
    exists nets :: Path(d, nets) && nets[0] == a && nets[|nets| - 1] == b
  }

  /** No cell drives the net: it ends at the pins of other cores. */
  predicate Ends(d: Netlist, net: string) {
    (forall x :: x in d.concat ==> !Has(d, net, x + "/dout")) && (forall x :: x in d.intc ==> !Has(d, net, x + "/irq"))
  }

  /** The walk takes a pin whose name starts with x/dout or x/irq for the output of the cell x.  In a
      design with exact names no other pin's name does. */
  predicate ExactNames(d: Netlist) {
    forall net, p :: net in d.nets && p in d.nets[net] ==> ExactName(d, p)
  }

  predicate ExactName(d: Netlist, p: string) {
    && (forall x :: x in d.concat && x + "/dout" <= p ==> p == x + "/dout")
    && (forall x :: x in d.intc && x + "/irq" <= p ==> p == x + "/irq")
  }

  lemma LeadsToSelf(d: Netlist, a: string)
    ensures LeadsTo(d, a, a)
  {
    assert Path(d, [a]);
  }

  lemma LeadsOn(d: Netlist, a: string, b: string, c: string)
    requires Behind(d, a, b) && LeadsTo(d, b, c)
    ensures LeadsTo(d, a, c)
  {
    var nets :| Path(d, nets) && nets[0] == b && nets[|nets| - 1] == c;
    var longer := [a] + nets;
    forall j | 0 <= j < |longer| - 1 ensures Behind(d, longer[j], longer[j + 1]) {
      if j > 0 { assert longer[j] == nets[j - 1]; }
    }
    assert Path(d, longer);
  }
}
