/** What acknowledging means, told from the registers alone: a serviced controller's latch is left
    with the lines that were not pending, and what is registered on a cleared line afterwards waits
    there, whatever else happens, until the hardware latches that line again. */
module InterruptAcknowledge {
  import opened Interrupts
  import opened InterruptRuns
  import opened InterruptConservation

  /** A callback takes exactly the pending lines out of the latch of every controller it services,
      leaves every other latch alone, and switches no controller on or off. */
  lemma ServicedIsAcknowledged(s: Sys, u: UioController, c: Controller)
    requires Inv(s) && u in s.d && c in s.w && Known(s.w, s.d[u].events)
    ensures var r := CallbackResult(s, u);
      && c in r.w && r.w[c].services >= s.w[c].services && r.w[c].mer == s.w[c].mer
      && (r.w[c].services > s.w[c].services ==> r.w[c].isr == s.w[c].isr - s.w[c].isr * s.w[c].ier)
      && (r.w[c].services == s.w[c].services ==> r.w[c].isr == s.w[c].isr)
  {
    assert Placed(s.w, c);
  }

  // ---------------------------------------------------------------- a cleared line keeps its events

  /** Line i of c's wait lists. */
  ghost function Line(s: Sys, c: Controller, i: nat): seq<Event>
    requires Linked(s) && c in s.w && i < LINES
  {
    assert Placed(s.w, c);
    s.w[c].handles[i]
  }

  /** The operation does not set line i of c's latch. */
  ghost predicate Spares(op: Op, c: Controller, i: nat) {
    op.Latch? && op.ctrl == c ==> i !in op.lines
  }

  ghost predicate Spared(ops: seq<Op>, c: Controller, i: nat) {
    forall op :: op in ops ==> Spares(op, c, i)
  }

  lemma {:induction false} AddEvGrows(s: Sys, t: Parent, e: Event, n: nat, c: Controller, i: nat)
    requires Linked(s) && Fits(s, t, e, n) && c in s.w && i < LINES
    ensures var r := AddEv(s, t, e, n); r.w[c].isr == s.w[c].isr && Line(s, c, i) <= Line(r, c, i)
    ensures t == Node(c) && n == i ==> Line(AddEv(s, t, e, n), c, i) == Line(s, c, i) + [e]
    decreases Depth(t)
  {
    assert Placed(s.w, c);
    if t.Node? {
      var p := t.ctrl;
      assert Placed(s.w, p);
      if s.w[p].count == 0 { AddEvGrows(s, p.parent, Child(p), p.number, c, i); }
    }
  }

  /** While line i of c is not latched, no step but a latch takes an event off it. */
  lemma StepKeepsLine(s: Sys, op: Op, c: Controller, i: nat)
    requires Inv(s) && OpOk(s, op) && c in s.w && i < LINES
    requires i !in s.w[c].isr && Spares(op, c, i)
    ensures var r := Apply(s, op); i !in r.w[c].isr && Line(s, c, i) <= Line(r, c, i)
  {
    assert Placed(s.w, c);
    match op
    case Register(t, l, n) => AddEvGrows(s, t, Leaf(l), n, c, i);
    case Interrupt(u) =>
      assert DeviceOk(s, u);
      OncePerCallback(s, u, c);
      ServicedIsAcknowledged(s, u, c);
    case Latch(_, _) =>
  }

  // ---------------------------------------------------------------- ... and delivers none of them

  lemma {:induction false} LeavesWait(w: World, es: seq<Event>)
    requires Shape(w) && Known(w, es)
    ensures LeavesOf(es) <= Waiting(w, es)
  {
    if es != [] { LeavesWait(w, es[..|es| - 1]); }
  }

  lemma {:induction false} MemberWaits(w: World, es: seq<Event>, e: Event)
    requires Shape(w) && Known(w, es) && e in es
    ensures Known(w, [e]) && Waiting(w, [e]) <= Waiting(w, es)
  {
    var pre, last := es[..|es| - 1], es[|es| - 1];
    assert es == pre + [last];
    WaitingOne(w, pre, last);
    if e != last { MemberWaits(w, pre, e); }
  }

  lemma {:induction false} LineBelow(w: World, c: Controller, i: nat, k: nat)
    requires Shape(w) && c in w && i < k <= LINES
    ensures assert Placed(w, c) && ChildrenAt(w, c, i);
      Waiting(w, w[c].handles[i]) <= Waiting(w, EventsUpTo(w, c, k))
    decreases k
  {
    hide *;
    LineIs(w, c, i);
    LineIs(w, c, k - 1);
    WaitingLine(w, c, k - 1);
    if i < k - 1 {
      LineBelow(w, c, i, k - 1);
    }
    PartOfSum(Waiting(w, w[c].handles[i]), Waiting(w, EventsUpTo(w, c, k - 1)), Waiting(w, w[c].handles[k - 1]));
  }

  lemma LineIs(w: World, c: Controller, i: nat)
    requires Shape(w) && c in w && i < LINES
    ensures Placed(w, c) && ChildrenAt(w, c, i) && |w[c].handles| == LINES && Known(w, w[c].handles[i])
    ensures Known(w, EventsUpTo(w, c, i))
  {
    assert Placed(w, c);
  }

  lemma PartOfSum(m: multiset<nat>, a: multiset<nat>, b: multiset<nat>)
    requires m <= a || m == b
    ensures m <= a + b
  {
  }

  lemma {:induction false} ChildWaits(s: Sys, u: UioController, c: Controller)
    requires Inv(s) && u in s.d && c in s.w && Tops(u, Node(c)) && Chained(s, c)
    ensures Known(s.w, s.d[u].events)
    ensures Waiting(s.w, [Child(c)]) <= Waiting(s.w, s.d[u].events)
    decreases c.depth
  {
    assert Placed(s.w, c) && DeviceOk(s, u);
    match c.parent
    case Root(v) => MemberWaits(s.w, s.d[u].events, Child(c));
    case Node(p) =>
      assert Placed(s.w, p) && ChildrenAt(s.w, p, c.number);
      MemberWaits(s.w, s.w[p].handles[c.number], Child(c));
      LineBelow(s.w, p, c.number, LINES);
      WaitingChild(s.w, p);
      ChildWaits(s, u, p);
  }

  /** The leaves on a line are among what waits below the line's device. */
  lemma LineWaits(s: Sys, u: UioController, c: Controller, i: nat)
    requires Inv(s) && u in s.d && c in s.w && i < LINES && Tops(u, Node(c))
    ensures Known(s.w, s.d[u].events)
    ensures LeavesOf(Line(s, c, i)) <= Waiting(s.w, s.d[u].events)
  {
    assert Placed(s.w, c) && ChildrenAt(s.w, c, i) && DeviceOk(s, u) && Tidy(s.w[c]);
    if Line(s, c, i) != [] {
      TotalZero(s.w[c].handles);
      assert Registered(s, c);
      RegisteredIsChained(s, Leaf(0), c);
      LeavesWait(s.w, Line(s, c, i));
      LineBelow(s.w, c, i, LINES);
      WaitingChild(s.w, c);
      ChildWaits(s, u, c);
    }
  }

  // ---------------------------------------------------------------- counting one leaf

  /** How often the leaf has been delivered, waits below u, and waits on line i of c. */
  ghost function Times(s: Sys, u: UioController, leaf: nat): nat
    requires u in s.d
  {
    multiset(s.d[u].delivered)[leaf]
  }

  ghost function Waits(s: Sys, u: UioController, leaf: nat): nat
    requires Inv(s) && u in s.d
  {
    assert DeviceOk(s, u);
    Waiting(s.w, s.d[u].events)[leaf]
  }

  ghost function OnLine(s: Sys, c: Controller, i: nat, leaf: nat): nat
    requires Linked(s) && c in s.w && i < LINES
  {
    LeavesOf(Line(s, c, i))[leaf]
  }

  /** The operation registers the leaf nowhere but on line i of c. */
  ghost predicate Here(op: Op, c: Controller, i: nat, leaf: nat) {
    op.Register? && op.leaf == leaf ==> op.target == Node(c) && op.line == i
  }

  ghost predicate AllHere(ops: seq<Op>, c: Controller, i: nat, leaf: nat) {
    forall op :: op in ops ==> Here(op, c, i, leaf)
  }

  ghost function One(op: Op, leaf: nat): nat {
    if op.Register? && op.leaf == leaf then 1 else 0
  }

  lemma StepTimes(s: Sys, op: Op, u: UioController, leaf: nat)
    requires Inv(s) && OpOk(s, op) && u in s.d
    ensures Times(s, u, leaf) <= Times(Apply(s, op), u, leaf)
  {
    match op
    case Register(t, l, n) => AddEvDelivers(s, t, Leaf(l), n, u);
    case Interrupt(_) =>
    case Latch(_, _) =>
  }

  lemma {:induction false} AddEvDelivers(s: Sys, t: Parent, e: Event, n: nat, u: UioController)
    requires Linked(s) && Fits(s, t, e, n) && u in s.d
    ensures AddEv(s, t, e, n).d[u].delivered == s.d[u].delivered
    decreases Depth(t)
  {
    if t.Node? {
      assert Placed(s.w, t.ctrl);
      if s.w[t.ctrl].count == 0 { AddEvDelivers(s, t.ctrl.parent, Child(t.ctrl), t.ctrl.number, u); }
    }
  }

  lemma StepSum(s: Sys, op: Op, u: UioController, c: Controller, i: nat, leaf: nat)
    requires Inv(s) && OpOk(s, op) && u in s.d && Tops(u, Node(c)) && Here(op, c, i, leaf)
    ensures var r := Apply(s, op);
      Times(r, u, leaf) + Waits(r, u, leaf) == Times(s, u, leaf) + Waits(s, u, leaf) + One(op, leaf)
  {
    hide Waiting, Tops, Inv, Apply;
    StepConserves(s, op, u);
    AccountedAt(s, u, leaf);
    AccountedAt(Apply(s, op), u, leaf);
  }

  lemma AccountedAt(s: Sys, u: UioController, leaf: nat)
    requires Inv(s) && u in s.d
    ensures Accounted(s, u)[leaf] == Times(s, u, leaf) + Waits(s, u, leaf)
  {
  }

  lemma {:induction false} LeavesGrow(a: seq<Event>, b: seq<Event>)
    requires a <= b
    ensures LeavesOf(a) <= LeavesOf(b)
    decreases |b|
  {
    if a != b { LeavesGrow(a, b[..|b| - 1]); }
  }

  lemma StepOnLine(s: Sys, op: Op, c: Controller, i: nat, leaf: nat)
    requires Inv(s) && OpOk(s, op) && c in s.w && i < LINES && i !in s.w[c].isr
    requires Spares(op, c, i) && Here(op, c, i, leaf)
    ensures OnLine(s, c, i, leaf) + One(op, leaf) <= OnLine(Apply(s, op), c, i, leaf)
  {
    StepKeepsLine(s, op, c, i);
    LeavesGrow(Line(s, c, i), Line(Apply(s, op), c, i));
    if One(op, leaf) == 1 {
      AddEvGrows(s, op.target, Leaf(leaf), op.line, c, i);
      LeafLast(Line(s, c, i), leaf);
    }
  }

  lemma LeafLast(es: seq<Event>, leaf: nat)
    ensures LeavesOf(es + [Leaf(leaf)]) == LeavesOf(es) + multiset{leaf}
  {
    assert (es + [Leaf(leaf)])[..|es|] == es;
  }

  /** Below u the leaf waits on line i of c only, and that line is not latched. */
  ghost predicate Quiet(s: Sys, u: UioController, c: Controller, i: nat, leaf: nat) {
    && Inv(s) && u in s.d && c in s.w && i < LINES && Tops(u, Node(c))
    && i !in s.w[c].isr && Waits(s, u, leaf) == OnLine(s, c, i, leaf)
  }

  /** One step that does not latch the line: the leaf is not delivered and still waits there only. */
  lemma StepQuiet(s: Sys, op: Op, u: UioController, c: Controller, i: nat, leaf: nat)
    requires Quiet(s, u, c, i, leaf) && OpOk(s, op) && Spares(op, c, i) && Here(op, c, i, leaf)
    ensures var r := Apply(s, op);
      && Quiet(r, u, c, i, leaf) && Times(r, u, leaf) == Times(s, u, leaf)
      && OnLine(r, c, i, leaf) == OnLine(s, c, i, leaf) + One(op, leaf)
  {
    hide Waits, OnLine, Times, One, Inv, Apply, Spares, Here, Tops;
    QuietInv(s, u, c, i, leaf);
    var r := Apply(s, op);
    StepKeepsLine(s, op, c, i);
    StepOnLine(s, op, c, i, leaf);
    StepTimes(s, op, u, leaf);
    StepSum(s, op, u, c, i, leaf);
    LineWaits(r, u, c, i);
    LineWaitsAt(r, u, c, i, leaf);
  }

  lemma QuietInv(s: Sys, u: UioController, c: Controller, i: nat, leaf: nat)
    requires Quiet(s, u, c, i, leaf)
    ensures Linked(s)
  {
  }

  lemma LineWaitsAt(s: Sys, u: UioController, c: Controller, i: nat, leaf: nat)
    requires Inv(s) && u in s.d && c in s.w && i < LINES && Tops(u, Node(c))
    ensures Linked(s) && OnLine(s, c, i, leaf) <= Waits(s, u, leaf)
  {
    LineWaits(s, u, c, i);
  }

  /** How often a run registers the leaf. */
  ghost function Asked(ops: seq<Op>, leaf: nat): nat {
    if ops == [] then 0 else Asked(ops[..|ops| - 1], leaf) + One(ops[|ops| - 1], leaf)
  }

  /** Over any run that does not latch the line: no interrupt delivers the leaf, and every
      registration of it is still on the line. */
  lemma {:induction false} RunQuiet(s: Sys, ops: seq<Op>, u: UioController, c: Controller, i: nat, leaf: nat)
    requires Quiet(s, u, c, i, leaf) && forall op :: op in ops ==> OpOk(s, op)
    requires Spared(ops, c, i) && AllHere(ops, c, i, leaf)
    ensures var r := Run(s, ops);
      && Quiet(r, u, c, i, leaf) && Times(r, u, leaf) == Times(s, u, leaf)
      && OnLine(r, c, i, leaf) == OnLine(s, c, i, leaf) + Asked(ops, leaf)
  {
    hide Quiet, OnLine, Times, One, Inv, Apply, Spares, Here;
    QuietIs(s, u, c, i, leaf);
    if ops != [] {
      var pre, op := ops[..|ops| - 1], ops[|ops| - 1];
      RunQuiet(s, pre, u, c, i, leaf);
      OpOkSame(s, Run(s, pre), op);
      StepQuiet(Run(s, pre), op, u, c, i, leaf);
    }
  }

  lemma QuietIs(s: Sys, u: UioController, c: Controller, i: nat, leaf: nat)
    requires Quiet(s, u, c, i, leaf)
    ensures Inv(s) && Linked(s) && u in s.d && c in s.w && i < LINES
  {
  }

  /** A pass has serviced a pending line; then a leaf that waits nowhere below the device is
      registered on it, any number of times.  No later interrupt delivers it, whatever other lines
      and devices do and whoever registers what, until the hardware latches that line again: all
      its registrations are still on the line. */
  lemma QuietUntilLatched(s: Sys, u: UioController, v: UioController, c: Controller, i: nat, ops: seq<Op>, leaf: nat)
    requires Inv(s) && u in s.d && v in s.d && c in s.w && i < LINES && Tops(v, Node(c))
    requires i in s.w[c].isr && i in s.w[c].ier
    requires Apply(s, Interrupt(u)).w[c].services > s.w[c].services
    requires Waits(Apply(s, Interrupt(u)), v, leaf) == 0
    requires forall op :: op in ops ==> OpOk(Apply(s, Interrupt(u)), op)
    requires Spared(ops, c, i) && AllHere(ops, c, i, leaf)
    ensures var r := Apply(s, Interrupt(u)); var e := Run(r, ops);
      && Times(e, v, leaf) == Times(r, v, leaf)
      && i < |e.w[c].handles| && LeavesOf(e.w[c].handles[i])[leaf] == Asked(ops, leaf)
  {
    var r := Apply(s, Interrupt(u));
    assert DeviceOk(s, u);
    ServicedIsAcknowledged(s, u, c);
    LineWaitsAt(r, v, c, i, leaf);
    RunQuiet(r, ops, v, c, i, leaf);
    assert Placed(Run(r, ops).w, c);
  }
}
