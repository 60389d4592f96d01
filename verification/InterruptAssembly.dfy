/** The dictionaries the topology walk produces are ones the controller registry can open: every
    controller has a chain of parents that ends at a raw interrupt. */
module InterruptAssembly {
  import opened InterruptNets
  import opened Interrupts
  import opened Wrappers

  import Registry = InterruptRegistry
  import T = InterruptTopology

  /** How deep every controller lies. */
  ghost function Depths(t: T.Tree, depth: nat): map<string, nat> {
    match t
    case Empty => map[]
    case Beside(a, b) => Depths(a, depth) + Depths(b, depth)
    case Plain(_) => map[]
    case Controller(name, inside) => Depths(inside, depth + 1)[name := depth]
  }

  ghost function Levels(t: T.Tree): nat {
    match t
    case Empty => 0
    case Beside(a, b) => if Levels(a) < Levels(b) then Levels(b) else Levels(a)
    case Plain(_) => 0
    case Controller(_, inside) => Levels(inside) + 1
  }

  lemma {:induction false} DepthsBounded(t: T.Tree, depth: nat)
    ensures Depths(t, depth).Keys == T.Names(t)
    ensures forall n :: n in Depths(t, depth) ==> depth <= Depths(t, depth)[n] < depth + Levels(t)
  {
    match t
    case Beside(a, b) => DepthsBounded(a, depth); DepthsBounded(b, depth);
    case Controller(_, inside) => DepthsBounded(inside, depth + 1);
    case Empty =>
    case Plain(_) =>
  }

  /** Every controller has at most as many lines as its registers have bits. */
  predicate Narrow(t: T.Tree) {
    match t
    case Empty => true
    case Beside(a, b) => Narrow(a) && Narrow(b)
    case Plain(_) => true
    case Controller(_, inside) => |T.Lines(inside)| <= LINES && Narrow(inside)
  }

  /** The entry of controller n: wired to parent itself, or to a controller above it in the same input. */
  ghost predicate Hung(e: Registry.Entry, n: string, depths: map<string, nat>, parent: string) {
    && n in depths && e.index < LINES
    && (e.parent == parent || (e.parent in depths && depths[e.parent] < depths[n]))
  }

  ghost predicate AllHung(cs: map<string, Registry.Entry>, t: T.Tree, parent: string, depth: nat) {
    forall n :: n in T.Names(t) ==> n in cs && Hung(cs[n], n, Depths(t, depth), parent)
  }

  lemma {:induction false} WalkHangs(s: T.Dicts, t: T.Tree, parent: string, offset: nat, raw: Option<seq<int>>,
        depth: nat)
    requires T.Once(t) && Narrow(t) && T.Fits(t, offset, raw)
    requires match raw case Some(r) => |r| <= LINES case None => offset + |T.Lines(t)| <= LINES
    ensures AllHung(T.After(s, t, parent, offset, raw).controllers, t, parent, depth)
    decreases t
  {
    match t
    case Empty =>
    case Plain(_) =>
    case Beside(a, b) =>
      var mid, next := T.After(s, a, parent, offset, raw), offset + |T.Lines(a)|;
      WalkHangs(s, a, parent, offset, raw, depth);
      WalkHangs(mid, b, parent, next, raw, depth);
      T.WalkAdds(mid, b, parent, next, raw);
      BothHang(mid.controllers, T.After(mid, b, parent, next, raw).controllers, a, b, parent, depth);
    case Controller(name, inside) =>
      T.FitsInside(inside, 0);
      WalkHangs(s, inside, name, 0, None, depth + 1);
      OneHangs(T.After(s, inside, name, 0, None).controllers, name, inside,
               Registry.Entry(parent, offset, T.Raw(raw, offset)), parent, depth);
  }

  lemma BothHang(before: map<string, Registry.Entry>, after: map<string, Registry.Entry>, a: T.Tree, b: T.Tree,
        parent: string, depth: nat)
    requires T.Apart(a, b) && AllHung(before, a, parent, depth) && AllHung(after, b, parent, depth)
    requires forall n :: n in before && n !in T.Names(b) ==> n in after && after[n] == before[n]
    ensures AllHung(after, T.Beside(a, b), parent, depth)
  {
    DepthsBounded(a, depth);
    DepthsBounded(b, depth);
  }

  lemma OneHangs(cs: map<string, Registry.Entry>, name: string, inside: T.Tree, e: Registry.Entry, parent: string,
        depth: nat)
    requires AllHung(cs, inside, name, depth + 1) && name !in T.Names(inside) && e.parent == parent && e.index < LINES
    ensures AllHung(cs[name := e], T.Controller(name, inside), parent, depth)
  {
    DepthsBounded(inside, depth + 1);
  }

  ghost predicate SmallMaps(family: seq<T.Input>) {
    forall i :: 0 <= i < |family| ==> |T.RawMap(family[i].details)| <= LINES
  }

  lemma {:induction false} InputsHang(d: Netlist, rank: map<string, nat>, ps: string, family: seq<T.Input>)
    requires T.Sound(d, rank) && T.InputsKnown(d, ps, family) && T.InputsFit(d, rank, ps, family) && SmallMaps(family)
    requires var all := T.AllInputs(d, rank, ps, family); T.Once(all) && Narrow(all)
    ensures var cs := T.AfterInputs(T.Dicts(map[], map[]), d, rank, ps, family).controllers;
      cs.Keys == T.Names(T.AllInputs(d, rank, ps, family)) && AllHung(cs, T.AllInputs(d, rank, ps, family), "", 0)
  {
    if family != [] {
      var n := |family| - 1;
      var front := family[..n];
      forall i | 0 <= i < n ensures T.InputFits(d, rank, ps, front[i]) { assert T.InputFits(d, rank, ps, family[i]); }
      InputsHang(d, rank, ps, front);
      assert T.InputFits(d, rank, ps, family[n]);
      var before, last := T.AfterInputs(T.Dicts(map[], map[]), d, rank, ps, front), T.InputTree(d, rank, ps, family[n]);
      var raw := Some(T.RawMap(family[n].details));
      WalkHangs(before, last, "", 0, raw, 0);
      T.WalkAdds(before, last, "", 0, raw);
      DepthsBounded(last, 0);
      DepthsBounded(T.AllInputs(d, rank, ps, front), 0);
    }
  }

  /** The loaded design agrees with the walk, its controllers are listed IP, and the operating
      system has a device for every raw interrupt a controller is on. */
  ghost predicate Loaded(pl: Registry.Design, cs: map<string, Registry.Entry>) {
    && pl.controllers == cs && cs.Keys <= pl.ip
    && forall n :: n in cs && cs[n].rawIrq.Some? ==> cs[n].rawIrq.value in pl.uio
  }

  /** Whatever design the walk is given, each controller it records can be opened. */
  lemma EveryControllerResolves(d: Netlist, rank: map<string, nat>, ps: string, family: seq<T.Input>,
        pl: Registry.Design)
    requires T.Sound(d, rank) && T.InputsKnown(d, ps, family) && T.InputsFit(d, rank, ps, family) && SmallMaps(family)
    requires var all := T.AllInputs(d, rank, ps, family); T.Once(all) && Narrow(all) && "" !in T.Names(all)
    requires Loaded(pl, T.AfterInputs(T.Dicts(map[], map[]), d, rank, ps, family).controllers)
    ensures exists order, top ::
      Registry.Ranked(pl, order, top) && forall n :: n in pl.controllers ==> Registry.Resolves(pl, order, top, n)
  {
    var all := T.AllInputs(d, rank, ps, family);
    var order, top := Depths(all, 0), Levels(all);
    DepthsBounded(all, 0);
    InputsHang(d, rank, ps, family);
    T.InputsRawAtTop(T.Dicts(map[], map[]), d, rank, ps, family);
    assert Registry.Ranked(pl, order, top);
    forall n | n in pl.controllers ensures Registry.Resolves(pl, order, top, n) {
      ClimbResolves(pl, order, top, n);
    }
  }

  lemma {:induction false} ClimbResolves(pl: Registry.Design, order: map<string, nat>, top: nat, n: string)
    requires Registry.Ranked(pl, order, top) && Loaded(pl, pl.controllers) && n in pl.controllers
    requires forall m :: m in pl.controllers ==> (pl.controllers[m].parent == "" || pl.controllers[m].parent in order)
    requires forall m :: m in pl.controllers && pl.controllers[m].parent == "" ==> pl.controllers[m].rawIrq.Some?
    ensures Registry.Resolves(pl, order, top, n)
    decreases order[n]
  {
    var e := pl.controllers[n];
    if e.parent != "" { ClimbResolves(pl, order, top, e.parent); }
  }

  /** The recorded entry of a pin: without a parent, or on a line of a recorded controller. */
  lemma PinHangs(d: Netlist, rank: map<string, nat>, ps: string, family: seq<T.Input>, p: string)
    requires T.Sound(d, rank) && T.InputsKnown(d, ps, family) && T.Once(T.AllInputs(d, rank, ps, family))
    requires p in T.AfterInputs(T.Dicts(map[], map[]), d, rank, ps, family).pins
    ensures var e := T.AfterInputs(T.Dicts(map[], map[]), d, rank, ps, family).pins[p].at;
      e.parent == "" || e.parent in T.Names(T.AllInputs(d, rank, ps, family))
  {
    var s := T.Dicts(map[], map[]);
    var r := T.AfterInputs(s, d, rank, ps, family);
    T.InputsAdd(s, d, rank, ps, family);
    var i := T.PinHasInput(d, rank, ps, family, p);
    var t, raw := T.InputTree(d, rank, ps, family[i]), Some(T.RawMap(family[i].details));
    T.InputsNumber(s, d, rank, ps, family, i);
    T.InputInside(d, rank, ps, family, i);
    T.PinHasLine(t, p);
    if k: nat :| T.PinOnLine(t, k, p) {
      assert T.Recorded(r, T.Lines(t)[k], Registry.Entry("", 0 + k, T.Raw(raw, 0 + k)));
    } else {
      var owner, u, k: nat :| T.Under(t, owner, u) && T.PinOnLine(u, k, p);
      T.UnderInside(t, owner, u);
      assert T.Recorded(r, T.Lines(u)[k], Registry.Entry(owner, 0 + k, T.Raw(None, 0 + k)));
    }
  }

  /** And each pin it records can be attached, wherever its controllers can be opened. */
  lemma EveryPinLeads(d: Netlist, rank: map<string, nat>, ps: string, family: seq<T.Input>, pl: Registry.Design,
                      order: map<string, nat>, top: nat, p: string)
    requires T.Sound(d, rank) && T.InputsKnown(d, ps, family) && T.InputsFit(d, rank, ps, family)
    requires var all := T.AllInputs(d, rank, ps, family); T.Once(all) && "" !in T.Names(all)
    requires p in T.AfterInputs(T.Dicts(map[], map[]), d, rank, ps, family).pins
    requires Registry.Ranked(pl, order, top) && pl.controllers.Keys == T.Names(T.AllInputs(d, rank, ps, family))
    requires forall n :: n in pl.controllers ==> Registry.Resolves(pl, order, top, n)
    requires var raw := T.AfterInputs(T.Dicts(map[], map[]), d, rank, ps, family).pins[p].at.rawIrq;
      raw.Some? ==> raw.value in pl.uio
    ensures Registry.Leads(pl, order, top, T.AfterInputs(T.Dicts(map[], map[]), d, rank, ps, family).pins[p].at)
  {
    PinHangs(d, rank, ps, family, p);
    T.InputsRawAtTop(T.Dicts(map[], map[]), d, rank, ps, family);
  }
}
