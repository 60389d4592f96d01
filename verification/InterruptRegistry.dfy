/** Building the controller objects on demand from the design's dictionaries: one object
    per controller name, one UIO device per raw interrupt, parents before children. */
module InterruptRegistry {
  import opened Interrupts
  import opened InterruptRuns
  import opened Wrappers

  /** An entry of interrupt_controllers or interrupt_pins. */
  datatype Entry = Entry(parent: string, index: nat, rawIrq: Option<int>)

  /** The loaded design: its interrupt controllers, the IP it lists, and the raw interrupts
      the operating system exposes as UIO devices. */
  datatype Design = Design(controllers: map<string, Entry>, ip: set<string>, uio: set<int>)

  datatype Error = KeyError | NoUioDevice

  /** A position for every controller name below its parent's; it exists iff the parent relation is acyclic. */
  ghost predicate Ranked(pl: Design, rank: map<string, nat>, top: nat) {
    && rank.Keys == pl.controllers.Keys
    && (forall n :: n in rank ==> rank[n] <= top)
    && (forall n :: n in rank && pl.controllers[n].parent in rank ==> rank[pl.controllers[n].parent] < rank[n])
    && (forall n :: n in rank ==> pl.controllers[n].index < LINES)
    && "" !in rank
  }

  ghost function Position(rank: map<string, nat>, name: string): nat {
    if name in rank then rank[name] + 1 else 0
  }

  /** The chain of parents from an entry ends at a raw interrupt with a UIO device. */
  ghost predicate Leads(pl: Design, rank: map<string, nat>, top: nat, e: Entry)
    requires Ranked(pl, rank, top)
    decreases Position(rank, e.parent), 1
  {
    if e.parent == "" then e.rawIrq.Some? && e.rawIrq.value in pl.uio
    else Resolves(pl, rank, top, e.parent)
  }

  ghost predicate Resolves(pl: Design, rank: map<string, nat>, top: nat, name: string)
    requires Ranked(pl, rank, top)
    decreases Position(rank, name), 0
  {
    name in pl.ip && name in rank && Leads(pl, rank, top, pl.controllers[name])
  }

  type Cache = seq<Controller>
  type Devices = map<int, UioController>

  /** p is where an entry says it is attached. */
  ghost predicate Attached(cs: Cache, ds: Devices, e: Entry, p: Parent, number: nat) {
    if e.parent == "" then
      e.rawIrq.Some? && e.rawIrq.value in ds && p == Root(ds[e.rawIrq.value]) && number == 0
    else
      p.Node? && p.ctrl in cs && p.ctrl.name == e.parent && number == e.index
  }

  ghost predicate Cached(pl: Design, rank: map<string, nat>, top: nat, cs: Cache, ds: Devices, c: Controller)
    requires Ranked(pl, rank, top)
  {
    && Resolves(pl, rank, top, c.name)
    && Attached(cs, ds, pl.controllers[c.name], c.parent, c.number)
    && c.depth == rank[c.name] && c.height == top - rank[c.name]
  }

  /** The object graph mirrors the name graph: one object per name, attached to the one object
      of its parent name or the one device of its raw interrupt. */
  ghost predicate Mirror(pl: Design, rank: map<string, nat>, top: nat, cs: Cache, ds: Devices) {
    && Ranked(pl, rank, top)
    && (forall c, c' :: c in cs && c' in cs && c.name == c'.name ==> c == c')
    && (forall c :: c in cs ==> Cached(pl, rank, top, cs, ds, c))
    && (forall raw :: raw in ds ==> raw in pl.uio)
    && (forall a, b :: a in ds && b in ds && ds[a] == ds[b] ==> a == b)
  }

  ghost predicate Valid(sys: System, pl: Design, rank: map<string, nat>, top: nat)
    reads sys, sys.All(), sys.Devices()
  {
    Mirror(pl, rank, top, sys.controllers, sys.devices) && Inv(sys.State())
  }

  /** Nothing cached is dropped or replaced; what is new is at most as deep as a given position. */
  ghost predicate Grown(rank: map<string, nat>, cs: Cache, ds: Devices, cs': Cache, ds': Devices, depth: nat) {
    && cs <= cs'
    && (forall raw :: raw in ds ==> raw in ds' && ds'[raw] == ds[raw])
    && (forall c :: c in cs' && c !in cs ==> Position(rank, c.name) <= depth)
  }

  lemma MirrorAppend(pl: Design, rank: map<string, nat>, top: nat, cs: Cache, ds: Devices, c: Controller)
    requires Mirror(pl, rank, top, cs, ds) && Cached(pl, rank, top, cs, ds, c)
    requires forall c' :: c' in cs ==> c'.name != c.name
    ensures Mirror(pl, rank, top, cs + [c], ds)
  {
    forall c' | c' in cs + [c] ensures Cached(pl, rank, top, cs + [c], ds, c') {
      assert Cached(pl, rank, top, cs, ds, c');
    }
  }

  lemma MirrorDevice(pl: Design, rank: map<string, nat>, top: nat, cs: Cache, ds: Devices, raw: int, u: UioController)
    requires Mirror(pl, rank, top, cs, ds) && raw in pl.uio && raw !in ds && u !in ds.Values
    ensures Mirror(pl, rank, top, cs, ds[raw := u])
  {
    forall c | c in cs ensures Cached(pl, rank, top, cs, ds[raw := u], c) { assert Cached(pl, rank, top, cs, ds, c); }
  }

  lemma FreshController(s: Sys, c: Controller)
    requires Inv(s) && c !in s.w && c.number < LINES
    requires match c.parent case Root(u) => u in s.d
                            case Node(p) => p in s.w && p.depth < c.depth && c.height < p.height
    ensures Inv(Put(s, c, Unused()))
  {
    var r := Put(s, c, Unused());
    TotalZero(Unused().handles);
    forall z | z in r.w ensures Placed(r.w, z) {
      if z != c { assert Placed(s.w, z); }
      forall i: nat | i < LINES ensures ChildrenAt(r.w, z, i) {
        if z != c { assert ChildrenAt(s.w, z, i); }
      }
    }
    forall z | z in r.w ensures Tidy(r.w[z]) { }
    forall u | u in r.d ensures DeviceOk(r, u) { assert DeviceOk(s, u); }
    forall z | z in r.w ensures Registered(r, z) <==> r.w[z].count > 0 {
      assert Placed(r.w, z);
      if z != c {
        assert Placed(s.w, z) && (Registered(s, z) <==> s.w[z].count > 0);
        if z.parent.Node? { assert Placed(s.w, z.parent.ctrl); }
      } else {
        match c.parent
        case Root(u) => assert DeviceOk(s, u);
        case Node(p) => assert Placed(s.w, p) && ChildrenAt(s.w, p, c.number);
      }
    }
  }

  lemma FreshDevice(s: Sys, u: UioController)
    requires Inv(s) && u !in s.d
    ensures Inv(Sys(s.w, s.d[u := Dev([], false, [])]))
  {
    var r := Sys(s.w, s.d[u := Dev([], false, [])]);
    forall v | v in r.d ensures DeviceOk(r, v) { if v != u { assert DeviceOk(s, v); } }
    forall z | z in r.w ensures Registered(r, z) <==> r.w[z].count > 0 {
      assert Placed(s.w, z) && (Registered(s, z) <==> s.w[z].count > 0);
    }
  }

  /** The one cached object for a name, created together with its missing ancestors if need be. */
  method GetController(sys: System, pl: Design, name: string, ghost rank: map<string, nat>, ghost top: nat)
    returns (r: Result<Controller, Error>)
    requires Valid(sys, pl, rank, top)
    modifies sys
    ensures Valid(sys, pl, rank, top)
    ensures r.Ok? <==> Resolves(pl, rank, top, name)
    ensures r.Ok? ==> r.value in sys.controllers && r.value.name == name
    ensures r.Err? ==> sys.controllers == old(sys.controllers) && sys.devices == old(sys.devices)
    ensures Grown(rank, old(sys.controllers), old(sys.devices), sys.controllers, sys.devices, Position(rank, name))
    decreases Position(rank, name), 0
  {
    hide Resolves, Attached, Cached, Inv;
    var found := Lookup(sys, name);
    if found.Some? {
      assert Cached(pl, rank, top, sys.controllers, sys.devices, found.value);
      CachedResolves(pl, rank, top, sys.controllers, sys.devices, found.value);
      return Ok(found.value);
    }
    ResolvesIs(pl, rank, top, name);
    if name !in pl.ip || name !in pl.controllers { return Err(KeyError); }
    ghost var cs0, ds0 := sys.controllers, sys.devices;
    var attached := GetParent(sys, pl, pl.controllers[name], rank, top);
    if attached.Err? { return Err(attached.error); }
    NotYetCached(rank, cs0, ds0, sys.controllers, sys.devices, pl, name);
    var c := Construct(sys, pl, name, attached.value.0, attached.value.1, rank, top);
    r := Ok(c);
  }

  /** The cached controller of that name, if there is one. */
  method Lookup(sys: System, name: string) returns (found: Option<Controller>)
    ensures found.Some? ==> found.value in sys.controllers && found.value.name == name
    ensures found.None? ==> forall c :: c in sys.controllers ==> c.name != name
  {
    for i := 0 to |sys.controllers|
      invariant forall j :: 0 <= j < i ==> sys.controllers[j].name != name
    {
      if sys.controllers[i].name == name { return Some(sys.controllers[i]); }
    }
    found := None;
  }

  lemma CachedResolves(pl: Design, rank: map<string, nat>, top: nat, cs: Cache, ds: Devices, c: Controller)
    requires Ranked(pl, rank, top) && Cached(pl, rank, top, cs, ds, c)
    ensures Resolves(pl, rank, top, c.name)
  {
  }

  lemma ResolvesIs(pl: Design, rank: map<string, nat>, top: nat, name: string)
    requires Ranked(pl, rank, top)
    ensures Resolves(pl, rank, top, name) <==>
      name in pl.ip && name in pl.controllers && Leads(pl, rank, top, pl.controllers[name])
    ensures name in pl.controllers ==>
      name in rank && Position(rank, pl.controllers[name].parent) < Position(rank, name)
  {
  }

  /** Finding the parent of name has not created name. */
  lemma NotYetCached(rank: map<string, nat>, cs: Cache, ds: Devices, cs': Cache, ds': Devices, pl: Design, name: string)
    requires name in rank && name in pl.controllers && (forall c :: c in cs ==> c.name != name)
    requires Position(rank, pl.controllers[name].parent) < Position(rank, name)
    requires Grown(rank, cs, ds, cs', ds', Position(rank, pl.controllers[name].parent))
    ensures forall c :: c in cs' ==> c.name != name
    ensures Grown(rank, cs, ds, cs', ds', Position(rank, name))
  {
  }

  /** Before anything is looked up. */
  lemma StartsValid(pl: Design, rank: map<string, nat>, top: nat)
    requires Ranked(pl, rank, top)
    ensures Mirror(pl, rank, top, [], map[]) && Inv(Sys(map[], map[]))
  {
  }

  /** The constructor's end, and the append that makes the new object the cached one. */
  method Construct(sys: System, pl: Design, name: string, parent: Parent, number: nat, ghost rank: map<string, nat>,
        ghost top: nat)
    returns (c: Controller)
    requires Valid(sys, pl, rank, top) && Resolves(pl, rank, top, name)
    requires Attached(sys.controllers, sys.devices, pl.controllers[name], parent, number)
    requires forall c' :: c' in sys.controllers ==> c'.name != name
    modifies sys`controllers
    ensures Valid(sys, pl, rank, top)
    ensures sys.controllers == old(sys.controllers) + [c] && c.name == name && fresh(c)
  {
    ghost var s := sys.State();
    c := new Controller(name, parent, number, rank[name], top - rank[name]);
    if parent.Node? { assert Cached(pl, rank, top, sys.controllers, sys.devices, parent.ctrl); }
    FreshController(s, c);
    MirrorAppend(pl, rank, top, sys.controllers, sys.devices, c);
    sys.controllers := sys.controllers + [c];
    OneMore(sys, c);
  }

  twostate lemma OneMore(sys: System, new c: Controller)
    requires sys.controllers == old(sys.controllers) + [c] && sys.devices == old(sys.devices)
    requires forall x :: x in old(sys.All()) ==> unchanged(x)
    requires forall u :: u in old(sys.Devices()) ==> unchanged(u)
    requires c.State() == Unused()
    ensures sys.State() == Put(old(sys.State()), c, Unused())
  {
    assert sys.All() == old(sys.All()) + {c};
    assert sys.Controllers() == old(sys.Controllers())[c := Unused()];
    assert sys.DeviceStates() == old(sys.DeviceStates());
  }

  /** Where an interrupt entry is attached: a controller line, or the UIO device of its raw interrupt. */
  method GetParent(sys: System, pl: Design, e: Entry, ghost rank: map<string, nat>, ghost top: nat)
    returns (r: Result<(Parent, nat), Error>)
    requires Valid(sys, pl, rank, top)
    modifies sys
    ensures Valid(sys, pl, rank, top)
    ensures r.Ok? <==> Leads(pl, rank, top, e)
    ensures r.Ok? ==> Attached(sys.controllers, sys.devices, e, r.value.0, r.value.1)
    ensures r.Err? ==> sys.controllers == old(sys.controllers) && sys.devices == old(sys.devices)
    ensures Grown(rank, old(sys.controllers), old(sys.devices), sys.controllers, sys.devices, Position(rank, e.parent))
    decreases Position(rank, e.parent), 1
  {
    if e.parent == "" {
      if e.rawIrq.None? { return Err(KeyError); }
      var raw := e.rawIrq.value;
      if raw in sys.devices { return Ok((Root(sys.devices[raw]), 0)); }
      if raw !in pl.uio { return Err(NoUioDevice); }
      var dev := Open(sys, pl, raw, rank, top);
      r := Ok((Root(dev), 0));
    } else {
      var c := GetController(sys, pl, e.parent, rank, top);
      r := if c.Ok? then Ok((Node(c.value), e.index)) else Err(c.error);
    }
  }

  method Open(sys: System, pl: Design, raw: int, ghost rank: map<string, nat>, ghost top: nat)
    returns (dev: UioController)
    requires Valid(sys, pl, rank, top) && raw in pl.uio && raw !in sys.devices
    modifies sys`devices
    ensures Valid(sys, pl, rank, top)
    ensures sys.devices == old(sys.devices)[raw := dev] && fresh(dev)
  {
    ghost var s, ds := sys.State(), sys.devices;
    dev := AddDevice(sys, raw);
    assert dev !in s.d && dev !in ds.Values;
    FreshDevice(s, dev);
    MirrorDevice(pl, rank, top, sys.controllers, ds, raw, dev);
  }

  method AddDevice(sys: System, raw: int) returns (dev: UioController)
    requires raw !in sys.devices
    modifies sys`devices
    ensures sys.devices == old(sys.devices)[raw := dev] && fresh(dev)
    ensures sys.State() == Sys(old(sys.State()).w, old(sys.State()).d[dev := Dev([], false, [])])
  {
    ghost var s, ds := sys.State(), sys.devices;
    dev := new UioController();
    sys.devices := sys.devices[raw := dev];
    OneMoreValue(ds, raw, dev);
    assert sys.DeviceStates() == s.d[dev := Dev([], false, [])];
    assert sys.Controllers() == s.w;
  }

  lemma OneMoreValue<K, V>(m: map<K, V>, k: K, v: V)
    requires k !in m
    ensures m[k := v].Values == m.Values + {v}
  {
    var m' := m[k := v];
    forall u | u in m.Values ensures u in m'.Values {
      var a :| a in m && m[a] == u;
      assert m'[a] == u;
    }
    assert m'[k] == v;
  }

  /** A pin's attachment is a function of the dictionaries alone: two objects found for
      entries with the same parent name, or the same raw interrupt, are the same object. */
  lemma OneObjectPerName(pl: Design, rank: map<string, nat>, top: nat, cs: Cache, ds: Devices,
                         e: Entry, p: Parent, n: nat, e': Entry, p': Parent, n': nat)
    requires Mirror(pl, rank, top, cs, ds) && Attached(cs, ds, e, p, n) && Attached(cs, ds, e', p', n')
    ensures p == p' <==> e.parent == e'.parent && (e.parent == "" ==> e.rawIrq == e'.rawIrq)
  {
    if e.parent == "" && e'.parent == "" {
      var a, b := e.rawIrq.value, e'.rawIrq.value;
      assert ds[a] == ds[b] ==> a == b;
    } else if e.parent != "" && e'.parent != "" && e.parent == e'.parent {
      assert p.ctrl == p'.ctrl;
    }
  }
}
