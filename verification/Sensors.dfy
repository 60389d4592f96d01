/** Reading many sensors together: every sensor any of them depends on is asked once, and all
    values come from that one set of readings. */
module Sensors {
  type Id = string

  /** The names in an XRT info dump. */
  function Fields(): set<string> {
    {"0v85_v", "12v_aux_v", "12v_aux_i", "12v_pex_v", "12v_pex_i", "12v_sw_v", "1v8_v", "3v3_aux_v",
     "3v3_pex_v", "mgt0v9avcc_v", "mgtavtt_v", "sys_5v5_v", "vccint_v", "vccint_i"}
  }

  /** A sensor that reads a file or library value, the XRT info dump, the product of voltage and
      current, or one scaled field of a dump. */
  datatype Kind = Direct(scale: real) | Info | Product | Field(field: string, scale: real)

  datatype Node = Node(kind: Kind, parents: seq<Id>)

  type Graph = map<Id, Node>

  datatype Value = Number(x: real) | Dump(fields: map<string, real>)

  predicate GivesNumber(g: Graph, s: Id) {
    s in g && !g[s].kind.Info?
  }

  predicate NodeOk(g: Graph, n: Node) {
    match n.kind
    case Direct(_) => n.parents == []
    case Info => n.parents == []
    case Product => |n.parents| == 2 && GivesNumber(g, n.parents[0]) && GivesNumber(g, n.parents[1])
    case Field(f, _) => |n.parents| == 1 && n.parents[0] in g && g[n.parents[0]].kind.Info? && f in Fields()
  }

  /** Parents exist and give what a sensor needs, and no sensor depends on itself. */
  ghost predicate Sound(g: Graph, rank: map<Id, nat>) {
    && rank.Keys == g.Keys
    && (forall s :: s in g ==> NodeOk(g, g[s]))
    && (forall s, p :: s in g && p in g[s].parents ==> p in g && rank[p] < rank[s])
  }

  predicate SortOk(kind: Kind, v: Value) {
    if kind.Info? then v.Dump? && Fields() <= v.fields.Keys else v.Number?
  }

  predicate AllSortOk(g: Graph, parents: seq<Id>, values: seq<Value>) {
    |values| == |parents| && forall i :: 0 <= i < |parents| ==> parents[i] in g && SortOk(g[parents[i]].kind, values[i])
  }

  /** get_value: a sensor's value from its parents' values and what the hardware says now. */
  function Compute(g: Graph, s: Id, parents: seq<Value>, now: Value): (v: Value)
    requires s in g && NodeOk(g, g[s]) && AllSortOk(g, g[s].parents, parents) && SortOk(g[s].kind, now)
    ensures SortOk(g[s].kind, v)
  {
    match g[s].kind
    case Direct(scale) => Number(now.x * scale)
    case Info => now
    case Product => Number(parents[0].x * parents[1].x)
    case Field(f, scale) => Number(parents[0].fields[f] * scale)
  }

  /** What a sensor's hardware says when asked as the k-th. */
  type Reader = (Id, nat) -> Value

  ghost predicate Faithful(g: Graph, read: Reader) {
    forall s, k :: s in g ==> SortOk(g[s].kind, read(s, k))
  }

  // ---------------------------------------------------------------- plain evaluation

  type Snapshot = Id -> Value

  ghost predicate Complete(g: Graph, snap: Snapshot) {
    forall s :: s in g ==> SortOk(g[s].kind, snap(s))
  }

  /** The value of a sensor over one snapshot, by recursion without a memo. */
  ghost function Eval(g: Graph, rank: map<Id, nat>, snap: Snapshot, s: Id): (v: Value)
    requires Sound(g, rank) && Complete(g, snap) && s in g
    ensures SortOk(g[s].kind, v)
    decreases rank[s], 0
  {
    Compute(g, s, EvalAll(g, rank, snap, g[s].parents, rank[s]), snap(s))
  }

  ghost function EvalAll(g: Graph, rank: map<Id, nat>, snap: Snapshot, ss: seq<Id>, bound: nat): (vs: seq<Value>)
    requires Sound(g, rank) && Complete(g, snap) && forall s :: s in ss ==> s in g && rank[s] < bound
    ensures AllSortOk(g, ss, vs)
    decreases bound, 0, |ss|
  {
    if ss == [] then []
    else
      var n := |ss| - 1;
      SortsAppend(g, ss, EvalAll(g, rank, snap, ss[..n], bound), Eval(g, rank, snap, ss[n]));
      EvalAll(g, rank, snap, ss[..n], bound) + [Eval(g, rank, snap, ss[n])]
  }

  lemma SortsAppend(g: Graph, ss: seq<Id>, vs: seq<Value>, v: Value)
    requires ss != [] && AllSortOk(g, ss[..|ss| - 1], vs)
    requires ss[|ss| - 1] in g && SortOk(g[ss[|ss| - 1]].kind, v)
    ensures AllSortOk(g, ss, vs + [v])
  {
    forall i | 0 <= i < |ss| ensures ss[i] in g && SortOk(g[ss[i]].kind, (vs + [v])[i]) {
      if i < |ss| - 1 { assert ss[i] == ss[..|ss| - 1][i]; }
    }
  }

  lemma {:induction false} EvalAllAt(g: Graph, rank: map<Id, nat>, snap: Snapshot, ss: seq<Id>, bound: nat, i: nat)
    requires Sound(g, rank) && Complete(g, snap) && (forall s :: s in ss ==> s in g && rank[s] < bound) && i < |ss|
    ensures |EvalAll(g, rank, snap, ss, bound)| == |ss|
    ensures EvalAll(g, rank, snap, ss, bound)[i] == Eval(g, rank, snap, ss[i])
  {
    hide Sound, Complete, Eval;
    if i < |ss| - 1 { EvalAllAt(g, rank, snap, ss[..|ss| - 1], bound, i); }
  }

  /** What the plain values are: a reading scaled, the dump itself, the product of two other plain
      values, or one field of the plain dump scaled. */
  lemma PlainValues(g: Graph, rank: map<Id, nat>, snap: Snapshot, s: Id)
    requires Sound(g, rank) && Complete(g, snap) && s in g
    ensures forall p :: p in g[s].parents ==> p in g
    ensures var v := Eval(g, rank, snap, s);
      match g[s].kind
      case Direct(scale) => snap(s).Number? && v == Number(snap(s).x * scale)
      case Info => v == snap(s)
      case Product =>
        && |g[s].parents| == 2
        && var a, b := Eval(g, rank, snap, g[s].parents[0]), Eval(g, rank, snap, g[s].parents[1]);
           a.Number? && b.Number? && v == Number(a.x * b.x)
      case Field(f, scale) =>
        && |g[s].parents| == 1
        && var dump := Eval(g, rank, snap, g[s].parents[0]);
           dump.Dump? && f in dump.fields && v == Number(dump.fields[f] * scale)
  {
    hide *;
    EvalCalls(g, rank, snap, s);
    ComputeIs(g, s, EvalAll(g, rank, snap, g[s].parents, rank[s]), snap(s));
    var ps, vs := g[s].parents, EvalAll(g, rank, snap, g[s].parents, rank[s]);
    match g[s].kind
    case Direct(_) =>
    case Info =>
    case Product =>
      EvalAllAt(g, rank, snap, ps, rank[s], 0);
      EvalAllAt(g, rank, snap, ps, rank[s], 1);
    case Field(_, _) => EvalAllAt(g, rank, snap, ps, rank[s], 0);
  }

  lemma EvalCalls(g: Graph, rank: map<Id, nat>, snap: Snapshot, s: Id)
    requires Sound(g, rank) && Complete(g, snap) && s in g
    ensures s in rank && NodeOk(g, g[s]) && SortOk(g[s].kind, snap(s))
    ensures forall p :: p in g[s].parents ==> p in g && p in rank && rank[p] < rank[s]
    ensures Eval(g, rank, snap, s) == Compute(g, s, EvalAll(g, rank, snap, g[s].parents, rank[s]), snap(s))
  {
    hide Compute, EvalAll, SortOk;
  }

  lemma ComputeIs(g: Graph, s: Id, vs: seq<Value>, now: Value)
    requires s in g && NodeOk(g, g[s]) && AllSortOk(g, g[s].parents, vs) && SortOk(g[s].kind, now)
    ensures |vs| == |g[s].parents|
    ensures match g[s].kind
      case Direct(scale) => now.Number? && Compute(g, s, vs, now) == Number(now.x * scale)
      case Info => Compute(g, s, vs, now) == now
      case Product =>
        && |vs| == 2 && vs[0].Number? && vs[1].Number?
        && Compute(g, s, vs, now) == Number(vs[0].x * vs[1].x)
      case Field(f, scale) =>
        && |vs| == 1 && vs[0].Dump? && f in vs[0].fields
        && Compute(g, s, vs, now) == Number(vs[0].fields[f] * scale)
  {
    hide Fields;
  }

  /** A sensor and everything it depends on. */
  ghost function Reach(g: Graph, rank: map<Id, nat>, s: Id): set<Id>
    requires Sound(g, rank) && s in g
    decreases rank[s], 0
  {
    {s} + ReachAll(g, rank, g[s].parents, rank[s])
  }

  ghost function ReachAll(g: Graph, rank: map<Id, nat>, ss: seq<Id>, bound: nat): set<Id>
    requires Sound(g, rank) && forall s :: s in ss ==> s in g && rank[s] < bound
    decreases bound, 0, |ss|
  {
    if ss == [] then {} else ReachAll(g, rank, ss[..|ss| - 1], bound) + Reach(g, rank, ss[|ss| - 1])
  }

  // ---------------------------------------------------------------- a trace of readings

  function Elems(order: seq<Id>): (r: set<Id>)
    ensures forall s :: s in r <==> s in order
  {
    set s | s in order
  }

  ghost predicate NoDup(order: seq<Id>) {
    forall i, j :: 0 <= i < j < |order| ==> order[i] != order[j]
  }

  function Look(stored: map<Id, Value>, parents: seq<Id>): (vs: seq<Value>)
    requires forall p :: p in parents ==> p in stored
    ensures |vs| == |parents| && forall i :: 0 <= i < |parents| ==> vs[i] == stored[parents[i]]
  {
    seq(|parents|, i requires 0 <= i < |parents| => stored[parents[i]])
  }

  /** The i-th sensor asked: its parents came before it, and its value is theirs and its reading's. */
  ghost predicate Asked(g: Graph, read: Reader, base: nat, order: seq<Id>, stored: map<Id, Value>, i: nat)
    requires i < |order|
  {
    var s := order[i];
    && s in g && NodeOk(g, g[s]) && s in stored
    && (forall p :: p in g[s].parents ==> p in order[..i] && p in stored)
    && AllSortOk(g, g[s].parents, Look(stored, g[s].parents)) && SortOk(g[s].kind, read(s, base + i))
    && stored[s] == Compute(g, s, Look(stored, g[s].parents), read(s, base + i))
  }

  /** Each stored value belongs to one sensor asked, in this order, once. */
  ghost predicate Traced(g: Graph, read: Reader, base: nat, order: seq<Id>, stored: map<Id, Value>) {
    && NoDup(order) && stored.Keys == Elems(order)
    && forall i: nat :: i < |order| ==> Asked(g, read, base, order, stored, i)
  }

  function IndexOf(order: seq<Id>, s: Id): (i: nat)
    requires s in order
    ensures i < |order| && order[i] == s
  {
    var n := |order| - 1;
    if order[n] == s then n else IndexOf(order[..n], s)
  }

  /** The readings of a trace as one snapshot; sensors not asked keep any earlier reading. */
  ghost function Shot(read: Reader, base: nat, order: seq<Id>): Snapshot {
    s => read(s, if s in order then base + IndexOf(order, s) else base)
  }

  /** The memoised value of a sensor is its plain value over the trace's snapshot. */
  lemma {:induction false} StoredIsPlain(g: Graph, rank: map<Id, nat>, read: Reader, base: nat, order: seq<Id>,
        stored: map<Id, Value>, s: Id)
    requires Sound(g, rank) && Faithful(g, read) && Traced(g, read, base, order, stored) && s in order
    ensures s in stored && s in g && stored[s] == Eval(g, rank, Shot(read, base, order), s)
    decreases if s in rank then rank[s] else 0
  {
    AskedAt(g, rank, read, base, order, stored, s);
    ShotComplete(g, read, base, order);
    var snap := Shot(read, base, order);
    hide *;
    forall p | p in g[s].parents ensures stored[p] == Eval(g, rank, snap, p) {
      StoredIsPlain(g, rank, read, base, order, stored, p);
    }
    OneStep(g, rank, snap, stored, s);
  }

  lemma AskedAt(g: Graph, rank: map<Id, nat>, read: Reader, base: nat, order: seq<Id>, stored: map<Id, Value>, s: Id)
    requires Sound(g, rank) && Faithful(g, read) && Traced(g, read, base, order, stored) && s in order
    ensures s in g && s in stored && NodeOk(g, g[s]) && Complete(g, Shot(read, base, order))
    ensures forall p :: p in g[s].parents ==> p in order && p in stored && p in g && rank[p] < rank[s]
    ensures AllSortOk(g, g[s].parents, Look(stored, g[s].parents))
    ensures stored[s] == Compute(g, s, Look(stored, g[s].parents), Shot(read, base, order)(s))
  {
    AskedInOrder(g, rank, read, base, order, stored, s);
    AskedValue(g, read, base, order, stored, s);
    ShotComplete(g, read, base, order);
    hide *;
  }

  lemma AskedValue(g: Graph, read: Reader, base: nat, order: seq<Id>, stored: map<Id, Value>, s: Id)
    requires Traced(g, read, base, order, stored) && Faithful(g, read) && s in order
    ensures s in g && NodeOk(g, g[s]) && (forall p :: p in g[s].parents ==> p in stored) && s in stored
    ensures AllSortOk(g, g[s].parents, Look(stored, g[s].parents)) && Complete(g, Shot(read, base, order))
    ensures stored[s] == Compute(g, s, Look(stored, g[s].parents), Shot(read, base, order)(s))
  {
    hide Traced, Compute, Shot, IndexOf, NodeOk, AllSortOk, SortOk, Complete, Look, Faithful;
    TracedAt(g, read, base, order, stored, s);
    ShotComplete(g, read, base, order);
    ShotOf(read, base, order, s);
  }

  lemma TracedAt(g: Graph, read: Reader, base: nat, order: seq<Id>, stored: map<Id, Value>, s: Id)
    requires Traced(g, read, base, order, stored) && s in order
    ensures Asked(g, read, base, order, stored, IndexOf(order, s))
  {
    hide Asked, NoDup;
  }

  lemma ShotOf(read: Reader, base: nat, order: seq<Id>, s: Id)
    requires s in order
    ensures Shot(read, base, order)(s) == read(s, base + IndexOf(order, s))
  {
  }

  lemma ShotComplete(g: Graph, read: Reader, base: nat, order: seq<Id>)
    requires Faithful(g, read)
    ensures Complete(g, Shot(read, base, order))
  {
  }

  /** If the parents' values are plain values, so is the sensor's. */
  lemma OneStep(g: Graph, rank: map<Id, nat>, snap: Snapshot, stored: map<Id, Value>, s: Id)
    requires Sound(g, rank) && Complete(g, snap) && s in g
    requires forall p :: p in g[s].parents ==> p in stored && p in g && stored[p] == Eval(g, rank, snap, p)
    ensures AllSortOk(g, g[s].parents, Look(stored, g[s].parents))
    ensures Eval(g, rank, snap, s) == Compute(g, s, Look(stored, g[s].parents), snap(s))
  {
    LookIsEval(g, rank, snap, stored, g[s].parents, rank[s]);
  }

  lemma {:induction false} LookIsEval(g: Graph, rank: map<Id, nat>, snap: Snapshot, stored: map<Id, Value>,
        ss: seq<Id>, bound: nat)
    requires Sound(g, rank) && Complete(g, snap) && forall s :: s in ss ==> s in g && rank[s] < bound
    requires forall p :: p in ss ==> p in stored && stored[p] == Eval(g, rank, snap, p)
    ensures Look(stored, ss) == EvalAll(g, rank, snap, ss, bound)
  {
    if ss != [] {
      var n := |ss| - 1;
      LookIsEval(g, rank, snap, stored, ss[..n], bound);
      assert EvalAll(g, rank, snap, ss, bound) == EvalAll(g, rank, snap, ss[..n], bound) + [Eval(g, rank, snap, ss[n])];
      LookSplit(stored, ss);
      hide *;
    }
  }

  lemma LookSplit(stored: map<Id, Value>, ss: seq<Id>)
    requires ss != [] && forall p :: p in ss ==> p in stored
    ensures Look(stored, ss) == Look(stored, ss[..|ss| - 1]) + [stored[ss[|ss| - 1]]]
  {
  }

  lemma AskedInOrder(g: Graph, rank: map<Id, nat>, read: Reader, base: nat, order: seq<Id>, stored: map<Id, Value>,
        s: Id)
    requires Sound(g, rank) && Traced(g, read, base, order, stored) && s in order
    ensures s in g && forall p :: p in g[s].parents ==> p in order && p in stored && p in g && rank[p] < rank[s]
  {
    assert Asked(g, read, base, order, stored, IndexOf(order, s));
  }

  /** A trace is closed: with a sensor it has all it depends on. */
  lemma {:induction false} TraceCloses(g: Graph, rank: map<Id, nat>, read: Reader, base: nat, order: seq<Id>,
        stored: map<Id, Value>, s: Id)
    requires Sound(g, rank) && Traced(g, read, base, order, stored) && s in order
    ensures s in g && Reach(g, rank, s) <= Elems(order)
    decreases if s in rank then rank[s] else 0, 1, 0
  {
    AskedInOrder(g, rank, read, base, order, stored, s);
    TraceClosesAll(g, rank, read, base, order, stored, g[s].parents, rank[s]);
  }

  lemma {:induction false} TraceClosesAll(g: Graph, rank: map<Id, nat>, read: Reader, base: nat, order: seq<Id>,
        stored: map<Id, Value>,
      ss: seq<Id>, bound: nat)
    requires Sound(g, rank) && Traced(g, read, base, order, stored)
    requires forall s :: s in ss ==> s in order && s in g && rank[s] < bound
    ensures ReachAll(g, rank, ss, bound) <= Elems(order)
    decreases bound, 0, |ss|
  {
    if ss != [] {
      var n := |ss| - 1;
      TraceClosesAll(g, rank, read, base, order, stored, ss[..n], bound);
      TraceCloses(g, rank, read, base, order, stored, ss[n]);
    }
  }

  /** Asking one more sensor extends the trace. */
  lemma TraceGrows(g: Graph, read: Reader, base: nat, order: seq<Id>, stored: map<Id, Value>, s: Id, v: Value)
    requires Traced(g, read, base, order, stored) && s !in order && s in g && NodeOk(g, g[s])
    requires forall p :: p in g[s].parents ==> p in order
    requires AllSortOk(g, g[s].parents, Look(stored, g[s].parents)) && SortOk(g[s].kind, read(s, base + |order|))
    requires v == Compute(g, s, Look(stored, g[s].parents), read(s, base + |order|))
    ensures Traced(g, read, base, order + [s], stored[s := v])
  {
    var order', stored' := order + [s], stored[s := v];
    assert Elems(order') == Elems(order) + {s};
    forall i: nat | i < |order'| ensures Asked(g, read, base, order', stored', i) {
      var t := order'[i];
      assert order'[..i] == order[..i];
      if i < |order| { assert Asked(g, read, base, order, stored, i); }
      assert Look(stored', g[t].parents) == Look(stored, g[t].parents);
    }
  }

  // ---------------------------------------------------------------- the code

  /** The sensors, counting how often any of them is asked. */
  class Board {
    const g: Graph
    const read: Reader
    var calls: seq<Id>

    constructor (g: Graph, read: Reader)
      ensures this.g == g && this.read == read && calls == []
    {
      this.g, this.read, calls := g, read, [];
    }

    /** sensor.get_value(parents) */
    method GetValue(s: Id, parents: seq<Value>) returns (v: Value)
      requires s in g && NodeOk(g, g[s]) && AllSortOk(g, g[s].parents, parents) && SortOk(g[s].kind, read(s, |calls|))
      modifies this
      ensures calls == old(calls) + [s] && v == Compute(g, s, parents, read(s, old(|calls|)))
    {
      v := Compute(g, s, parents, read(s, |calls|));
      calls := calls + [s];
    }
  }

  class Memo {
    var stored: map<Id, Value>

    constructor ()
      ensures stored == map[]
    {
      stored := map[];
    }
  }

  /** order is what has been asked since base, and the memo holds its values. */
  ghost predicate Recorded(b: Board, m: Memo, base: nat)
    reads b, m
  {
    base <= |b.calls| && Traced(b.g, b.read, base, b.calls[base..], m.stored)
  }

  ghost predicate Kept(before: map<Id, Value>, after: map<Id, Value>) {
    forall t :: t in before ==> t in after && after[t] == before[t]
  }

  lemma KeptOn(a: map<Id, Value>, b: map<Id, Value>, c: map<Id, Value>)
    requires Kept(a, b) && Kept(b, c)
    ensures Kept(a, c)
  {
  }

  lemma KeptPlus(a: map<Id, Value>, b: map<Id, Value>, s: Id, v: Value)
    requires Kept(a, b) && s !in b
    ensures Kept(a, b[s := v]) && b[s := v].Keys == b.Keys + {s}
  {
  }

  /** The values so far of the sensors ss. */
  ghost predicate Looked(stored: map<Id, Value>, ss: seq<Id>, values: seq<Value>) {
    |values| <= |ss| && forall k :: 0 <= k < |values| ==> ss[k] in stored && values[k] == stored[ss[k]]
  }

  lemma LookedNone(stored: map<Id, Value>, ss: seq<Id>)
    ensures Looked(stored, ss, []) && Kept(stored, stored)
  {
  }

  lemma WholeList(ss: seq<Id>)
    ensures ss[..|ss|] == ss
  {
  }

  lemma LookedOn(before: map<Id, Value>, after: map<Id, Value>, ss: seq<Id>, values: seq<Value>, v: Value)
    requires Looked(before, ss, values) && Kept(before, after) && |values| < |ss|
    requires ss[|values|] in after && v == after[ss[|values|]]
    ensures Looked(after, ss, values + [v])
  {
  }

  lemma LookedAll(stored: map<Id, Value>, ss: seq<Id>, values: seq<Value>)
    requires Looked(stored, ss, values) && |values| == |ss|
    ensures (forall s :: s in ss ==> s in stored) && values == Look(stored, ss)
  {
  }

  class MultiSensor {
    const sensors: seq<Id>

    constructor (sensors: seq<Id>)
      ensures this.sensors == sensors
    {
      this.sensors := sensors;
    }

    /** _get_value: the sensor's value, asking it and those it depends on unless stored. */
    method Lookup(b: Board, m: Memo, s: Id, ghost rank: map<Id, nat>, ghost base: nat) returns (value: Value)
      requires Sound(b.g, rank) && Faithful(b.g, b.read) && s in b.g && Recorded(b, m, base)
      modifies b, m
      ensures Recorded(b, m, base) && old(b.calls) <= b.calls
      ensures s in m.stored && value == m.stored[s]
      ensures Kept(old(m.stored), m.stored)
      ensures m.stored.Keys == old(m.stored.Keys) + Reach(b.g, rank, s)
      decreases rank[s], 1
    {
      if s in m.stored {
        TraceCloses(b.g, rank, b.read, base, b.calls[base..], m.stored, s);
        return m.stored[s];
      }
      ReachOne(b.g, rank, s);
      NotBelowItself(b.g, rank, b.g[s].parents, s);
      hide *;
      var values := LookupAll(b, m, b.g[s].parents, rank, base, rank[s]);
      StoredSorts(b.g, b.read, base, b.calls[base..], m.stored, b.g[s].parents);
      ghost var before := m.stored;
      value := Ask(b, m, s, values, base);
      KeptPlus(old(m.stored), before, s, value);
    }

    /** The values of several sensors, in order. */
    method LookupAll(b: Board, m: Memo, ss: seq<Id>, ghost rank: map<Id, nat>, ghost base: nat, ghost bound: nat)
      returns (values: seq<Value>)
      requires Sound(b.g, rank) && Faithful(b.g, b.read) && Recorded(b, m, base)
      requires forall s :: s in ss ==> s in b.g && rank[s] < bound
      modifies b, m
      ensures Recorded(b, m, base) && old(b.calls) <= b.calls
      ensures forall s :: s in ss ==> s in m.stored
      ensures values == Look(m.stored, ss)
      ensures Kept(old(m.stored), m.stored)
      ensures m.stored.Keys == old(m.stored.Keys) + ReachAll(b.g, rank, ss, bound)
      decreases bound, 0
    {
      hide *;
      values := [];
      NoneReached(b.g, rank, ss, bound);
      LookedNone(m.stored, ss);
      for i := 0 to |ss|
        invariant Recorded(b, m, base) && old(b.calls) <= b.calls
        invariant Kept(old(m.stored), m.stored)
        invariant |values| == i && Looked(m.stored, ss, values)
        invariant m.stored.Keys == old(m.stored.Keys) + ReachAll(b.g, rank, ss[..i], bound)
      {
        ghost var before := m.stored;
        ReachNext(b.g, rank, ss, i, bound);
        var v := Lookup(b, m, ss[i], rank, base);
        KeptOn(old(m.stored), before, m.stored);
        LookedOn(before, m.stored, ss, values, v);
        values := values + [v];
      }
      WholeList(ss);
      LookedAll(m.stored, ss, values);
    }

    /** The reading itself, and storing it. */
    method Ask(b: Board, m: Memo, s: Id, values: seq<Value>, ghost base: nat) returns (value: Value)
      requires Recorded(b, m, base) && Faithful(b.g, b.read) && s in b.g && NodeOk(b.g, b.g[s]) && s !in m.stored
      requires forall p :: p in b.g[s].parents ==> p in m.stored
      requires values == Look(m.stored, b.g[s].parents) && AllSortOk(b.g, b.g[s].parents, values)
      modifies b, m
      ensures Recorded(b, m, base) && b.calls == old(b.calls) + [s]
      ensures m.stored == old(m.stored)[s := value]
    {
      ghost var order := b.calls[base..];
      value := b.GetValue(s, values);
      assert b.calls[base..] == order + [s];
      TraceGrows(b.g, b.read, base, order, m.stored, s, value);
      m.stored := m.stored[s := value];
    }

    /** Every sensor needed is asked exactly once, no other is, and each value is the plain
        recursive value over those readings. */
    method GetValues(b: Board, ghost rank: map<Id, nat>) returns (values: seq<Value>)
      requires Sound(b.g, rank) && Faithful(b.g, b.read) && forall s :: s in sensors ==> s in b.g
      modifies b
      ensures old(b.calls) <= b.calls
      ensures var order := b.calls[|old(b.calls)|..];
        && NoDup(order)
        && Elems(order) == ReachAll(b.g, rank, sensors, Top(b.g, rank, sensors))
        && |values| == |sensors|
        && forall i :: 0 <= i < |sensors| ==>
             values[i] == Eval(b.g, rank, Shot(b.read, |old(b.calls)|, order), sensors[i])
    {
      var m := new Memo();
      ghost var base := |b.calls|;
      ghost var top := Top(b.g, rank, sensors);
      NothingAsked(b, m, base);
      values := LookupAll(b, m, sensors, rank, base, top);
      AllPlain(b.g, rank, b.read, base, b.calls[base..], m.stored, sensors);
    }
  }

  lemma AllPlain(g: Graph, rank: map<Id, nat>, read: Reader, base: nat, order: seq<Id>, stored: map<Id, Value>,
        ss: seq<Id>)
    requires Sound(g, rank) && Faithful(g, read) && Traced(g, read, base, order, stored)
    requires forall s :: s in ss ==> s in stored && s in g
    ensures NoDup(order) && stored.Keys == Elems(order) && Complete(g, Shot(read, base, order))
    ensures forall i :: 0 <= i < |ss| ==> Look(stored, ss)[i] == Eval(g, rank, Shot(read, base, order), ss[i])
  {
    ShotComplete(g, read, base, order);
    forall i | 0 <= i < |ss| ensures stored[ss[i]] == Eval(g, rank, Shot(read, base, order), ss[i]) {
      StoredIsPlain(g, rank, read, base, order, stored, ss[i]);
    }
  }

  lemma ReachNext(g: Graph, rank: map<Id, nat>, ss: seq<Id>, i: nat, bound: nat)
    requires Sound(g, rank) && i < |ss| && forall s :: s in ss ==> s in g && rank[s] < bound
    ensures ss[i] in g
    ensures ReachAll(g, rank, ss[..i + 1], bound) == ReachAll(g, rank, ss[..i], bound) + Reach(g, rank, ss[i])
  {
    assert ss[..i + 1][..i] == ss[..i];
  }

  lemma ReachOne(g: Graph, rank: map<Id, nat>, s: Id)
    requires Sound(g, rank) && s in g
    ensures Reach(g, rank, s) == {s} + ReachAll(g, rank, g[s].parents, rank[s])
    ensures ReachAll(g, rank, g[s].parents[..0], rank[s]) == {}
  {
  }

  ghost function Top(g: Graph, rank: map<Id, nat>, ss: seq<Id>): (t: nat)
    requires Sound(g, rank) && forall s :: s in ss ==> s in g
    ensures forall s :: s in ss ==> rank[s] < t
  {
    if ss == [] then 0
    else
      var n := |ss| - 1;
      var t := Top(g, rank, ss[..n]);
      assert forall s :: s in ss ==> s in ss[..n] || s == ss[n];
      if t <= rank[ss[n]] then rank[ss[n]] + 1 else t
  }

  /** A sensor is not among those its parents depend on. */
  lemma {:induction false} NotBelowItself(g: Graph, rank: map<Id, nat>, ss: seq<Id>, s: Id)
    requires Sound(g, rank) && s in g && forall p :: p in ss ==> p in g && rank[p] < rank[s]
    ensures s !in ReachAll(g, rank, ss, rank[s])
  {
    ReachBelow(g, rank, ss, rank[s]);
  }

  lemma {:induction false} ReachBelow(g: Graph, rank: map<Id, nat>, ss: seq<Id>, bound: nat)
    requires Sound(g, rank) && forall p :: p in ss ==> p in g && rank[p] < bound
    ensures forall t :: t in ReachAll(g, rank, ss, bound) ==> t in g && rank[t] < bound
    decreases bound, |ss|
  {
    if ss != [] {
      var n := |ss| - 1;
      ReachBelow(g, rank, ss[..n], bound);
      ReachBelow(g, rank, g[ss[n]].parents, rank[ss[n]]);
    }
  }

  lemma NothingAsked(b: Board, m: Memo, base: nat)
    requires m.stored == map[] && base == |b.calls|
    ensures Recorded(b, m, base)
  {
  }

  lemma NoneReached(g: Graph, rank: map<Id, nat>, ss: seq<Id>, bound: nat)
    requires Sound(g, rank) && forall s :: s in ss ==> s in g && rank[s] < bound
    ensures ReachAll(g, rank, ss[..0], bound) == {}
  {
  }

  lemma StoredSorts(g: Graph, read: Reader, base: nat, order: seq<Id>, stored: map<Id, Value>, ps: seq<Id>)
    requires Traced(g, read, base, order, stored) && forall p :: p in ps ==> p in stored
    ensures AllSortOk(g, ps, Look(stored, ps))
  {
    forall i | 0 <= i < |ps| ensures ps[i] in g && SortOk(g[ps[i]].kind, stored[ps[i]]) {
      assert Asked(g, read, base, order, stored, IndexOf(order, ps[i]));
    }
  }
}
