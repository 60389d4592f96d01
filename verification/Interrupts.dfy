/** The cascaded interrupt runtime: AXI interrupt controllers chained below UIO
    devices.  A controller poses as an event towards its parent, so servicing a
    parent calls down into Controller.Set, which may call straight back up into
    the parent's AddEvent while the parent is still in its own loop.

    The classes at the end of the module are the runtime itself.  Their methods are
    specified by functions over a snapshot Sys of the whole object graph; what one
    pass over the graph leaves behind is given in closed form, controller by
    controller, by Serv (who is reached), After (what is left there) and Sig (which
    events are signalled, in order). */
module Interrupts {
  import opened Bits

  const LINES: nat := 32

  // MMIO offsets of the AXI interrupt controller
  const IER: nat := 0x08
  const IAR: nat := 0x0C
  const SIE: nat := 0x10
  const CIE: nat := 0x14
  const MER: nat := 0x1C

  /** Anything with a set method: a waiting coroutine's event, or a controller. */
  datatype Event = Leaf(id: nat) | Child(ctrl: Controller)

  /** What a controller or an interrupt pin is attached to. */
  datatype Parent = Root(uio: UioController) | Node(ctrl: Controller)

  /** One controller: wait lists, event count, device registers, and how often it was serviced. */
  datatype St = St(handles: seq<seq<Event>>, count: int, ier: set<nat>, isr: set<nat>, mer: bool, services: nat)

  /** One UIO device: wait list, whether its interrupt is armed, and every leaf event it has delivered. */
  datatype Dev = Dev(events: seq<Event>, armed: bool, delivered: seq<nat>)

  type World = map<Controller, St>

  datatype Sys = Sys(w: World, d: map<UioController, Dev>)

  // ---------------------------------------------------------------- the shape of the graph

  ghost predicate ChildrenAt(w: World, c: Controller, i: nat)
    requires c in w && i < |w[c].handles|
  {
    forall e :: e in w[c].handles[i] && e.Child? ==>
      e.ctrl in w && e.ctrl.parent == Node(c) && e.ctrl.number == i && e.ctrl.height < c.height
  }

  ghost predicate Placed(w: World, c: Controller)
    requires c in w
  {
    && |w[c].handles| == LINES
    && c.number < LINES
    && (c.parent.Node? ==> c.parent.ctrl in w && c.parent.ctrl.depth < c.depth && c.height < c.parent.ctrl.height)
    && (forall i: nat :: i < LINES ==> ChildrenAt(w, c, i))
  }

  /** Controllers form a forest, and a controller is only ever registered with its own parent line. */
  ghost predicate Shape(w: World) {
    forall c {:trigger Placed(w, c)} :: c in w ==> Placed(w, c)
  }

  ghost predicate Linked(s: Sys) {
    && Shape(s.w)
    && (forall c :: c in s.w && c.parent.Root? ==> c.parent.uio in s.d)
  }

  ghost predicate Known(w: World, es: seq<Event>) {
    forall e :: e in es && e.Child? ==> e.ctrl in w
  }

  ghost predicate NoDup(es: seq<Event>) {
    forall i, j :: 0 <= i < j < |es| && es[i].Child? ==> es[i] != es[j]
  }

  ghost function Total(hs: seq<seq<Event>>): nat {
    if hs == [] then 0 else Total(hs[..|hs| - 1]) + |hs[|hs| - 1]|
  }

  ghost function Busy(hs: seq<seq<Event>>): set<nat> {
    set i | 0 <= i < |hs| && hs[i] != []
  }

  /** A controller whose bookkeeping agrees with its wait lists. */
  ghost predicate Tidy(st: St) {
    && st.count == Total(st.handles)
    && st.ier == Busy(st.handles)
    && (st.count > 0 ==> st.mer)
    && (forall i :: 0 <= i < |st.handles| ==> NoDup(st.handles[i]))
  }

  /** z lies in the subtree of x. */
  ghost predicate Under(x: Controller, z: Controller)
    decreases z.depth
  {
    z == x || (z.parent.Node? && z.parent.ctrl.depth < z.depth && Under(x, z.parent.ctrl))
  }

  ghost predicate TidyUnder(s: Sys, x: Controller) {
    forall z {:trigger Under(x, z)} :: z in s.w && Under(x, z) ==> Tidy(s.w[z])
  }

  ghost predicate AllTidy(s: Sys) {
    forall z :: z in s.w ==> Tidy(s.w[z])
  }

  // ---------------------------------------------------------------- one pass, in closed form

  /** The pending lines a read of IPR reports. */
  ghost function Fired(w: World, c: Controller): set<nat>
    requires c in w
  {
    w[c].isr * w[c].ier
  }

  /** One more than the greatest height of a controller among the events. */
  ghost function Above(es: seq<Event>): (h: nat)
    ensures forall e :: e in es && e.Child? ==> e.ctrl.height < h
    ensures h == 0 || exists e :: e in es && e.Child? && e.ctrl.height + 1 == h
  {
    if es == [] then 0
    else
      var e := es[|es| - 1];
      var r := Above(es[..|es| - 1]);
      assert forall f :: f in es ==> f == e || f in es[..|es| - 1];
      if e.Child? && e.ctrl.height >= r then e.ctrl.height + 1 else r
  }

  /** The wait lists of the pending lines below i, end to end. */
  ghost function FiredUpTo(w: World, c: Controller, i: nat): (es: seq<Event>)
    requires Shape(w) && c in w && i <= LINES
    ensures assert Placed(w, c); forall e :: e in es && e.Child? ==>
      e.ctrl in w && e.ctrl.parent == Node(c) && e.ctrl.height < c.height &&
      e.ctrl.number < i && e.ctrl.number in Fired(w, c) && e in w[c].handles[e.ctrl.number]
  {
    if i == 0 then []
    else
      assert Placed(w, c) && ChildrenAt(w, c, i - 1);
      FiredUpTo(w, c, i - 1) + (if i - 1 in Fired(w, c) then w[c].handles[i - 1] else [])
  }

  /** The leaf events signalled by servicing es in order. */
  ghost function Sig(w: World, es: seq<Event>): seq<nat>
    requires Shape(w) && Known(w, es)
    decreases Above(es), |es|
  {
    if es == [] then []
    else
      var pre, e := es[..|es| - 1], es[|es| - 1];
      Sig(w, pre) +
      match e
      case Leaf(l) => [l]
      case Child(x) => Sig(w, FiredUpTo(w, x, LINES))
  }

  /** Whether c still has events outstanding once it has been serviced. */
  ghost predicate Left(w: World, c: Controller)
    requires Shape(w) && c in w
    decreases c.height
  {
    assert Placed(w, c);
    exists i: nat :: i < LINES && LeftAt(w, c, i)
  }

  ghost predicate LeftAt(w: World, c: Controller, i: nat)
    requires Shape(w) && c in w && i < LINES
    decreases c.height, 0
  {
    assert Placed(w, c) && ChildrenAt(w, c, i);
    if i in Fired(w, c)
    then exists e :: e in w[c].handles[i] && e.Child? && Left(w, e.ctrl)
    else w[c].handles[i] != []
  }

  /** The children among es that re-register: those with events left. */
  ghost function Survivors(w: World, es: seq<Event>): (r: seq<Event>)
    requires Shape(w) && Known(w, es)
    ensures forall e :: e in r ==> e in es && e.Child? && Left(w, e.ctrl)
    ensures forall e :: e in es && e.Child? && Left(w, e.ctrl) ==> e in r
    ensures NoDup(es) ==> NoDup(r)
  {
    if es == [] then []
    else
      var pre, e := es[..|es| - 1], es[|es| - 1];
      assert es == pre + [e];
      Survivors(w, pre) + (if e.Child? && Left(w, e.ctrl) then [e] else [])
  }

  ghost function KeptAt(w: World, c: Controller, i: nat): seq<Event>
    requires Shape(w) && c in w && i < LINES
  {
    assert Placed(w, c) && ChildrenAt(w, c, i);
    if i in Fired(w, c) then Survivors(w, w[c].handles[i]) else w[c].handles[i]
  }

  /** The wait lists a serviced controller ends up with. */
  ghost function Kept(w: World, c: Controller): (hs: seq<seq<Event>>)
    requires Shape(w) && c in w
    ensures |hs| == LINES && forall i :: 0 <= i < LINES ==> hs[i] == KeptAt(w, c, i)
  {
    seq(LINES, i requires 0 <= i < LINES => KeptAt(w, c, i))
  }

  /** A controller after its one service in a pass. */
  ghost function After(w: World, c: Controller): St
    requires Shape(w) && c in w
  {
    St(Kept(w, c), Total(Kept(w, c)), Busy(Kept(w, c)), w[c].isr - Fired(w, c), w[c].mer, w[c].services + 1)
  }

  /** Servicing es reaches c: along a chain of registrations on pending lines. */
  ghost predicate Serv(w: World, es: seq<Event>, c: Controller)
    requires Shape(w) && c in w
    decreases c.depth
  {
    assert Placed(w, c);
    || Child(c) in es
    || (&& c.parent.Node?
        && (assert Placed(w, c.parent.ctrl); true)
        && Serv(w, es, c.parent.ctrl)
        && c.number in Fired(w, c.parent.ctrl)
        && Child(c) in w[c.parent.ctrl].handles[c.number])
  }

  /** The world after servicing es. */
  ghost function ServedW(w: World, es: seq<Event>): World
    requires Shape(w)
  {
    map c | c in w :: if Serv(w, es, c) then After(w, c) else w[c]
  }

  ghost function Served(s: Sys, es: seq<Event>, via: UioController): Sys
    requires Shape(s.w) && Known(s.w, es) && via in s.d
  {
    Sys(ServedW(s.w, es), Deliver(s.d, via, Sig(s.w, es)))
  }

  ghost function Deliver(d: map<UioController, Dev>, via: UioController, sig: seq<nat>): map<UioController, Dev>
    requires via in d
  {
    d[via := d[via].(delivered := d[via].delivered + sig)]
  }

  lemma DeliverTwice(d: map<UioController, Dev>, via: UioController, a: seq<nat>, b: seq<nat>)
    requires via in d
    ensures Deliver(Deliver(d, via, a), via, b) == Deliver(d, via, a + b)
  {
    assert d[via].delivered + (a + b) == d[via].delivered + a + b;
  }

  // ---------------------------------------------------------------- registration, climbing the tree

  /** The event may wait on line n of t. */
  ghost predicate Fits(s: Sys, t: Parent, e: Event, n: nat) {
    && (match t case Root(u) => u in s.d case Node(c) => c in s.w && n < LINES)
    && (e.Child? ==> e.ctrl in s.w && e.ctrl.parent == t && (t.Node? ==> e.ctrl.number == n))
  }

  ghost function Pushed(st: St, e: Event, n: nat): St
    requires n < |st.handles|
  {
    St(st.handles[n := st.handles[n] + [e]], st.count + 1,
       if st.handles[n] == [] then st.ier + {n} else st.ier, st.isr, true, st.services)
  }

  /** Replace one controller's state. */
  ghost function Put(s: Sys, c: Controller, st: St): Sys {
    Sys(s.w[c := st], s.d)
  }

  ghost function Depth(t: Parent): nat {
    match t case Root(_) => 0 case Node(c) => c.depth + 1
  }

  /** Register e on line n of t; a controller without events first registers with its own parent. */
  ghost function AddEv(s: Sys, t: Parent, e: Event, n: nat): (r: Sys)
    requires Linked(s) && Fits(s, t, e, n)
    ensures r.w.Keys == s.w.Keys && r.d.Keys == s.d.Keys
    ensures forall c :: c in s.w && Depth(t) <= c.depth ==> r.w[c] == s.w[c]
    ensures Linked(r)
    decreases Depth(t)
  {
    match t
    case Root(u) =>
      s.(d := s.d[u := Dev(s.d[u].events + [e], s.d[u].armed || s.d[u].events == [], s.d[u].delivered)])
    case Node(c) =>
      assert Placed(s.w, c);
      var s1 := if s.w[c].count == 0 then AddEv(s, c.parent, Child(c), c.number) else s;
      PushLinked(s1, c, e, n);
      Put(s1, c, Pushed(s.w[c], e, n))
  }

  lemma PushLinked(s: Sys, c: Controller, e: Event, n: nat)
    requires Linked(s) && Fits(s, Node(c), e, n)
    ensures n < |s.w[c].handles|
    ensures Linked(Put(s, c, Pushed(s.w[c], e, n)))
  {
    assert Placed(s.w, c);
    var w' := s.w[c := Pushed(s.w[c], e, n)];
    forall z | z in w' ensures Placed(w', z) {
      assert Placed(s.w, z);
      forall i: nat | i < LINES ensures ChildrenAt(w', z, i) {
        assert ChildrenAt(s.w, z, i);
        if e.Child? { assert Placed(s.w, e.ctrl); }
      }
    }
  }

  // ---------------------------------------------------------------- frame lemmas

  ghost predicate SameUnder(w: World, w': World, x: Controller) {
    forall z {:trigger Under(x, z)} :: z in w && Under(x, z) ==> z in w' && w'[z] == w[z]
  }

  lemma {:induction false} UnderDeep(x: Controller, z: Controller)
    requires Under(x, z)
    ensures x.depth <= z.depth
    decreases z.depth
  {
    if z != x { UnderDeep(x, z.parent.ctrl); }
  }

  /** A child's subtree is part of its parent's. */
  lemma {:induction false} UnderChild(w: World, c: Controller, x: Controller, z: Controller)
    requires Shape(w) && x in w && x.parent == Node(c) && Under(x, z)
    ensures Under(c, z)
    decreases z.depth
  {
    assert Placed(w, x);
    if z == x { assert Under(c, c); } else { UnderChild(w, c, x, z.parent.ctrl); }
  }

  lemma SameUnderChild(w: World, w': World, c: Controller, x: Controller)
    requires Shape(w) && x in w && x.parent == Node(c) && SameUnder(w, w', c)
    ensures SameUnder(w, w', x)
  {
    forall z | z in w && Under(x, z) ensures z in w' && w'[z] == w[z] { UnderChild(w, c, x, z); }
  }

  lemma {:induction false} LeftFrame(w: World, w': World, x: Controller)
    requires Shape(w) && Shape(w') && x in w && SameUnder(w, w', x)
    ensures x in w' && Left(w, x) == Left(w', x)
    decreases x.height
  {
    assert Under(x, x) && Placed(w, x);
    forall i: nat | i < LINES ensures LeftAt(w, x, i) == LeftAt(w', x, i) {
      assert ChildrenAt(w, x, i);
      forall e | e in w[x].handles[i] && e.Child? ensures e.ctrl in w' && Left(w, e.ctrl) == Left(w', e.ctrl) {
        SameUnderChild(w, w', x, e.ctrl);
        LeftFrame(w, w', e.ctrl);
      }
    }
  }

  lemma {:induction false} SurvivorsFrame(w: World, w': World, es: seq<Event>)
    requires Shape(w) && Shape(w') && Known(w, es)
    requires forall e :: e in es && e.Child? ==> SameUnder(w, w', e.ctrl)
    ensures Known(w', es) && Survivors(w, es) == Survivors(w', es)
  {
    forall e | e in es && e.Child? ensures e.ctrl in w' { assert Under(e.ctrl, e.ctrl); }
    if es != [] {
      SurvivorsFrame(w, w', es[..|es| - 1]);
      var e := es[|es| - 1];
      if e.Child? { LeftFrame(w, w', e.ctrl); }
    }
  }

  lemma {:induction false} SigFrame(w: World, w': World, es: seq<Event>)
    requires Shape(w) && Shape(w') && Known(w, es)
    requires forall e :: e in es && e.Child? ==> SameUnder(w, w', e.ctrl)
    ensures Known(w', es) && Sig(w, es) == Sig(w', es)
    decreases Above(es), |es|
  {
    forall e | e in es && e.Child? ensures e.ctrl in w' { assert Under(e.ctrl, e.ctrl); }
    if es != [] {
      SigFrame(w, w', es[..|es| - 1]);
      var e := es[|es| - 1];
      if e.Child? {
        var fs := FiredUpTo(w, e.ctrl, LINES);
        assert Under(e.ctrl, e.ctrl);
        FiredFrame(w, w', e.ctrl, LINES);
        forall f | f in fs && f.Child? ensures SameUnder(w, w', f.ctrl) { SameUnderChild(w, w', e.ctrl, f.ctrl); }
        SigFrame(w, w', fs);
      }
    }
  }

  lemma {:induction false} FiredFrame(w: World, w': World, c: Controller, i: nat)
    requires Shape(w) && Shape(w') && c in w && c in w' && w[c] == w'[c] && i <= LINES
    ensures FiredUpTo(w, c, i) == FiredUpTo(w', c, i)
  {
    if i > 0 { FiredFrame(w, w', c, i - 1); }
  }

  lemma AfterFrame(w: World, w': World, z: Controller)
    requires Shape(w) && Shape(w') && z in w && SameUnder(w, w', z)
    ensures z in w' && After(w, z) == After(w', z)
  {
    assert Under(z, z) && Placed(w, z);
    forall i: nat | i < LINES ensures KeptAt(w, z, i) == KeptAt(w', z, i) {
      assert ChildrenAt(w, z, i);
      forall e | e in w[z].handles[i] && e.Child? ensures SameUnder(w, w', e.ctrl) { SameUnderChild(w, w', z, e.ctrl); }
      SurvivorsFrame(w, w', w[z].handles[i]);
    }
    assert Kept(w, z) == Kept(w', z);
  }

  // ---------------------------------------------------------------- who is reached

  lemma {:induction false} ServDeep(w: World, es: seq<Event>, c: Controller, k: nat)
    requires Shape(w) && c in w && Serv(w, es, c)
    requires forall e :: e in es && e.Child? ==> e.ctrl.depth >= k
    ensures c.depth >= k
    decreases c.depth
  {
    assert Placed(w, c);
    if Child(c) !in es { ServDeep(w, es, c.parent.ctrl, k); }
  }

  lemma {:induction false} ServSplit(w: World, es: seq<Event>, fs: seq<Event>, c: Controller)
    requires Shape(w) && c in w
    ensures Serv(w, es + fs, c) == (Serv(w, es, c) || Serv(w, fs, c))
    decreases c.depth
  {
    assert Placed(w, c);
    if c.parent.Node? { ServSplit(w, es, fs, c.parent.ctrl); }
  }

  lemma {:induction false} ServUnder(w: World, x: Controller, z: Controller)
    requires Shape(w) && z in w && Serv(w, [Child(x)], z)
    ensures Under(x, z)
    decreases z.depth
  {
    assert Placed(w, z);
    if z != x { ServUnder(w, x, z.parent.ctrl); }
  }

  lemma {:induction false} ServFrame(w: World, w': World, x: Controller, z: Controller)
    requires Shape(w) && Shape(w') && z in w && SameUnder(w, w', x) && Under(x, z)
    ensures z in w' && Serv(w, [Child(x)], z) == Serv(w', [Child(x)], z)
    decreases z.depth
  {
    if z != x {
      assert Placed(w, z);
      ServFrame(w, w', x, z.parent.ctrl);
    }
  }

  /** Siblings' cascades never meet. */
  lemma {:induction false} Disjoint(w: World, done: seq<Event>, x: Controller, z: Controller)
    requires Shape(w) && x in w && z in w && Known(w, done) && Under(x, z)
    requires forall e :: e in done && e.Child? ==> e.ctrl.parent == x.parent
    requires Child(x) !in done
    ensures !Serv(w, done, z)
    decreases z.depth
  {
    assert Placed(w, z) && Placed(w, x);
    if Serv(w, done, z) {
      if z == x {
        var p := x.parent.ctrl;
        forall e | e in done && e.Child? ensures e.ctrl.depth >= p.depth + 1 { assert Placed(w, e.ctrl); }
        ServDeep(w, done, p, p.depth + 1);
      } else if Child(z) in done {
        UnderDeep(x, z.parent.ctrl);
      } else {
        Disjoint(w, done, x, z.parent.ctrl);
      }
    }
  }

  /** Servicing one more sibling x in the world left by its elder siblings is what
      servicing all of them in the original world does. */
  lemma ServeOne(w: World, m: World, done: seq<Event>, x: Controller)
    requires Shape(w) && Shape(m) && m.Keys == w.Keys && x in w && Known(w, done)
    requires forall e :: e in done && e.Child? ==> e.ctrl.parent == x.parent
    requires Child(x) !in done
    requires forall z :: z in w && x.parent != Node(z) ==> m[z] == ServedW(w, done)[z]
    ensures Left(m, x) == Left(w, x) && Sig(m, [Child(x)]) == Sig(w, [Child(x)])
    ensures SameUnder(w, m, x)
    ensures forall z :: z in w && x.parent != Node(z) ==> ServedW(m, [Child(x)])[z] == ServedW(w, done + [Child(x)])[z]
    ensures assert Placed(w, x); x.parent.Node? ==> ServedW(m, [Child(x)])[x.parent.ctrl] == m[x.parent.ctrl]
  {
    assert Placed(w, x);
    forall z | z in w && Under(x, z) ensures z in m && m[z] == w[z] {
      Disjoint(w, done, x, z);
      UnderDeep(x, z);
    }
    LeftFrame(w, m, x);
    SigFrame(w, m, [Child(x)]);
    forall z | z in w && x.parent != Node(z)
      ensures ServedW(m, [Child(x)])[z] == ServedW(w, done + [Child(x)])[z]
    {
      ServSplit(w, done, [Child(x)], z);
      if Under(x, z) {
        Disjoint(w, done, x, z);
        ServFrame(w, m, x, z);
        forall y | y in w && Under(z, y) ensures y in m && m[y] == w[y] { UnderTrans(x, z, y); }
        AfterFrame(w, m, z);
      } else {
        if Serv(w, [Child(x)], z) { ServUnder(w, x, z); }
        if Serv(m, [Child(x)], z) { ServUnder(m, x, z); }
      }
    }
    if x.parent.Node? && Serv(m, [Child(x)], x.parent.ctrl) {
      ServDeep(m, [Child(x)], x.parent.ctrl, x.depth);
    }
  }

  lemma {:induction false} UnderTrans(x: Controller, z: Controller, y: Controller)
    requires Under(x, z) && Under(z, y)
    ensures Under(x, y)
    decreases y.depth
  {
    if y != z { UnderTrans(x, z, y.parent.ctrl); }
  }

  lemma {:induction false} FiredComplete(w: World, c: Controller, i: nat, j: nat, e: Event)
    requires Shape(w) && c in w && i < j <= LINES && i in Fired(w, c)
    requires assert Placed(w, c); e in w[c].handles[i]
    ensures e in FiredUpTo(w, c, j)
    decreases j
  {
    if i < j - 1 { FiredComplete(w, c, i, j - 1, e); }
  }

  /** Servicing c reaches, besides c, what servicing its pending wait lists reaches. */
  lemma {:induction false} ServChildren(w: World, c: Controller, z: Controller)
    requires Shape(w) && c in w && z in w
    ensures Serv(w, [Child(c)], z) == (z == c || Serv(w, FiredUpTo(w, c, LINES), z))
    decreases z.depth
  {
    var fs := FiredUpTo(w, c, LINES);
    assert Placed(w, z);
    if z != c && z.parent.Node? {
      var p := z.parent.ctrl;
      ServChildren(w, c, p);
      if p == c {
        forall e | e in fs && e.Child? ensures e.ctrl.depth >= c.depth + 1 { assert Placed(w, e.ctrl); }
        if Serv(w, fs, c) { ServDeep(w, fs, c, c.depth + 1); }
        assert Placed(w, c);
        if z.number in Fired(w, c) && Child(z) in w[c].handles[z.number] {
          FiredComplete(w, c, z.number, LINES, Child(z));
        }
      }
    }
  }

  /** What Controller.Set does: the whole cascade below c, then c re-registers if events are left. */
  ghost function SetResult(s: Sys, c: Controller, via: UioController): Sys
    requires Linked(s) && c in s.w && via in s.d
  {
    assert Placed(s.w, c);
    ServedShape(s.w, [Child(c)]);
    var s1 := Served(s, [Child(c)], via);
    if Left(s.w, c) then AddEv(s1, c.parent, Child(c), c.number) else s1
  }

  /** What UioController.UioCallback does. */
  ghost function CallbackResult(s: Sys, u: UioController): Sys
    requires Linked(s) && u in s.d && Known(s.w, s.d[u].events)
  {
    var es := s.d[u].events;
    Sys(ServedW(s.w, es), Deliver(Requeue(s.d, u, Survivors(s.w, es)), u, Sig(s.w, es)))
  }

  /** A device whose wait list is now r, armed exactly if somebody waits. */
  ghost function Requeue(d: map<UioController, Dev>, u: UioController, r: seq<Event>): map<UioController, Dev>
    requires u in d
  {
    d[u := Dev(r, r != [], d[u].delivered)]
  }

  lemma RequeueOne(d: map<UioController, Dev>, u: UioController, r: seq<Event>, e: Event, sig: seq<nat>)
    requires u in d
    ensures var q := Deliver(Requeue(d, u, r), u, sig);
      q[u := Dev(q[u].events + [e], q[u].armed || q[u].events == [], q[u].delivered)]
           == Deliver(Requeue(d, u, r + [e]), u, sig)
  {
  }

  /** Servicing keeps the shape: wait lists only shrink. */
  lemma ServedShape(w: World, es: seq<Event>)
    requires Shape(w)
    ensures Shape(ServedW(w, es))
  {
    var w' := ServedW(w, es);
    forall c | c in w' ensures Placed(w', c) {
      assert Placed(w, c);
      forall i: nat | i < LINES ensures ChildrenAt(w', c, i) { assert ChildrenAt(w, c, i); }
    }
  }

  lemma Snoc<T>(front: seq<T>, xs: seq<T>, k: nat)
    requires k < |xs|
    ensures front + xs[..k + 1] == (front + xs[..k]) + [xs[k]]
    ensures xs[..k + 1] == xs[..k] + [xs[k]]
  {
  }

  lemma TakeNone<T>(front: seq<T>, xs: seq<T>)
    ensures front + xs[..0] == front
  {
  }

  lemma TakeAll<T>(xs: seq<T>)
    ensures xs[..|xs|] == xs
  {
  }

  lemma {:induction false} TotalUpdate(hs: seq<seq<Event>>, i: nat, es: seq<Event>)
    requires i < |hs|
    ensures Total(hs[i := es]) == Total(hs) - |hs[i]| + |es|
  {
    var last := |hs| - 1;
    if i < last {
      assert hs[i := es][..last] == hs[..last][i := es];
      TotalUpdate(hs[..last], i, es);
    } else {
      assert hs[i := es][..last] == hs[..last];
    }
  }

  lemma {:induction false} TotalZero(hs: seq<seq<Event>>)
    ensures Total(hs) == 0 <==> forall i :: 0 <= i < |hs| ==> hs[i] == []
  {
    if hs != [] {
      var last := |hs| - 1;
      TotalZero(hs[..last]);
      assert forall i :: 0 <= i < last ==> hs[..last][i] == hs[i];
    }
  }

  /** c in the middle of its loop: the events in done have been set, c itself is in state cur. */
  ghost function MidSys(s: Sys, c: Controller, done: seq<Event>, cur: St, via: UioController): Sys
    requires Shape(s.w) && Known(s.w, done) && via in s.d && c in s.w
  {
    Put(Served(s, done, via), c, cur)
  }

  /** The wait lists of c once its lines below i are dealt with. */
  ghost function MidHandles(w: World, c: Controller, i: nat): (hs: seq<seq<Event>>)
    requires Shape(w) && c in w && i <= LINES
    ensures |hs| == LINES
  {
    assert Placed(w, c);
    seq(LINES, j requires 0 <= j < LINES => if j < i then KeptAt(w, c, j) else w[c].handles[j])
  }

  /** c between two lines. */
  ghost function BetweenLines(w: World, c: Controller, i: nat): St
    requires Shape(w) && c in w && i <= LINES
  {
    var hs := MidHandles(w, c, i);
    w[c].(handles := hs, count := Total(hs), ier := Busy(hs))
  }

  /** c inside line i, with the first events of the line set; none of the line is uncounted yet. */
  ghost function InLine(w: World, c: Controller, i: nat, k: nat): St
    requires Shape(w) && c in w && i < LINES
    requires assert Placed(w, c); k <= |w[c].handles[i]|
  {
    assert Placed(w, c) && ChildrenAt(w, c, i);
    WithLine(w[c], MidHandles(w, c, i), i, Survivors(w, w[c].handles[i][..k]), |w[c].handles[i]|)
  }

  /** st with wait lists hs but front on line i, and n events not counted off yet. */
  ghost function WithLine(st: St, hs: seq<seq<Event>>, i: nat, front: seq<Event>, n: nat): St
    requires i < |hs|
  {
    st.(handles := hs[i := front], count := Total(hs[i := front]) + n, ier := Busy(hs[i := front]))
  }

  lemma MidLinked(s: Sys, c: Controller, done: seq<Event>, cur: St, via: UioController)
    requires Linked(s) && c in s.w && via in s.d && Known(s.w, done) && |cur.handles| == LINES
    requires assert Placed(s.w, c); forall i, e :: 0 <= i < LINES && e in cur.handles[i] && e.Child? ==>
      e in s.w[c].handles[i]
    ensures Linked(MidSys(s, c, done, cur, via))
  {
    ServedShape(s.w, done);
    var m := MidSys(s, c, done, cur, via).w;
    forall z | z in m ensures Placed(m, z) {
      assert Placed(s.w, z) && Placed(ServedW(s.w, done), z);
      forall i: nat | i < LINES ensures ChildrenAt(m, z, i) {
        assert ChildrenAt(s.w, z, i) && ChildrenAt(ServedW(s.w, done), z, i);
      }
    }
  }

  /** In the middle of c's loop, setting its child x is one more step of c's own pass.
      That c.count is still positive is what stops x's re-registration from climbing further. */
  lemma StepChild(s: Sys, c: Controller, done: seq<Event>, cur: St, via: UioController, x: Controller)
    requires Linked(s) && c in s.w && via in s.d && Known(s.w, done) && x in s.w && x.parent == Node(c)
    requires forall e :: e in done && e.Child? ==> e.ctrl.parent == Node(c)
    requires Child(x) !in done && cur.count != 0 && |cur.handles| == LINES
    requires Linked(MidSys(s, c, done, cur, via))
    ensures SameUnder(s.w, MidSys(s, c, done, cur, via).w, x)
    ensures x.number < LINES
    ensures SetResult(MidSys(s, c, done, cur, via), x, via)
         == MidSys(s, c, done + [Child(x)], if Left(s.w, x) then Pushed(cur, Child(x), x.number) else cur, via)
  {
    var m := MidSys(s, c, done, cur, via);
    ServeOne(s.w, m.w, done, x);
    assert Placed(s.w, x);
    StepChildServed(s, c, done, cur, via, x);
    if Left(s.w, x) {
      PutPut(Served(s, done + [Child(x)], via), c, cur, Pushed(cur, Child(x), x.number));
    }
  }

  lemma StepChildServed(s: Sys, c: Controller, done: seq<Event>, cur: St, via: UioController, x: Controller)
    requires Linked(s) && c in s.w && via in s.d && Known(s.w, done) && x in s.w && x.parent == Node(c)
    requires forall e :: e in done && e.Child? ==> e.ctrl.parent == Node(c)
    requires Child(x) !in done
    requires Linked(MidSys(s, c, done, cur, via))
    ensures Served(MidSys(s, c, done, cur, via), [Child(x)], via) == MidSys(s, c, done + [Child(x)], cur, via)
  {
    var m := MidSys(s, c, done, cur, via);
    ServeOne(s.w, m.w, done, x);
    assert ServedW(m.w, [Child(x)]) == MidSys(s, c, done + [Child(x)], cur, via).w;
    SigOne(s.w, done, Child(x));
    DeliverTwice(s.d, via, Sig(s.w, done), Sig(s.w, [Child(x)]));
  }

  /** Setting a leaf event only records it. */
  lemma StepLeaf(s: Sys, c: Controller, done: seq<Event>, cur: St, via: UioController, l: nat)
    requires Linked(s) && c in s.w && via in s.d && Known(s.w, done)
    ensures var m := MidSys(s, c, done, cur, via);
      MidSys(s, c, done + [Leaf(l)], cur, via) == Sys(m.w, Deliver(m.d, via, [l]))
  {
    ServedLeaf(s.w, done, l);
    SigOne(s.w, done, Leaf(l));
    SigLeaf(s.w, l);
    DeliverTwice(s.d, via, Sig(s.w, done), [l]);
  }

  lemma ServedLeaf(w: World, done: seq<Event>, l: nat)
    requires Shape(w)
    ensures ServedW(w, done + [Leaf(l)]) == ServedW(w, done)
  {
    forall z | z in w ensures Serv(w, done + [Leaf(l)], z) == Serv(w, done, z) {
      ServSplit(w, done, [Leaf(l)], z);
      if Serv(w, [Leaf(l)], z) { ServDeep(w, [Leaf(l)], z, z.depth + 1); }
    }
  }

  lemma SigOne(w: World, done: seq<Event>, e: Event)
    requires Shape(w) && Known(w, done) && Known(w, [e])
    ensures Sig(w, done + [e]) == Sig(w, done) + Sig(w, [e])
  {
    assert (done + [e])[..|done|] == done;
    assert [e][..0] == [];
  }

  lemma SigLeaf(w: World, l: nat)
    requires Shape(w)
    ensures Sig(w, [Leaf(l)]) == [l]
  {
    assert [Leaf(l)][..0] == [];
  }

  lemma SigChild(w: World, x: Controller)
    requires Shape(w) && x in w
    ensures Sig(w, [Child(x)]) == Sig(w, FiredUpTo(w, x, LINES))
  {
    assert [Child(x)][..0] == [];
  }

  /** Putting the whole pass of c together. */
  lemma WholePass(s: Sys, c: Controller, via: UioController)
    requires Linked(s) && c in s.w && via in s.d
    ensures MidSys(s, c, FiredUpTo(s.w, c, LINES), After(s.w, c), via) == Served(s, [Child(c)], via)
  {
    var fs := FiredUpTo(s.w, c, LINES);
    forall z | z in s.w && z != c ensures Serv(s.w, [Child(c)], z) == Serv(s.w, fs, z) { ServChildren(s.w, c, z); }
    assert MidSys(s, c, fs, After(s.w, c), via).w == ServedW(s.w, [Child(c)]);
    SigChild(s.w, c);
  }

  lemma LeftCount(w: World, c: Controller)
    requires Shape(w) && c in w
    ensures Left(w, c) <==> Total(Kept(w, c)) != 0
  {
    TotalZero(Kept(w, c));
    assert Placed(w, c);
    forall i: nat | i < LINES ensures LeftAt(w, c, i) <==> KeptAt(w, c, i) != [] {
      assert ChildrenAt(w, c, i);
      var r := Survivors(w, w[c].handles[i]);
      if i in Fired(w, c) && r != [] { assert r[0] in r; }
    }
  }

  lemma SkipLine(w: World, c: Controller, i: nat)
    requires Shape(w) && c in w && i < LINES && i !in Fired(w, c)
    ensures MidHandles(w, c, i + 1) == MidHandles(w, c, i)
    ensures FiredUpTo(w, c, i + 1) == FiredUpTo(w, c, i)
  {
    assert Placed(w, c);
    var a, b := MidHandles(w, c, i), MidHandles(w, c, i + 1);
    assert KeptAt(w, c, i) == w[c].handles[i];
    forall j | 0 <= j < LINES ensures b[j] == a[j] { }
    assert FiredUpTo(w, c, i) + [] == FiredUpTo(w, c, i);
  }

  lemma {:induction false} SkipLines(w: World, c: Controller, i: nat)
    requires Shape(w) && c in w && i <= LINES
    requires forall j :: i <= j < LINES ==> j !in Fired(w, c)
    ensures MidHandles(w, c, LINES) == MidHandles(w, c, i)
    ensures FiredUpTo(w, c, LINES) == FiredUpTo(w, c, i)
    decreases LINES - i
  {
    if i < LINES { SkipLine(w, c, i); SkipLines(w, c, i + 1); }
  }

  lemma EnterLine(w: World, c: Controller, i: nat)
    requires Shape(w) && c in w && i < LINES && Tidy(w[c])
    ensures var b := BetweenLines(w, c, i);
      assert Placed(w, c);
      InLine(w, c, i, 0) == b.(handles := b.handles[i := []], ier := b.ier - {i})
  {
    assert Placed(w, c);
    assert w[c].handles[i][..0] == [];
    TotalUpdate(MidHandles(w, c, i), i, []);
  }

  lemma InLineStep(w: World, c: Controller, i: nat, k: nat)
    requires Shape(w) && c in w && i < LINES && Tidy(w[c])
    requires assert Placed(w, c); k < |w[c].handles[i]|
    ensures var e := w[c].handles[i][k];
      var a := InLine(w, c, i, k);
      assert Placed(w, c) && ChildrenAt(w, c, i);
      InLine(w, c, i, k + 1) == if e.Child? && Left(w, e.ctrl) then Pushed(a, e, i) else a
  {
    assert Placed(w, c) && ChildrenAt(w, c, i);
    SomebodyWaits(w[c], i);
    SetLineStep(w, w[c], MidHandles(w, c, i), i, w[c].handles[i], k);
  }

  lemma SomebodyWaits(st: St, i: nat)
    requires Tidy(st) && i < |st.handles| && st.handles[i] != []
    ensures st.count > 0 && st.mer
  {
    TotalZero(st.handles);
  }

  lemma SetLineStep(w: World, st: St, hs: seq<seq<Event>>, i: nat, es: seq<Event>, k: nat)
    requires Shape(w) && Known(w, es) && k < |es| && i < |hs| && st.mer
    ensures var a := WithLine(st, hs, i, Survivors(w, es[..k]), |es|);
      WithLine(st, hs, i, Survivors(w, es[..k + 1]), |es|)
      == if es[k].Child? && Left(w, es[k].ctrl) then Pushed(a, es[k], i) else a
  {
    assert es[..k + 1] == es[..k] + [es[k]];
    SurvivorsOne(w, es[..k], es[k]);
    var front := Survivors(w, es[..k]);
    assert front + [] == front;
    PushLine(st, hs, i, front, es[k], |es|);
  }

  lemma PushLine(st: St, hs: seq<seq<Event>>, i: nat, front: seq<Event>, e: Event, n: nat)
    requires i < |hs| && st.mer
    ensures WithLine(st, hs, i, front + [e], n) == Pushed(WithLine(st, hs, i, front, n), e, i)
  {
    TotalUpdate(hs, i, front);
    TotalUpdate(hs, i, front + [e]);
    assert hs[i := front][i := hs[i := front][i] + [e]] == hs[i := front + [e]];
    assert Busy(hs[i := front + [e]]) == Busy(hs[i := front]) + {i};
  }

  lemma LeaveLine(w: World, c: Controller, i: nat)
    requires Shape(w) && c in w && i < LINES && i in Fired(w, c)
    ensures assert Placed(w, c);
      var n := |w[c].handles[i]|;
      var a := InLine(w, c, i, n);
      BetweenLines(w, c, i + 1) == a.(count := a.count - n)
    ensures FiredUpTo(w, c, i + 1) == FiredUpTo(w, c, i) + w[c].handles[i]
  {
    assert Placed(w, c) && ChildrenAt(w, c, i);
    var es := w[c].handles[i];
    assert es[..|es|] == es;
    assert MidHandles(w, c, i + 1) == MidHandles(w, c, i)[i := Survivors(w, es)];
  }

  /** What may have been set before the k-th event on line i: children on lower lines, and the
      events in front of it. */
  ghost predicate SoFar(w: World, c: Controller, i: nat, k: nat, done: seq<Event>)
    requires Shape(w) && c in w && i < LINES
  {
    assert Placed(w, c);
    && k <= |w[c].handles[i]|
    && Known(w, done)
    && (forall e :: e in done && e.Child? ==>
         e.ctrl.parent == Node(c) && (e.ctrl.number < i || e in w[c].handles[i][..k]))
  }

  lemma SoFarStep(w: World, c: Controller, i: nat, k: nat, done: seq<Event>)
    requires Shape(w) && c in w && i < LINES && SoFar(w, c, i, k, done)
    requires assert Placed(w, c); k < |w[c].handles[i]|
    ensures SoFar(w, c, i, k + 1, done + [w[c].handles[i][k]])
  {
    assert Placed(w, c) && ChildrenAt(w, c, i);
    var es := w[c].handles[i];
    assert es[..k + 1] == es[..k] + [es[k]];
    forall e | e in done + [es[k]] && e.Child?
      ensures e.ctrl.parent == Node(c) && (e.ctrl.number < i || e in es[..k + 1])
    {
      assert e in done || e == es[k];
    }
  }

  /** The k-th event on the line is a child that has not been set yet in this pass. */
  lemma ChildReady(s: Sys, c: Controller, i: nat, k: nat, done: seq<Event>, via: UioController)
    requires Linked(s) && c in s.w && i < LINES && TidyUnder(s, c) && via in s.d && SoFar(s.w, c, i, k, done)
    requires assert Placed(s.w, c); k < |s.w[c].handles[i]| && s.w[c].handles[i][k].Child?
    ensures assert Placed(s.w, c) && ChildrenAt(s.w, c, i);
      var x := s.w[c].handles[i][k].ctrl;
      && x in s.w && x.parent == Node(c) && x.number == i && x.height < c.height
      && Child(x) !in done
      && (forall e :: e in done && e.Child? ==> e.ctrl.parent == Node(c))
      && InLine(s.w, c, i, k).count != 0 && |InLine(s.w, c, i, k).handles| == LINES
      && Linked(MidSys(s, c, done, InLine(s.w, c, i, k), via))
      && (SameUnder(s.w, MidSys(s, c, done, InLine(s.w, c, i, k), via).w, x)
          ==> TidyUnder(MidSys(s, c, done, InLine(s.w, c, i, k), via), x))
  {
    assert Placed(s.w, c) && ChildrenAt(s.w, c, i) && Under(c, c) && Tidy(s.w[c]);
    var es := s.w[c].handles[i];
    var x := es[k].ctrl;
    assert NoDup(es);
    var cur := InLine(s.w, c, i, k);
    forall j, e | 0 <= j < LINES && e in cur.handles[j] && e.Child? ensures e in s.w[c].handles[j] {
      assert ChildrenAt(s.w, c, j);
    }
    MidLinked(s, c, done, cur, via);
    var m := MidSys(s, c, done, cur, via);
    if SameUnder(s.w, m.w, x) {
      forall z | z in m.w && Under(x, z) ensures Tidy(m.w[z]) { UnderChild(s.w, c, x, z); }
    }
  }

  lemma TidyHere(s: Sys, c: Controller)
    requires Linked(s) && TidyUnder(s, c) && c in s.w
    ensures Tidy(s.w[c]) && (forall i :: i in Fired(s.w, c) ==> 0 <= i < LINES)
  {
    assert Under(c, c) && Placed(s.w, c);
  }

  /** The count left after the pass decides whether c re-registers. */
  lemma SetEnds(s: Sys, c: Controller, via: UioController)
    requires Linked(s) && c in s.w && via in s.d
    ensures Shape(s.w) && Known(s.w, [Child(c)])
    ensures var s1 := Served(s, [Child(c)], via);
      && Linked(s1) && Fits(s1, c.parent, Child(c), c.number)
      && SetResult(s, c, via) == if After(s.w, c).count != 0 then AddEv(s1, c.parent, Child(c), c.number) else s1
  {
    assert Placed(s.w, c);
    ServedShape(s.w, [Child(c)]);
    LeftCount(s.w, c);
  }

  /** Before its first line, nothing has happened. */
  lemma StartPass(s: Sys, c: Controller, via: UioController)
    requires Linked(s) && c in s.w && via in s.d && Tidy(s.w[c])
    ensures BetweenLines(s.w, c, 0) == s.w[c]
    ensures MidSys(s, c, FiredUpTo(s.w, c, 0), s.w[c], via) == s
  {
    assert Placed(s.w, c);
    assert MidHandles(s.w, c, 0) == s.w[c].handles;
    forall z | z in s.w ensures !Serv(s.w, [], z) {
      if Serv(s.w, [], z) { ServDeep(s.w, [], z, z.depth + 1); }
    }
    assert ServedW(s.w, []) == s.w;
    assert s.d[via].delivered + [] == s.d[via].delivered;
    assert Deliver(s.d, via, []) == s.d;
    assert s.w[c := s.w[c]] == s.w;
  }

  /** The device in the middle of its callback: the events in done have been set. */
  ghost function MidDevice(s: Sys, u: UioController, done: seq<Event>): Sys
    requires Shape(s.w) && Known(s.w, done) && u in s.d
  {
    Sys(ServedW(s.w, done), Deliver(Requeue(s.d, u, Survivors(s.w, done)), u, Sig(s.w, done)))
  }

  /** Nothing but top-level controllers and leaf events waits on a device, each controller once. */
  ghost predicate DeviceOk(s: Sys, u: UioController)
    requires u in s.d
  {
    && (forall e :: e in s.d[u].events && e.Child? ==> e.ctrl in s.w && e.ctrl.parent == Root(u))
    && NoDup(s.d[u].events)
    && (s.d[u].events != [] ==> s.d[u].armed)
  }

  lemma MidDeviceLinked(s: Sys, u: UioController, done: seq<Event>)
    requires Linked(s) && Known(s.w, done) && u in s.d
    ensures Linked(MidDevice(s, u, done))
  {
    ServedShape(s.w, done);
  }

  /** The same for a top-level controller, whose parent is no controller. */
  lemma ServeTop(w: World, m: World, u: UioController, done: seq<Event>, x: Controller)
    requires Shape(w) && Shape(m) && m == ServedW(w, done) && x in w && Known(w, done) && x.parent == Root(u)
    requires forall e :: e in done && e.Child? ==> e.ctrl.parent == Root(u)
    requires Child(x) !in done
    ensures Left(m, x) == Left(w, x) && Sig(m, [Child(x)]) == Sig(w, [Child(x)])
    ensures SameUnder(w, m, x)
    ensures ServedW(m, [Child(x)]) == ServedW(w, done + [Child(x)])
  {
    ServeOne(w, m, done, x);
    var m1, w1 := ServedW(m, [Child(x)]), ServedW(w, done + [Child(x)]);
    forall z | z in w ensures m1[z] == w1[z] { assert x.parent != Node(z); }
  }

  /** One more top-level controller set in the middle of the callback. */
  lemma StepTop(s: Sys, u: UioController, done: seq<Event>, x: Controller)
    requires Linked(s) && Known(s.w, done) && u in s.d && x in s.w && x.parent == Root(u)
    requires forall e :: e in done && e.Child? ==> e.ctrl.parent == Root(u)
    requires Child(x) !in done
    ensures Linked(MidDevice(s, u, done)) && x in MidDevice(s, u, done).w
    ensures SameUnder(s.w, MidDevice(s, u, done).w, x)
    ensures SetResult(MidDevice(s, u, done), x, u) == MidDevice(s, u, done + [Child(x)])
  {
    MidDeviceLinked(s, u, done);
    ServeTop(s.w, ServedW(s.w, done), u, done, x);
    SigOne(s.w, done, Child(x));
    SurvivorsOne(s.w, done, Child(x));
    var r, a, b := Survivors(s.w, done), Sig(s.w, done), Sig(s.w, [Child(x)]);
    DeliverTwice(Requeue(s.d, u, r), u, a, b);
    RequeueOne(s.d, u, r, Child(x), a + b);
    var m := MidDevice(s, u, done);
    assert m.w == ServedW(s.w, done);
    ServedShape(m.w, [Child(x)]);
    var m1 := Served(m, [Child(x)], u);
    assert m1.w == ServedW(s.w, done + [Child(x)]);
    assert m1.d == Deliver(Requeue(s.d, u, r), u, a + b);
    var next := MidDevice(s, u, done + [Child(x)]);
    if Left(s.w, x) {
      assert Survivors(s.w, done + [Child(x)]) == r + [Child(x)];
      assert Linked(m1);
      assert AddEv(m1, x.parent, Child(x), x.number).d == next.d;
    } else {
      assert Survivors(s.w, done + [Child(x)]) == r;
    }
  }

  lemma FrontOk(s: Sys, u: UioController, es: seq<Event>, k: nat)
    requires u in s.d && DeviceOk(s, u) && es == s.d[u].events && k < |es|
    ensures Known(s.w, es[..k]) && Known(s.w, es[..k + 1]) && Known(s.w, es)
    ensures forall f :: f in es[..k] && f.Child? ==> f.ctrl.parent == Root(u)
    ensures es[k].Child? ==> es[k].ctrl in s.w && es[k].ctrl.parent == Root(u) && es[k] !in es[..k]
    ensures es[..k + 1] == es[..k] + [es[k]]
  {
  }

  lemma TopReady(s: Sys, u: UioController, done: seq<Event>, x: Controller)
    requires Linked(s) && Known(s.w, done) && u in s.d && x in s.w
    requires AllTidy(s)
    requires SameUnder(s.w, MidDevice(s, u, done).w, x)
    ensures TidyUnder(MidDevice(s, u, done), x)
  {
  }

  lemma StepTopLeaf(s: Sys, u: UioController, done: seq<Event>, l: nat)
    requires Linked(s) && Known(s.w, done) && u in s.d
    ensures var m := MidDevice(s, u, done);
      MidDevice(s, u, done + [Leaf(l)]) == Sys(m.w, Deliver(m.d, u, [l]))
  {
    ServedLeaf(s.w, done, l);
    SigOne(s.w, done, Leaf(l));
    SigLeaf(s.w, l);
    SurvivorsOne(s.w, done, Leaf(l));
    assert Survivors(s.w, done) + [] == Survivors(s.w, done);
    DeliverTwice(Requeue(s.d, u, Survivors(s.w, done)), u, Sig(s.w, done), [l]);
  }

  lemma SurvivorsOne(w: World, done: seq<Event>, e: Event)
    requires Shape(w) && Known(w, done) && Known(w, [e])
    ensures Survivors(w, done + [e]) == Survivors(w, done) + (if e.Child? && Left(w, e.ctrl) then [e] else [])
  {
    assert (done + [e])[..|done|] == done;
  }

  lemma StartDevice(s: Sys, u: UioController)
    requires Linked(s) && u in s.d
    ensures MidDevice(s, u, []) == Sys(s.w, s.d[u := Dev([], false, s.d[u].delivered)])
    ensures Known(s.w, s.d[u].events) ==> MidDevice(s, u, s.d[u].events) == CallbackResult(s, u)
  {
    forall z | z in s.w ensures !Serv(s.w, [], z) {
      if Serv(s.w, [], z) { ServDeep(s.w, [], z, z.depth + 1); }
    }
    assert ServedW(s.w, []) == s.w;
    assert s.d[u].delivered + [] == s.d[u].delivered;
  }

  /** Registering above c does not look at c. */
  lemma {:induction false} AddEvFrame(s: Sys, c: Controller, st: St, t: Parent, e: Event, n: nat)
    requires Linked(s) && Fits(s, t, e, n) && c in s.w && Depth(t) <= c.depth
    requires Linked(Put(s, c, st))
    ensures AddEv(Put(s, c, st), t, e, n) == Put(AddEv(s, t, e, n), c, st)
    decreases Depth(t)
  {
    if t.Node? {
      var p := t.ctrl;
      assert Placed(s.w, p);
      if s.w[p].count == 0 {
        AddEvFrame(s, c, st, p.parent, Child(p), p.number);
        PutCommute(AddEv(s, p.parent, Child(p), p.number), c, st, p, Pushed(s.w[p], e, n));
      } else {
        PutCommute(s, c, st, p, Pushed(s.w[p], e, n));
      }
    }
  }

  lemma PutPut(s: Sys, c: Controller, a: St, b: St)
    ensures Put(Put(s, c, a), c, b) == Put(s, c, b)
  {
    assert s.w[c := a][c := b] == s.w[c := b];
  }

  lemma PutCommute(s: Sys, c: Controller, st: St, p: Controller, pst: St)
    requires c != p
    ensures Put(Put(s, c, st), p, pst) == Put(Put(s, p, pst), c, st)
  {
    assert s.w[c := st][p := pst] == s.w[p := pst][c := st];
  }

  // ---------------------------------------------------------------- the runtime

  /** The lines selected by a register value. */
  function Lines(mask: nat): set<nat> {
    set i: nat | i < LINES && Bit(mask, i)
  }

  function Word(lines: set<nat>, from: nat, n: nat): nat
    decreases n
  {
    if n == 0 then 0 else (if from in lines then 1 else 0) + 2 * Word(lines, from + 1, n - 1)
  }

  lemma {:induction false} WordBit(lines: set<nat>, from: nat, n: nat, i: nat)
    ensures Bit(Word(lines, from, n), i) == (i < n && from + i in lines)
    decreases n
  {
    if n == 0 { BitZero(i); }
    else {
      assert Word(lines, from, n) / 2 == Word(lines, from + 1, n - 1);
      if i > 0 { WordBit(lines, from + 1, n - 1, i - 1); }
    }
  }

  lemma OneLine(i: nat)
    requires i < LINES
    ensures Lines(Shl(1, i)) == {i}
  {
    forall j: nat ensures Bit(Shl(1, i), j) == (j == i) {
      BitShl(1, i, j);
      if j >= i { BitOne(j - i); }
    }
  }

  /** A non-zero rest of the pending word has a line left to look at. */
  lemma {:induction false} RestIsZero(x: nat)
    requires forall i: nat :: !Bit(x, i)
    ensures x == 0
  {
    forall i: nat ensures Bit(x, i) == Bit(0, i) { BitZero(i); }
    SameBits(x, 0);
  }

  lemma LineLeft(irqs: nat, irq: nat)
    requires Shr(irqs, irq) != 0 && forall i: nat :: i >= LINES ==> !Bit(irqs, i)
    ensures irq < LINES
  {
    if irq >= LINES {
      forall i: nat ensures !Bit(Shr(irqs, irq), i) { BitShr(irqs, irq, i); }
      RestIsZero(Shr(irqs, irq));
    }
  }

  lemma NoLineLeft(irqs: nat, irq: nat)
    requires Shr(irqs, irq) == 0
    ensures forall i: nat :: i >= irq ==> !Bit(irqs, i)
  {
    forall i: nat | i >= irq ensures !Bit(irqs, i) {
      BitShr(irqs, irq, i - irq);
      BitZero(i - irq);
    }
  }

  lemma PendingLines(irqs: nat, lines: set<nat>)
    requires forall i :: i in lines ==> 0 <= i < LINES
    requires forall i: nat :: Bit(irqs, i) == (i < LINES && i in lines)
    ensures Lines(irqs) == lines
  {
  }

  /** A controller nobody waits on yet: its constructor clears the enable register. */
  ghost function Unused(): St {
    St(seq(LINES, _ => []), 0, {}, {}, false, 0)
  }

  /** The class-level state of the driver: the cached controllers and the opened UIO devices. */
  class System {
    var controllers: seq<Controller>
    var devices: map<int, UioController>

    constructor ()
      ensures controllers == [] && devices == map[]
    {
      controllers, devices := [], map[];
    }

    ghost function All(): set<Controller>
      reads this
    {
      set c | c in controllers
    }

    ghost function Devices(): set<UioController>
      reads this
    {
      devices.Values
    }

    ghost function Controllers(): World
      reads this, All()
    {
      map c | c in All() :: c.State()
    }

    ghost function DeviceStates(): map<UioController, Dev>
      reads this, Devices()
    {
      map u | u in Devices() :: u.State()
    }

    ghost function State(): Sys
      reads this, All(), Devices()
    {
      Sys(Controllers(), DeviceStates())
    }
  }

  class UioController {
    var waitEvents: seq<Event>
    var armed: bool
    ghost var delivered: seq<nat>

    constructor ()
      ensures State() == Dev([], false, [])
    {
      waitEvents, armed, delivered := [], false, [];
    }

    ghost function State(): Dev
      reads this
    {
      Dev(waitEvents, armed, delivered)
    }

    method AddEvent(event: Event, number: nat, ghost sys: System)
      requires this in sys.Devices() && Linked(sys.State()) && Fits(sys.State(), Root(this), event, number)
      modifies this
      ensures sys.State() == AddEv(old(sys.State()), Root(this), event, number)
    {
      if waitEvents == [] { armed := true; }
      waitEvents := waitEvents + [event];
      OnlyMe(sys);
    }

    /** The device's interrupt has fired, which disarmed it: set every waiting event. */
    method UioCallback(ghost sys: System)
      requires this in sys.Devices() && Linked(sys.State()) && DeviceOk(sys.State(), this)
      requires AllTidy(sys.State())
      modifies sys.All(), sys.Devices()
      ensures Known(old(sys.State()).w, old(sys.State()).d[this].events)
      ensures sys.State() == CallbackResult(old(sys.State()), this)
    {
      hide *;
      ghost var s0 := sys.State();
      var currentEvents := TakeEvents(s0, sys);
      var k := 0;
      TakeAll(currentEvents);
      while k < |currentEvents|
        invariant k <= |currentEvents| && this in sys.Devices() && Known(s0.w, currentEvents[..k])
        invariant sys.State() == MidDevice(s0, this, currentEvents[..k])
      {
        FrontOk(s0, this, currentEvents, k);
        SetTop(currentEvents[k], currentEvents[..k], s0, sys);
        k := k + 1;
      }
    }

    /** The events waiting on the disarmed device, which it forgets. */
    method TakeEvents(ghost s0: Sys, ghost sys: System) returns (events: seq<Event>)
      requires this in sys.Devices() && s0 == sys.State() && Linked(s0) && DeviceOk(s0, this)
      modifies this
      ensures this in s0.d && events == s0.d[this].events && Shape(s0.w) && Known(s0.w, events)
      ensures Known(s0.w, events[..0])
      ensures sys.State() == MidDevice(s0, this, events[..0]) && MidDevice(s0, this, events) == CallbackResult(s0, this)
    {
      hide MidDevice, Shape;
      armed := false;
      events := waitEvents;
      waitEvents := [];
      OnlyMe(sys);
      StartDevice(s0, this);
    }

    /** e.set() for one event of the device. */
    method SetTop(e: Event, ghost done: seq<Event>, ghost s0: Sys, ghost sys: System)
      requires this in sys.Devices() && Linked(s0) && AllTidy(s0) && this in s0.d
      requires Known(s0.w, done) && forall f :: f in done && f.Child? ==> f.ctrl.parent == Root(this)
      requires e.Child? ==> e.ctrl in s0.w && e.ctrl.parent == Root(this) && e !in done
      requires sys.State() == MidDevice(s0, this, done)
      modifies sys.All(), sys.Devices()
      ensures sys.State() == MidDevice(s0, this, done + [e])
    {
      hide MidDevice, Shape, SetResult, TidyUnder, AllTidy;
      match e
      case Leaf(l) =>
        SetLeaf(l, sys);
        StepTopLeaf(s0, this, done, l);
      case Child(x) =>
        StepTop(s0, this, done, x);
        TopReady(s0, this, done, x);
        assert x in sys.All();
        x.Set(this, sys);
    }

    /** A leaf event only records that it was set. */
    ghost method SetLeaf(l: nat, sys: System)
      requires this in sys.Devices()
      modifies this
      ensures sys.State() == Sys(old(sys.State()).w, Deliver(old(sys.State()).d, this, [l]))
    {
      delivered := delivered + [l];
      OnlyMe(sys);
    }

    /** Only this device has changed since the old state. */
    twostate lemma OnlyMe(sys: System)
      requires old(allocated(sys)) && old(allocated(sys.All())) && old(allocated(sys.Devices()))
      requires unchanged(sys) && this in sys.Devices()
      requires forall c :: c in sys.All() ==> unchanged(c)
      requires forall u :: u in sys.Devices() && u != this ==> unchanged(u)
      ensures sys.State() == old(sys.State()).(d := old(sys.State()).d[this := State()])
    {
      assert sys.DeviceStates() == old(sys.DeviceStates())[this := State()];
      assert sys.Controllers() == old(sys.Controllers());
    }
  }

  class Controller {
    const name: string
    const parent: Parent
    const number: nat
    // position in the tree: depth grows downwards, height grows upwards
    ghost const depth: nat
    ghost const height: nat
    var waitHandles: seq<seq<Event>>
    var eventNumber: int
    // the device's registers
    var ier: set<nat>
    var isr: set<nat>
    var mer: bool
    ghost var services: nat

    constructor (name: string, parent: Parent, number: nat, ghost depth: nat, ghost height: nat)
      ensures this.name == name && this.parent == parent && this.number == number
      ensures this.depth == depth && this.height == height
      ensures State() == Unused()
    {
      this.name, this.parent, this.number, this.depth, this.height := name, parent, number, depth, height;
      waitHandles := seq(LINES, _ => []);
      eventNumber, ier, isr, mer, services := 0, {}, {}, false, 0;
    }

    ghost function State(): St
      reads this
    {
      St(waitHandles, eventNumber, ier, isr, mer, services)
    }

    /** Read IPR: the latched lines that are enabled. */
    method ReadIpr() returns (irqs: nat)
      ensures forall i: nat :: Bit(irqs, i) == (i < LINES && i in isr * ier)
    {
      irqs := Word(isr * ier, 0, LINES);
      forall i: nat ensures Bit(irqs, i) == (i < LINES && i in isr * ier) { WordBit(isr * ier, 0, LINES, i); }
    }

    method Write(offset: nat, value: nat)
      modifies `ier, `isr, `mer
      ensures ier == (if offset == IER then Lines(value)
                      else if offset == SIE then old(ier) + Lines(value)
                      else if offset == CIE then old(ier) - Lines(value)
                      else old(ier))
      ensures isr == (if offset == IAR then old(isr) - Lines(value) else old(isr))
      ensures mer == (if offset == MER then value == 3 else old(mer))
    {
      if offset == IER { ier := Lines(value); }
      else if offset == SIE { ier := ier + Lines(value); }
      else if offset == CIE { ier := ier - Lines(value); }
      else if offset == IAR { isr := isr - Lines(value); }
      else if offset == MER { mer := value == 3; }
    }

    /** Only this controller has changed since the old state. */
    twostate lemma OnlyMe(sys: System)
      requires old(allocated(sys)) && old(allocated(sys.All())) && old(allocated(sys.Devices()))
      requires unchanged(sys) && this in sys.All()
      requires forall c :: c in sys.All() && c != this ==> unchanged(c)
      requires forall u :: u in sys.Devices() ==> unchanged(u)
      ensures sys.State() == Put(old(sys.State()), this, State())
    {
      assert sys.Controllers() == old(sys.Controllers())[this := State()];
      assert sys.DeviceStates() == old(sys.DeviceStates());
    }

    /** self.parent.add_event(self, self.number) */
    method RegisterSelf(ghost sys: System)
      requires this in sys.All() && Linked(sys.State())
      modifies sys.All(), sys.Devices()
      ensures Fits(old(sys.State()), parent, Child(this), number)
      ensures sys.State() == AddEv(old(sys.State()), parent, Child(this), number)
      ensures State() == old(State())
      decreases depth, 0
    {
      ghost var s := sys.State();
      assert Placed(s.w, this);
      match parent {
        case Root(u) => u.AddEvent(Child(this), number, sys);
        case Node(p) => p.AddEvent(Child(this), number, sys);
      }
      assert sys.State().w[this] == State();
    }

    method AddEvent(event: Event, number: nat, ghost sys: System)
      requires this in sys.All() && Linked(sys.State()) && Fits(sys.State(), Node(this), event, number)
      modifies sys.All(), sys.Devices()
      ensures sys.State() == AddEv(old(sys.State()), Node(this), event, number)
      decreases depth, 1
    {
      ghost var s := sys.State();
      assert Placed(s.w, this);
      hide AddEv, Shape;
      EnableLine(number, sys);
      ghost var mine := State();
      TouchRegs(s, this, mine);
      if eventNumber == 0 {
        RegisterSelf(sys);
        AddEvFrame(s, this, mine, parent, Child(this), this.number);
      }
      ghost var s1 := if s.w[this].count == 0 then AddEv(s, parent, Child(this), this.number) else s;
      assert sys.State() == Put(s1, this, mine);
      Append(event, number, sys);
      AddEvSteps(s, this, event, number, s1, mine, State());
    }

    /** Service this controller: set the events on every pending line, acknowledge, and
        re-register with the parent if events are left.  via is the UIO device whose
        interrupt is being handled. */
    method Set(ghost via: UioController, ghost sys: System)
      requires this in sys.All() && via in sys.Devices() && Linked(sys.State())
      requires TidyUnder(sys.State(), this)
      modifies sys.All(), sys.Devices()
      ensures sys.State() == SetResult(old(sys.State()), this, via)
      decreases height, 4
    {
      hide *;
      ghost var s0 := sys.State();
      var irqs := ReadPending(s0, via, sys);
      SetEnds(s0, this, via);
      ServicePending(irqs, via, sys);
      Acknowledge(irqs, s0, via, sys);
      if eventNumber != 0 {
        RegisterSelf(sys);
      }
    }

    /** The pending word, and the lines it stands for. */
    method ReadPending(ghost s0: Sys, ghost via: UioController, ghost sys: System) returns (irqs: nat)
      requires this in sys.All() && via in sys.Devices() && s0 == sys.State() && Linked(s0) && TidyUnder(s0, this)
      ensures sys.State() == s0 && this in s0.w && via in s0.d && Lines(irqs) == Fired(s0.w, this)
      ensures forall i: nat :: Bit(irqs, i) == (i < LINES && i in isr * ier)
    {
      assert this in s0.w && s0.w[this] == State();
      TidyHere(s0, this);
      irqs := ReadIpr();
      assert isr * ier == Fired(s0.w, this);
      PendingLines(irqs, isr * ier);
    }

    /** The end of Set: acknowledge what was pending. */
    method Acknowledge(irqs: nat, ghost s0: Sys, ghost via: UioController, ghost sys: System)
      requires this in sys.All() && Linked(s0) && this in s0.w && via in s0.d
      requires Lines(irqs) == Fired(s0.w, this)
      requires State() == BetweenLines(s0.w, this, LINES)
      requires sys.State() == MidSys(s0, this, FiredUpTo(s0.w, this, LINES), State(), via)
      modifies this
      ensures State() == After(s0.w, this) && eventNumber == After(s0.w, this).count
      ensures sys.State() == Served(s0, [Child(this)], via)
    {
      Write(IAR, irqs);
      services := services + 1;
      OnlyMe(sys);
      assert MidHandles(s0.w, this, LINES) == Kept(s0.w, this);
      PutPut(Served(s0, FiredUpTo(s0.w, this, LINES), via), this, BetweenLines(s0.w, this, LINES), State());
      WholePass(s0, this, via);
    }

    /** Set's loop over the pending word, lowest line first. */
    method ServicePending(irqs: nat, ghost via: UioController, ghost sys: System)
      requires this in sys.All() && via in sys.Devices() && Linked(sys.State())
      requires TidyUnder(sys.State(), this)
      requires forall i: nat :: Bit(irqs, i) == (i < LINES && i in isr * ier)
      modifies sys.All(), sys.Devices()
      ensures State() == BetweenLines(old(sys.State()).w, this, LINES)
      ensures sys.State() == MidSys(old(sys.State()), this, FiredUpTo(old(sys.State()).w, this, LINES), State(), via)
      decreases height, 3
    {
      ghost var s0 := sys.State();
      TidyHere(s0, this);
      StartPass(s0, this, via);
      var work, irq := irqs, 0;
      while work != 0
        invariant irq <= LINES && work == Shr(irqs, irq)
        invariant State() == BetweenLines(s0.w, this, irq)
        invariant sys.State() == MidSys(s0, this, FiredUpTo(s0.w, this, irq), State(), via)
        decreases work
      {
        LineLeft(irqs, irq);
        ShrStep(irqs, irq);
        if work % 2 == 1 {
          ServiceLine(irq, s0, via, sys);
        } else {
          SkipLine(s0.w, this, irq);
        }
        work := work / 2;
        irq := irq + 1;
      }
      NoLineLeft(irqs, irq);
      SkipLines(s0.w, this, irq);
    }

    /** One pending line of Set's loop: disable it, take its wait list, set every event on it,
        and only then take them off the count. */
    method ServiceLine(irq: nat, ghost s0: Sys, ghost via: UioController, ghost sys: System)
      requires this in sys.All() && via in sys.Devices() && Linked(s0) && TidyUnder(s0, this)
      requires irq < LINES && this in s0.w && irq in Fired(s0.w, this) && via in s0.d
      requires State() == BetweenLines(s0.w, this, irq)
      requires sys.State() == MidSys(s0, this, FiredUpTo(s0.w, this, irq), State(), via)
      modifies sys.All(), sys.Devices()
      ensures State() == BetweenLines(s0.w, this, irq + 1)
      ensures sys.State() == MidSys(s0, this, FiredUpTo(s0.w, this, irq + 1), State(), via)
      decreases height, 2
    {
      var events := TakeLine(irq, s0, via, sys);
      SetAll(irq, events, FiredUpTo(s0.w, this, irq), s0, via, sys);
      CountOff(irq, events, s0, via, sys);
    }

    /** for e in events: e.set() */
    method SetAll(irq: nat, events: seq<Event>, ghost before: seq<Event>, ghost s0: Sys, ghost via: UioController,
          ghost sys: System)
      requires this in sys.All() && via in sys.Devices() && Linked(s0) && TidyUnder(s0, this)
      requires irq < LINES && this in s0.w && irq in Fired(s0.w, this) && via in s0.d
      requires assert Placed(s0.w, this); events == s0.w[this].handles[irq] && Known(s0.w, events)
      requires SoFar(s0.w, this, irq, 0, before)
      requires State() == InLine(s0.w, this, irq, 0)
      requires sys.State() == MidSys(s0, this, before, State(), via)
      modifies sys.All(), sys.Devices()
      ensures State() == InLine(s0.w, this, irq, |events|)
      ensures sys.State() == MidSys(s0, this, before + events, State(), via)
      decreases height, 1
    {
      hide MidSys, InLine, TidyUnder, Shape;
      ghost var done := before;
      TakeNone(before, events);
      TakeAll(events);
      for k := 0 to |events|
        invariant State() == InLine(s0.w, this, irq, k)
        invariant SoFar(s0.w, this, irq, k, done) && sys.State() == MidSys(s0, this, done, State(), via)
        invariant done == before + events[..k]
      {
        Snoc(before, events, k);
        SetOne(irq, events, k, done, s0, via, sys);
        done := done + [events[k]];
      }
    }

    /** The events of the line come off the count only now that all of them are set. */
    method CountOff(irq: nat, events: seq<Event>, ghost s0: Sys, ghost via: UioController, ghost sys: System)
      requires this in sys.All() && via in s0.d && Linked(s0) && irq < LINES && this in s0.w && irq in Fired(s0.w, this)
      requires assert Placed(s0.w, this); events == s0.w[this].handles[irq] && Known(s0.w, events)
      requires State() == InLine(s0.w, this, irq, |events|)
      requires sys.State() == MidSys(s0, this, FiredUpTo(s0.w, this, irq) + events, State(), via)
      modifies this
      ensures State() == BetweenLines(s0.w, this, irq + 1)
      ensures sys.State() == MidSys(s0, this, FiredUpTo(s0.w, this, irq + 1), State(), via)
    {
      ghost var mine := State();
      eventNumber := eventNumber - |events|;
      OnlyMe(sys);
      LeaveLine(s0.w, this, irq);
      PutPut(Served(s0, FiredUpTo(s0.w, this, irq) + events, via), this, mine, State());
    }

    method TakeLine(irq: nat, ghost s0: Sys, ghost via: UioController, ghost sys: System) returns (events: seq<Event>)
      requires this in sys.All() && via in s0.d && Linked(s0) && TidyUnder(s0, this)
      requires irq < LINES && this in s0.w && irq in Fired(s0.w, this)
      requires State() == BetweenLines(s0.w, this, irq)
      requires sys.State() == MidSys(s0, this, FiredUpTo(s0.w, this, irq), State(), via)
      modifies this
      ensures assert Placed(s0.w, this); events == s0.w[this].handles[irq] && Known(s0.w, events)
      ensures State() == InLine(s0.w, this, irq, 0)
      ensures sys.State() == MidSys(s0, this, FiredUpTo(s0.w, this, irq), State(), via)
    {
      ghost var mine := State();
      TidyHere(s0, this);
      assert Placed(s0.w, this) && ChildrenAt(s0.w, this, irq);
      OneLine(irq);
      Write(CIE, Shl(1, irq));
      events := waitHandles[irq];
      waitHandles := waitHandles[irq := []];
      OnlyMe(sys);
      EnterLine(s0.w, this, irq);
      PutPut(Served(s0, FiredUpTo(s0.w, this, irq), via), this, mine, State());
    }

    /** e.set() for the k-th event of the line. */
    method SetOne(irq: nat, events: seq<Event>, k: nat, ghost done: seq<Event>, ghost s0: Sys,
          ghost via: UioController, ghost sys: System)
      requires this in sys.All() && via in sys.Devices() && Linked(s0) && TidyUnder(s0, this)
      requires irq < LINES && this in s0.w && irq in Fired(s0.w, this) && via in s0.d
      requires assert Placed(s0.w, this); events == s0.w[this].handles[irq] && Known(s0.w, events) && k < |events|
      requires State() == InLine(s0.w, this, irq, k)
      requires SoFar(s0.w, this, irq, k, done)
      requires sys.State() == MidSys(s0, this, done, State(), via)
      modifies sys.All(), sys.Devices()
      ensures State() == InLine(s0.w, this, irq, k + 1)
      ensures SoFar(s0.w, this, irq, k + 1, done + [events[k]])
      ensures sys.State() == MidSys(s0, this, done + [events[k]], State(), via)
      decreases height, 0
    {
      assert Placed(s0.w, this);
      TidyHere(s0, this);
      hide InLine, MidSys, Shape, SetResult, TidyUnder;
      InLineStep(s0.w, this, irq, k);
      SoFarStep(s0.w, this, irq, k, done);
      match events[k]
      case Leaf(l) =>
        StepLeaf(s0, this, done, State(), via, l);
        via.SetLeaf(l, sys);
      case Child(x) =>
        ChildReady(s0, this, irq, k, done, via);
        StepChild(s0, this, done, State(), via, x);
        x.Set(via, sys);
        assert sys.State().w[this] == State();
    }

    /** The first step of add_event: a line without waiters gets enabled. */
    method EnableLine(number: nat, ghost sys: System)
      requires this in sys.All() && number < LINES == |waitHandles|
      modifies this
      ensures State() == old(State()).(ier := if old(waitHandles)[number] == [] then old(ier) + {number} else old(ier))
      ensures sys.State() == Put(old(sys.State()), this, State())
    {
      if waitHandles[number] == [] {
        OneLine(number);
        Write(SIE, Shl(1, number));
      }
      OnlyMe(sys);
    }

    /** The last step of add_event: queue the event, count it, switch the controller on. */
    method Append(event: Event, number: nat, ghost sys: System)
      requires this in sys.All() && number < LINES == |waitHandles|
      modifies this
      ensures State() == old(State()).(handles := old(waitHandles)[number := old(waitHandles)[number] + [event]],
                                       count := old(eventNumber) + 1, mer := true)
      ensures sys.State() == Put(old(sys.State()), this, State())
    {
      waitHandles := waitHandles[number := waitHandles[number] + [event]];
      eventNumber := eventNumber + 1;
      Write(MER, 3);
      OnlyMe(sys);
    }
  }

  /** The two writes add_event makes to its own controller add up to Pushed. */
  lemma AddEvSteps(s: Sys, c: Controller, e: Event, n: nat, s1: Sys, a: St, b: St)
    requires Linked(s) && Fits(s, Node(c), e, n) && |s.w[c].handles| == LINES
    requires assert Placed(s.w, c); s1 == if s.w[c].count == 0 then AddEv(s, c.parent, Child(c), c.number) else s
    requires a == s.w[c].(ier := if s.w[c].handles[n] == [] then s.w[c].ier + {n} else s.w[c].ier)
    requires b == a.(handles := a.handles[n := a.handles[n] + [e]], count := a.count + 1, mer := true)
    ensures Put(Put(s1, c, a), c, b) == AddEv(s, Node(c), e, n)
  {
    PutPut(s1, c, a, b);
  }

  lemma TouchRegs(s: Sys, c: Controller, st: St)
    requires Linked(s) && c in s.w && st.handles == s.w[c].handles
    ensures Linked(Put(s, c, st))
  {
    var w' := s.w[c := st];
    forall z | z in w' ensures Placed(w', z) {
      assert Placed(s.w, z);
      forall i: nat | i < LINES ensures ChildrenAt(w', z, i) { assert ChildrenAt(s.w, z, i); }
    }
  }
}
