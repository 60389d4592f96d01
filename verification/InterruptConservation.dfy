/** Over every run of registrations and device callbacks, for every UIO device: the leaf
    events registered below the device are, counted with multiplicity, exactly those already
    delivered by it together with those still waiting. */
module InterruptConservation {
  import opened Interrupts
  import opened InterruptRuns

  // ---------------------------------------------------------------- what waits below a list

  /** The wait lists of the lines below i, end to end. */
  ghost function EventsUpTo(w: World, c: Controller, i: nat): (es: seq<Event>)
    requires Shape(w) && c in w && i <= LINES
    ensures forall e :: e in es && e.Child? ==>
      e.ctrl in w && e.ctrl.parent == Node(c) && e.ctrl.height < c.height && e.ctrl.number < i
  {
    if i == 0 then []
    else
      assert Placed(w, c) && ChildrenAt(w, c, i - 1);
      EventsUpTo(w, c, i - 1) + w[c].handles[i - 1]
  }

  /** The leaf events waiting on es and on everything registered below es. */
  ghost function Waiting(w: World, es: seq<Event>): multiset<nat>
    requires Shape(w) && Known(w, es)
    decreases Above(es), |es|
  {
    if es == [] then multiset{}
    else
      var pre, e := es[..|es| - 1], es[|es| - 1];
      Waiting(w, pre) +
      match e
      case Leaf(l) => multiset{l}
      case Child(x) => Waiting(w, EventsUpTo(w, x, LINES))
  }

  lemma WaitingOne(w: World, es: seq<Event>, e: Event)
    requires Shape(w) && Known(w, es) && Known(w, [e])
    ensures Waiting(w, es + [e]) == Waiting(w, es) + Waiting(w, [e])
  {
    assert (es + [e])[..|es|] == es;
    assert [e][..0] == [];
  }

  lemma WaitingChild(w: World, x: Controller)
    requires Shape(w) && x in w
    ensures Waiting(w, [Child(x)]) == Waiting(w, EventsUpTo(w, x, LINES))
  {
    assert [Child(x)][..0] == [];
  }

  lemma WaitingLeaf(w: World, l: nat)
    requires Shape(w)
    ensures Waiting(w, [Leaf(l)]) == multiset{l}
  {
    assert [Leaf(l)][..0] == [];
  }

  lemma {:induction false} WaitingAppend(w: World, a: seq<Event>, b: seq<Event>)
    requires Shape(w) && Known(w, a) && Known(w, b)
    ensures Waiting(w, a + b) == Waiting(w, a) + Waiting(w, b)
    decreases |b|
  {
    if b == [] { assert a + b == a; }
    else {
      var pre, e := b[..|b| - 1], b[|b| - 1];
      WaitingAppend(w, a, pre);
      Snoc(a, b, |b| - 1);
      assert b[..|b|] == b;
      WaitingOne(w, a + pre, e);
      WaitingOne(w, pre, e);
    }
  }

  lemma WaitingLine(w: World, c: Controller, i: nat)
    requires Shape(w) && c in w && i < LINES
    ensures assert Placed(w, c) && ChildrenAt(w, c, i);
      Waiting(w, EventsUpTo(w, c, i + 1)) == Waiting(w, EventsUpTo(w, c, i)) + Waiting(w, w[c].handles[i])
  {
    assert Placed(w, c) && ChildrenAt(w, c, i);
    WaitingAppend(w, EventsUpTo(w, c, i), w[c].handles[i]);
  }

  lemma {:induction false} EventsFrame(w: World, w': World, c: Controller, i: nat)
    requires Shape(w) && Shape(w') && c in w && c in w' && w[c].handles == w'[c].handles && i <= LINES
    ensures EventsUpTo(w, c, i) == EventsUpTo(w', c, i)
  {
    if i > 0 {
      assert Placed(w, c) && Placed(w', c);
      EventsFrame(w, w', c, i - 1);
    }
  }

  /** What waits below es depends on the subtrees below es only. */
  lemma {:induction false} WaitingFrame(w: World, w': World, es: seq<Event>)
    requires Shape(w) && Shape(w') && Known(w, es)
    requires forall e :: e in es && e.Child? ==> SameUnder(w, w', e.ctrl)
    ensures Known(w', es) && Waiting(w, es) == Waiting(w', es)
    decreases Above(es), |es|
  {
    forall e | e in es && e.Child? ensures e.ctrl in w' { assert Under(e.ctrl, e.ctrl); }
    if es != [] {
      WaitingFrame(w, w', es[..|es| - 1]);
      var e := es[|es| - 1];
      if e.Child? {
        assert Under(e.ctrl, e.ctrl);
        var fs := EventsUpTo(w, e.ctrl, LINES);
        EventsFrame(w, w', e.ctrl, LINES);
        forall f | f in fs && f.Child? ensures SameUnder(w, w', f.ctrl) { SameUnderChild(w, w', e.ctrl, f.ctrl); }
        WaitingFrame(w, w', fs);
      }
    }
  }

  lemma {:induction false} NothingWaits(w: World, c: Controller, i: nat)
    requires Shape(w) && c in w && i <= LINES
    requires forall j :: 0 <= j < |w[c].handles| ==> w[c].handles[j] == []
    ensures EventsUpTo(w, c, i) == []
  {
    if i > 0 {
      assert Placed(w, c);
      NothingWaits(w, c, i - 1);
    }
  }

  // ---------------------------------------------------------------- a callback conserves

  /** Below controllers the pass does not reach, nothing changes. */
  lemma {:induction false} UnreachedSame(w: World, top: seq<Event>, es: seq<Event>)
    requires Shape(w) && Shape(ServedW(w, top)) && Known(w, es) && Known(w, top)
    requires forall e :: e in es && e.Child? ==> !Serv(w, top, e.ctrl)
    requires forall e :: e in top && e.Child? ==> e.ctrl.parent.Root?
    ensures Waiting(ServedW(w, top), es) == Waiting(w, es)
    decreases Above(es), |es|
  {
    var w' := ServedW(w, top);
    if es != [] {
      UnreachedSame(w, top, es[..|es| - 1]);
      var e := es[|es| - 1];
      if e.Child? {
        var fs := EventsUpTo(w, e.ctrl, LINES);
        EventsFrame(w, w', e.ctrl, LINES);
        forall f | f in fs && f.Child? ensures !Serv(w, top, f.ctrl) { assert Placed(w, f.ctrl); }
        UnreachedSame(w, top, fs);
      }
    }
  }

  lemma AddUp(a: multiset<nat>, b: multiset<nat>, s: seq<nat>, t: seq<nat>, c: multiset<nat>, d: multiset<nat>)
    requires a == multiset(s) + c && b == multiset(t) + d
    ensures a + b == multiset(s + t) + (c + d)
  {
  }

  /** Setting reached events: what waited is what is signalled plus what still waits. */
  lemma {:induction false} PassConserves(w: World, top: seq<Event>, es: seq<Event>)
    requires Shape(w) && Shape(ServedW(w, top)) && Known(w, es) && Known(w, top)
    requires forall e :: e in es && e.Child? ==> Serv(w, top, e.ctrl)
    requires forall e :: e in top && e.Child? ==> e.ctrl.parent.Root?
    ensures Conserves(w, ServedW(w, top), es)
    decreases Above(es), 1, |es|
  {
    if es != [] {
      PassConserves(w, top, es[..|es| - 1]);
      EventConserves(w, top, es, es[|es| - 1]);
      LastConserves(w, ServedW(w, top), es);
    }
  }

  ghost predicate Conserves(w: World, w': World, es: seq<Event>)
    requires Shape(w) && Shape(w') && w.Keys == w'.Keys && Known(w, es)
  {
    Waiting(w, es) == multiset(Sig(w, es)) + Waiting(w', Survivors(w, es))
  }

  lemma LastConserves(w: World, w': World, es: seq<Event>)
    requires Shape(w) && Shape(w') && w.Keys == w'.Keys && Known(w, es) && es != []
    requires Conserves(w, w', es[..|es| - 1]) && Conserves(w, w', [es[|es| - 1]])
    ensures Conserves(w, w', es)
  {
    hide *;
    var pre, e := es[..|es| - 1], es[|es| - 1];
    LastSplit(w, es);
    SigOne(w, pre, e);
    WaitingOne(w, pre, e);
    SurvivorsJoin(w, pre, e);
    ConservesIs(w, w', pre);
    ConservesIs(w, w', [e]);
    WaitingAppend(w', Survivors(w, pre), Survivors(w, [e]));
    AddUp(Waiting(w, pre), Waiting(w, [e]), Sig(w, pre), Sig(w, [e]),
          Waiting(w', Survivors(w, pre)), Waiting(w', Survivors(w, [e])));
    ConservesIs(w, w', es);
  }

  lemma LastSplit(w: World, es: seq<Event>)
    requires Known(w, es) && es != []
    ensures es == es[..|es| - 1] + [es[|es| - 1]] && Known(w, es[..|es| - 1]) && Known(w, [es[|es| - 1]])
  {
  }

  lemma ConservesIs(w: World, w': World, es: seq<Event>)
    requires Shape(w) && Shape(w') && w.Keys == w'.Keys && Known(w, es)
    ensures Known(w', Survivors(w, es))
    ensures Conserves(w, w', es) <==> Waiting(w, es) == multiset(Sig(w, es)) + Waiting(w', Survivors(w, es))
  {
    hide Waiting, Sig;
  }

  lemma SurvivorsJoin(w: World, pre: seq<Event>, e: Event)
    requires Shape(w) && Known(w, pre) && Known(w, [e])
    ensures Survivors(w, pre + [e]) == Survivors(w, pre) + Survivors(w, [e])
  {
    SurvivorsOne(w, pre, e);
    SurvivorsOne(w, [], e);
    assert [] + [e] == [e];
  }

  lemma {:induction false} EventConserves(w: World, top: seq<Event>, es: seq<Event>, e: Event)
    requires Shape(w) && Shape(ServedW(w, top)) && Known(w, es) && Known(w, top) && e in es
    requires e.Child? ==> Serv(w, top, e.ctrl)
    requires forall e :: e in top && e.Child? ==> e.ctrl.parent.Root?
    ensures Conserves(w, ServedW(w, top), [e])
    decreases Above(es), 0, |es|
  {
    match e
    case Leaf(l) => LeafConserves(w, ServedW(w, top), l);
    case Child(x) =>
      LinesConserve(w, top, x, LINES);
      ChildConserves(w, ServedW(w, top), x);
  }

  lemma LeafConserves(w: World, w': World, l: nat)
    requires Shape(w) && Shape(w') && w.Keys == w'.Keys
    ensures Conserves(w, w', [Leaf(l)])
  {
    SigLeaf(w, l);
    WaitingLeaf(w, l);
    SurvivorsOne(w, [], Leaf(l));
    assert [] + [Leaf(l)] == [Leaf(l)];
  }

  lemma ChildConserves(w: World, w': World, x: Controller)
    requires Shape(w) && Shape(w') && w.Keys == w'.Keys && x in w && w'[x] == After(w, x)
    requires Waiting(w, EventsUpTo(w, x, LINES))
          == multiset(Sig(w, FiredUpTo(w, x, LINES))) + Waiting(w', EventsUpTo(w', x, LINES))
    ensures Conserves(w, w', [Child(x)])
  {
    SigChild(w, x);
    WaitingChild(w, x);
    SurvivorsOne(w, [], Child(x));
    assert [] + [Child(x)] == [Child(x)];
    if Left(w, x) {
      WaitingChild(w', x);
    } else {
      LeftCount(w, x);
      TotalZero(Kept(w, x));
      NothingWaits(w', x, LINES);
      assert Survivors(w, [Child(x)]) == [];
    }
  }

  /** What waits on the lines of x below i is what they signal plus what still waits there. */
  ghost predicate LinesKept(w: World, w': World, x: Controller, i: nat) {
    && Shape(w) && Shape(w') && w.Keys == w'.Keys && x in w && i <= LINES
    && Waiting(w, EventsUpTo(w, x, i)) == multiset(Sig(w, FiredUpTo(w, x, i))) + Waiting(w', EventsUpTo(w', x, i))
  }

  ghost predicate LineKept(w: World, w': World, x: Controller, i: nat) {
    && Shape(w) && Shape(w') && w.Keys == w'.Keys && x in w && i < LINES
    && assert Placed(w, x) && ChildrenAt(w, x, i) && Placed(w', x) && ChildrenAt(w', x, i);
       Waiting(w, w[x].handles[i])
       == multiset(if i in Fired(w, x) then Sig(w, w[x].handles[i]) else []) + Waiting(w', w'[x].handles[i])
  }

  lemma {:induction false} LinesConserve(w: World, top: seq<Event>, x: Controller, i: nat)
    requires Shape(w) && Shape(ServedW(w, top)) && x in w && Serv(w, top, x) && i <= LINES && Known(w, top)
    requires forall e :: e in top && e.Child? ==> e.ctrl.parent.Root?
    ensures LinesKept(w, ServedW(w, top), x, i)
    decreases x.height, 3, i
  {
    hide *;
    ServedKeys(w, top);
    if i == 0 {
      NoLinesKept(w, ServedW(w, top), x);
    } else {
      LinesConserve(w, top, x, i - 1);
      LineConserves(w, top, x, i - 1);
      LinesAdd(w, ServedW(w, top), x, i - 1);
    }
  }

  lemma ServedKeys(w: World, top: seq<Event>)
    requires Shape(w) && Known(w, top)
    ensures ServedW(w, top).Keys == w.Keys
  {
  }

  lemma NoLinesKept(w: World, w': World, x: Controller)
    requires Shape(w) && Shape(w') && w.Keys == w'.Keys && x in w
    ensures LinesKept(w, w', x, 0)
  {
    hide Placed, Shape;
  }

  lemma LinesAdd(w: World, w': World, x: Controller, i: nat)
    requires LinesKept(w, w', x, i) && LineKept(w, w', x, i)
    ensures LinesKept(w, w', x, i + 1)
  {
    assert Placed(w, x) && ChildrenAt(w, x, i) && Placed(w', x) && ChildrenAt(w', x, i);
    var line := w[x].handles[i];
    WaitingLine(w, x, i);
    WaitingLine(w', x, i);
    SigLine(w, x, i);
    AddUp(Waiting(w, EventsUpTo(w, x, i)), Waiting(w, line), Sig(w, FiredUpTo(w, x, i)),
          if i in Fired(w, x) then Sig(w, line) else [],
          Waiting(w', EventsUpTo(w', x, i)), Waiting(w', w'[x].handles[i]));
    hide Waiting, Sig, EventsUpTo, FiredUpTo;
  }

  lemma {:induction false} LineConserves(w: World, top: seq<Event>, x: Controller, i: nat)
    requires Shape(w) && Shape(ServedW(w, top)) && x in w && Serv(w, top, x) && i < LINES && Known(w, top)
    requires forall e :: e in top && e.Child? ==> e.ctrl.parent.Root?
    ensures LineKept(w, ServedW(w, top), x, i)
    decreases x.height, 2, 0
  {
    var w' := ServedW(w, top);
    assert Placed(w, x) && ChildrenAt(w, x, i) && Placed(w', x);
    var line := w[x].handles[i];
    assert w'[x].handles[i] == KeptAt(w, x, i);
    if i in Fired(w, x) {
      forall e | e in line && e.Child? ensures Serv(w, top, e.ctrl) { assert Placed(w, e.ctrl); }
      AboveLine(line, x.height);
      PassConserves(w, top, line);
    } else {
      forall e | e in line && e.Child? ensures !Serv(w, top, e.ctrl) { assert Placed(w, e.ctrl); }
      UnreachedSame(w, top, line);
    }
  }

  lemma AboveLine(es: seq<Event>, h: nat)
    requires forall e :: e in es && e.Child? ==> e.ctrl.height < h
    ensures Above(es) <= h
  {
  }

  lemma CallbackConserves(s: Sys, u: UioController)
    requires Inv(s) && u in s.d && Known(s.w, s.d[u].events)
    requires Linked(CallbackResult(s, u)) && Known(CallbackResult(s, u).w, CallbackResult(s, u).d[u].events)
    ensures var r := CallbackResult(s, u);
      multiset(r.d[u].delivered) + Waiting(r.w, r.d[u].events)
      == multiset(s.d[u].delivered) + Waiting(s.w, s.d[u].events)
  {
    var es := s.d[u].events;
    assert DeviceOk(s, u);
    forall e | e in es && e.Child? ensures Serv(s.w, es, e.ctrl) { assert Placed(s.w, e.ctrl); }
    PassConserves(s.w, es, es);
  }

  /** One callback signals a leaf at most as often as it waits below the device. */
  lemma SignalledWaited(s: Sys, u: UioController)
    requires Inv(s) && u in s.d && Known(s.w, s.d[u].events)
    ensures multiset(Sig(s.w, s.d[u].events)) <= Waiting(s.w, s.d[u].events)
  {
    var es := s.d[u].events;
    ServedShape(s.w, es);
    forall e | e in es && e.Child? ensures Serv(s.w, es, e.ctrl) && e.ctrl.parent.Root? {
      assert Placed(s.w, e.ctrl) && DeviceOk(s, u);
    }
    PassConserves(s.w, es, es);
  }

  /** If the line and the whole way up from it report pending, a leaf that waits below the device on
      that line only is signalled exactly once per registration. */
  lemma PendingExactlyOnce(s: Sys, u: UioController, c: Controller, i: nat, leaf: nat)
    requires Inv(s) && u in s.d && c in s.w && i < LINES && Tops(u, Node(c)) && Known(s.w, s.d[u].events)
    requires i in s.w[c].isr && PathPending(s.w, c)
    requires assert Placed(s.w, c); s.w[c].handles[i] != []
    requires Waiting(s.w, s.d[u].events)[leaf] == LeavesOf(s.w[c].handles[i])[leaf]
    ensures multiset(Sig(s.w, s.d[u].events))[leaf] == LeavesOf(s.w[c].handles[i])[leaf]
  {
    PendingIsDelivered(s, u, c, i);
    SignalledWaited(s, u);
  }

  /** Nothing below another device moves. */
  lemma CallbackElsewhere(s: Sys, u: UioController, v: UioController)
    requires Inv(s) && u in s.d && v in s.d && u != v && Known(s.w, s.d[u].events) && Known(s.w, s.d[v].events)
    requires Linked(CallbackResult(s, u))
    ensures var r := CallbackResult(s, u);
      r.d[v] == s.d[v] && Waiting(r.w, r.d[v].events) == Waiting(s.w, s.d[v].events)
  {
    assert DeviceOk(s, u) && DeviceOk(s, v);
    var es := s.d[u].events;
    forall e | e in s.d[v].events && e.Child? ensures !Serv(s.w, es, e.ctrl) { assert Placed(s.w, e.ctrl); }
    UnreachedSame(s.w, es, s.d[v].events);
  }

  // ---------------------------------------------------------------- a registration adds one

  lemma {:induction false} SiblingsApart(w: World, c: Controller, y: Controller, z: Controller)
    requires Shape(w) && c in w && y in w && c != y && c.parent == y.parent && Under(c, z)
    ensures !Under(y, z)
    decreases z.depth
  {
    assert Placed(w, c) && Placed(w, y);
    if Under(y, z) {
      if z == c { UnderDeep(y, z.parent.ctrl); }
      else if z == y { UnderDeep(c, z.parent.ctrl); }
      else { SiblingsApart(w, c, y, z.parent.ctrl); }
    }
  }

  lemma Regroup(a: multiset<nat>, x: multiset<nat>, b: multiset<nat>, y: multiset<nat>)
    ensures (a + x) + (b + y) == (a + b) + (x + y)
    ensures x + multiset{} == x && multiset{} + y == y && a + multiset{} == a && b + multiset{} == b
  {
  }

  /** The worlds differ at c0 only, below c, where m more waits. */
  ghost predicate Bumped(w: World, w': World, c: Controller, c0: Controller, m: multiset<nat>) {
    && Shape(w) && Shape(w') && w.Keys == w'.Keys && c in w && Under(c, c0)
    && (forall z :: z in w && z != c0 ==> w'[z] == w[z])
    && Waiting(w', [Child(c)]) == Waiting(w, [Child(c)]) + m
  }

  lemma {:induction false} ListBump(w: World, w': World, es: seq<Event>, c: Controller, c0: Controller,
        m: multiset<nat>)
    requires Bumped(w, w', c, c0, m) && NoDup(es) && Known(w, es)
    requires forall e :: e in es && e.Child? ==> e.ctrl.parent == c.parent
    ensures Known(w', es)
    ensures Waiting(w', es) == Waiting(w, es) + if Child(c) in es then m else multiset{}
  {
    if es != [] {
      var pre, e := es[..|es| - 1], es[|es| - 1];
      assert es == pre + [e];
      ListBump(w, w', pre, c, c0, m);
      WaitingOne(w, pre, e);
      WaitingOne(w', pre, e);
      EventBump(w, w', e, c, c0, m);
      var x, y := if Child(c) in pre then m else multiset{}, if e == Child(c) then m else multiset{};
      Regroup(Waiting(w, pre), x, Waiting(w, [e]), y);
      assert x + y == if Child(c) in es then m else multiset{} by {
        if e == Child(c) && Child(c) in pre { assert false; }
      }
    }
  }

  lemma EventBump(w: World, w': World, e: Event, c: Controller, c0: Controller, m: multiset<nat>)
    requires Bumped(w, w', c, c0, m) && Known(w, [e])
    requires e.Child? ==> e.ctrl.parent == c.parent
    ensures Known(w', [e])
    ensures Waiting(w', [e]) == Waiting(w, [e]) + if e == Child(c) then m else multiset{}
  {
    if e != Child(c) {
      if e.Child? {
        forall z | z in w && Under(e.ctrl, z) ensures z in w' && w'[z] == w[z] {
          if z == c0 { SiblingsApart(w, c, e.ctrl, z); }
        }
      }
      WaitingFrame(w, w', [e]);
    }
  }

  /** One more line of c in both worlds. */
  lemma LineSum(w: World, w': World, c: Controller, i: nat, x: multiset<nat>, y: multiset<nat>)
    requires Shape(w) && Shape(w') && c in w && c in w' && i < LINES
    requires Waiting(w', EventsUpTo(w', c, i)) == Waiting(w, EventsUpTo(w, c, i)) + x
    requires assert Placed(w, c) && ChildrenAt(w, c, i) && Placed(w', c) && ChildrenAt(w', c, i);
      Waiting(w', w'[c].handles[i]) == Waiting(w, w[c].handles[i]) + y
    ensures Waiting(w', EventsUpTo(w', c, i + 1)) == Waiting(w, EventsUpTo(w, c, i + 1)) + (x + y)
  {
    assert Placed(w, c) && ChildrenAt(w, c, i) && Placed(w', c) && ChildrenAt(w', c, i);
    WaitingLine(w, c, i);
    WaitingLine(w', c, i);
    Regroup(Waiting(w, EventsUpTo(w, c, i)), x, Waiting(w, w[c].handles[i]), y);
  }

  /** p holds c's registration, on c's own line only. */
  ghost predicate Holds(w: World, p: Controller, c: Controller)
    requires Shape(w) && p in w && c in w
  {
    assert Placed(w, p) && Placed(w, c);
    c.parent == Node(p) && Child(c) in w[p].handles[c.number]
  }

  lemma OwnLineBump(w: World, w': World, p: Controller, c: Controller, c0: Controller, m: multiset<nat>, k: nat)
    requires Bumped(w, w', c, c0, m) && p in w && w'[p] == w[p] && k < LINES && Tidy(w[p]) && Holds(w, p, c)
    ensures assert Placed(w, p) && ChildrenAt(w, p, k) && Placed(w', p) && ChildrenAt(w', p, k);
      Waiting(w', w'[p].handles[k]) == Waiting(w, w[p].handles[k]) + if k == c.number then m else multiset{}
  {
    assert Placed(w, p) && ChildrenAt(w, p, k) && Placed(w', p) && ChildrenAt(w', p, k);
    assert NoDup(w[p].handles[k]);
    ListBump(w, w', w[p].handles[k], c, c0, m);
  }

  lemma {:induction false} LinesBump(w: World, w': World, p: Controller, c: Controller, c0: Controller,
        m: multiset<nat>, i: nat)
    requires Bumped(w, w', c, c0, m) && p in w && w'[p] == w[p] && i <= LINES && Tidy(w[p]) && Holds(w, p, c)
    ensures Waiting(w', EventsUpTo(w', p, i))
         == Waiting(w, EventsUpTo(w, p, i)) + if c.number < i then m else multiset{}
  {
    if i > 0 {
      var k := i - 1;
      LinesBump(w, w', p, c, c0, m, k);
      OwnLineBump(w, w', p, c, c0, m, k);
      var x, y := if c.number < k then m else multiset{}, if k == c.number then m else multiset{};
      LineSum(w, w', p, k, x, y);
      assert x + y == if c.number < i then m else multiset{};
    }
  }

  /** c is registered, and so is everything above it. */
  ghost predicate Chained(s: Sys, c: Controller)
    requires Linked(s) && c in s.w
    decreases c.depth
  {
    assert Placed(s.w, c);
    Registered(s, c) && (c.parent.Node? ==> Chained(s, c.parent.ctrl))
  }

  lemma {:induction false} RegisteredIsChained(s: Sys, e: Event, c: Controller)
    requires InvAhead(s, e) && c in s.w && Registered(s, c)
    ensures Chained(s, c)
    decreases c.depth
  {
    assert Placed(s.w, c);
    if c.parent.Node? {
      var p := c.parent.ctrl;
      assert Placed(s.w, p) && Tidy(s.w[p]);
      TotalZero(s.w[p].handles);
      assert s.w[p].handles[c.number] != [] && s.w[p].count > 0;
      assert Registered(s, p);
      RegisteredIsChained(s, e, p);
    }
  }

  /** What comes to wait below a registered controller waits below its device. */
  lemma {:induction false} BumpUp(s: Sys, r: Sys, ahead: Event, u: UioController, c: Controller, c0: Controller,
        m: multiset<nat>)
    requires InvAhead(s, ahead) && Linked(r) && r.d == s.d && u in s.d && Tops(u, Node(c))
    requires Bumped(s.w, r.w, c, c0, m) && Chained(s, c)
    ensures Known(s.w, s.d[u].events) && Known(r.w, s.d[u].events)
    ensures Waiting(r.w, s.d[u].events) == Waiting(s.w, s.d[u].events) + m
    decreases c.depth
  {
    assert Placed(s.w, c);
    match c.parent
    case Root(v) =>
      assert DeviceOk(s, u);
      ListBump(s.w, r.w, s.d[u].events, c, c0, m);
    case Node(p) =>
      assert Placed(s.w, p) && Tidy(s.w[p]);
      UnderDeep(c, c0);
      UnderChild(s.w, p, c, c0);
      assert Holds(s.w, p, c);
      LinesBump(s.w, r.w, p, c, c0, m, LINES);
      WaitingChild(s.w, p);
      WaitingChild(r.w, p);
      BumpUp(s, r, ahead, u, p, c0, m);
  }

  /** Queueing e on c adds what waits below e. */
  lemma {:induction false} PushAdds(w: World, w': World, c: Controller, e: Event, n: nat, i: nat)
    requires Shape(w) && Shape(w') && c in w && n < LINES && i <= LINES && Known(w, [e])
    requires assert Placed(w, c); w' == w[c := Pushed(w[c], e, n)]
    requires e.Child? ==> e.ctrl.parent == Node(c)
    ensures Waiting(w', EventsUpTo(w', c, i))
         == Waiting(w, EventsUpTo(w, c, i)) + if n < i then Waiting(w, [e]) else multiset{}
  {
    if i > 0 {
      var k := i - 1;
      PushAdds(w, w', c, e, n, k);
      PushLineAdds(w, w', c, e, n, k);
      var add := Waiting(w, [e]);
      var x, y := if n < k then add else multiset{}, if n == k then add else multiset{};
      LineSum(w, w', c, k, x, y);
      assert x + y == if n < i then add else multiset{};
    }
  }

  lemma PushLineAdds(w: World, w': World, c: Controller, e: Event, n: nat, k: nat)
    requires Shape(w) && Shape(w') && c in w && n < LINES && k < LINES && Known(w, [e])
    requires assert Placed(w, c); w' == w[c := Pushed(w[c], e, n)]
    requires e.Child? ==> e.ctrl.parent == Node(c)
    ensures assert Placed(w, c) && ChildrenAt(w, c, k) && Placed(w', c) && ChildrenAt(w', c, k);
      Waiting(w', w'[c].handles[k]) == Waiting(w, w[c].handles[k]) + if n == k then Waiting(w, [e]) else multiset{}
  {
    assert Placed(w, c) && ChildrenAt(w, c, k) && Placed(w', c) && ChildrenAt(w', c, k);
    var line := w[c].handles[k];
    BelowUntouched(w, w', c, line);
    BelowUntouched(w, w', c, [e]);
    if k == n { WaitingOne(w', line, e); }
  }

  lemma BelowUntouched(w: World, w': World, c: Controller, es: seq<Event>)
    requires Shape(w) && Shape(w') && c in w && Known(w, es)
    requires forall z :: z in w && z != c ==> z in w' && w'[z] == w[z]
    requires forall e :: e in es && e.Child? ==> e.ctrl.parent == Node(c)
    ensures Known(w', es) && Waiting(w, es) == Waiting(w', es)
  {
    forall e | e in es && e.Child? ensures SameUnder(w, w', e.ctrl) {
      assert Placed(w, e.ctrl);
      if Under(e.ctrl, c) { UnderDeep(e.ctrl, c); }
    }
    WaitingFrame(w, w', es);
  }

  lemma EmptyWaits(s: Sys, c: Controller)
    requires Linked(s) && c in s.w && Tidy(s.w[c]) && s.w[c].count == 0
    ensures Waiting(s.w, [Child(c)]) == multiset{}
  {
    TotalZero(s.w[c].handles);
    NothingWaits(s.w, c, LINES);
    WaitingChild(s.w, c);
  }

  /** Registering e adds to what waits below u what waits on e, and nothing else. */
  ghost predicate Adds(s: Sys, t: Parent, e: Event, n: nat, u: UioController)
    requires Linked(s) && Fits(s, t, e, n) && u in s.d
  {
    var r := AddEv(s, t, e, n);
    && Known(s.w, [e]) && Known(s.w, s.d[u].events) && Known(r.w, r.d[u].events)
    && r.d[u].delivered == s.d[u].delivered
    && Waiting(r.w, r.d[u].events) == Waiting(s.w, s.d[u].events) + Waiting(s.w, [e])
  }

  lemma {:induction false} AddEvAdds(s: Sys, t: Parent, e: Event, n: nat, u: UioController)
    requires Inv(s) && Fits(s, t, e, n) && Tops(u, t) && u in s.d
    requires e.Child? ==> s.w[e.ctrl].count == 0
    ensures Adds(s, t, e, n, u)
    decreases Depth(t)
  {
    match t
    case Root(_) =>
      assert DeviceOk(s, u);
      WaitingOne(s.w, s.d[u].events, e);
    case Node(c) =>
      if s.w[c].count == 0 {
        IdleFits(s, c, u);
        AddEvAdds(s, c.parent, Child(c), c.number, u);
      }
      AddBelow(s, c, e, n, u);
  }

  lemma IdleFits(s: Sys, c: Controller, u: UioController)
    requires Inv(s) && c in s.w && s.w[c].count == 0 && Tops(u, Node(c))
    ensures Fits(s, c.parent, Child(c), c.number) && Tops(u, c.parent) && Depth(c.parent) < Depth(Node(c))
  {
    assert Placed(s.w, c) && Tidy(s.w[c]);
  }

  /** The state in which e is put on c's wait list: c is registered by then. */
  ghost function Ahead(s: Sys, c: Controller): Sys
    requires Linked(s) && c in s.w
  {
    assert Placed(s.w, c);
    if s.w[c].count == 0 then AddEv(s, c.parent, Child(c), c.number) else s
  }

  ghost function AheadOf(s: Sys, c: Controller): Event
    requires c in s.w
  {
    if s.w[c].count == 0 then Child(c) else Leaf(0)
  }

  lemma AheadReady(s: Sys, c: Controller, e: Event, n: nat)
    requires Inv(s) && Fits(s, Node(c), e, n) && (e.Child? ==> s.w[e.ctrl].count == 0)
    ensures var s1 := Ahead(s, c);
      && InvAhead(s1, AheadOf(s, c)) && Registered(s1, c) && Fits(s1, Node(c), e, n) && s1.w[c] == s.w[c]
      && n < |s.w[c].handles|
      && AddEv(s, Node(c), e, n) == Put(s1, c, Pushed(s.w[c], e, n)) && s1.d.Keys == s.d.Keys
      && (e.Child? ==> e.ctrl in s.w && s1.w[e.ctrl] == s.w[e.ctrl] && Tidy(s.w[e.ctrl]))
  {
    assert Placed(s.w, c) && Tidy(s.w[c]);
    if s.w[c].count == 0 {
      AddEvKeepsInv(s, c.parent, Child(c), c.number);
    } else {
      TotalZero(s.w[c].handles);
      assert Registered(s, c);
    }
    if e.Child? { assert Placed(s.w, e.ctrl) && Tidy(s.w[e.ctrl]); }
  }

  /** Below a controller, once its own registration has added nothing that waits. */
  lemma AddBelow(s: Sys, c: Controller, e: Event, n: nat, u: UioController)
    requires Inv(s) && Fits(s, Node(c), e, n) && Tops(u, Node(c)) && u in s.d && (e.Child? ==> s.w[e.ctrl].count == 0)
    requires s.w[c].count == 0 ==> Fits(s, c.parent, Child(c), c.number) && Adds(s, c.parent, Child(c), c.number, u)
    ensures Adds(s, Node(c), e, n, u)
  {
    hide Waiting, AddEv, InvAhead, Shape, Registered, Pushed, Tidy, Tops, Placed;
    InvLinked(s, Leaf(0));
    var s1 := Ahead(s, c);
    AheadReady(s, c, e, n);
    if s.w[c].count == 0 { IdleWaits(s, c); }
    InvLinked(s1, AheadOf(s, c));
    SameAlone(s, s1, e);
    PushStep(s1, AheadOf(s, c), c, e, n, u);
  }

  lemma IdleWaits(s: Sys, c: Controller)
    requires Inv(s) && c in s.w && s.w[c].count == 0
    ensures Shape(s.w) && Waiting(s.w, [Child(c)]) == multiset{}
  {
    EmptyWaits(s, c);
  }

  lemma InvLinked(s: Sys, ahead: Event)
    requires InvAhead(s, ahead)
    ensures Linked(s) && Shape(s.w)
  {
  }

  lemma SameAlone(s: Sys, s1: Sys, e: Event)
    requires Linked(s) && Linked(s1) && Known(s.w, [e]) && Known(s1.w, [e])
    requires e.Child? ==> s1.w[e.ctrl] == s.w[e.ctrl] && Tidy(s.w[e.ctrl]) && s.w[e.ctrl].count == 0
    ensures Waiting(s1.w, [e]) == Waiting(s.w, [e])
  {
    if e.Child? { EmptyWaits(s, e.ctrl); EmptyWaits(s1, e.ctrl); }
    else { WaitingLeaf(s.w, e.id); WaitingLeaf(s1.w, e.id); }
  }

  lemma PushStep(s: Sys, ahead: Event, c: Controller, e: Event, n: nat, u: UioController)
    requires InvAhead(s, ahead) && c in s.w && Fits(s, Node(c), e, n) && u in s.d && Tops(u, Node(c))
    requires Registered(s, c)
    ensures n < |s.w[c].handles| && Known(s.w, [e]) && Known(s.w, s.d[u].events)
    ensures var r := Put(s, c, Pushed(s.w[c], e, n));
      Linked(r) && Known(r.w, s.d[u].events)
      && Waiting(r.w, s.d[u].events) == Waiting(s.w, s.d[u].events) + Waiting(s.w, [e])
  {
    assert Placed(s.w, c) && DeviceOk(s, u);
    PushLinked(s, c, e, n);
    var r := Put(s, c, Pushed(s.w[c], e, n));
    PushAdds(s.w, r.w, c, e, n, LINES);
    WaitingChild(s.w, c);
    WaitingChild(r.w, c);
    RegisteredIsChained(s, ahead, c);
    assert Under(c, c);
    BumpUp(s, r, ahead, u, c, c, Waiting(s.w, [e]));
  }

  lemma {:induction false} TopIsOne(u: UioController, v: UioController, t: Parent)
    requires Tops(u, t) && Tops(v, t)
    ensures u == v
    decreases Depth(t)
  {
    if t.Node? { TopIsOne(u, v, t.ctrl.parent); }
  }

  lemma {:induction false} UnderTops(w: World, v: UioController, x: Controller, z: Controller)
    requires Shape(w) && x in w && z in w && x.parent == Root(v) && Under(x, z)
    ensures Tops(v, Node(z))
    decreases z.depth
  {
    assert Placed(w, z);
    if z != x { UnderTops(w, v, x, z.parent.ctrl); }
    else { assert Tops(v, Root(v)); }
  }

  lemma {:induction false} AddEvLocal(s: Sys, t: Parent, e: Event, n: nat, u: UioController, z: Controller)
    requires Linked(s) && Fits(s, t, e, n) && Tops(u, t) && z in s.w && !Tops(u, Node(z))
    ensures AddEv(s, t, e, n).w[z] == s.w[z]
    ensures forall v :: v in s.d && v != u ==> AddEv(s, t, e, n).d[v] == s.d[v]
    decreases Depth(t)
  {
    if t.Node? {
      assert Placed(s.w, t.ctrl);
      AddEvLocal(s, t.ctrl.parent, Child(t.ctrl), t.ctrl.number, u, z);
    }
  }

  lemma {:induction false} AddEvOtherDevices(s: Sys, t: Parent, e: Event, n: nat, u: UioController, v: UioController)
    requires Linked(s) && Fits(s, t, e, n) && Tops(u, t) && v in s.d && v != u
    ensures AddEv(s, t, e, n).d[v] == s.d[v]
    decreases Depth(t)
  {
    if t.Node? {
      assert Placed(s.w, t.ctrl);
      AddEvOtherDevices(s, t.ctrl.parent, Child(t.ctrl), t.ctrl.number, u, v);
    }
  }

  lemma AddEvElsewhere(s: Sys, t: Parent, e: Event, n: nat, u: UioController, v: UioController)
    requires Inv(s) && Fits(s, t, e, n) && Tops(u, t) && v in s.d && v != u
    ensures var r := AddEv(s, t, e, n);
      && r.d[v] == s.d[v] && Known(s.w, s.d[v].events) && Known(r.w, s.d[v].events)
      && Waiting(r.w, s.d[v].events) == Waiting(s.w, s.d[v].events)
  {
    assert DeviceOk(s, v);
    var r := AddEv(s, t, e, n);
    AddEvOtherDevices(s, t, e, n, u, v);
    forall x | x in s.d[v].events && x.Child? ensures SameUnder(s.w, r.w, x.ctrl) {
      forall z | z in s.w && Under(x.ctrl, z) ensures z in r.w && r.w[z] == s.w[z] {
        UnderTops(s.w, v, x.ctrl, z);
        if Tops(u, Node(z)) { TopIsOne(u, v, Node(z)); }
        AddEvLocal(s, t, e, n, u, z);
      }
    }
    WaitingFrame(s.w, r.w, s.d[v].events);
  }

  lemma {:induction false} HasTop(s: Sys, t: Parent) returns (u: UioController)
    requires Linked(s) && Fits(s, t, Leaf(0), 0)
    ensures u in s.d && Tops(u, t)
    decreases Depth(t)
  {
    match t
    case Root(v) => u := v;
    case Node(c) =>
      assert Placed(s.w, c);
      u := HasTop(s, c.parent);
  }

  // ---------------------------------------------------------------- runs

  /** A coroutine waits on a pin, a device's interrupt fires, or the hardware changes a latch. */
  datatype Op =
    | Register(target: Parent, leaf: nat, line: nat)
    | Interrupt(uio: UioController)
    | Latch(ctrl: Controller, lines: set<nat>)

  ghost predicate OpOk(s: Sys, op: Op) {
    match op
    case Register(t, l, n) => Fits(s, t, Leaf(l), n)
    case Interrupt(u) => u in s.d
    case Latch(c, _) => c in s.w
  }

  ghost function Apply(s: Sys, op: Op): (r: Sys)
    requires Inv(s) && OpOk(s, op)
    ensures Inv(r) && r.w.Keys == s.w.Keys && r.d.Keys == s.d.Keys
  {
    match op
    case Register(t, l, n) =>
      AddEvKeepsInv(s, t, Leaf(l), n);
      AddEv(s, t, Leaf(l), n)
    case Interrupt(u) =>
      CallbackKeepsInv(s, u);
      CallbackResult(s, u)
    case Latch(c, lines) =>
      LatchKeepsInv(s, c, lines);
      Put(s, c, s.w[c].(isr := lines))
  }

  lemma LatchKeepsInv(s: Sys, c: Controller, lines: set<nat>)
    requires Inv(s) && c in s.w
    ensures Inv(Put(s, c, s.w[c].(isr := lines)))
  {
    var r := Put(s, c, s.w[c].(isr := lines));
    TouchRegs(s, c, r.w[c]);
    assert Tidy(s.w[c]);
    forall u | u in r.d ensures DeviceOk(r, u) { assert DeviceOk(s, u); }
    forall z | z in r.w ensures Registered(r, z) == Registered(s, z) {
      assert Placed(s.w, z);
      if z.parent.Node? { assert Placed(s.w, z.parent.ctrl); }
    }
  }

  lemma OpOkSame(s: Sys, r: Sys, op: Op)
    requires OpOk(s, op) && r.w.Keys == s.w.Keys && r.d.Keys == s.d.Keys
    ensures OpOk(r, op)
  {
  }

  /** Every state a run can reach keeps the invariant. */
  ghost function Run(s: Sys, ops: seq<Op>): (r: Sys)
    requires Inv(s) && forall op :: op in ops ==> OpOk(s, op)
    ensures Inv(r) && r.w.Keys == s.w.Keys && r.d.Keys == s.d.Keys
  {
    if ops == [] then s
    else
      var pre, op := ops[..|ops| - 1], ops[|ops| - 1];
      OpOkSame(s, Run(s, pre), op);
      Apply(Run(s, pre), op)
  }

  /** The leaf events a run registers below device u. */
  ghost function Added(ops: seq<Op>, u: UioController): multiset<nat> {
    if ops == [] then multiset{}
    else
      var pre, op := ops[..|ops| - 1], ops[|ops| - 1];
      Added(ops[..|ops| - 1], u) +
      if op.Register? && Tops(u, op.target) then multiset{op.leaf} else multiset{}
  }

  /** Everything registered below u and not lost: delivered, or still waiting. */
  ghost function Accounted(s: Sys, u: UioController): multiset<nat>
    requires Inv(s) && u in s.d
  {
    assert DeviceOk(s, u);
    multiset(s.d[u].delivered) + Waiting(s.w, s.d[u].events)
  }

  lemma StepConserves(s: Sys, op: Op, u: UioController)
    requires Inv(s) && OpOk(s, op) && u in s.d
    ensures Accounted(Apply(s, op), u)
         == Accounted(s, u) + if op.Register? && Tops(u, op.target) then multiset{op.leaf} else multiset{}
  {
    assert DeviceOk(s, u);
    match op
    case Register(t, l, n) =>
      WaitingLeaf(s.w, l);
      if Tops(u, t) { AddEvAdds(s, t, Leaf(l), n, u); }
      else {
        var v := HasTop(s, t);
        AddEvElsewhere(s, t, Leaf(l), n, v, u);
      }
    case Interrupt(v) =>
      assert DeviceOk(s, v);
      CallbackKeepsInv(s, v);
      assert DeviceOk(CallbackResult(s, v), u);
      if u == v { CallbackConserves(s, u); } else { CallbackElsewhere(s, v, u); }
    case Latch(c, lines) =>
      var r := Apply(s, op);
      LatchUnseen(s.w, c, lines, s.d[u].events);
  }

  lemma {:induction false} LatchUnseen(w: World, c: Controller, lines: set<nat>, es: seq<Event>)
    requires Shape(w) && c in w && Known(w, es) && Shape(w[c := w[c].(isr := lines)])
    ensures Waiting(w[c := w[c].(isr := lines)], es) == Waiting(w, es)
    decreases Above(es), |es|
  {
    if es != [] {
      LatchUnseen(w, c, lines, es[..|es| - 1]);
      var e := es[|es| - 1];
      if e.Child? {
        var w' := w[c := w[c].(isr := lines)];
        EventsFrame(w, w', e.ctrl, LINES);
        LatchUnseen(w, c, lines, EventsUpTo(w, e.ctrl, LINES));
      }
    }
  }

  /** Over any run, for every device: no leaf event is lost, duplicated or invented. */
  lemma {:induction false} RunConserves(s: Sys, ops: seq<Op>, u: UioController)
    requires Inv(s) && u in s.d && forall op :: op in ops ==> OpOk(s, op)
    ensures Accounted(Run(s, ops), u) == Accounted(s, u) + Added(ops, u)
  {
    if ops != [] {
      var pre, op := ops[..|ops| - 1], ops[|ops| - 1];
      RunConserves(s, pre, u);
      var r := Run(s, pre);
      OpOkSame(s, r, op);
      StepConserves(r, op, u);
      var one := if op.Register? && Tops(u, op.target) then multiset{op.leaf} else multiset{};
      assert Run(s, ops) == Apply(r, op);
      assert Added(ops, u) == Added(pre, u) + one;
    }
  }
}
