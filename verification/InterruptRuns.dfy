/** What every run of the interrupt runtime keeps: the registration invariant, no
    stranded event, delivery of what is pending, and conservation of leaf events. */
module InterruptRuns {
  import opened Interrupts

  // ---------------------------------------------------------------- the invariant between calls

  /** The wait list that c registers itself on. */
  ghost function OwnList(s: Sys, c: Controller): seq<Event>
    requires Linked(s) && c in s.w
  {
    assert Placed(s.w, c);
    match c.parent
    case Root(u) => s.d[u].events
    case Node(p) => assert Placed(s.w, p); s.w[p].handles[c.number]
  }

  ghost predicate Registered(s: Sys, c: Controller)
    requires Linked(s) && c in s.w
  {
    Child(c) in OwnList(s, c)
  }

  /** The invariant, except that the controller behind e is registered ahead of its first event. */
  ghost predicate InvAhead(s: Sys, e: Event) {
    && Linked(s)
    && AllTidy(s)
    && (forall u :: u in s.d ==> DeviceOk(s, u))
    && (forall c {:trigger Registered(s, c)} :: c in s.w && Child(c) != e ==> (Registered(s, c) <==> s.w[c].count > 0))
    && (forall c {:trigger Registered(s, c)} :: c in s.w && Child(c) == e ==> Registered(s, c) && s.w[c].count == 0)
  }

  ghost predicate Inv(s: Sys) {
    InvAhead(s, Leaf(0))
  }

  lemma {:induction false} NoDupCount(es: seq<Event>, c: Controller)
    requires NoDup(es)
    ensures multiset(es)[Child(c)] == if Child(c) in es then 1 else 0
  {
    if es != [] {
      var pre, e := es[..|es| - 1], es[|es| - 1];
      assert es == pre + [e];
      NoDupCount(pre, c);
    }
  }

  /** Between calls: the count is the number of waiting events, a line is enabled exactly if
      somebody waits on it, and a controller is registered with its parent exactly once if it
      has events, and not at all otherwise - nor is it registered anywhere else, ever. */
  lemma Bookkeeping(s: Sys, c: Controller)
    requires Inv(s) && c in s.w
    ensures s.w[c].count == Total(s.w[c].handles)
    ensures forall i :: 0 <= i < LINES ==> (i in s.w[c].ier <==> |s.w[c].handles| == LINES && s.w[c].handles[i] != [])
    ensures multiset(OwnList(s, c))[Child(c)] == if s.w[c].count > 0 then 1 else 0
    ensures forall p: Controller, i: nat ::
      p in s.w && i < LINES && |s.w[p].handles| == LINES && Child(c) in s.w[p].handles[i] ==>
      c.parent == Node(p) && c.number == i
    ensures forall u :: u in s.d && Child(c) in s.d[u].events ==> c.parent == Root(u)
  {
    assert Placed(s.w, c) && Tidy(s.w[c]);
    forall p: Controller, i: nat | p in s.w && i < LINES && |s.w[p].handles| == LINES && Child(c) in s.w[p].handles[i]
      ensures c.parent == Node(p) && c.number == i
    {
      assert Placed(s.w, p) && ChildrenAt(s.w, p, i);
    }
    TotalZero(s.w[c].handles);
    assert NoDup(OwnList(s, c)) by {
      match c.parent
      case Root(u) => assert DeviceOk(s, u);
      case Node(p) => assert Placed(s.w, p) && Tidy(s.w[p]);
    }
    NoDupCount(OwnList(s, c), c);
    assert Registered(s, c) <==> s.w[c].count > 0;
  }

  // ---------------------------------------------------------------- registration keeps it

  lemma {:induction false} AddEvKeepsInv(s: Sys, t: Parent, e: Event, n: nat)
    requires Inv(s) && Fits(s, t, e, n)
    requires e.Child? ==> s.w[e.ctrl].count == 0
    ensures InvAhead(AddEv(s, t, e, n), if e.Child? then e else Leaf(0))
    decreases Depth(t)
  {
    if e.Child? { assert Placed(s.w, e.ctrl) && Registered(s, e.ctrl) == false; }
    match t
    case Root(u) =>
      assert DeviceOk(s, u);
      AddRootKeepsInv(s, u, e, n);
    case Node(c) =>
      assert Placed(s.w, c);
      if s.w[c].count == 0 {
        AddEvKeepsInv(s, c.parent, Child(c), c.number);
        PushKeepsInv(AddEv(s, c.parent, Child(c), c.number), c, e, n);
      } else {
        PushKeepsInv(s, c, e, n);
      }
  }

  lemma AddRootKeepsInv(s: Sys, u: UioController, e: Event, n: nat)
    requires Inv(s) && Fits(s, Root(u), e, n)
    requires e.Child? ==> s.w[e.ctrl].count == 0
    ensures InvAhead(AddEv(s, Root(u), e, n), if e.Child? then e else Leaf(0))
  {
    var r := AddEv(s, Root(u), e, n);
    assert DeviceOk(s, u);
    if e.Child? { assert Placed(s.w, e.ctrl) && !Registered(s, e.ctrl); }
    forall v | v in r.d ensures DeviceOk(r, v) { assert DeviceOk(s, v); }
    forall c | c in r.w ensures Registered(r, c) == (Registered(s, c) || Child(c) == e) { assert Placed(s.w, c); }
  }

  /** Appending e to a controller that is registered (perhaps only just). */
  lemma PushKeepsInv(s: Sys, c: Controller, e: Event, n: nat)
    requires Linked(s) && Fits(s, Node(c), e, n) && c in s.w
    requires InvAhead(s, if s.w[c].count == 0 then Child(c) else Leaf(0))
    requires e.Child? ==> s.w[e.ctrl].count == 0 && !Registered(s, e.ctrl)
    ensures n < |s.w[c].handles|
    ensures InvAhead(Put(s, c, Pushed(s.w[c], e, n)), if e.Child? then e else Leaf(0))
  {
    hide Tidy, Pushed, Registered, Shape, Placed;
    PushReady(s, c, e, n);
    var r := Put(s, c, Pushed(s.w[c], e, n));
    PushRegistered(s, c, e, n);
    PushDevices(s, c, e, n);
    forall z | z in r.w && Child(z) != e ensures Registered(r, z) <==> r.w[z].count > 0 {
      if z != c { assert Registered(s, z) <==> s.w[z].count > 0; }
    }
  }

  lemma PushReady(s: Sys, c: Controller, e: Event, n: nat)
    requires Linked(s) && Fits(s, Node(c), e, n) && c in s.w
    requires InvAhead(s, if s.w[c].count == 0 then Child(c) else Leaf(0))
    requires e.Child? ==> s.w[e.ctrl].count == 0 && !Registered(s, e.ctrl)
    ensures n < |s.w[c].handles|
    ensures var st := Pushed(s.w[c], e, n); Tidy(st) && st.count > 0 && Linked(Put(s, c, st))
    ensures Registered(s, c) && e != Child(c) && (e.Child? ==> e.ctrl in s.w)
  {
    assert Placed(s.w, c) && Tidy(s.w[c]);
    PushLinked(s, c, e, n);
    TotalZero(s.w[c].handles);
    if e.Child? { assert Placed(s.w, e.ctrl); }
    PushTidy(s.w[c], e, n);
  }

  lemma PushDevices(s: Sys, c: Controller, e: Event, n: nat)
    requires Linked(s) && c in s.w && n < |s.w[c].handles| && Linked(Put(s, c, Pushed(s.w[c], e, n)))
    requires forall u :: u in s.d ==> DeviceOk(s, u)
    ensures forall u :: u in s.d ==> DeviceOk(Put(s, c, Pushed(s.w[c], e, n)), u)
  {
    forall u | u in s.d ensures DeviceOk(Put(s, c, Pushed(s.w[c], e, n)), u) { assert DeviceOk(s, u); }
  }

  lemma PushRegistered(s: Sys, c: Controller, e: Event, n: nat)
    requires Linked(s) && Fits(s, Node(c), e, n) && n < |s.w[c].handles|
    requires Linked(Put(s, c, Pushed(s.w[c], e, n)))
    ensures forall z :: z in s.w ==>
      Registered(Put(s, c, Pushed(s.w[c], e, n)), z) == (Registered(s, z) || Child(z) == e)
  {
    var r := Put(s, c, Pushed(s.w[c], e, n));
    forall z | z in s.w ensures Registered(r, z) == (Registered(s, z) || Child(z) == e) {
      assert Placed(s.w, z);
      if z.parent.Node? { assert Placed(s.w, z.parent.ctrl); }
    }
  }

  lemma PushTidy(st: St, e: Event, n: nat)
    requires Tidy(st) && n < |st.handles| && (e.Child? ==> e !in st.handles[n])
    ensures Tidy(Pushed(st, e, n))
  {
    TotalUpdate(st.handles, n, st.handles[n] + [e]);
    var hs := st.handles[n := st.handles[n] + [e]];
    assert Busy(hs) == Busy(st.handles) + {n};
  }

  // ---------------------------------------------------------------- a callback keeps it

  lemma AfterTidy(w: World, c: Controller)
    requires Shape(w) && c in w && Tidy(w[c])
    ensures Tidy(After(w, c))
  {
    assert Placed(w, c);
    forall i: nat | i < LINES ensures NoDup(Kept(w, c)[i]) {
      assert ChildrenAt(w, c, i) && NoDup(w[c].handles[i]);
      assert Kept(w, c)[i] == KeptAt(w, c, i);
    }
    TotalZero(Kept(w, c));
    TotalZero(w[c].handles);
    if Total(Kept(w, c)) > 0 {
      var i :| 0 <= i < LINES && Kept(w, c)[i] != [];
      assert KeptAt(w, c, i) != [] && ChildrenAt(w, c, i);
      assert w[c].handles[i] != [];
    }
  }

  lemma CallbackKeepsInv(s: Sys, u: UioController)
    requires Inv(s) && u in s.d
    ensures Known(s.w, s.d[u].events) && Inv(CallbackResult(s, u))
  {
    assert DeviceOk(s, u);
    var es := s.d[u].events;
    var r := CallbackResult(s, u);
    ServedShape(s.w, es);
    forall c | c in r.w ensures Tidy(r.w[c]) {
      assert Tidy(s.w[c]);
      AfterTidy(s.w, c);
    }
    forall v | v in r.d ensures DeviceOk(r, v) { assert DeviceOk(s, v); }
    forall c | c in r.w ensures Registered(r, c) <==> r.w[c].count > 0 { CallbackRegistered(s, u, c); }
  }

  /** After the callback, c is registered exactly if it has events: a controller that was
      serviced has re-registered if events are left, any other was not touched. */
  lemma CallbackRegistered(s: Sys, u: UioController, c: Controller)
    requires Inv(s) && u in s.d && c in s.w
    requires Known(s.w, s.d[u].events) && Linked(CallbackResult(s, u))
    ensures var r := CallbackResult(s, u); Registered(r, c) <==> r.w[c].count > 0
  {
    var es := s.d[u].events;
    assert Placed(s.w, c) && DeviceOk(s, u);
    if Serv(s.w, es, c) { ServedRegistered(s, u, c); } else { UnservedRegistered(s, u, c); }
  }

  lemma ServedRegistered(s: Sys, u: UioController, c: Controller)
    requires Inv(s) && u in s.d && c in s.w
    requires Known(s.w, s.d[u].events) && Linked(CallbackResult(s, u)) && Serv(s.w, s.d[u].events, c)
    ensures var r := CallbackResult(s, u); Registered(r, c) <==> r.w[c].count > 0
  {
    assert Placed(s.w, c) && DeviceOk(s, u);
    LeftCount(s.w, c);
    if c.parent.Node? {
      var p := c.parent.ctrl;
      assert Placed(s.w, p) && ChildrenAt(s.w, p, c.number);
      assert After(s.w, p).handles[c.number] == KeptAt(s.w, p, c.number);
    }
  }

  lemma UnservedRegistered(s: Sys, u: UioController, c: Controller)
    requires Inv(s) && u in s.d && c in s.w
    requires Known(s.w, s.d[u].events) && Linked(CallbackResult(s, u)) && !Serv(s.w, s.d[u].events, c)
    ensures var r := CallbackResult(s, u); Registered(r, c) <==> r.w[c].count > 0
  {
    assert Placed(s.w, c) && DeviceOk(s, u);
    assert Registered(s, c) <==> s.w[c].count > 0;
    if c.parent.Node? { UnservedBelow(s, s.d[u].events, c); }
    hide Sig, Left, Survivors, After, Shape, Tidy, NoDup, ChildrenAt;
  }

  /** A pass that does not reach c leaves c's registration with its parent alone. */
  lemma UnservedBelow(s: Sys, es: seq<Event>, c: Controller)
    requires Linked(s) && c in s.w && c.parent.Node? && !Serv(s.w, es, c)
    ensures var p := c.parent.ctrl;
      && p in s.w && p in ServedW(s.w, es)
      && |s.w[p].handles| == |ServedW(s.w, es)[p].handles| == LINES && c.number < LINES
      && (Child(c) in ServedW(s.w, es)[p].handles[c.number] <==> Child(c) in s.w[p].handles[c.number])
  {
    assert Placed(s.w, c);
    var p := c.parent.ctrl;
    assert Placed(s.w, p) && ChildrenAt(s.w, p, c.number);
    assert After(s.w, p).handles[c.number] == KeptAt(s.w, p, c.number);
  }

  // ---------------------------------------------------------------- nothing is stranded

  /** The way up from c is open: c is registered, its line is enabled, and so on up to an armed device. */
  ghost predicate WayUp(s: Sys, c: Controller)
    requires Linked(s) && c in s.w
    decreases c.depth
  {
    assert Placed(s.w, c);
    && Registered(s, c)
    && match c.parent
       case Root(u) => s.d[u].armed
       case Node(p) => c.number in s.w[p].ier && s.w[p].mer && WayUp(s, p)
  }

  /** No event is stranded: wherever an event waits, its own line is enabled and so is every
      line above it, up to the device, which is armed. */
  lemma {:induction false} NoneStranded(s: Sys, c: Controller, i: nat)
    requires Inv(s) && c in s.w && i < LINES
    requires assert Placed(s.w, c); s.w[c].handles[i] != []
    ensures i in s.w[c].ier && s.w[c].mer && WayUp(s, c)
    decreases c.depth
  {
    assert Placed(s.w, c) && Tidy(s.w[c]);
    TotalZero(s.w[c].handles);
    assert Registered(s, c);
    match c.parent
    case Root(u) => assert DeviceOk(s, u);
    case Node(p) => NoneStranded(s, p, c.number);
  }

  // ---------------------------------------------------------------- what is pending is delivered

  /** The device at the top of a chain of parents. */
  ghost predicate Tops(u: UioController, t: Parent)
    decreases Depth(t)
  {
    match t
    case Root(v) => v == u
    case Node(c) => Depth(c.parent) < Depth(t) && Tops(u, c.parent)
  }

  /** Every ancestor's latch for the way down to c is set. */
  ghost predicate PathPending(w: World, c: Controller)
    requires Shape(w) && c in w
    decreases c.depth
  {
    assert Placed(w, c);
    c.parent.Node? ==> c.number in w[c.parent.ctrl].isr && PathPending(w, c.parent.ctrl)
  }

  lemma {:induction false} Reached(s: Sys, u: UioController, c: Controller)
    requires Inv(s) && u in s.d && c in s.w && Tops(u, Node(c)) && s.w[c].count > 0 && PathPending(s.w, c)
    ensures Serv(s.w, s.d[u].events, c)
    decreases c.depth
  {
    assert Placed(s.w, c) && Registered(s, c);
    if c.parent.Node? {
      var p := c.parent.ctrl;
      assert Placed(s.w, p) && Tidy(s.w[p]);
      TotalZero(s.w[p].handles);
      assert s.w[p].handles[c.number] != [];
      Reached(s, u, p);
    }
  }

  ghost function LeavesOf(es: seq<Event>): multiset<nat> {
    if es == [] then multiset{}
    else LeavesOf(es[..|es| - 1]) + (if es[|es| - 1].Leaf? then multiset{es[|es| - 1].id} else multiset{})
  }

  lemma {:induction false} SigAppend(w: World, a: seq<Event>, b: seq<Event>)
    requires Shape(w) && Known(w, a) && Known(w, b)
    ensures Sig(w, a + b) == Sig(w, a) + Sig(w, b)
    decreases |b|
  {
    if b == [] { assert a + b == a; }
    else {
      var pre, e := b[..|b| - 1], b[|b| - 1];
      SigAppend(w, a, pre);
      Snoc(a, b, |b| - 1);
      assert b[..|b|] == b;
      SigOne(w, a + pre, e);
      SigOne(w, pre, e);
      Assoc(Sig(w, a), Sig(w, pre), Sig(w, [e]));
    }
  }

  lemma Assoc<T>(a: seq<T>, b: seq<T>, c: seq<T>)
    ensures (a + b) + c == a + (b + c)
  {
  }

  /** Setting a list of events signals every leaf directly on it. */
  lemma {:induction false} LeavesSignalled(w: World, es: seq<Event>)
    requires Shape(w) && Known(w, es)
    ensures LeavesOf(es) <= multiset(Sig(w, es))
  {
    if es != [] { LeavesSignalled(w, es[..|es| - 1]); }
  }

  /** A part of what is set is signalled. */
  lemma {:induction false} SigPart(w: World, es: seq<Event>, e: Event)
    requires Shape(w) && Known(w, es) && e in es
    ensures multiset(Sig(w, [e])) <= multiset(Sig(w, es))
  {
    var pre, last := es[..|es| - 1], es[|es| - 1];
    assert es == pre + [last];
    SigOne(w, pre, last);
    if e != last { SigPart(w, pre, e); }
  }

  lemma SigLine(w: World, x: Controller, i: nat)
    requires Shape(w) && x in w && i < LINES
    ensures assert Placed(w, x) && ChildrenAt(w, x, i);
      Sig(w, FiredUpTo(w, x, i + 1))
           == Sig(w, FiredUpTo(w, x, i)) + if i in Fired(w, x) then Sig(w, w[x].handles[i]) else []
  {
    assert Placed(w, x) && ChildrenAt(w, x, i);
    if i in Fired(w, x) { SigAppend(w, FiredUpTo(w, x, i), w[x].handles[i]); }
    else { assert FiredUpTo(w, x, i) + [] == FiredUpTo(w, x, i); }
  }

  lemma PartOfBoth<T>(m: multiset<T>, a: seq<T>, b: seq<T>)
    ensures m <= multiset(a) || m <= multiset(b) ==> m <= multiset(a + b)
  {
  }

  /** A pending line's wait list is a stretch of what servicing the controller sets. */
  lemma {:induction false} FiredStretch(w: World, c: Controller, i: nat, j: nat) returns (a: seq<Event>, b: seq<Event>)
    requires Shape(w) && c in w && i < j <= LINES && i in Fired(w, c)
    ensures assert Placed(w, c); FiredUpTo(w, c, j) == a + w[c].handles[i] + b
    decreases j
  {
    assert Placed(w, c);
    if i == j - 1 {
      a, b := FiredUpTo(w, c, i), [];
    } else {
      a, b := FiredStretch(w, c, i, j - 1);
      var next := if j - 1 in Fired(w, c) then w[c].handles[j - 1] else [];
      Assoc(a + w[c].handles[i], b, next);
      b := b + next;
    }
  }

  lemma FiredSignalled(w: World, c: Controller, i: nat)
    requires Shape(w) && c in w && i < LINES && i in Fired(w, c)
    ensures assert Placed(w, c); LeavesOf(w[c].handles[i]) <= multiset(Sig(w, FiredUpTo(w, c, LINES)))
  {
    assert Placed(w, c) && ChildrenAt(w, c, i);
    var line := w[c].handles[i];
    var a, b := FiredStretch(w, c, i, LINES);
    var es := FiredUpTo(w, c, LINES);
    forall e | e in a || e in b ensures e in es { assert e in a + line + b; }
    SigAppend(w, a + line, b);
    SigAppend(w, a, line);
    LeavesSignalled(w, line);
    PartOfBoth(LeavesOf(line), Sig(w, a), Sig(w, line));
    PartOfBoth(LeavesOf(line), Sig(w, a + line), Sig(w, b));
  }

  /** What a reached controller signals is part of what the whole pass signals. */
  lemma {:induction false} SigUp(w: World, es: seq<Event>, c: Controller)
    requires Shape(w) && Known(w, es) && c in w && Serv(w, es, c)
    ensures multiset(Sig(w, [Child(c)])) <= multiset(Sig(w, es))
    decreases c.depth
  {
    assert Placed(w, c);
    if Child(c) in es { SigPart(w, es, Child(c)); }
    else {
      var p := c.parent.ctrl;
      SigUp(w, es, p);
      FiredComplete(w, p, c.number, LINES, Child(c));
      SigPart(w, FiredUpTo(w, p, LINES), Child(c));
      SigChild(w, p);
    }
  }

  /** One interrupt delivers: if the line and the whole way up from it report pending, every leaf
      event waiting on the line is signalled and none of them keeps waiting there. */
  lemma PendingIsDelivered(s: Sys, u: UioController, c: Controller, i: nat)
    requires Inv(s) && u in s.d && c in s.w && i < LINES && Tops(u, Node(c))
    requires i in s.w[c].isr && PathPending(s.w, c)
    requires assert Placed(s.w, c); s.w[c].handles[i] != []
    ensures Known(s.w, s.d[u].events)
    ensures var r := CallbackResult(s, u);
      && (assert Placed(s.w, c); LeavesOf(s.w[c].handles[i]) <= multiset(Sig(s.w, s.d[u].events)))
      && r.d[u].delivered == s.d[u].delivered + Sig(s.w, s.d[u].events)
      && r.w[c].services == s.w[c].services + 1
      && i < |r.w[c].handles| && (forall e :: e in r.w[c].handles[i] ==> e.Child?)
  {
    assert DeviceOk(s, u) && Placed(s.w, c) && Tidy(s.w[c]) && ChildrenAt(s.w, c, i);
    TotalZero(s.w[c].handles);
    Reached(s, u, c);
    FiredSignalled(s.w, c, i);
    SigChild(s.w, c);
    SigUp(s.w, s.d[u].events, c);
    assert Kept(s.w, c)[i] == KeptAt(s.w, c, i);
  }

  /** In one callback no controller is serviced twice, and wait lists on lines that are not
      pending, or of controllers that are not reached, stay as they are. */
  lemma OncePerCallback(s: Sys, u: UioController, c: Controller)
    requires Inv(s) && u in s.d && c in s.w && Known(s.w, s.d[u].events)
    ensures var r := CallbackResult(s, u);
      && s.w[c].services <= r.w[c].services <= s.w[c].services + 1
      && (r.w[c].services == s.w[c].services ==> r.w[c] == s.w[c])
      && (forall i: nat :: i < LINES && i !in Fired(s.w, c) ==>
            |r.w[c].handles| == |s.w[c].handles| == LINES && r.w[c].handles[i] == s.w[c].handles[i])
  {
    assert Placed(s.w, c);
    var r := CallbackResult(s, u);
    forall i: nat | i < LINES && i !in Fired(s.w, c) ensures Kept(s.w, c)[i] == s.w[c].handles[i] {
      assert Kept(s.w, c)[i] == KeptAt(s.w, c, i);
    }
  }
}
