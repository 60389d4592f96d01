/** Latches that change while a callback runs.  A controller's pending word is read at most once in
    a pass, so a change of its latch in the middle is a change before the pass if the word has not
    been read yet, and a change after the pass if it has - steps a run takes anyway. */
module InterruptLatches {
  import opened Interrupts

  /** The world after the hardware has set c's latch. */
  ghost function Latched(w: World, c: Controller, lines: set<nat>): World
    requires c in w
  {
    w[c := w[c].(isr := lines)]
  }

  lemma LatchedShape(w: World, c: Controller, lines: set<nat>)
    requires Shape(w) && c in w
    ensures Shape(Latched(w, c, lines))
  {
    var w' := Latched(w, c, lines);
    forall z | z in w' ensures Placed(w', z) {
      assert Placed(w, z);
      forall i: nat | i < LINES ensures ChildrenAt(w', z, i) { assert ChildrenAt(w, z, i); }
    }
  }

  /** A pass that does not read c's pending word reaches the same controllers. */
  lemma {:induction false} LatchedReach(w: World, es: seq<Event>, c: Controller, lines: set<nat>, z: Controller)
    requires Shape(w) && c in w && Shape(Latched(w, c, lines)) && z in w && !Serv(w, es, c)
    ensures Serv(Latched(w, c, lines), es, z) == Serv(w, es, z)
    decreases z.depth
  {
    assert Placed(w, z) && Placed(Latched(w, c, lines), z);
    if z.parent.Node? { LatchedReach(w, es, c, lines, z.parent.ctrl); }
  }

  /** The children on the pending lines of a controller the pass reaches are reached too. */
  lemma FiredReached(w: World, es: seq<Event>, x: Controller, e: Event)
    requires Shape(w) && x in w && Serv(w, es, x) && e in FiredUpTo(w, x, LINES) && e.Child?
    ensures e.ctrl in w && Serv(w, es, e.ctrl)
  {
    assert Placed(w, x);
    assert Placed(w, e.ctrl);
  }

  lemma LineReached(w: World, es: seq<Event>, x: Controller, i: nat, e: Event)
    requires Shape(w) && x in w && Serv(w, es, x) && i < LINES && i in Fired(w, x)
    requires assert Placed(w, x); e in w[x].handles[i] && e.Child?
    ensures e.ctrl in w && e.ctrl.height < x.height && Serv(w, es, e.ctrl)
  {
    assert Placed(w, x) && ChildrenAt(w, x, i);
    assert Placed(w, e.ctrl);
  }

  lemma {:induction false} LatchedLeft(w: World, es: seq<Event>, c: Controller, lines: set<nat>, x: Controller)
    requires Shape(w) && c in w && Shape(Latched(w, c, lines)) && x in w && !Serv(w, es, c) && Serv(w, es, x)
    ensures Left(Latched(w, c, lines), x) == Left(w, x)
    decreases x.height
  {
    var w' := Latched(w, c, lines);
    assert Placed(w, x);
    forall i: nat | i < LINES ensures LeftAt(w', x, i) == LeftAt(w, x, i) {
      assert ChildrenAt(w, x, i);
      if i in Fired(w, x) {
        forall e | e in w[x].handles[i] && e.Child? ensures Left(w', e.ctrl) == Left(w, e.ctrl) {
          LineReached(w, es, x, i, e);
          LatchedLeft(w, es, c, lines, e.ctrl);
        }
      }
    }
  }

  lemma {:induction false} LatchedSurvivors(w: World, es: seq<Event>, c: Controller, lines: set<nat>, fs: seq<Event>)
    requires Shape(w) && c in w && Shape(Latched(w, c, lines)) && !Serv(w, es, c) && Known(w, fs)
    requires forall e :: e in fs && e.Child? ==> Serv(w, es, e.ctrl)
    ensures Survivors(Latched(w, c, lines), fs) == Survivors(w, fs)
  {
    if fs != [] {
      LatchedSurvivors(w, es, c, lines, fs[..|fs| - 1]);
      var e := fs[|fs| - 1];
      if e.Child? { LatchedLeft(w, es, c, lines, e.ctrl); }
    }
  }

  lemma {:induction false} LatchedFired(w: World, c: Controller, lines: set<nat>, x: Controller, i: nat)
    requires Shape(w) && c in w && Shape(Latched(w, c, lines)) && x in w && x != c && i <= LINES
    ensures FiredUpTo(Latched(w, c, lines), x, i) == FiredUpTo(w, x, i)
  {
    if i > 0 { LatchedFired(w, c, lines, x, i - 1); }
  }

  lemma {:induction false} LatchedSig(w: World, es: seq<Event>, c: Controller, lines: set<nat>, fs: seq<Event>)
    requires Shape(w) && c in w && Shape(Latched(w, c, lines)) && !Serv(w, es, c) && Known(w, fs)
    requires forall e :: e in fs && e.Child? ==> Serv(w, es, e.ctrl)
    ensures Sig(Latched(w, c, lines), fs) == Sig(w, fs)
    decreases Above(fs), |fs|
  {
    if fs != [] {
      LatchedSig(w, es, c, lines, fs[..|fs| - 1]);
      var e := fs[|fs| - 1];
      if e.Child? {
        LatchedFired(w, c, lines, e.ctrl, LINES);
        forall f | f in FiredUpTo(w, e.ctrl, LINES) && f.Child? ensures Serv(w, es, f.ctrl) {
          FiredReached(w, es, e.ctrl, f);
        }
        LatchedSig(w, es, c, lines, FiredUpTo(w, e.ctrl, LINES));
      }
    }
  }

  lemma LatchedAfter(w: World, es: seq<Event>, c: Controller, lines: set<nat>, z: Controller)
    requires Shape(w) && c in w && Shape(Latched(w, c, lines)) && z in w && !Serv(w, es, c) && Serv(w, es, z)
    ensures After(Latched(w, c, lines), z) == After(w, z)
  {
    var w' := Latched(w, c, lines);
    assert Placed(w, z);
    forall i: nat | i < LINES ensures KeptAt(w', z, i) == KeptAt(w, z, i) {
      assert ChildrenAt(w, z, i);
      if i in Fired(w, z) {
        forall e | e in w[z].handles[i] && e.Child? ensures Serv(w, es, e.ctrl) { LineReached(w, es, z, i, e); }
        LatchedSurvivors(w, es, c, lines, w[z].handles[i]);
      }
    }
    assert Kept(w', z) == Kept(w, z);
  }

  /** A latch change of a controller whose pending word the pass does not read can be made before
      the pass or after it: the same controllers end up the same, the same events are signalled and
      the same controllers re-register. */
  lemma LatchCommutes(w: World, es: seq<Event>, c: Controller, lines: set<nat>)
    requires Shape(w) && c in w && Known(w, es) && !Serv(w, es, c)
    ensures Shape(Latched(w, c, lines)) && Known(Latched(w, c, lines), es)
    ensures ServedW(Latched(w, c, lines), es) == Latched(ServedW(w, es), c, lines)
    ensures Sig(Latched(w, c, lines), es) == Sig(w, es)
    ensures Survivors(Latched(w, c, lines), es) == Survivors(w, es)
  {
    LatchedShape(w, c, lines);
    forall e | e in es && e.Child? ensures Serv(w, es, e.ctrl) { assert Placed(w, e.ctrl); }
    LatchedWorld(w, es, c, lines);
    LatchedSig(w, es, c, lines, es);
    LatchedSurvivors(w, es, c, lines, es);
    hide Sig, Survivors, ServedW, Shape, Serv;
  }

  lemma LatchedWorld(w: World, es: seq<Event>, c: Controller, lines: set<nat>)
    requires Shape(w) && c in w && Shape(Latched(w, c, lines)) && !Serv(w, es, c)
    ensures ServedW(Latched(w, c, lines), es) == Latched(ServedW(w, es), c, lines)
  {
    hide *;
    SameKeys(w, es, c, lines);
    var a, b := ServedW(Latched(w, c, lines), es), Latched(ServedW(w, es), c, lines);
    forall z | z in w ensures a[z] == b[z] { LatchedAt(w, es, c, lines, z); }
  }

  lemma SameKeys(w: World, es: seq<Event>, c: Controller, lines: set<nat>)
    requires Shape(w) && c in w && Shape(Latched(w, c, lines))
    ensures c in ServedW(w, es)
    ensures ServedW(Latched(w, c, lines), es).Keys == Latched(ServedW(w, es), c, lines).Keys == w.Keys
  {
    hide Shape, Serv, After;
  }

  lemma LatchedAt(w: World, es: seq<Event>, c: Controller, lines: set<nat>, z: Controller)
    requires Shape(w) && c in w && Shape(Latched(w, c, lines)) && !Serv(w, es, c) && z in w
    ensures c in ServedW(w, es) && z in ServedW(Latched(w, c, lines), es) && z in Latched(ServedW(w, es), c, lines)
    ensures ServedW(Latched(w, c, lines), es)[z] == Latched(ServedW(w, es), c, lines)[z]
  {
    hide Shape, Serv, After, Placed;
    LatchedReach(w, es, c, lines, z);
    LatchedReach(w, es, c, lines, c);
    if Serv(w, es, z) { LatchedAfter(w, es, c, lines, z); }
  }

  /** In a pass over done and then rest, at any depth of the cascade, c's latch changes in between.
      If done has not read c's word, the change might as well have come first; if rest does not read
      it, last. */
  lemma LatchBetween(w: World, done: seq<Event>, rest: seq<Event>, c: Controller, lines: set<nat>)
    requires Shape(w) && Shape(ServedW(w, done)) && c in w && Known(w, done) && Known(w, rest)
    ensures Shape(Latched(w, c, lines)) && Shape(Latched(ServedW(w, done), c, lines))
    ensures !Serv(w, done, c) ==>
      && Shape(ServedW(Latched(w, c, lines), done))
      && ServedW(Latched(ServedW(w, done), c, lines), rest) == ServedW(ServedW(Latched(w, c, lines), done), rest)
    ensures !Serv(ServedW(w, done), rest, c) ==>
      ServedW(Latched(ServedW(w, done), c, lines), rest) == Latched(ServedW(ServedW(w, done), rest), c, lines)
  {
    var mid := ServedW(w, done);
    LatchedShape(w, c, lines);
    LatchedShape(mid, c, lines);
    if !Serv(w, done, c) { LatchCommutes(w, done, c, lines); }
    if !Serv(mid, rest, c) { LatchCommutes(mid, rest, c, lines); }
  }

  /** Siblings are read by one of the two: what done has read, rest does not read again. */
  lemma ReadOnce(w: World, done: seq<Event>, x: Controller, c: Controller)
    requires Shape(w) && x in w && c in w && Known(w, done) && Child(x) !in done
    requires forall e :: e in done && e.Child? ==> e.ctrl.parent == x.parent
    requires Serv(w, done, c)
    ensures !Serv(w, [Child(x)], c)
  {
    if Serv(w, [Child(x)], c) {
      ServUnder(w, x, c);
      Disjoint(w, done, x, c);
    }
  }
}
