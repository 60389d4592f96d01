/** Pruning the hierarchy dictionary: what holds no IP, no memory and no reconfigurable region
    anywhere below it is removed, everything else ends up at the root too, by its path. */
module Hierarchies {
  /** One dictionary of the nested hierarchy.  Its IP and memories are not changed here. */
  class Hierarchy {
    const fullpath: string
    const ip: set<string>
    const memories: set<string>
    const prRegion: bool
    ghost const height: nat
    var hierarchies: map<string, Hierarchy>

    constructor (fullpath: string, ip: set<string>, memories: set<string>, prRegion: bool, ghost height: nat)
      ensures this.fullpath == fullpath && this.ip == ip && this.memories == memories && this.prRegion == prRegion
      ensures this.height == height && hierarchies == map[]
    {
      this.fullpath, this.ip, this.memories, this.prRegion, this.height := fullpath, ip, memories, prRegion, height;
      hierarchies := map[];
    }
  }

  /** Every dictionary's sub-hierarchies. */
  type World = map<Hierarchy, map<string, Hierarchy>>

  ghost function Snap(all: set<Hierarchy>): World
    reads all
  {
    map x | x in all :: x.hierarchies
  }

  /** Dictionaries are nested, never in themselves. */
  ghost predicate Nested(w: World) {
    forall x, k :: x in w && k in w[x] ==> w[x][k] in w && w[x][k].height < x.height
  }

  // ---------------------------------------------------------------- what stays

  /** There is an IP, a memory or a reconfigurable region in x or somewhere below. */
  ghost predicate Survives(w: World, x: Hierarchy)
    requires Nested(w) && x in w
    decreases x.height
  {
    x.prRegion || x.ip != {} || x.memories != {} || exists k :: k in w[x] && Survives(w, w[x][k])
  }

  ghost predicate Below(w: World, x: Hierarchy, y: Hierarchy)
    requires Nested(w) && x in w
    decreases x.height
  {
    x == y || exists k :: k in w[x] && Below(w, w[x][k], y)
  }

  ghost function Reach(w: World, x: Hierarchy): (s: set<Hierarchy>)
    requires Nested(w) && x in w
  {
    set y | y in w && Below(w, x, y)
  }

  /** What is reached through some entries of a dictionary. */
  ghost function ReachVia(w: World, m: map<string, Hierarchy>, keys: set<string>): (s: set<Hierarchy>)
    requires Nested(w) && m.Values <= w.Keys && keys <= m.Keys
  {
    set y, k | k in keys && y in Reach(w, m[k]) :: y
  }

  /** What is reached through all of x's own entries. */
  ghost function Under(w: World, x: Hierarchy): (s: set<Hierarchy>)
    requires Nested(w) && x in w
  {
    ReachVia(w, w[x], w[x].Keys)
  }

  /** The entries whose hierarchy survives. */
  ghost function Kept(w: World, x: Hierarchy): map<string, Hierarchy>
    requires Nested(w) && x in w
  {
    map k | k in w[x] && Survives(w, w[x][k]) :: w[x][k]
  }

  /** The world with everything in d pruned. */
  ghost function PrunedOn(w: World, d: set<Hierarchy>): (r: World)
    requires Nested(w)
    ensures r.Keys == w.Keys && Nested(r)
  {
    map x | x in w :: if x in d then Kept(w, x) else w[x]
  }

  ghost predicate Closed(w: World, d: set<Hierarchy>) {
    d <= w.Keys && forall x, k :: x in d && k in w[x] ==> w[x][k] in d
  }

  lemma {:induction false} BelowTrans(w: World, x: Hierarchy, y: Hierarchy, k: string)
    requires Nested(w) && x in w && y in w && Below(w, x, y) && k in w[y]
    ensures Below(w, x, w[y][k])
    decreases x.height
  {
    if x == y {
      assert Below(w, w[x][k], w[y][k]);
    } else {
      var j :| j in w[x] && Below(w, w[x][j], y);
      BelowTrans(w, w[x][j], y, k);
    }
  }

  lemma ReachClosed(w: World, x: Hierarchy)
    requires Nested(w) && x in w
    ensures Closed(w, Reach(w, x)) && x in Reach(w, x)
  {
    forall y, k | y in Reach(w, x) && k in w[y] ensures w[y][k] in Reach(w, x) { BelowTrans(w, x, y, k); }
  }

  /** Pruning changes nobody's fate. */
  lemma {:induction false} PruningKeepsFate(w: World, d: set<Hierarchy>, x: Hierarchy)
    requires Nested(w) && x in w
    ensures Survives(PrunedOn(w, d), x) == Survives(w, x)
    decreases x.height
  {
    var w' := PrunedOn(w, d);
    forall k | k in w[x] ensures Survives(w', w[x][k]) == Survives(w, w[x][k]) { PruningKeepsFate(w, d, w[x][k]); }
    if k :| k in w[x] && Survives(w, w[x][k]) { assert k in w'[x] && w'[x][k] == w[x][k]; }
  }

  lemma {:induction false} BelowOrPruned(w: World, d: set<Hierarchy>, x: Hierarchy, y: Hierarchy)
    requires Nested(w) && Closed(w, d) && x in w && Below(w, x, y) && y in w
    ensures y in d || Below(PrunedOn(w, d), x, y)
    decreases x.height
  {
    if x != y {
      var k :| k in w[x] && Below(w, w[x][k], y);
      if x in d { InClosed(w, d, x, y); } else { BelowOrPruned(w, d, w[x][k], y); }
    }
  }

  lemma {:induction false} InClosed(w: World, d: set<Hierarchy>, x: Hierarchy, y: Hierarchy)
    requires Nested(w) && Closed(w, d) && x in d && Below(w, x, y)
    ensures y in d
    decreases x.height
  {
    if x != y {
      var k :| k in w[x] && Below(w, w[x][k], y);
      InClosed(w, d, w[x][k], y);
    }
  }

  lemma {:induction false} PrunedBelow(w: World, d: set<Hierarchy>, x: Hierarchy, y: Hierarchy)
    requires Nested(w) && x in w && Below(PrunedOn(w, d), x, y)
    ensures Below(w, x, y)
    decreases x.height
  {
    var w' := PrunedOn(w, d);
    if x != y {
      var k :| k in w'[x] && Below(w', w'[x][k], y);
      assert w'[x][k] == w[x][k];
      PrunedBelow(w, d, w[x][k], y);
    }
  }

  lemma KeptTwice(w: World, d: set<Hierarchy>, x: Hierarchy)
    requires Nested(w) && x in w
    ensures Kept(PrunedOn(w, d), x) == Kept(w, x)
  {
    forall k | k in w[x] ensures Survives(PrunedOn(w, d), w[x][k]) == Survives(w, w[x][k]) {
      PruningKeepsFate(w, d, w[x][k]);
    }
  }

  /** Pruning below one more hierarchy. */
  lemma PruneMore(w: World, d: set<Hierarchy>, h: Hierarchy)
    requires Nested(w) && Closed(w, d) && h in w
    ensures PrunedOn(PrunedOn(w, d), Reach(PrunedOn(w, d), h)) == PrunedOn(w, d + Reach(w, h))
    ensures Closed(w, d + Reach(w, h))
  {
    var w' := PrunedOn(w, d);
    var a, b := PrunedOn(w', Reach(w', h)), PrunedOn(w, d + Reach(w, h));
    ReachClosed(w, h);
    forall x | x in w ensures a[x] == b[x] {
      KeptTwice(w, d, x);
      if x in Reach(w', h) { PrunedBelow(w, d, h, x); }
      else if x in Reach(w, h) { BelowOrPruned(w, d, h, x); }
    }
  }

  /** Pruning again changes nothing. */
  lemma PruneTwice(w: World, x: Hierarchy)
    requires Nested(w) && x in w
    ensures var w' := PrunedOn(w, Reach(w, x)); PrunedOn(w', Reach(w', x)) == w'
  {
    ReachClosed(w, x);
    PruneMore(w, Reach(w, x), x);
    assert Reach(w, x) + Reach(w, x) == Reach(w, x);
  }

  /** Below the root of the pruning, exactly the survivors are left. */
  lemma {:induction false} LeftIffSurvives(w: World, d: set<Hierarchy>, x: Hierarchy, y: Hierarchy)
    requires Nested(w) && Closed(w, d) && x in d && Below(w, x, y) && y in w && x != y
    ensures Below(PrunedOn(w, d), x, y) <==> Survives(w, y)
    decreases x.height
  {
    var w' := PrunedOn(w, d);
    if Below(w', x, y) {
      OnlySurvivors(w, d, x, y);
    }
    if Survives(w, y) {
      var k :| k in w[x] && Below(w, w[x][k], y);
      AboveSurvives(w, w[x][k], y);
      assert k in w'[x] && w'[x][k] == w[x][k];
      if w[x][k] != y { LeftIffSurvives(w, d, w[x][k], y); }
      assert Below(w', w'[x][k], y);
    }
  }

  lemma {:induction false} AboveSurvives(w: World, x: Hierarchy, y: Hierarchy)
    requires Nested(w) && x in w && y in w && Below(w, x, y) && Survives(w, y)
    ensures Survives(w, x)
    decreases x.height
  {
    if x != y {
      var k :| k in w[x] && Below(w, w[x][k], y);
      AboveSurvives(w, w[x][k], y);
    }
  }

  lemma {:induction false} OnlySurvivors(w: World, d: set<Hierarchy>, x: Hierarchy, y: Hierarchy)
    requires Nested(w) && Closed(w, d) && x in d && x != y && y in w && Below(PrunedOn(w, d), x, y)
    ensures Survives(w, y)
    decreases x.height
  {
    var w' := PrunedOn(w, d);
    var k :| k in w'[x] && Below(w', w'[x][k], y);
    if w'[x][k] != y { OnlySurvivors(w, d, w[x][k], y); }
  }

  /** A reason of its own to stay: an IP, a memory or a reconfigurable region. */
  predicate Reason(y: Hierarchy) {
    y.ip != {} || y.memories != {} || y.prRegion
  }

  /** What survives is exactly what has such a reason in itself or somewhere below. */
  lemma {:induction false} SurvivesIff(w: World, x: Hierarchy)
    requires Nested(w) && x in w
    ensures Survives(w, x) <==> exists y :: y in w && Below(w, x, y) && Reason(y)
    decreases x.height
  {
    if Reason(x) { assert Below(w, x, x); }
    else if Survives(w, x) {
      var k :| k in w[x] && Survives(w, w[x][k]);
      SurvivesIff(w, w[x][k]);
      var y :| y in w && Below(w, w[x][k], y) && Reason(y);
      assert Below(w, x, y);
    }
    if y :| y in w && Below(w, x, y) && Reason(y) { AboveSurvives(w, x, y); }
  }

  // ---------------------------------------------------------------- the prune walker

  lemma ViaStep(w: World, m: map<string, Hierarchy>, keys: set<string>, k: string)
    requires Nested(w) && m.Values <= w.Keys && keys <= m.Keys && k in m
    ensures ReachVia(w, m, keys + {k}) == ReachVia(w, m, keys) + Reach(w, m[k])
  {
  }

  lemma {:induction false} BelowLower(w: World, x: Hierarchy, y: Hierarchy)
    requires Nested(w) && x in w && Below(w, x, y)
    ensures y.height <= x.height
    decreases x.height
  {
    if x != y {
      var k :| k in w[x] && Below(w, w[x][k], y);
      BelowLower(w, w[x][k], y);
    }
  }

  lemma NotUnderItself(w: World, x: Hierarchy)
    requires Nested(w) && x in w
    ensures x !in Under(w, x)
  {
    forall k | k in w[x] ensures x !in Reach(w, w[x][k]) {
      if x in Reach(w, w[x][k]) { BelowLower(w, w[x][k], x); }
    }
  }

  lemma ReachIsUnder(w: World, x: Hierarchy)
    requires Nested(w) && x in w
    ensures Reach(w, x) == {x} + Under(w, x)
  {
    forall y | y in Reach(w, x) && y != x ensures y in Under(w, x) {
      var k :| k in w[x] && Below(w, w[x][k], y);
      assert y in Reach(w, w[x][k]);
    }
  }

  /** Everything under x, then x's own entries. */
  lemma PruneHere(w: World, x: Hierarchy)
    requires Nested(w) && x in w
    ensures PrunedOn(w, Under(w, x))[x] == w[x]
    ensures PrunedOn(w, Reach(w, x)) == PrunedOn(w, Under(w, x))[x := Kept(w, x)]
  {
    ReachIsUnder(w, x);
    NotUnderItself(w, x);
  }

  /** Prune what is below x; true if nothing of x is left. */
  method PruneUnusedWalker(x: Hierarchy, ghost all: set<Hierarchy>) returns (gone: bool)
    requires x in all && Nested(Snap(all))
    modifies all
    ensures Snap(all) == PrunedOn(old(Snap(all)), Reach(old(Snap(all)), x))
    ensures gone == !Survives(old(Snap(all)), x)
    decreases x.height, 1
  {
    ghost var w := Snap(all);
    PruneHere(w, x);
    var delList := PruneEntries(x.hierarchies, all, x.height);
    assert x.hierarchies == w[x];
    DeleteEntries(x, delList, w, all);
    if x.prRegion {
      gone := false;
    } else {
      gone := x.ip == {} && x.memories == {} && x.hierarchies == map[];
      assert gone ==> forall k :: k in w[x] ==> k !in Kept(w, x);
    }
  }

  /** Its second loop: delete the listed entries. */
  method DeleteEntries(x: Hierarchy, delList: set<string>, ghost w: World, ghost all: set<Hierarchy>)
    requires x in all && Nested(w) && x in w && x.hierarchies == w[x]
    requires delList == set k | k in w[x] && !Survives(w, w[x][k])
    modifies x
    ensures x.hierarchies == Kept(w, x) && Snap(all) == old(Snap(all))[x := Kept(w, x)]
  {
    x.hierarchies := map k | k in x.hierarchies && k !in delList :: x.hierarchies[k];
    assert x.hierarchies == Kept(w, x);
  }

  /** The loop over the entries of a dictionary: prune each, and list those of which nothing is left. */
  method PruneEntries(m: map<string, Hierarchy>, ghost all: set<Hierarchy>, ghost height: nat)
    returns (delList: set<string>)
    requires m.Values <= all && Nested(Snap(all)) && forall k :: k in m ==> m[k].height < height
    modifies all
    ensures var w := old(Snap(all));
      Snap(all) == PrunedOn(w, ReachVia(w, m, m.Keys)) && delList == set k | k in m && !Survives(w, m[k])
    decreases height, 0
  {
    ghost var w := Snap(all);
    delList := {};
    var left := m.Keys;
    ghost var done: set<string> := {};
    StartEntries(w, m);
    while left != {}
      invariant done + left == m.Keys && done !! left
      invariant Closed(w, ReachVia(w, m, done)) && Snap(all) == PrunedOn(w, ReachVia(w, m, done))
      invariant delList == set k | k in done && !Survives(w, m[k])
    {
      var k :| k in left;
      EntryStep(w, m, done, k);
      var gone := PruneUnusedWalker(m[k], all);
      if gone { delList := delList + {k}; }
      done := done + {k};
      left := left - {k};
    }
    assert done == m.Keys;
  }

  lemma StartEntries(w: World, m: map<string, Hierarchy>)
    requires Nested(w) && m.Values <= w.Keys
    ensures Closed(w, ReachVia(w, m, {})) && PrunedOn(w, ReachVia(w, m, {})) == w
  {
  }

  lemma EntryStep(w: World, m: map<string, Hierarchy>, done: set<string>, k: string)
    requires Nested(w) && m.Values <= w.Keys && done <= m.Keys && k in m && Closed(w, ReachVia(w, m, done))
    ensures var mid := PrunedOn(w, ReachVia(w, m, done));
      && Survives(mid, m[k]) == Survives(w, m[k])
      && PrunedOn(mid, Reach(mid, m[k])) == PrunedOn(w, ReachVia(w, m, done + {k}))
    ensures Closed(w, ReachVia(w, m, done + {k}))
  {
    PruningKeepsFate(w, ReachVia(w, m, done), m[k]);
    PruneMore(w, ReachVia(w, m, done), m[k]);
    ViaStep(w, m, done, k);
  }

  // ---------------------------------------------------------------- the root dictionary

  ghost predicate PathsDistinct(s: set<Hierarchy>) {
    forall x, y :: x in s && y in s && x.fullpath == y.fullpath ==> x == y
  }

  /** Hierarchies by their path. */
  ghost function ByPath(s: set<Hierarchy>): (m: map<string, Hierarchy>)
    requires PathsDistinct(s)
  {
    map y | y in s :: y.fullpath := y
  }

  lemma ByPathJoin(a: set<Hierarchy>, b: set<Hierarchy>)
    requires PathsDistinct(a + b)
    ensures PathsDistinct(a) && PathsDistinct(b) && ByPath(a + b) == ByPath(a) + ByPath(b)
  {
  }

  lemma ByPathOne(x: Hierarchy)
    ensures PathsDistinct({x}) && ByPath({x}) == map[x.fullpath := x]
  {
  }

  /** Add everything under l, by path. */
  method ReplicateSubhierarchies(addToRoot: map<string, Hierarchy>, l: Hierarchy, ghost all: set<Hierarchy>)
    returns (r: map<string, Hierarchy>)
    requires l in all && Nested(Snap(all)) && PathsDistinct(Under(Snap(all), l))
    ensures r == addToRoot + ByPath(Under(Snap(all), l))
    decreases l.height
  {
    ghost var w := Snap(all);
    EntriesBelow(w, l);
    r := addToRoot;
    var m := l.hierarchies;
    assert m == w[l];
    hide *;
    var left := m.Keys;
    ghost var done: set<string> := {};
    NothingVia(w, m, addToRoot);
    while left != {}
      invariant done + left == m.Keys && done !! left
      invariant PathsDistinct(ReachVia(w, m, done)) && r == addToRoot + ByPath(ReachVia(w, m, done))
    {
      var k :| k in left;
      var h := m[k];
      ReplicateStep(w, l, done, k);
      AddAll(addToRoot, ByPath(ReachVia(w, m, done)), h.fullpath, h, ByPath(Under(w, h)));
      r := r[h.fullpath := h];
      r := ReplicateSubhierarchies(r, h, all);
      done := done + {k};
      left := left - {k};
    }
    assert done == m.Keys;
    UnderIs(w, l);
  }

  lemma EntriesBelow(w: World, x: Hierarchy)
    requires Nested(w) && x in w
    ensures w[x].Values <= w.Keys && forall k :: k in w[x] ==> w[x][k] in w && w[x][k].height < x.height
  {
  }

  lemma UnderIs(w: World, x: Hierarchy)
    requires Nested(w) && x in w && w[x].Values <= w.Keys
    ensures Under(w, x) == ReachVia(w, w[x], w[x].Keys)
  {
  }

  lemma ReplicateStep(w: World, l: Hierarchy, done: set<string>, k: string)
    requires Nested(w) && l in w && done <= w[l].Keys && k in w[l] && PathsDistinct(Under(w, l))
    ensures var h, before, after := w[l][k], ReachVia(w, w[l], done), ReachVia(w, w[l], done + {k});
      && PathsDistinct(before) && PathsDistinct(after) && PathsDistinct(Under(w, h))
      && ByPath(after) == ByPath(before)[h.fullpath := h] + ByPath(Under(w, h))
  {
    hide *;
    EntriesBelow(w, l);
    var h, before, after := w[l][k], ReachVia(w, w[l], done), ReachVia(w, w[l], done + {k});
    ViaWithin(w, l, done + {k});
    ViaStep(w, w[l], done, k);
    ReachIsUnder(w, h);
    ByPathJoin(before, {h} + Under(w, h));
    ByPathJoin({h}, Under(w, h));
    ByPathOne(h);
    AddThenAll(ByPath(before), h.fullpath, h, ByPath(Under(w, h)));
  }

  lemma ViaWithin(w: World, l: Hierarchy, keys: set<string>)
    requires Nested(w) && l in w && keys <= w[l].Keys && PathsDistinct(Under(w, l))
    ensures PathsDistinct(ReachVia(w, w[l], keys))
  {
    assert ReachVia(w, w[l], keys) <= Under(w, l);
  }

  lemma AddThenAll(a: map<string, Hierarchy>, k: string, h: Hierarchy, b: map<string, Hierarchy>)
    ensures a + (map[k := h] + b) == a[k := h] + b
  {
  }

  lemma AddAll(a: map<string, Hierarchy>, b: map<string, Hierarchy>, k: string, h: Hierarchy, c: map<string, Hierarchy>)
    ensures (a + b)[k := h] + c == a + (b[k := h] + c)
  {
  }

  lemma NothingVia(w: World, m: map<string, Hierarchy>, a: map<string, Hierarchy>)
    requires Nested(w) && m.Values <= w.Keys
    ensures PathsDistinct(ReachVia(w, m, {})) && a + ByPath(ReachVia(w, m, {})) == a
  {
    assert ReachVia(w, m, {}) == {};
  }

  // ---------------------------------------------------------------- the view

  /** What is strictly below some of the root's entries. */
  ghost function UnderVia(w: World, m: map<string, Hierarchy>, keys: set<string>): (s: set<Hierarchy>)
    requires Nested(w) && m.Values <= w.Keys && keys <= m.Keys
  {
    set y, k | k in keys && y in Under(w, m[k]) :: y
  }

  ghost function SurvivingRoots(w: World, root: map<string, Hierarchy>): map<string, Hierarchy>
    requires Nested(w) && root.Values <= w.Keys
  {
    map k | k in root && Survives(w, root[k]) :: root[k]
  }

  ghost function SurvivorsBelow(w: World, root: map<string, Hierarchy>): (s: set<Hierarchy>)
    requires Nested(w) && root.Values <= w.Keys
  {
    set y | y in UnderVia(w, root, root.Keys) && Survives(w, y)
  }

  /** Nothing left at the top of x, and no reason to keep it empty. */
  predicate Empty(x: Hierarchy)
    reads x
  {
    x.ip == {} && x.memories == {} && x.hierarchies == map[] && !x.prRegion
  }

  lemma {:induction false} UnderLower(w: World, x: Hierarchy, y: Hierarchy)
    requires Nested(w) && x in w && y in Under(w, x)
    ensures y != x && Below(w, x, y) && y in w
  {
    ReachIsUnder(w, x);
    NotUnderItself(w, x);
    assert y in Reach(w, x);
  }

  /** What is strictly below x once x has been pruned: the survivors that were. */
  lemma UnderPruned(w: World, d: set<Hierarchy>, x: Hierarchy)
    requires Nested(w) && Closed(w, d) && x in d
    ensures Under(PrunedOn(w, d), x) == set y | y in Under(w, x) && Survives(w, y)
  {
    var w' := PrunedOn(w, d);
    ReachIsUnder(w, x);
    ReachIsUnder(w', x);
    NotUnderItself(w, x);
    NotUnderItself(w', x);
    forall y | y in w && y != x ensures y in Reach(w', x) <==> y in Reach(w, x) && Survives(w, y) {
      if Below(w', x, y) { PrunedBelow(w, d, x, y); }
      if Below(w, x, y) { LeftIffSurvives(w, d, x, y); }
    }
  }

  /** What is strictly below the surviving roots is what survives below any root. */
  lemma RootsKeepAll(w: World, root: map<string, Hierarchy>)
    requires Nested(w) && root.Values <= w.Keys && Closed(w, ReachVia(w, root, root.Keys))
    ensures var w', kept := PrunedOn(w, ReachVia(w, root, root.Keys)), SurvivingRoots(w, root);
      kept.Values <= w'.Keys && UnderVia(w', kept, kept.Keys) == SurvivorsBelow(w, root)
  {
    var d := ReachVia(w, root, root.Keys);
    var w', kept := PrunedOn(w, d), SurvivingRoots(w, root);
    forall k | k in root ensures Under(w', root[k]) == set y | y in Under(w, root[k]) && Survives(w, y) {
      ReachClosed(w, root[k]);
      UnderPruned(w, d, root[k]);
    }
    forall y | y in SurvivorsBelow(w, root) ensures y in UnderVia(w', kept, kept.Keys) {
      var k :| k in root && y in Under(w, root[k]);
      UnderLower(w, root[k], y);
      AboveSurvives(w, root[k], y);
      assert k in kept && y in Under(w', kept[k]);
    }
    forall y | y in UnderVia(w', kept, kept.Keys) ensures y in SurvivorsBelow(w, root) {
      var k :| k in kept && y in Under(w', kept[k]);
      assert k in root && y in Under(w, root[k]);
    }
  }

  lemma EmptyIffGone(w: World, d: set<Hierarchy>, x: Hierarchy)
    requires Nested(w) && x in w && x in d
    ensures Survives(w, x) <==> x.prRegion || x.ip != {} || x.memories != {} || PrunedOn(w, d)[x] != map[]
  {
    if k :| k in w[x] && Survives(w, w[x][k]) { assert k in Kept(w, x); }
    if k :| k in Kept(w, x) { assert Survives(w, w[x][k]); }
  }

  /** The pruning part of the view: prune below every entry of the root dictionary, drop the
      entries of which nothing is left, and add every hierarchy below the others by its path. */
  method View(root: map<string, Hierarchy>, ghost all: set<Hierarchy>, ghost height: nat)
    returns (r: map<string, Hierarchy>)
    requires root.Values <= all && Nested(Snap(all)) && forall k :: k in root ==> root[k].height < height
    requires PathsDistinct(SurvivorsBelow(Snap(all), root))
    modifies all
    ensures var w := old(Snap(all));
      && Snap(all) == PrunedOn(w, ReachVia(w, root, root.Keys))
      && r == SurvivingRoots(w, root) + ByPath(SurvivorsBelow(w, root))
  {
    ghost var w := Snap(all);
    var _ := PruneEntries(root, all, height);
    AllClosed(w, root, root.Keys);
    RootsKeepAll(w, root);
    var kept := DropEmpty(root, w, all);
    var addToRoot := ReplicateAll(kept, all);
    r := kept + addToRoot;
  }

  lemma AllClosed(w: World, m: map<string, Hierarchy>, keys: set<string>)
    requires Nested(w) && m.Values <= w.Keys && keys <= m.Keys
    ensures Closed(w, ReachVia(w, m, keys))
  {
    forall y, j | y in ReachVia(w, m, keys) && j in w[y] ensures w[y][j] in ReachVia(w, m, keys) {
      var k :| k in keys && y in Reach(w, m[k]);
      ReachClosed(w, m[k]);
    }
  }

  /** The root's entries of which something is left. */
  method DropEmpty(root: map<string, Hierarchy>, ghost w: World, ghost all: set<Hierarchy>)
    returns (r: map<string, Hierarchy>)
    requires Nested(w) && root.Values <= w.Keys == all && Snap(all) == PrunedOn(w, ReachVia(w, root, root.Keys))
    ensures r == SurvivingRoots(w, root)
  {
    var delList := set k | k in root && Empty(root[k]);
    r := map k | k in root && k !in delList :: root[k];
    forall k | k in root ensures Empty(root[k]) <==> !Survives(w, root[k]) {
      ReachClosed(w, root[k]);
      EmptyIffGone(w, ReachVia(w, root, root.Keys), root[k]);
      assert root[k].hierarchies == Snap(all)[root[k]];
    }
  }

  /** The replication loop over the root. */
  method ReplicateAll(root: map<string, Hierarchy>, ghost all: set<Hierarchy>) returns (r: map<string, Hierarchy>)
    requires root.Values <= all && Nested(Snap(all)) && PathsDistinct(UnderVia(Snap(all), root, root.Keys))
    ensures r == ByPath(UnderVia(Snap(all), root, root.Keys))
  {
    hide *;
    ghost var w := Snap(all);
    SnapKeys(all);
    r := map[];
    var left := root.Keys;
    ghost var done: set<string> := {};
    NothingUnder(w, root);
    while left != {}
      invariant done + left == root.Keys && done !! left
      invariant PathsDistinct(UnderVia(w, root, done)) && r == ByPath(UnderVia(w, root, done))
    {
      var k :| k in left;
      UnderStep(w, root, done, k);
      r := ReplicateSubhierarchies(r, root[k], all);
      done := done + {k};
      left := left - {k};
    }
    assert done == root.Keys;
  }

  lemma SnapKeys(all: set<Hierarchy>)
    ensures Snap(all).Keys == all
  {
  }

  lemma NothingUnder(w: World, m: map<string, Hierarchy>)
    requires Nested(w) && m.Values <= w.Keys
    ensures PathsDistinct(UnderVia(w, m, {})) && ByPath(UnderVia(w, m, {})) == map[]
  {
    assert UnderVia(w, m, {}) == {};
  }

  lemma UnderStep(w: World, m: map<string, Hierarchy>, done: set<string>, k: string)
    requires Nested(w) && m.Values <= w.Keys && done <= m.Keys && k in m && PathsDistinct(UnderVia(w, m, m.Keys))
    ensures PathsDistinct(UnderVia(w, m, done)) && PathsDistinct(Under(w, m[k]))
    ensures PathsDistinct(UnderVia(w, m, done + {k}))
    ensures ByPath(UnderVia(w, m, done + {k})) == ByPath(UnderVia(w, m, done)) + ByPath(Under(w, m[k]))
  {
    assert UnderVia(w, m, done + {k}) == UnderVia(w, m, done) + Under(w, m[k]);
    assert UnderVia(w, m, done + {k}) <= UnderVia(w, m, m.Keys);
    hide Under, UnderVia;
    ByPathJoin(UnderVia(w, m, done), Under(w, m[k]));
  }

  /** The final root dictionary holds exactly the survivors: nothing with an IP, a memory or a
      reconfigurable region below it is lost, and nothing else is kept. */
  lemma RootHoldsSurvivors(w: World, root: map<string, Hierarchy>, y: Hierarchy)
    requires Nested(w) && root.Values <= w.Keys && PathsDistinct(SurvivorsBelow(w, root))
    requires forall x :: x in SurvivorsBelow(w, root) && x.fullpath in root ==> x == root[x.fullpath]
    requires y in ReachVia(w, root, root.Keys)
    ensures y in (SurvivingRoots(w, root) + ByPath(SurvivorsBelow(w, root))).Values <==> Survives(w, y)
    ensures forall k :: k in SurvivingRoots(w, root) + ByPath(SurvivorsBelow(w, root)) ==>
      var x := (SurvivingRoots(w, root) + ByPath(SurvivorsBelow(w, root)))[k];
      x.fullpath == k || (k in root && root[k] == x)
  {
    var a, b := SurvivingRoots(w, root), ByPath(SurvivorsBelow(w, root));
    if Survives(w, y) {
      var k :| k in root && y in Reach(w, root[k]);
      ReachIsUnder(w, root[k]);
      if y == root[k] {
        assert k in a && (k in b ==> b[k] == root[k]);
        assert (a + b)[k] == y;
      } else {
        assert y in SurvivorsBelow(w, root);
        assert (a + b)[y.fullpath] == y;
      }
    }
    if y in (a + b).Values {
      var k :| k in a + b && (a + b)[k] == y;
      if k in b { assert b[k] in SurvivorsBelow(w, root); } else { assert a[k] == y; }
    }
  }
}
