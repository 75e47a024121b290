/** Every way the recursion of the import order may cut the parent cycles gives an order the sort can produce. */
module IssueCuts {
  import opened Basics
  import opened IssueOrder

  /** One issue of every cycle: `first` on its own cycle, the least id on the others. */
  ghost function Cuts(byId: ById, first: Id): set<Id> {
    set c | c in byId && IsChosen(byId, first, c)
  }

  ghost predicate IsChosen(byId: ById, first: Id, c: Id) {
    OnCycle(byId, c) && if SameCycle(byId, c, first) then c == first else LeastOnCycle(byId, c)
  }

  ghost predicate LeastOnCycle(byId: ById, c: Id) {
    forall d :: d in byId && SameCycle(byId, c, d) ==> c <= d
  }

  lemma SameCycleBack(byId: ById, i: Id, j: Id)
    requires SameCycle(byId, i, j)
    ensures SameCycle(byId, j, i)
  {
    var n: nat :| n > 0 && Ancestor(byId, i, n) == Some(i);
    var a: nat :| Ancestor(byId, i, a) == Some(j);
    var b: nat :| Ancestor(byId, j, b) == Some(i);
    AncestorAdds(byId, j, b, i, n);
    AncestorAdds(byId, j, b + n, i, a);
    assert b + n + a > 0 && Ancestor(byId, j, b + n + a) == Some(j);
  }

  lemma SameCycleOn(byId: ById, i: Id, j: Id, k: Id)
    requires SameCycle(byId, i, j) && SameCycle(byId, j, k)
    ensures SameCycle(byId, i, k)
  {
    ReachesThrough(byId, i, j, k);
    ReachesThrough(byId, k, j, i);
  }

  lemma AncestorKnown(byId: ById, i: Id, n: nat)
    requires i in byId && Ancestor(byId, i, n).Some?
    ensures Ancestor(byId, i, n).value in byId
  {
    if n > 0 { assert Ancestor(byId, i, n - 1).Some?; }
  }

  lemma {:induction false} LeastMember(members: set<Id>) returns (least: Id)
    requires members != {}
    ensures least in members && forall m :: m in members ==> least <= m
    decreases |members|
  {
    var first :| first in members;
    var rest := members - {first};
    assert members == rest + {first};
    least := first;
    if rest != {} {
      least := LeastMember(rest);
      if first < least { least := first; }
    }
  }

  /** Each cycle has a chosen issue. */
  lemma CycleHasChosen(byId: ById, first: Id, i: Id) returns (c: Id)
    requires i in byId && OnCycle(byId, i)
    ensures c in Cuts(byId, first) && SameCycle(byId, i, c)
  {
    assert Ancestor(byId, i, 0) == Some(i);
    assert SameCycle(byId, i, i);
    if SameCycle(byId, i, first) {
      c := first;
      var n: nat :| Ancestor(byId, i, n) == Some(first);
      AncestorKnown(byId, i, n);
      SameCycleBack(byId, i, first);
      assert Ancestor(byId, first, 0) == Some(first) && SameCycle(byId, first, first);
    } else {
      var members := set d | d in byId && SameCycle(byId, i, d);
      assert i in members;
      c := LeastMember(members);
      SameCycleBack(byId, i, c);
      forall d | d in byId && SameCycle(byId, c, d) ensures c <= d {
        SameCycleOn(byId, i, c, d);
        assert d in members;
      }
      if SameCycle(byId, c, first) { SameCycleOn(byId, i, c, first); }
    }
  }

  /** And only one. */
  lemma ChosenOnce(byId: ById, first: Id, c: Id, d: Id)
    requires c in Cuts(byId, first) && d in Cuts(byId, first) && SameCycle(byId, c, d)
    ensures c == d
  {
    SameCycleBack(byId, c, d);
    if SameCycle(byId, c, first) { SameCycleOn(byId, d, c, first); }
    if SameCycle(byId, d, first) { SameCycleOn(byId, c, d, first); }
  }

  /* ---- depths counted from roots and cuts ---- */

  ghost predicate IsStop(byId: ById, cuts: set<Id>, i: Id) {
    Parent(byId, i).None? || i in cuts
  }

  /** The first stop on the way up from `i` is `n` steps away. */
  ghost predicate StopsAt(byId: ById, cuts: set<Id>, i: Id, n: nat) {
    && Ancestor(byId, i, n).Some? && IsStop(byId, cuts, Ancestor(byId, i, n).value)
    && forall m: nat :: m < n && Ancestor(byId, i, m).Some? ==> !IsStop(byId, cuts, Ancestor(byId, i, m).value)
  }

  lemma StopsOnce(byId: ById, cuts: set<Id>, i: Id, m: nat, n: nat)
    requires StopsAt(byId, cuts, i, m) && StopsAt(byId, cuts, i, n)
    ensures m == n
  {
  }

  /** Some stop is reached, for the chain either ends or closes a cycle. */
  lemma {:induction false} ReachesStop(byId: ById, first: Id, i: Id, seen: set<Id>) returns (n: nat)
    requires i in byId && seen <= byId.Keys
    requires forall s :: s in seen ==> Reaches(byId, s, i) && (s == i ==> OnCycle(byId, i))
    ensures Ancestor(byId, i, n).Some? && IsStop(byId, Cuts(byId, first), Ancestor(byId, i, n).value)
    decreases byId.Keys - seen
  {
    assert Ancestor(byId, i, 0) == Some(i);
    if i in seen {
      var c := CycleHasChosen(byId, first, i);
      n :| Ancestor(byId, i, n) == Some(c);
    } else if Parent(byId, i).None? {
      n := 0;
    } else {
      var p := Parent(byId, i).value;
      assert Ancestor(byId, i, 1) == Some(p);
      forall s | s in seen + {i} ensures Reaches(byId, s, p) && (s == p ==> OnCycle(byId, p)) {
        StepOnward(byId, s, i, p);
      }
      var m := ReachesStop(byId, first, p, seen + {i});
      AncestorAdds(byId, i, 1, p, m);
      n := 1 + m;
    }
  }

  lemma StepOnward(byId: ById, s: Id, i: Id, p: Id)
    requires Reaches(byId, s, i) && Parent(byId, i) == Some(p)
    ensures Reaches(byId, s, p) && (s == p ==> OnCycle(byId, p))
  {
    var m: nat :| Ancestor(byId, s, m) == Some(i);
    assert Ancestor(byId, s, m + 1) == Some(p);
  }

  lemma {:induction false} LeastStop(byId: ById, cuts: set<Id>, i: Id, n: nat) returns (least: nat)
    requires Ancestor(byId, i, n).Some? && IsStop(byId, cuts, Ancestor(byId, i, n).value)
    ensures least <= n && StopsAt(byId, cuts, i, least)
    decreases n
  {
    if m: nat :| m < n && Ancestor(byId, i, m).Some? && IsStop(byId, cuts, Ancestor(byId, i, m).value) {
      least := LeastStop(byId, cuts, i, m);
    } else {
      least := n;
    }
  }

  lemma Stops(byId: ById, first: Id, i: Id)
    requires i in byId
    ensures exists n: nat :: StopsAt(byId, Cuts(byId, first), i, n)
  {
    var n := ReachesStop(byId, first, i, {});
    var least := LeastStop(byId, Cuts(byId, first), i, n);
  }

  ghost function Distance(byId: ById, first: Id, i: Id): (n: nat)
    requires i in byId
    ensures StopsAt(byId, Cuts(byId, first), i, n)
  {
    Stops(byId, first, i);
    var n: nat :| StopsAt(byId, Cuts(byId, first), i, n);
    n
  }

  /** Depth 0 at roots, 1 at the chosen issues, one more at every step down. */
  ghost function DepthAt(byId: ById, first: Id, i: Id): nat
    requires i in byId
  {
    var n := Distance(byId, first, i);
    n + if Ancestor(byId, i, n).value in Cuts(byId, first) then 1 else 0
  }

  ghost function Depths(byId: ById, first: Id): (depth: map<Id, nat>)
    ensures depth.Keys == byId.Keys && forall i :: i in byId ==> depth[i] == DepthAt(byId, first, i)
  {
    map i | i in byId :: DepthAt(byId, first, i)
  }

  lemma ChosenHasParent(byId: ById, first: Id, c: Id)
    requires c in Cuts(byId, first)
    ensures Parent(byId, c).Some?
  {
    var n: nat :| n > 0 && Ancestor(byId, c, n) == Some(c);
    assert Ancestor(byId, c, 0) == Some(c);
    if Parent(byId, c).None? {
      assert Ancestor(byId, c, 1) == None;
      StaysNone(byId, c, 1, n - 1);
    }
  }

  lemma DepthAtIsDepth(byId: ById, first: Id, i: Id)
    requires i in byId
    ensures DepthOf(byId, Depths(byId, first), i)
  {
    if IsStop(byId, Cuts(byId, first), i) { StopDepth(byId, first, i); } else { StepDepth(byId, first, i); }
  }

  lemma StopDepth(byId: ById, first: Id, i: Id)
    requires i in byId && IsStop(byId, Cuts(byId, first), i)
    ensures DepthOf(byId, Depths(byId, first), i)
  {
    assert Ancestor(byId, i, 0) == Some(i);
    assert StopsAt(byId, Cuts(byId, first), i, 0);
    StopsOnce(byId, Cuts(byId, first), i, 0, Distance(byId, first, i));
    if i in Cuts(byId, first) { ChosenHasParent(byId, first, i); }
  }

  lemma StepDepth(byId: ById, first: Id, i: Id)
    requires i in byId && !IsStop(byId, Cuts(byId, first), i)
    ensures Parent(byId, i).Some? && DepthAt(byId, first, i) == DepthAt(byId, first, Parent(byId, i).value) + 1
  {
    var n, p := Distance(byId, first, i), Parent(byId, i).value;
    assert Ancestor(byId, i, 0) == Some(i);
    assert Ancestor(byId, i, 1) == Some(p);
    AboveStops(byId, Cuts(byId, first), i, p, n);
    StopsOnce(byId, Cuts(byId, first), p, n - 1, Distance(byId, first, p));
    AncestorAdds(byId, i, 1, p, n - 1);
  }

  lemma AboveStops(byId: ById, cuts: set<Id>, i: Id, p: Id, n: nat)
    requires Parent(byId, i) == Some(p) && !IsStop(byId, cuts, i) && StopsAt(byId, cuts, i, n)
    ensures n > 0 && StopsAt(byId, cuts, p, n - 1)
  {
    assert Ancestor(byId, i, 0) == Some(i);
    assert Ancestor(byId, i, 1) == Some(p);
    AncestorAdds(byId, i, 1, p, n - 1);
    forall m: nat | m < n - 1 && Ancestor(byId, p, m).Some? ensures !IsStop(byId, cuts, Ancestor(byId, p, m).value) {
      AncestorAdds(byId, i, 1, p, m);
      assert Ancestor(byId, i, 1 + m).Some?;
    }
  }

  /** From a cycle the first stop is the one chosen on it. */
  lemma CycleStopsAtChosen(byId: ById, first: Id, i: Id) returns (c: Id)
    requires i in byId && OnCycle(byId, i)
    ensures c in Cuts(byId, first) && SameCycle(byId, i, c)
    ensures Ancestor(byId, i, Distance(byId, first, i)) == Some(c)
  {
    var n := Distance(byId, first, i);
    c := Ancestor(byId, i, n).value;
    AncestorKnown(byId, i, n);
    AncestorOnCycle(byId, i, n);
    if Parent(byId, c).None? {
      CycleNeverEnds(byId, i, n + 1);
    }
  }

  lemma AncestorOnCycle(byId: ById, i: Id, n: nat)
    requires OnCycle(byId, i)
    ensures Ancestor(byId, i, n).Some? && SameCycle(byId, i, Ancestor(byId, i, n).value)
  {
    CycleNeverEnds(byId, i, n);
    var period: nat :| period > 0 && Ancestor(byId, i, period) == Some(i);
    RoundAndRound(byId, i, period, n);
    var c := Ancestor(byId, i, n).value;
    AncestorAdds(byId, i, n, c, n * period - n);
    assert Ancestor(byId, c, n * period - n) == Some(i);
  }

  lemma {:induction false} RoundAndRound(byId: ById, i: Id, period: nat, times: nat)
    requires period > 0 && Ancestor(byId, i, period) == Some(i)
    ensures times * period >= times && Ancestor(byId, i, times * period) == Some(i)
  {
    if times > 0 {
      RoundAndRound(byId, i, period, times - 1);
      assert times * period == (times - 1) * period + period;
      AncestorAdds(byId, i, (times - 1) * period, i, period);
    }
  }

  /** Two issues of one cycle at the same distance from its chosen issue are one issue. */
  lemma SameDistance(byId: ById, i: Id, j: Id, c: Id, n: nat)
    requires Reaches(byId, i, j) && Reaches(byId, c, i)
    requires Ancestor(byId, i, n) == Some(c) && Ancestor(byId, j, n) == Some(c)
    ensures i == j
  {
    var k: nat :| Ancestor(byId, i, k) == Some(j);
    var m: nat :| Ancestor(byId, c, m) == Some(i);
    AncestorAdds(byId, i, k, j, n);
    AncestorAdds(byId, i, n, c, k);
    AncestorAdds(byId, c, m, i, k);
    AncestorAdds(byId, c, k, c, m);
  }

  lemma DepthsCutOnce(byId: ById, first: Id)
    ensures CutOnce(byId, Depths(byId, first))
  {
    var depth := Depths(byId, first);
    forall i, j | i in depth && j in depth && i != j && Reaches(byId, i, j) && Reaches(byId, j, i)
      ensures depth[i] != depth[j]
    {
      var a: nat :| Ancestor(byId, i, a) == Some(j);
      var b: nat :| Ancestor(byId, j, b) == Some(i);
      AncestorAdds(byId, i, a, j, b);
      assert Ancestor(byId, i, 0) == Some(i);
      assert a + b > 0 && Ancestor(byId, i, a + b) == Some(i);
      SameCycleBack(byId, i, j);
      var c := CycleStopsAtChosen(byId, first, i);
      var d := CycleStopsAtChosen(byId, first, j);
      SameCycleBack(byId, i, c);
      SameCycleOn(byId, c, i, j);
      SameCycleOn(byId, c, j, d);
      ChosenOnce(byId, first, c, d);
      if Distance(byId, first, i) == Distance(byId, first, j) {
        SameDistance(byId, i, j, c, Distance(byId, first, i));
      }
    }
  }

  /** Whichever issue of a cycle is chosen, some depth map cuts its cycle there. */
  lemma SomeDepthMapCutsAt(byId: ById, first: Id)
    ensures DepthMap(byId, Depths(byId, first))
    ensures first in byId && OnCycle(byId, first) ==> Depths(byId, first)[first] == 1
  {
    var depth := Depths(byId, first);
    forall i | i in depth ensures DepthOf(byId, depth, i) {
      DepthAtIsDepth(byId, first, i);
    }
    DepthsCutOnce(byId, first);
    if first in byId && OnCycle(byId, first) {
      assert Ancestor(byId, first, 0) == Some(first);
      assert SameCycle(byId, first, first) && first in Cuts(byId, first);
      assert StopsAt(byId, Cuts(byId, first), first, 0);
      StopsOnce(byId, Cuts(byId, first), first, 0, Distance(byId, first, first));
    }
  }
}
