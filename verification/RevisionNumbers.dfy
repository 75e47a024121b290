/** Numbering of imported document revisions (worktree-merge-history-lib.ts, the revision loop of
    `buildWorktreeMergePlan`). */
module RevisionNumbers {
  import opened Basics
  import opened MergeModel

  /** `x && alive.has(x) ? x : null` */
  function Kept(ref: Option<Id>, alive: set<Id>): Option<Id> {
    if ref.Some? && ref.value in alive then ref else None
  }

  function AtOrAbove(used: set<int>, from: int): set<int> {
    set k | k in used && k >= from
  }

  /** The least number at or above `from` that is not in use. */
  function NextFree(used: set<int>, from: int): (n: int)
    ensures from <= n && n !in used && forall k :: from <= k < n ==> k in used
    decreases |AtOrAbove(used, from)|
  {
    if from !in used then from
    else
      assert AtOrAbove(used, from) == AtOrAbove(used, from + 1) + {from};
      NextFree(used, from + 1)
  }

  /** The numbers given to `revisions`, in order: a revision keeps its own number when that is free,
      and otherwise takes the least free number at or above the cursor. */
  function Assigned(revisions: seq<Revision>, used: set<int>, cursor: int): (numbers: seq<int>)
    ensures |numbers| == |revisions|
  {
    if revisions == [] then []
    else
      var own := revisions[0].revisionNumber;
      if own in used then
        var free := NextFree(used, cursor);
        [free] + Assigned(revisions[1..], used + {free}, free + 1)
      else
        [own] + Assigned(revisions[1..], used + {own}, cursor)
  }

  function Missing(source: seq<Revision>, existing: set<Id>): seq<Revision> {
    if source == [] then []
    else if source[0].id in existing then Missing(source[1..], existing)
    else [source[0]] + Missing(source[1..], existing)
  }

  function NumbersIn(revisions: seq<Revision>): (used: set<int>)
    ensures forall n :: n in used <==> exists k :: 0 <= k < |revisions| && revisions[k].revisionNumber == n
  {
    set k | 0 <= k < |revisions| :: revisions[k].revisionNumber
  }

  function IdsIn(revisions: seq<Revision>): (ids: set<Id>)
    ensures forall i :: i in ids <==> exists k :: 0 <= k < |revisions| && revisions[k].id == i
  {
    set k | 0 <= k < |revisions| :: revisions[k].id
  }

  /** `reduce((max, revision) => Math.max(max, revision.revisionNumber), 0)` */
  function MaxNumber(revisions: seq<Revision>): (m: int)
    ensures m >= 0 && forall k :: 0 <= k < |revisions| ==> revisions[k].revisionNumber <= m
    ensures m == 0 || m in NumbersIn(revisions)
  {
    if revisions == [] then 0
    else
      var last := revisions[|revisions| - 1];
      var before := MaxNumber(revisions[..|revisions| - 1]);
      if last.revisionNumber > before then
        assert revisions[|revisions| - 1].revisionNumber == last.revisionNumber;
        last.revisionNumber
      else
        assert forall k :: 0 <= k < |revisions| - 1 ==> revisions[..|revisions| - 1][k] == revisions[k];
        before
  }

  function RevisionPlanFor(revision: Revision, number: int, agents: set<Id>): RevisionPlan {
    var author := Kept(revision.createdByAgentId, agents);
    RevisionPlan(revision, number, author,
      if revision.createdByAgentId.Some? && author.None? then [ClearDocumentRevisionAgent] else [])
  }

  /** The loop over the sorted source revisions of one document. */
  function PlansFrom(source: seq<Revision>, existing: set<Id>, used: set<int>, cursor: int,
        agents: set<Id>): seq<RevisionPlan> {
    if source == [] then []
    else if source[0].id in existing then PlansFrom(source[1..], existing, used, cursor, agents)
    else
      var own := source[0].revisionNumber;
      var number := if own in used then NextFree(used, cursor) else own;
      [RevisionPlanFor(source[0], number, agents)]
      + PlansFrom(source[1..], existing, used + {number}, if own in used then number + 1 else cursor, agents)
  }

  function RevisionPlans(source: seq<Revision>, target: seq<Revision>, agents: set<Id>): seq<RevisionPlan> {
    PlansFrom(source, IdsIn(target), NumbersIn(target), MaxNumber(target) + 1, agents)
  }

  lemma {:induction false} PlansFromParts(source: seq<Revision>, existing: set<Id>, used: set<int>, cursor: int,
        agents: set<Id>)
    ensures var plans := PlansFrom(source, existing, used, cursor, agents);
      var missing := Missing(source, existing);
      var numbers := Assigned(missing, used, cursor);
      |plans| == |missing| && forall k :: 0 <= k < |plans| ==>
        plans[k] == RevisionPlanFor(missing[k], numbers[k], agents)
  {
    if source != [] {
      if source[0].id in existing {
        PlansFromParts(source[1..], existing, used, cursor, agents);
      } else {
        var own := source[0].revisionNumber;
        var number := if own in used then NextFree(used, cursor) else own;
        PlansFromParts(source[1..], existing, used + {number}, if own in used then number + 1 else cursor, agents);
        assert Missing(source, existing)[1..] == Missing(source[1..], existing);
      }
    }
  }

  /** `numberById` starts from the target's revisions and gains every planned one. */
  method PlanRevisions(source: seq<Revision>, target: seq<Revision>, agents: set<Id>)
    returns (plans: seq<RevisionPlan>, numberById: map<Id, int>)
    ensures plans == RevisionPlans(source, target, agents)
    ensures numberById == PlannedNumbers(target, plans)
  {
    var existing := IdsIn(target);
    var used := NumbersIn(target);
    var cursor := MaxNumber(target) + 1;
    numberById := TargetNumbers(target);
    plans := [];
    for k := 0 to |source|
      invariant RevisionPlans(source, target, agents) == plans + PlansFrom(source[k..], existing, used, cursor, agents)
      invariant numberById == PlannedNumbers(target, plans)
    {
      var revision := source[k];
      assert source[k..][0] == revision && source[k..][1..] == source[k + 1..];
      if revision.id in existing { continue; }
      var number := revision.revisionNumber;
      if number in used {
        cursor := SkipUsed(used, cursor);
        number := cursor;
        cursor := cursor + 1;
      }
      used := used + {number};
      numberById := numberById[revision.id := number];
      var plan := RevisionPlanFor(revision, number, agents);
      AppendShift(plans, plan, PlansFrom(source[k + 1..], existing, used, cursor, agents));
      plans := plans + [plan];
    }
  }

  method SkipUsed(used: set<int>, start: int) returns (cursor: int)
    ensures cursor == NextFree(used, start)
  {
    cursor := start;
    while cursor in used
      invariant start <= cursor && forall n :: start <= n < cursor ==> n in used
      decreases |AtOrAbove(used, cursor)|
    {
      assert AtOrAbove(used, cursor) == AtOrAbove(used, cursor + 1) + {cursor};
      cursor := cursor + 1;
    }
  }

  /** Number of each revision by id: the target's, then the planned ones. */
  function PlannedNumbers(target: seq<Revision>, plans: seq<RevisionPlan>): (m: map<Id, int>)
  {
    if plans == [] then TargetNumbers(target)
    else
      var last := plans[|plans| - 1];
      PlannedNumbers(target, plans[..|plans| - 1])[last.source.id := last.targetRevisionNumber]
  }

  function TargetNumbers(target: seq<Revision>): map<Id, int> {
    if target == [] then map[]
    else TargetNumbers(target[..|target| - 1])[target[|target| - 1].id := target[|target| - 1].revisionNumber]
  }

  /* ---- what the numbering guarantees ---- */

  /** Whatever the source numbers are, imported numbers collide neither with the target's nor with
      one another, and a revision is renumbered only when its own number was already taken. */
  lemma {:induction false} AssignedFresh(revisions: seq<Revision>, used: set<int>, cursor: int)
    ensures var numbers := Assigned(revisions, used, cursor);
      && Distinct(numbers)
      && (forall k :: 0 <= k < |numbers| ==> numbers[k] !in used)
      && forall k :: 0 <= k < |numbers| && numbers[k] != revisions[k].revisionNumber ==>
           revisions[k].revisionNumber in used || revisions[k].revisionNumber in numbers[..k]
  {
    if revisions != [] {
      var own := revisions[0].revisionNumber;
      var first := if own in used then NextFree(used, cursor) else own;
      var next := if own in used then first + 1 else cursor;
      var rest := Assigned(revisions[1..], used + {first}, next);
      AssignedFresh(revisions[1..], used + {first}, next);
      var numbers := Assigned(revisions, used, cursor);
      assert numbers == [first] + rest;
      forall k | 0 <= k < |numbers| && numbers[k] != revisions[k].revisionNumber
        ensures revisions[k].revisionNumber in used || revisions[k].revisionNumber in numbers[..k]
      {
        if k > 0 {
          assert numbers[k] == rest[k - 1] && revisions[k] == revisions[1..][k - 1];
          assert numbers[..k] == [first] + rest[..k - 1];
        }
      }
    }
  }

  lemma AssignedApart(revisions: seq<Revision>, used: set<int>, cursor: int)
    ensures Distinct(Assigned(revisions, used, cursor))
    ensures forall k :: 0 <= k < |revisions| ==> Assigned(revisions, used, cursor)[k] !in used
  {
    AssignedFresh(revisions, used, cursor);
  }

  ghost predicate Increasing(numbers: seq<int>) {
    forall i, j :: 0 <= i < j < |numbers| ==> numbers[i] < numbers[j]
  }

  ghost predicate IncreasingSource(revisions: seq<Revision>) {
    forall i, j :: 0 <= i < j < |revisions| ==> revisions[i].revisionNumber < revisions[j].revisionNumber
  }

  /** Every number from some number in use up to `max` is in use. */
  ghost predicate NoGaps(used: set<int>, max: int) {
    forall a, b :: a in used && a < b <= max ==> b in used
  }

  ghost predicate PlannedInOrder(plans: seq<RevisionPlan>) {
    forall i, j :: 0 <= i < j < |plans| ==> plans[i].targetRevisionNumber < plans[j].targetRevisionNumber
  }

  /** What keeps the numbering increasing: every source number still to come is above `seen`, and
      either nothing in use lies above `seen`, or the numbers in use above it reach up to the cursor
      without a gap. `last` is the number given out last. */
  ghost predicate OnTrack(used: set<int>, cursor: int, seen: int, last: int) {
    || (last <= seen && forall k :: k in used ==> k <= seen)
    || (&& last < cursor
        && (forall k :: k in used ==> k < cursor)
        && (forall j, k :: seen < k <= j < cursor && k in used ==> j in used)
        && (forall k :: seen < k <= last ==> k in used))
  }

  /** The numbers after the first one are on track as well. */
  lemma OnTrackStep(used: set<int>, cursor: int, seen: int, last: int, own: int)
    requires OnTrack(used, cursor, seen, last) && seen < own
    ensures var first := if own in used then NextFree(used, cursor) else own;
      last < first && OnTrack(used + {first}, if own in used then first + 1 else cursor, own, first)
  {
    if own in used { assert cursor !in used; }
  }

  lemma {:induction false} StaysIncreasing(revisions: seq<Revision>, used: set<int>, cursor: int, seen: int, last: int)
    requires OnTrack(used, cursor, seen, last) && IncreasingSource(revisions)
    requires revisions != [] ==> seen < revisions[0].revisionNumber
    ensures var numbers := Assigned(revisions, used, cursor);
      Increasing(numbers) && forall k :: 0 <= k < |numbers| ==> last < numbers[k]
  {
    if revisions != [] {
      var own := revisions[0].revisionNumber;
      var first, next := AssignedHead(revisions, used, cursor);
      OnTrackStep(used, cursor, seen, last, own);
      IncreasingTail(revisions);
      StaysIncreasing(revisions[1..], used + {first}, next, own, first);
      IncreasingCons(first, last, Assigned(revisions[1..], used + {first}, next));
    }
  }

  lemma AssignedHead(revisions: seq<Revision>, used: set<int>, cursor: int) returns (first: int, next: int)
    requires revisions != []
    ensures var own := revisions[0].revisionNumber;
      && first == (if own in used then NextFree(used, cursor) else own)
      && next == if own in used then first + 1 else cursor
    ensures Assigned(revisions, used, cursor) == [first] + Assigned(revisions[1..], used + {first}, next)
  {
    var own := revisions[0].revisionNumber;
    first := if own in used then NextFree(used, cursor) else own;
    next := if own in used then first + 1 else cursor;
  }

  lemma IncreasingTail(revisions: seq<Revision>)
    requires IncreasingSource(revisions) && revisions != []
    ensures IncreasingSource(revisions[1..])
    ensures forall k :: 0 <= k < |revisions[1..]| ==> revisions[0].revisionNumber < revisions[1..][k].revisionNumber
  {
    assert forall k :: 0 <= k < |revisions[1..]| ==> revisions[1..][k] == revisions[k + 1];
  }

  lemma IncreasingCons(first: int, last: int, numbers: seq<int>)
    requires last < first && Increasing(numbers) && forall k :: 0 <= k < |numbers| ==> first < numbers[k]
    ensures Increasing([first] + numbers)
    ensures forall k :: 0 <= k < |[first] + numbers| ==> last < ([first] + numbers)[k]
  {
  }

  /** Leaving out what the target has keeps a source in order. */
  lemma {:induction false} MissingIncreasing(source: seq<Revision>, existing: set<Id>, seen: int)
    requires IncreasingSource(source) && (source != [] ==> seen < source[0].revisionNumber)
    ensures IncreasingSource(Missing(source, existing))
    ensures forall k :: 0 <= k < |Missing(source, existing)| ==> seen < Missing(source, existing)[k].revisionNumber
  {
    if source != [] {
      IncreasingTail(source);
      MissingIncreasing(source[1..], existing, if source[0].id in existing then seen else source[0].revisionNumber);
    }
  }

  lemma MissingInOrder(source: seq<Revision>, existing: set<Id>, used: set<int>, max: int)
    requires NoGaps(used, max) && (forall k :: k in used ==> k <= max) && IncreasingSource(source)
    ensures Increasing(Assigned(Missing(source, existing), used, max + 1))
  {
    var seen := if source == [] then 0 else source[0].revisionNumber - 1;
    MissingIncreasing(source, existing, seen);
    assert OnTrack(used, max + 1, seen, seen);
    StaysIncreasing(Missing(source, existing), used, max + 1, seen, seen);
  }

  lemma PlansFollowNumbers(source: seq<Revision>, target: seq<Revision>, agents: set<Id>)
    requires Increasing(Assigned(Missing(source, IdsIn(target)), NumbersIn(target), MaxNumber(target) + 1))
    ensures PlannedInOrder(RevisionPlans(source, target, agents))
  {
    PlansFromParts(source, IdsIn(target), NumbersIn(target), MaxNumber(target) + 1, agents);
  }

  /** Without a gap in the target's numbers, the revisions to import keep the order of the source, whichever of
      them the target already has. */
  lemma GaplessKeepsOrder(source: seq<Revision>, target: seq<Revision>, agents: set<Id>)
    requires NoGaps(NumbersIn(target), MaxNumber(target)) && IncreasingSource(source)
    ensures PlannedInOrder(RevisionPlans(source, target, agents))
  {
    AllWithinMax(target);
    MissingInOrder(source, IdsIn(target), NumbersIn(target), MaxNumber(target));
    PlansFollowNumbers(source, target, agents);
  }

  lemma AllWithinMax(target: seq<Revision>)
    ensures forall n :: n in NumbersIn(target) ==> n <= MaxNumber(target)
  {
    forall n | n in NumbersIn(target) ensures n <= MaxNumber(target) {
      var k :| 0 <= k < |target| && target[k].revisionNumber == n;
    }
  }

  /** An id above every id of the target. */
  function FreshId(target: seq<Revision>): (id: Id)
    ensures forall k :: 0 <= k < |target| ==> target[k].id < id
  {
    if target == [] then 0
    else
      var before, last := FreshId(target[..|target| - 1]), target[|target| - 1].id;
      assert forall k :: 0 <= k < |target| - 1 ==> target[..|target| - 1][k] == target[k];
      if last < before then before else last + 1
  }

  /** Two new revisions, one at a number in use and one in the gap above it, change places. */
  lemma GapBreaksOrder(target: seq<Revision>, agents: set<Id>, a: int, b: int)
    requires a in NumbersIn(target) && a < b <= MaxNumber(target) && b !in NumbersIn(target)
    ensures exists source ::
      IncreasingSource(source) && Missing(source, IdsIn(target)) == source
      && !PlannedInOrder(RevisionPlans(source, target, agents))
  {
    var used, cursor, id := NumbersIn(target), MaxNumber(target) + 1, FreshId(target);
    var source := [Revision(id, 0, a, "", None, 0), Revision(id + 1, 0, b, "", None, 0)];
    BothMissing(source, IdsIn(target));
    var first := NextFree(used, cursor);
    var tail := [source[1]];
    assert source[1..] == tail && tail[1..] == [];
    assert Assigned([], used + {first} + {b}, first + 1) == [];
    assert Assigned(tail, used + {first}, first + 1) == [b];
    assert Assigned(source, used, cursor) == [first, b];
    PlansFromParts(source, IdsIn(target), used, cursor, agents);
    var plans := RevisionPlans(source, target, agents);
    assert plans[0].targetRevisionNumber == first > b == plans[1].targetRevisionNumber;
  }

  lemma BothMissing(source: seq<Revision>, existing: set<Id>)
    requires |source| == 2 && source[0].id !in existing && source[1].id !in existing
    ensures Missing(source, existing) == source
  {
    assert source[1..] == [source[1]] && source[1..][1..] == [];
    assert Missing(source[1..], existing) == [source[1]] + Missing([], existing);
  }

  /** The planner keeps the order of every source history exactly when the target's numbers have no gap up to
      their greatest. Numbers 1..n are the ordinary case; 0 counts as the greatest of none. */
  lemma OrderKeptIffNoGaps(target: seq<Revision>, agents: set<Id>)
    ensures (forall source :: IncreasingSource(source) ==> PlannedInOrder(RevisionPlans(source, target, agents)))
            <==> NoGaps(NumbersIn(target), MaxNumber(target))
  {
    if NoGaps(NumbersIn(target), MaxNumber(target)) {
      forall source | IncreasingSource(source) ensures PlannedInOrder(RevisionPlans(source, target, agents)) {
        GaplessKeepsOrder(source, target, agents);
      }
    } else {
      var a, b :| a in NumbersIn(target) && a < b <= MaxNumber(target) && b !in NumbersIn(target);
      GapBreaksOrder(target, agents, a, b);
    }
  }
}
