/** The parent-first import order of issues (cli/src/commands/worktree-merge-history-lib.ts, `sortIssuesForImport`). */
module IssueOrder {
  import opened Basics
  import opened MergeModel

  type ById = map<Id, Issue>

  ghost predicate Keyed(byId: ById) {
    forall i :: i in byId ==> byId[i].id == i
  }

  ghost predicate AllKnown(byId: ById, s: seq<Issue>) {
    forall k :: 0 <= k < |s| ==> s[k].id in byId && byId[s[k].id] == s[k]
  }

  lemma InsertKnown(byId: ById, s: seq<Issue>, at: nat, x: Issue)
    requires AllKnown(byId, s) && AllKnown(byId, [x]) && at <= |s|
    ensures AllKnown(byId, InsertAt(s, at, x))
  {
    assert [x][0] == x;
  }

  /** The parent of an issue, when the issue has one among the source issues. */
  function Parent(byId: ById, i: Id): Option<Id> {
    if i in byId && byId[i].parentId.Some? && byId[i].parentId.value in byId then byId[i].parentId else None
  }

  /** The issue reached from `i` after `n` parent links. */
  function Ancestor(byId: ById, i: Id, n: nat): Option<Id> {
    if n == 0 then Some(i)
    else match Ancestor(byId, i, n - 1)
      case None => None
      case Some(a) => Parent(byId, a)
  }

  ghost predicate OnCycle(byId: ById, i: Id) {
    exists n: nat :: n > 0 && Ancestor(byId, i, n) == Some(i)
  }

  ghost predicate Reaches(byId: ById, i: Id, j: Id) {
    exists n: nat :: Ancestor(byId, i, n) == Some(j)
  }

  lemma {:induction false} AncestorAdds(byId: ById, i: Id, m: nat, j: Id, n: nat)
    requires Ancestor(byId, i, m) == Some(j)
    ensures Ancestor(byId, i, m + n) == Ancestor(byId, j, n)
  {
    if n > 0 {
      AncestorAdds(byId, i, m, j, n - 1);
    }
  }

  /** What a memoised depth promises: roots are at 0, and a child is one below its parent, except
      that a parent cycle may be cut, leaving depth 1 just after the cut. */
  ghost predicate DepthOf(byId: ById, memo: map<Id, nat>, i: Id)
    requires i in memo
  {
    match Parent(byId, i)
    case None => memo[i] == 0
    case Some(p) => p in memo && (memo[i] == memo[p] + 1 || (memo[i] == 1 && OnCycle(byId, i)))
  }

  /** Each cycle is cut once, so the depths on it are all different. */
  ghost predicate CutOnce(byId: ById, memo: map<Id, nat>) {
    forall i, j {:trigger Reaches(byId, i, j)} ::
      i in memo && j in memo && i != j && Reaches(byId, i, j) && Reaches(byId, j, i) ==> memo[i] != memo[j]
  }

  ghost predicate DepthMap(byId: ById, memo: map<Id, nat>) {
    memo.Keys == byId.Keys && CutOnce(byId, memo)
    && forall i {:trigger DepthOf(byId, memo, i)} :: i in memo ==> DepthOf(byId, memo, i)
  }

  ghost predicate SettledOutside(byId: ById, memo: map<Id, nat>, stack: set<Id>) {
    forall j {:trigger DepthOf(byId, memo, j)} :: j in memo && j !in stack ==> DepthOf(byId, memo, j)
  }

  lemma RootOrCut(byId: ById, memo: map<Id, nat>, stack: set<Id>, i: Id)
    requires SettledOutside(byId, memo, {}) && i !in memo
    requires i in stack || Parent(byId, i) == None
    ensures SettledOutside(byId, memo[i := 0], stack)
  {
    forall j | j in memo[i := 0] && j !in stack ensures DepthOf(byId, memo[i := 0], j) {
      assert j != i ==> DepthOf(byId, memo, j);
    }
  }

  /** Leaving the frame of `i`: its final depth replaces the provisional 0, and an issue memoised
      meanwhile whose parent is `i` lies on a cycle through `i`. */
  lemma LeaveFrame(byId: ById, before: map<Id, nat>, unwound: map<Id, nat>, stack: set<Id>, i: Id, p: Id)
    requires SettledOutside(byId, before, {}) && i !in before && Parent(byId, i) == Some(p)
    requires SettledOutside(byId, unwound, stack + {i}) && p in unwound
    requires i in unwound ==> unwound[i] == 0
    requires p == i ==> i in unwound
    requires forall j :: j in unwound && j !in before ==> Reaches(byId, p, j)
    ensures SettledOutside(byId, unwound[i := unwound[p] + 1], stack)
    ensures forall j :: j in unwound[i := unwound[p] + 1] && j !in before ==> Reaches(byId, i, j)
  {
    var memo := unwound[i := unwound[p] + 1];
    assert Ancestor(byId, i, 0) == Some(i);
    assert Ancestor(byId, i, 1) == Some(p);
    forall j | j in memo && j !in before ensures Reaches(byId, i, j) {
      if j != i {
        var n: nat :| Ancestor(byId, p, n) == Some(j);
        AncestorAdds(byId, i, 1, p, n);
      }
    }
    forall j | j in memo && j !in stack ensures DepthOf(byId, memo, j) {
      assert j in before ==> DepthOf(byId, before, j);
      assert j != i ==> DepthOf(byId, unwound, j);
      if Parent(byId, j) == Some(i) {
        ChildIsOnCycle(byId, i, j);
      }
    }
  }

  /** One recursion memoises issues at different depths, none deeper than what it returns. */
  ghost predicate Spread(before: map<Id, nat>, memo: map<Id, nat>, stack: set<Id>, top: nat) {
    && (forall j :: j in memo && j !in before && j !in stack ==> memo[j] <= top)
    && forall j, k :: j in memo && k in memo && j !in before && k !in before && j !in stack && k !in stack && j != k ==>
         memo[j] != memo[k]
  }

  lemma {:induction false} AncestorsMemoised(byId: ById, memo: map<Id, nat>, i: Id, n: nat)
    requires SettledOutside(byId, memo, {}) && i in memo && Ancestor(byId, i, n).Some?
    ensures Ancestor(byId, i, n).value in memo
  {
    if n > 0 {
      AncestorsMemoised(byId, memo, i, n - 1);
      assert DepthOf(byId, memo, Ancestor(byId, i, n - 1).value);
    }
  }

  /** A cycle is memoised by one recursion as a whole. */
  lemma StaysCutOnce(byId: ById, before: map<Id, nat>, memo: map<Id, nat>, top: nat)
    requires SettledOutside(byId, before, {}) && CutOnce(byId, before) && Spread(before, memo, {}, top)
    requires forall j :: j in before ==> j in memo && memo[j] == before[j]
    ensures CutOnce(byId, memo)
  {
    forall i, j | i in memo && j in memo && i != j && Reaches(byId, i, j) && Reaches(byId, j, i)
      ensures memo[i] != memo[j]
    {
      var n: nat :| Ancestor(byId, i, n) == Some(j);
      var m: nat :| Ancestor(byId, j, m) == Some(i);
      if i in before { AncestorsMemoised(byId, before, i, n); }
      if j in before { AncestorsMemoised(byId, before, j, m); }
    }
  }

  lemma ChildIsOnCycle(byId: ById, i: Id, j: Id)
    requires Reaches(byId, i, j) && Parent(byId, j) == Some(i)
    ensures OnCycle(byId, j)
  {
    var n: nat :| Ancestor(byId, i, n) == Some(j);
    assert Ancestor(byId, j, 0) == Some(j);
    assert Ancestor(byId, j, 1) == Some(i);
    AncestorAdds(byId, j, 1, i, n);
  }

  /** `left` sorts no later than `right`: by depth, then creation time, then id. */
  predicate NoLater(memo: map<Id, nat>, left: Issue, right: Issue)
    requires left.id in memo && right.id in memo
  {
    if memo[left.id] != memo[right.id] then memo[left.id] < memo[right.id]
    else if left.createdAt != right.createdAt then left.createdAt < right.createdAt
    else left.id <= right.id
  }

  ghost predicate InImportOrder(memo: map<Id, nat>, s: seq<Issue>) {
    && (forall k :: 0 <= k < |s| ==> s[k].id in memo)
    && forall i, j :: 0 <= i < j < |s| ==> NoLater(memo, s[i], s[j])
  }

  class DepthSorter {
    const byId: ById
    var memo: map<Id, nat>
    var stack: set<Id>

    ghost predicate Settled()
      reads this
    {
      && Keyed(byId) && memo.Keys <= byId.Keys && stack <= byId.Keys && stack !! memo.Keys
      && SettledOutside(byId, memo, {}) && CutOnce(byId, memo)
    }

    constructor (byId: ById)
      requires Keyed(byId)
      ensures this.byId == byId && memo == map[] && stack == {} && Settled()
    {
      this.byId := byId;
      memo, stack := map[], {};
    }

    /** Memoised depth, cutting a parent cycle where the recursion meets itself. While the cycle is
        being unwound, the issue it was cut at holds a provisional 0. */
    method DepthFor(issue: Issue) returns (depth: nat)
      requires Settled() && issue.id in byId && byId[issue.id] == issue
      modifies this
      ensures Keyed(byId) && stack == old(stack) && memo.Keys <= byId.Keys
      ensures issue.id in memo && memo[issue.id] == depth
      ensures old(memo.Keys) <= memo.Keys && forall j :: j in old(memo) ==> memo[j] == old(memo[j])
      ensures SettledOutside(byId, memo, stack)
      ensures forall j :: j in memo && j in stack ==> memo[j] == 0
      ensures forall j :: j in memo && j !in old(memo) ==> Reaches(byId, issue.id, j)
      ensures Spread(old(memo), memo, stack, depth)
      decreases byId.Keys - stack
    {
      var i := issue.id;
      assert Ancestor(byId, i, 0) == Some(i);
      if i in memo {
        return memo[i];
      }
      if issue.parentId.None? {
        RootOrCut(byId, memo, stack, i);
        memo := memo[i := 0];
        return 0;
      }
      if i in stack {
        RootOrCut(byId, memo, stack, i);
        memo := memo[i := 0];
        return 0;
      }
      var p := issue.parentId.value;
      if p !in byId {
        RootOrCut(byId, memo, stack, i);
        memo := memo[i := 0];
        return 0;
      }
      stack := stack + {i};
      var above := DepthFor(byId[p]);
      depth := above + 1;
      stack := stack - {i};
      LeaveFrame(byId, old(memo), memo, stack, i, p);
      memo := memo[i := depth];
    }

    /** A call from outside the recursion, where the stack is empty. */
    method FreshDepthFor(issue: Issue) returns (depth: nat)
      requires Settled() && stack == {} && issue.id in byId && byId[issue.id] == issue
      modifies this
      ensures Settled() && stack == {}
      ensures issue.id in memo && memo[issue.id] == depth
      ensures old(memo.Keys) <= memo.Keys && forall j :: j in old(memo) ==> memo[j] == old(memo[j])
    {
      depth := DepthFor(issue);
      StaysCutOnce(byId, old(memo), memo, depth);
    }

    /** The comparator handed to the sort. */
    method Compare(left: Issue, right: Issue) returns (delta: int)
      requires Settled() && stack == {}
      requires left.id in byId && byId[left.id] == left && right.id in byId && byId[right.id] == right
      modifies this
      ensures Settled() && stack == {}
      ensures old(memo.Keys) <= memo.Keys && forall j :: j in old(memo) ==> memo[j] == old(memo[j])
      ensures left.id in memo && right.id in memo
      ensures delta <= 0 ==> NoLater(memo, left, right)
      ensures delta >= 0 ==> NoLater(memo, right, left)
    {
      var l: int := FreshDepthFor(left);
      var r: int := FreshDepthFor(right);
      if l != r { return l - r; }
      if left.createdAt != right.createdAt { return left.createdAt - right.createdAt; }
      delta := left.id as int - right.id as int;
    }

    /** Where an insertion sort puts `x`: left past every issue the comparator puts after it. */
    method SlotFor(sorted: seq<Issue>, x: Issue) returns (at: nat)
      requires Settled() && stack == {} && |sorted| >= 1
      requires AllKnown(byId, sorted) && AllKnown(byId, [x])
      requires |sorted| >= 2 ==> InImportOrder(memo, sorted)
      modifies this
      ensures Settled() && stack == {}
      ensures InImportOrder(memo, sorted) && x.id in memo && at <= |sorted|
      ensures at > 0 ==> NoLater(memo, sorted[at - 1], x)
      ensures at < |sorted| ==> NoLater(memo, x, sorted[at])
    {
      assert [x][0] == x;
      at := |sorted|;
      var delta := Compare(sorted[at - 1], x);
      while delta > 0
        invariant 0 < at <= |sorted|
        invariant Settled() && stack == {} && x.id in memo
        invariant InImportOrder(memo, sorted)
        invariant delta <= 0 ==> NoLater(memo, sorted[at - 1], x)
        invariant delta >= 0 ==> NoLater(memo, x, sorted[at - 1])
        invariant at < |sorted| ==> NoLater(memo, x, sorted[at])
        decreases at
      {
        at := at - 1;
        if at == 0 { break; }
        delta := Compare(sorted[at - 1], x);
      }
    }
  }

  lemma InsertInOrder(memo: map<Id, nat>, sorted: seq<Issue>, at: nat, x: Issue)
    requires InImportOrder(memo, sorted) && x.id in memo && at <= |sorted|
    requires at > 0 ==> NoLater(memo, sorted[at - 1], x)
    requires at < |sorted| ==> NoLater(memo, x, sorted[at])
    ensures InImportOrder(memo, InsertAt(sorted, at, x))
  {
    var out := InsertAt(sorted, at, x);
    forall k | at <= k < |sorted| ensures NoLater(memo, x, sorted[k]) {
      assert k > at ==> NoLater(memo, sorted[at], sorted[k]);
    }
    forall k | 0 <= k < at ensures NoLater(memo, sorted[k], x) {
      assert k < at - 1 ==> NoLater(memo, sorted[k], sorted[at - 1]);
    }
    assert forall k :: 0 <= k < |out| ==> out[k] == if k < at then sorted[k] else if k == at then x else sorted[k - 1];
  }

  function IndexIssues(source: seq<Issue>): (byId: ById)
    ensures forall i :: i in byId <==> exists x :: x in source && x.id == i
    ensures forall i :: i in byId ==> byId[i] in source && byId[i].id == i
  {
    if source == [] then map[]
    else
      var x := source[|source| - 1];
      var rest := IndexIssues(source[..|source| - 1]);
      assert source == source[..|source| - 1] + [x];
      rest[x.id := x]
  }

  ghost predicate UniqueIssues(s: seq<Issue>) {
    forall i, j :: 0 <= i < j < |s| ==> s[i].id != s[j].id
  }

  lemma IndexFinds(source: seq<Issue>, x: Issue)
    requires UniqueIssues(source) && x in source
    ensures x.id in IndexIssues(source) && IndexIssues(source)[x.id] == x
  {
    var y := IndexIssues(source)[x.id];
    var i :| 0 <= i < |source| && source[i] == x;
    var j :| 0 <= j < |source| && source[j] == y;
  }

  ghost predicate SortedPrefix(byId: ById, source: seq<Issue>, n: nat, sorted: seq<Issue>)
    requires n <= |source|
  {
    |sorted| == n && multiset(sorted) == multiset(source[..n]) && AllKnown(byId, sorted)
  }

  lemma SortStep(byId: ById, memo: map<Id, nat>, source: seq<Issue>, n: nat, sorted: seq<Issue>, at: nat)
    requires n < |source| && SortedPrefix(byId, source, n, sorted) && AllKnown(byId, source)
    requires InImportOrder(memo, sorted) && source[n].id in memo && at <= |sorted|
    requires at > 0 ==> NoLater(memo, sorted[at - 1], source[n])
    requires at < |sorted| ==> NoLater(memo, source[n], sorted[at])
    ensures SortedPrefix(byId, source, n + 1, InsertAt(sorted, at, source[n]))
    ensures InImportOrder(memo, InsertAt(sorted, at, source[n]))
  {
    InsertInOrder(memo, sorted, at, source[n]);
    InsertAtKeeps(sorted, at, source[n]);
    assert AllKnown(byId, [source[n]]);
    InsertKnown(byId, sorted, at, source[n]);
    PrefixStep(source, n);
  }

  /** An insertion sort driven by the memoising comparator. */
  method InsertionSort(sorter: DepthSorter, source: seq<Issue>) returns (sorted: seq<Issue>)
    requires sorter.Settled() && sorter.stack == {} && AllKnown(sorter.byId, source) && |source| >= 2
    modifies sorter
    ensures sorter.Settled() && multiset(sorted) == multiset(source)
    ensures InImportOrder(sorter.memo, sorted)
  {
    sorted := source[..1];
    for n := 1 to |source|
      invariant sorter.Settled() && sorter.stack == {}
      invariant SortedPrefix(sorter.byId, source, n, sorted)
      invariant n >= 2 ==> InImportOrder(sorter.memo, sorted)
    {
      var x := source[n];
      assert AllKnown(sorter.byId, [x]);
      var at := sorter.SlotFor(sorted, x);
      SortStep(sorter.byId, sorter.memo, source, n, sorted, at);
      sorted := InsertAt(sorted, at, x);
    }
    assert source[..|source|] == source;
  }

  lemma IndexKnowsAll(source: seq<Issue>)
    requires UniqueIssues(source)
    ensures AllKnown(IndexIssues(source), source)
  {
    forall k | 0 <= k < |source|
      ensures source[k].id in IndexIssues(source) && IndexIssues(source)[source[k].id] == source[k]
    {
      IndexFinds(source, source[k]);
    }
  }

  /** Issues in import order; `depth` is the memo the comparator ends with. */
  method SortIssuesForImport(source: seq<Issue>) returns (sorted: seq<Issue>, ghost depth: map<Id, nat>)
    requires UniqueIssues(source)
    ensures multiset(sorted) == multiset(source)
    ensures DepthMap(IndexIssues(source), depth)
    ensures InImportOrder(depth, sorted)
    ensures forall i, j :: 0 <= i < j < |sorted| ==>
      && depth[sorted[i].id] <= depth[sorted[j].id]
      && (depth[sorted[i].id] == depth[sorted[j].id] ==> sorted[i].createdAt <= sorted[j].createdAt)
      && (depth[sorted[i].id] == depth[sorted[j].id] && sorted[i].createdAt == sorted[j].createdAt ==>
            sorted[i].id <= sorted[j].id)
  {
    if |source| < 2 {
      sorted := source;
      depth := map i | i in IndexIssues(source) :: if Parent(IndexIssues(source), i).Some? then 1 else 0;
      LoneSorted(source, depth);
    } else {
      sorted, depth := SortTwoOrMore(source);
    }
  }

  method SortTwoOrMore(source: seq<Issue>) returns (sorted: seq<Issue>, ghost depth: map<Id, nat>)
    requires UniqueIssues(source) && |source| >= 2
    ensures multiset(sorted) == multiset(source)
    ensures DepthMap(IndexIssues(source), depth) && InImportOrder(depth, sorted)
  {
    var sorter := new DepthSorter(IndexIssues(source));
    IndexKnowsAll(source);
    sorted := InsertionSort(sorter, source);
    SameElements(sorted, source);
    depth := sorter.memo;
    AllMemoised(source, sorted, depth);
  }

  lemma AllMemoised(source: seq<Issue>, sorted: seq<Issue>, depth: map<Id, nat>)
    requires InImportOrder(depth, sorted) && forall x :: x in source ==> x in sorted
    ensures IndexIssues(source).Keys <= depth.Keys
  {
    forall i | i in IndexIssues(source) ensures i in depth {
      assert IndexIssues(source)[i] in sorted;
    }
  }

  /** A list of at most one issue is not compared at all. */
  lemma LoneSorted(source: seq<Issue>, depth: map<Id, nat>)
    requires UniqueIssues(source) && |source| < 2
    requires depth == map i | i in IndexIssues(source) :: if Parent(IndexIssues(source), i).Some? then 1 else 0
    ensures DepthMap(IndexIssues(source), depth) && InImportOrder(depth, source)
  {
    IndexKnowsAll(source);
    LoneDepth(IndexIssues(source), depth);
  }

  lemma LoneDepth(byId: ById, depth: map<Id, nat>)
    requires depth == map i | i in byId :: if Parent(byId, i).Some? then 1 else 0
    requires forall i, j :: i in byId && j in byId ==> i == j
    ensures DepthMap(byId, depth)
  {
    forall i | i in depth ensures DepthOf(byId, depth, i) {
      assert Ancestor(byId, i, 0) == Some(i);
      assert Ancestor(byId, i, 1) == Parent(byId, i);
    }
  }

  /* ---- what the order is for ---- */

  /** Every issue comes after its parent, when the parent is among the source issues. */
  ghost predicate ParentsFirst(byId: ById, s: seq<Issue>) {
    forall k, m :: 0 <= k < |s| && 0 <= m < |s| && Parent(byId, s[k].id) == Some(s[m].id) ==> m < k
  }

  ghost predicate Acyclic(byId: ById) {
    forall i :: i in byId ==> !OnCycle(byId, i)
  }

  ghost predicate Arranges(byId: ById, s: seq<Issue>) {
    UniqueIssues(s) && AllKnown(byId, s) && forall i {:trigger Holds(s, i)} :: i in byId ==> Holds(s, i)
  }

  ghost predicate Holds(s: seq<Issue>, i: Id) {
    exists k :: 0 <= k < |s| && s[k].id == i
  }

  /** On any parent relation, an issue off every cycle lands after its parent. */
  lemma OffCycleAfterParent(byId: ById, depth: map<Id, nat>, s: seq<Issue>, k: nat, m: nat)
    requires DepthMap(byId, depth) && InImportOrder(depth, s) && AllKnown(byId, s)
    requires k < |s| && m < |s| && Parent(byId, s[k].id) == Some(s[m].id)
    requires !OnCycle(byId, s[k].id)
    ensures depth[s[k].id] == depth[s[m].id] + 1
    ensures m < k
  {
    assert DepthOf(byId, depth, s[k].id);
  }

  /** The import order puts every parent first exactly when no source issue is its own ancestor. */
  lemma ParentsFirstIffAcyclic(byId: ById, depth: map<Id, nat>, s: seq<Issue>)
    requires DepthMap(byId, depth) && InImportOrder(depth, s) && Arranges(byId, s)
    ensures ParentsFirst(byId, s) <==> Acyclic(byId)
  {
    if Acyclic(byId) {
      forall k, m | 0 <= k < |s| && 0 <= m < |s| && Parent(byId, s[k].id) == Some(s[m].id) ensures m < k {
        OffCycleAfterParent(byId, depth, s, k, m);
      }
    }
    if ParentsFirst(byId, s) {
      forall i | i in byId ensures !OnCycle(byId, i) {
        if OnCycle(byId, i) {
          var n: nat :| n > 0 && Ancestor(byId, i, n) == Some(i);
          assert Holds(s, i);
          var k :| 0 <= k < |s| && s[k].id == i;
          AncestorEarlier(byId, s, k, n, k);
        }
      }
    }
  }

  lemma {:induction false} AncestorEarlier(byId: ById, s: seq<Issue>, k: nat, n: nat, m: nat)
    requires ParentsFirst(byId, s) && Arranges(byId, s) && k < |s| && m < |s|
    requires n > 0 && Ancestor(byId, s[k].id, n) == Some(s[m].id)
    ensures m < k
  {
    var a := Ancestor(byId, s[k].id, n - 1).value;
    assert Parent(byId, a) == Some(s[m].id);
    assert Holds(s, a);
    var j :| 0 <= j < |s| && s[j].id == a;
    assert m < j;
    if n == 1 {
      assert s[j].id == s[k].id;
    } else {
      AncestorEarlier(byId, s, k, n - 1, j);
    }
  }

  ghost predicate SameCycle(byId: ById, i: Id, j: Id) {
    OnCycle(byId, i) && Reaches(byId, i, j) && Reaches(byId, j, i)
  }

  /** The depth of `i` is not one more than its parent's. */
  ghost predicate IsCut(byId: ById, depth: map<Id, nat>, i: Id) {
    i in depth && Parent(byId, i).Some? && Parent(byId, i).value in depth
      && depth[i] != depth[Parent(byId, i).value] + 1
  }

  /** Without a cut, depths count the steps. */
  lemma {:induction false} StepsOrCut(byId: ById, depth: map<Id, nat>, i: Id, n: nat)
    requires DepthMap(byId, depth) && i in byId && Ancestor(byId, i, n).Some?
    ensures Ancestor(byId, i, n).value in depth
    ensures || depth[i] == depth[Ancestor(byId, i, n).value] + n
            || exists m: nat :: m < n && Ancestor(byId, i, m).Some? && IsCut(byId, depth, Ancestor(byId, i, m).value)
  {
    if n > 0 {
      StepsOrCut(byId, depth, i, n - 1);
      assert DepthOf(byId, depth, Ancestor(byId, i, n - 1).value);
    }
  }

  /** Every parent cycle is cut at exactly one issue: that one is at depth 1, and every other issue on the
      cycle is one deeper than its parent. */
  lemma CycleCutExactlyOnce(byId: ById, depth: map<Id, nat>, i: Id)
    requires DepthMap(byId, depth) && i in byId && OnCycle(byId, i)
    ensures exists c :: SameCycle(byId, i, c) && IsCut(byId, depth, c) && depth[c] == 1
    ensures forall c, d ::
      SameCycle(byId, i, c) && SameCycle(byId, i, d) && IsCut(byId, depth, c) && IsCut(byId, depth, d) ==> c == d
  {
    var n: nat :| n > 0 && Ancestor(byId, i, n) == Some(i);
    StepsOrCut(byId, depth, i, n);
    var m: nat :| m < n && Ancestor(byId, i, m).Some? && IsCut(byId, depth, Ancestor(byId, i, m).value);
    var c := Ancestor(byId, i, m).value;
    AncestorAdds(byId, i, m, c, n - m);
    assert SameCycle(byId, i, c);
    assert DepthOf(byId, depth, c);
    forall c, d | SameCycle(byId, i, c) && SameCycle(byId, i, d) && IsCut(byId, depth, c) && IsCut(byId, depth, d)
      ensures c == d
    {
      ReachesThrough(byId, c, i, d);
      ReachesThrough(byId, d, i, c);
      assert DepthOf(byId, depth, c) && DepthOf(byId, depth, d);
    }
  }

  lemma ReachesThrough(byId: ById, i: Id, j: Id, k: Id)
    requires Reaches(byId, i, j) && Reaches(byId, j, k)
    ensures Reaches(byId, i, k)
  {
    var m: nat :| Ancestor(byId, i, m) == Some(j);
    var n: nat :| Ancestor(byId, j, n) == Some(k);
    AncestorAdds(byId, i, m, j, n);
  }

  /** Off the cycles, the memoised depth is the number of ancestors among the source issues. */
  lemma DepthCountsAncestors(byId: ById, depth: map<Id, nat>, i: Id, n: nat)
    requires DepthMap(byId, depth) && i in byId
    requires Ancestor(byId, i, n).Some? && Ancestor(byId, i, n + 1) == None
    ensures depth[i] == n
  {
    CountsAncestors(byId, depth, i, n);
  }

  lemma {:induction false} CountsAncestors(byId: ById, depth: map<Id, nat>, i: Id, n: nat)
    requires SettledOutside(byId, depth, {}) && i in depth
    requires Ancestor(byId, i, n).Some? && Ancestor(byId, i, n + 1) == None
    ensures depth[i] == n
    decreases n
  {
    assert Ancestor(byId, i, 0) == Some(i);
    assert DepthOf(byId, depth, i);
    match Parent(byId, i)
    case None =>
      assert Ancestor(byId, i, 1) == None;
      if n > 0 { StaysNone(byId, i, 1, n - 1); }
    case Some(p) =>
      assert Ancestor(byId, i, 1) == Some(p);
      if n > 0 {
        AncestorAdds(byId, i, 1, p, n - 1);
        AncestorAdds(byId, i, 1, p, n);
        CountsAncestors(byId, depth, p, n - 1);
        if OnCycle(byId, i) { CycleNeverEnds(byId, i, n + 1); }
      }
  }

  lemma {:induction false} StaysNone(byId: ById, i: Id, m: nat, n: nat)
    requires Ancestor(byId, i, m) == None
    ensures Ancestor(byId, i, m + n) == None
  {
    if n > 0 { StaysNone(byId, i, m, n - 1); }
  }

  lemma {:induction false} CycleNeverEnds(byId: ById, i: Id, n: nat)
    requires OnCycle(byId, i)
    ensures Ancestor(byId, i, n).Some?
  {
    var c: nat :| c > 0 && Ancestor(byId, i, c) == Some(i);
    if n < c {
      if Ancestor(byId, i, n) == None { StaysNone(byId, i, n, c - n); }
    } else {
      AncestorAdds(byId, i, c, i, n - c);
      CycleNeverEnds(byId, i, n - c);
    }
  }
}
