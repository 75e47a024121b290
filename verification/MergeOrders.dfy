/** When a merge succeeds whatever admissible order the issue sort produces. */
module MergeOrders {
  import opened Basics
  import opened MergeModel
  import opened MergePlanner
  import opened MergeApply
  import opened MergeTheorems
  import opened MergeFinal
  import opened IssueOrder
  import opened IssueCuts
  import I = MergeIssues

  /** An order the sort can produce: sorted under depths that its comparator can end with. */
  ghost predicate Admissible(issues: seq<Issue>, order: seq<Issue>, depth: map<Id, nat>) {
    multiset(order) == multiset(issues) && DepthMap(IndexIssues(issues), depth) && InImportOrder(depth, order)
  }

  function DepthIn(depth: map<Id, nat>, x: Issue): nat {
    if x.id in depth then depth[x.id] else 0
  }

  predicate Before(depth: map<Id, nat>, a: Issue, b: Issue) {
    if DepthIn(depth, a) != DepthIn(depth, b) then DepthIn(depth, a) < DepthIn(depth, b)
    else if a.createdAt != b.createdAt then a.createdAt < b.createdAt
    else a.id <= b.id
  }

  function ByDepth(depth: map<Id, nat>): (Issue, Issue) -> bool {
    (a: Issue, b: Issue) => Before(depth, a, b)
  }

  lemma ByDepthOrders(depth: map<Id, nat>)
    ensures TotalPreorder(ByDepth(depth))
  {
    forall a, b, c | ByDepth(depth)(a, b) && ByDepth(depth)(b, c) ensures ByDepth(depth)(a, c) {}
  }

  lemma AllDeep(issues: seq<Issue>, order: seq<Issue>, depth: map<Id, nat>)
    requires UniqueIssues(issues) && IndexIssues(issues).Keys == depth.Keys && multiset(order) == multiset(issues)
    ensures forall k :: 0 <= k < |order| ==> order[k].id in depth
  {
    SameElements(order, issues);
    forall k | 0 <= k < |order| ensures order[k].id in depth {
      assert order[k] in issues;
      IndexFinds(issues, order[k]);
    }
  }

  /** Any depth map has its order. */
  lemma DepthsHaveOrder(issues: seq<Issue>, depth: map<Id, nat>)
    requires UniqueIssues(issues) && DepthMap(IndexIssues(issues), depth)
    ensures Admissible(issues, Sort(issues, ByDepth(depth)), depth)
  {
    var order := Sort(issues, ByDepth(depth));
    SortPermutes(issues, ByDepth(depth));
    AllDeep(issues, order, depth);
    ByDepthOrders(depth);
    SortSorts(issues, ByDepth(depth));
    SortedIsImportOrder(order, depth);
  }

  lemma SortedIsImportOrder(order: seq<Issue>, depth: map<Id, nat>)
    requires Sorted(order, ByDepth(depth)) && forall k :: 0 <= k < |order| ==> order[k].id in depth
    ensures InImportOrder(depth, order)
  {
    forall i, j | 0 <= i < j < |order| ensures NoLater(depth, order[i], order[j]) {
      assert ByDepth(depth)(order[i], order[j]);
    }
  }

  lemma Placed(issues: seq<Issue>, order: seq<Issue>, x: Issue) returns (k: nat)
    requires multiset(order) == multiset(issues) && x in issues
    ensures k < |order| && order[k] == x
  {
    SameElements(order, issues);
    k :| 0 <= k < |order| && order[k] == x;
  }

  /** A missing issue whose parent is nowhere fails under every order. */
  lemma OrphanFails(issues: seq<Issue>, target: Database, order: seq<Issue>, x: Issue)
    requires multiset(order) == multiset(issues) && x in issues && x.id !in target.issues
    requires x.parentId.Some? && x.parentId.value !in target.issues && x.parentId.value !in I.IssueIds(issues)
    ensures !I.ParentsReady(target, order)
  {
    var k := Placed(issues, order, x);
    SameElements(order, issues);
    forall j | 0 <= j < |order| ensures order[j].id != x.parentId.value {
      assert order[j] in issues;
      var m :| 0 <= m < |issues| && issues[m] == order[j];
      assert issues[m].id in I.IssueIds(issues);
    }
  }

  /** A missing issue on a parent cycle with a missing parent fails when the cycle is cut at it. */
  lemma CutThereFails(issues: seq<Issue>, target: Database, order: seq<Issue>, depth: map<Id, nat>, x: Issue)
    requires UniqueIssues(issues) && Admissible(issues, order, depth) && x in issues && x.id !in target.issues
    requires OnCycle(IndexIssues(issues), x.id) && depth[x.id] == 1
    requires x.parentId.Some? ==> x.parentId.value !in target.issues
    ensures !I.ParentsReady(target, order)
  {
    var byId := IndexIssues(issues);
    IndexFinds(issues, x);
    var k := Placed(issues, order, x);
    var p := CycleParent(byId, x.id);
    UniqueOrder(issues, order);
    assert DepthOf(byId, depth, p);
    forall j | 0 <= j < k ensures order[j].id != p {
      assert order[j].id != x.id;
      assert NoLater(depth, order[j], order[k]);
    }
  }

  /** The parent on a cycle is another issue of it, at a different depth, or the issue itself. */
  lemma CycleParent(byId: ById, i: Id) returns (p: Id)
    requires i in byId && OnCycle(byId, i)
    ensures Parent(byId, i) == Some(p) && p in byId && Parent(byId, p).Some?
    ensures Reaches(byId, i, p) && Reaches(byId, p, i)
  {
    assert Ancestor(byId, i, 0) == Some(i);
    CycleNeverEnds(byId, i, 1);
    CycleNeverEnds(byId, i, 2);
    p := Parent(byId, i).value;
    assert Ancestor(byId, i, 1) == Some(p);
    AncestorOnCycle(byId, i, 1);
  }

  lemma SomePlan(source: Source, target: Database, request: Request, order: seq<Issue>) returns (plan: MergePlan)
    requires multiset(order) == multiset(source.issues)
    ensures Planned(plan, source, target, request, order)
  {
    var imports := ProjectImportsFor(Dedup(request.importProjectIds), source, target);
    var issuePlans := IssuePlansFrom(order, target.issueCounter, ContextFor(source, target, request));
    var issues := AvailableIssues(target, issuePlans);
    var comments := CommentPlansFor(CommentRows(source, request), target, issues);
    var documents := DocumentPlansFor(Sort(source.documents, DocumentNoLater), source, target, issues);
    var attachments := AttachmentPlansFor(
      Sort(source.attachments, AttachmentNoLater), target, issues, AvailableComments(target, comments));
    plan := MergePlan(imports, issuePlans, comments, documents, attachments,
      CountsOf(imports, issuePlans, comments, documents, attachments), multiset{});
  }

  /** Every order the sort can produce has parents ready exactly when parents are closed over the two instances and,
      on a parent cycle, every issue to import hangs from one the target has. */
  lemma EveryOrderReadyIff(issues: seq<Issue>, target: Database)
    requires UniqueIssues(issues)
    ensures (forall order, depth :: Admissible(issues, order, depth) ==> I.ParentsReady(target, order))
       <==> I.ParentsSound(issues, target)
  {
    if I.ParentsSound(issues, target) {
      forall order, depth | Admissible(issues, order, depth) ensures I.ParentsReady(target, order) {
        I.OrderPutsParentsFirst(issues, target, order, depth);
      }
    } else {
      var order, depth := SomeOrderFails(issues, target);
    }
  }

  lemma SomeOrderFails(issues: seq<Issue>, target: Database) returns (order: seq<Issue>, depth: map<Id, nat>)
    requires UniqueIssues(issues) && !I.ParentsSound(issues, target)
    ensures Admissible(issues, order, depth) && !I.ParentsReady(target, order)
  {
    var x := Unsound(issues, target);
    IndexFinds(issues, x);
    SomeDepthMapCutsAt(IndexIssues(issues), x.id);
    depth := Depths(IndexIssues(issues), x.id);
    DepthsHaveOrder(issues, depth);
    order := Sort(issues, ByDepth(depth));
    if x.parentId.Some? && x.parentId.value !in I.IssueIds(issues) && x.parentId.value !in target.issues {
      OrphanFails(issues, target, order, x);
    } else {
      CutThereFails(issues, target, order, depth, x);
    }
  }

  lemma Unsound(issues: seq<Issue>, target: Database) returns (x: Issue)
    requires !I.ParentsSound(issues, target)
    ensures x in issues && x.id !in target.issues
    ensures || (x.parentId.Some? && x.parentId.value !in I.IssueIds(issues) && x.parentId.value !in target.issues)
            || (OnCycle(IndexIssues(issues), x.id) && (x.parentId.Some? ==> x.parentId.value !in target.issues))
  {
    if y :| y in issues && y.id !in target.issues && y.parentId.Some?
            && y.parentId.value !in I.IssueIds(issues) && y.parentId.value !in target.issues {
      x := y;
    } else {
      x :| x in issues && x.id !in target.issues && OnCycle(IndexIssues(issues), x.id)
           && (x.parentId.Some? ==> x.parentId.value !in target.issues);
    }
  }

  /** A mergeable pair merges under every order the sort can produce exactly on that condition. */
  lemma EveryMergeSucceedsIff(source: Source, target: Database, request: Request, bodies: set<string>)
    requires Mergeable(source, target)
    ensures (forall order, depth, plan ::
      Admissible(source.issues, order, depth) && Planned(plan, source, target, request, order) ==>
              Apply(target, plan, bodies).Ok?)
       <==> I.ParentsSound(source.issues, target)
  {
    if I.ParentsSound(source.issues, target) {
      forall order, depth, plan |
        Admissible(source.issues, order, depth) && Planned(plan, source, target, request, order)
        ensures Apply(target, plan, bodies).Ok?
      {
        MergeSucceeds(source, target, request, order, depth, plan, bodies);
      }
    } else {
      var order, depth := SomeOrderFails(source.issues, target);
      var plan := SomePlan(source, target, request, order);
      SucceedsIffParentsReady(source, target, request, order, plan, bodies);
    }
  }
}
