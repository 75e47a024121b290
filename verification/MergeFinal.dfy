/** Main results about the history merge. */
module MergeFinal {
  import opened Basics
  import opened MergeModel
  import opened MergePlanner
  import opened MergeApply
  import opened MergeTheorems
  import I = MergeIssues
  import R = MergeRows
  import D = MergeDocuments
  import IssueOrder

  /* ---- success ---- */

  ghost predicate FirstIn(db: Database, target: Database, order: seq<Issue>, at: nat)
    requires at <= |order|
  {
    db.issues.Keys == target.issues.Keys + I.IssueIds(order[..at])
  }

  lemma RestStep(db: Database, fixed: Database, order: seq<Issue>, at: nat, last: int, ctx: Context)
    returns (next: Database, upto: int)
    requires at < |order| && fixed.issues == ctx.target.issues && FirstIn(db, ctx.target, order, at)
    requires I.Rest(db, fixed, order, at, last, ctx).Ok?
    ensures FirstIn(next, ctx.target, order, at + 1) && I.Rest(next, fixed, order, at + 1, upto, ctx).Ok?
    ensures ParentReady(ctx.target, order, at)
  {
    assert order[at..][0] == order[at] && order[at..][1..] == order[at + 1..];
    I.IssueIdsStep(order, at);
    I.InsertsStep(fixed, order[at..], last, ctx);
    if order[at].id in ctx.target.issues {
      next, upto := db, last;
    } else {
      var plan := InsertIssueFor(order[at], last + 1, ctx);
      var row := IssueRow(plan, last + 1);
      HeadInserted(db, plan, IssueInserts(fixed, IssuePlansFrom(order[at + 1..], last + 1, ctx)), last + 1);
      ParentWasThere(db, order, at, ctx.target);
      next, upto := InsertIssueRow(db, row).value, last + 1;
    }
  }

  lemma HeadInserted(db: Database, insert: IssuePlan, rest: seq<IssuePlan>, number: int)
    requires insert.InsertIssue? && forall k :: 0 <= k < |rest| ==> rest[k].InsertIssue?
    requires ApplyIssues(db, [insert] + rest, number).Ok?
    ensures InsertIssueRow(db, IssueRow(insert, number)).Ok? && RefOk(insert.source.parentId, db.issues.Keys)
    ensures ApplyIssues(InsertIssueRow(db, IssueRow(insert, number)).value, rest, number + 1).Ok?
  {
    assert ([insert] + rest)[0] == insert && ([insert] + rest)[1..] == rest;
  }

  /** If the issue phase succeeds, every missing parent came before its children. */
  lemma {:induction false} SuccessNeedsParents(db: Database, fixed: Database, order: seq<Issue>, at: nat, last: int,
        ctx: Context)
    requires at <= |order| && fixed.issues == ctx.target.issues && FirstIn(db, ctx.target, order, at)
    requires I.Rest(db, fixed, order, at, last, ctx).Ok?
    ensures forall k :: at <= k < |order| ==> ParentReady(ctx.target, order, k)
    decreases |order| - at
  {
    if at < |order| {
      var next, upto := RestStep(db, fixed, order, at, last, ctx);
      SuccessNeedsParents(next, fixed, order, at + 1, upto, ctx);
    }
  }

  ghost predicate ParentReady(target: Database, order: seq<Issue>, k: nat)
    requires k < |order|
  {
    order[k].id !in target.issues && order[k].parentId.Some? ==>
      order[k].parentId.value in target.issues || exists j :: 0 <= j < k && order[j].id == order[k].parentId.value
  }

  lemma ParentWasThere(db: Database, order: seq<Issue>, at: nat, target: Database)
    requires at < |order| && db.issues.Keys == target.issues.Keys + I.IssueIds(order[..at])
    requires RefOk(order[at].parentId, db.issues.Keys)
    ensures ParentReady(target, order, at)
  {
    if order[at].parentId.Some? && order[at].parentId.value !in target.issues {
      var j :| 0 <= j < |order[..at]| && order[..at][j].id == order[at].parentId.value;
      assert order[j].id == order[at].parentId.value;
    }
  }

  /** A fresh plan applies without any constraint failing exactly when the issue order brings every
      missing parent in before its children: nothing else about a mergeable pair can stop it. */
  lemma SucceedsIffParentsReady(source: Source, target: Database, request: Request, order: seq<Issue>, plan: MergePlan,
        bodies: set<string>)
    requires Mergeable(source, target) && Planned(plan, source, target, request, order)
    ensures Apply(target, plan, bodies).Ok? <==> I.ParentsReady(target, order)
  {
    ProjectPhase(source, target, request);
    var ctx := ContextFor(source, target, request);
    var db1 := ApplyProjects(target, NewImports(target, plan.projectImports), target.workspaces.Keys).value;
    IssuePhaseIffParentsReady(source, target, order, db1, ctx);
    if I.ParentsReady(target, order) {
      AppliesAfterIssues(source, target, request, order, plan, bodies, db1);
    }
    ApplyNeedsIssues(target, plan, bodies, db1);
  }

  lemma ApplyNeedsIssues(target: Database, plan: MergePlan, bodies: set<string>, db1: Database)
    requires ApplyProjects(target, NewImports(target, plan.projectImports), target.workspaces.Keys) == Ok(db1)
    ensures Apply(target, plan, bodies).Ok? ==> ApplyIssuePhase(db1, plan.issuePlans).Ok?
  {
  }

  lemma IssuePhaseIffParentsReady(source: Source, target: Database, order: seq<Issue>, db1: Database, ctx: Context)
    requires ctx.target == target && db1.issues == target.issues && db1.issueCounter == target.issueCounter
    requires Mergeable(source, target) && I.ProjectsInPlace(db1, ctx) && multiset(order) == multiset(source.issues)
    ensures ApplyIssuePhase(db1, IssuePlansFrom(order, target.issueCounter, ctx)).Ok? <==> I.ParentsReady(target, order)
  {
    PhaseIsRest(db1, order, target.issueCounter, ctx);
    UniqueOrder(source.issues, order);
    if I.ParentsReady(target, order) {
      IssuePhaseSucceeds(order, db1, ctx);
    } else if ApplyIssuePhase(db1, IssuePlansFrom(order, target.issueCounter, ctx)).Ok? {
      SuccessNeedsParents(I.Counted(db1, IssuePlansFrom(order, target.issueCounter, ctx)), db1, order, 0,
        target.issueCounter, ctx);
      AllParentsReady(target, order);
    }
  }

  lemma IssuePhaseSucceeds(order: seq<Issue>, db1: Database, ctx: Context)
    requires db1.issues == ctx.target.issues && db1.issueCounter == ctx.target.issueCounter
      && I.ProjectsInPlace(db1, ctx)
    requires I.NumbersOk(ctx.target) && I.ParentsReady(ctx.target, order) && IssueOrder.UniqueIssues(order)
    ensures ApplyIssuePhase(db1, IssuePlansFrom(order, ctx.target.issueCounter, ctx)).Ok?
  {
    PhaseIsRest(db1, order, ctx.target.issueCounter, ctx);
    RestSucceeds(I.Counted(db1, IssuePlansFrom(order, ctx.target.issueCounter, ctx)), db1, order, ctx);
  }

  lemma RestSucceeds(counted: Database, db1: Database, order: seq<Issue>, ctx: Context)
    requires counted.issues == db1.issues == ctx.target.issues && I.ProjectsInPlace(counted, ctx)
    requires I.NumbersBelow(counted, ctx.target.issueCounter + 1) && I.ParentsReady(ctx.target, order)
      && IssueOrder.UniqueIssues(order)
    ensures I.Rest(counted, db1, order, 0, ctx.target.issueCounter, ctx).Ok?
  {
    assert order[..0] == [] && I.IssueIds([]) == {};
    I.IssuesGoIn(counted, db1, order, 0, ctx.target.issueCounter, ctx);
  }

  lemma PhaseIsRest(db1: Database, order: seq<Issue>, counter: int, ctx: Context)
    requires ctx.target.issues == db1.issues && db1.issueCounter == counter
    ensures FirstIn(I.Counted(db1, IssuePlansFrom(order, counter, ctx)), ctx.target, order, 0)
    ensures ApplyIssuePhase(db1, IssuePlansFrom(order, counter, ctx))
         == I.Rest(I.Counted(db1, IssuePlansFrom(order, counter, ctx)), db1, order, 0, counter, ctx)
  {
    assert order[0..] == order && order[..0] == [];
    assert I.IssueIds([]) == {};
  }

  lemma AllParentsReady(target: Database, order: seq<Issue>)
    requires forall k :: 0 <= k < |order| ==> ParentReady(target, order, k)
    ensures I.ParentsReady(target, order)
  {
    forall k | 0 <= k < |order| && order[k].id !in target.issues && order[k].parentId.Some?
      ensures
        || order[k].parentId.value in target.issues
        || exists j :: 0 <= j < k && order[j].id == order[k].parentId.value
    {
      assert ParentReady(target, order, k);
    }
  }

  lemma UniqueOrder(issues: seq<Issue>, order: seq<Issue>)
    requires IssueOrder.UniqueIssues(issues) && multiset(order) == multiset(issues)
    ensures IssueOrder.UniqueIssues(order)
  {
    assert UniqueBy(issues, IssueKey);
    UniqueByPermuted(issues, order, IssueKey);
    forall i, j | 0 <= i < j < |order| ensures order[i].id != order[j].id {
      assert IssueKey(order[i]) != IssueKey(order[j]);
    }
  }

  function IssueKey(x: Issue): Id { x.id }

  /** Once the issue phase is through, the rest goes through. */
  lemma AppliesAfterIssues(source: Source, target: Database, request: Request, order: seq<Issue>, plan: MergePlan,
        bodies: set<string>, db1: Database)
    requires Mergeable(source, target) && Planned(plan, source, target, request, order)
    requires ApplyProjects(target, NewImports(target, plan.projectImports), target.workspaces.Keys) == Ok(db1)
    requires R.ProjectsAdded(target, db1, plan.projectImports) && ApplyIssuePhase(db1, plan.issuePlans).Ok?
    ensures Apply(target, plan, bodies).Ok? && Merged(source, target, Apply(target, plan, bodies).value, plan, bodies)
  {
    var ctx := ContextFor(source, target, request);
    IssuePhase(db1, target, order, ctx);
    var db2 := ApplyIssuePhase(db1, plan.issuePlans).value;
    AvailableIsMerged(target, order, target.issueCounter, ctx);
    SameIssueIds(source.issues, order);
    HistoryPhase(source, target, request, order, plan, db2, bodies);
  }

  lemma SameIssueIds(issues: seq<Issue>, order: seq<Issue>)
    requires multiset(order) == multiset(issues)
    ensures I.IssueIds(order) == I.IssueIds(issues)
  {
    SameElements(order, issues);
    forall i | i in I.IssueIds(order) ensures i in I.IssueIds(issues) {
      var k :| 0 <= k < |order| && order[k].id == i;
      assert order[k] in issues;
    }
    forall i | i in I.IssueIds(issues) ensures i in I.IssueIds(order) {
      var k :| 0 <= k < |issues| && issues[k].id == i;
      assert issues[k] in order;
    }
  }

  /** With parents closed over the two instances, and a parent in the target for every issue to import that is
      on a parent cycle, the merge succeeds. */
  lemma MergeSucceeds(source: Source, target: Database, request: Request, order: seq<Issue>, depth: map<Id, nat>,
        plan: MergePlan, bodies: set<string>)
    requires Mergeable(source, target) && I.ParentsSound(source.issues, target)
    requires Planned(plan, source, target, request, order)
    requires IssueOrder.DepthMap(IssueOrder.IndexIssues(source.issues), depth) && IssueOrder.InImportOrder(depth, order)
    ensures Apply(target, plan, bodies).Ok?
  {
    I.OrderPutsParentsFirst(source.issues, target, order, depth);
    SucceedsIffParentsReady(source, target, request, order, plan, bodies);
  }

  /** A parent cycle none of whose issues the target has aborts every merge, whatever the order. */
  lemma MissingCycleFails(source: Source, target: Database, request: Request, order: seq<Issue>, plan: MergePlan,
        bodies: set<string>, i: Id)
    requires Mergeable(source, target) && Planned(plan, source, target, request, order)
    requires var byId := IssueOrder.IndexIssues(source.issues);
      && i in byId && IssueOrder.OnCycle(byId, i)
      && forall n: nat :: IssueOrder.Ancestor(byId, i, n).Some? ==>
           IssueOrder.Ancestor(byId, i, n).value !in target.issues
    ensures Apply(target, plan, bodies) == Err
  {
    var byId := IssueOrder.IndexIssues(source.issues);
    SucceedsIffParentsReady(source, target, request, order, plan, bodies);
    if I.ParentsReady(target, order) {
      UniqueOrder(source.issues, order);
      SameElements(order, source.issues);
      var n: nat :| n > 0 && IssueOrder.Ancestor(byId, i, n) == Some(i);
      assert byId[i] in order;
      var k :| 0 <= k < |order| && order[k] == byId[i];
      var m := MissingAncestorEarlier(source.issues, target, order, k, n);
    }
  }

  lemma {:induction false} MissingAncestorEarlier(issues: seq<Issue>, target: Database, order: seq<Issue>, k: nat,
        n: nat) returns (m: nat)
    requires IssueOrder.UniqueIssues(issues) && IssueOrder.UniqueIssues(order) && multiset(order) == multiset(issues)
    requires I.ParentsReady(target, order) && k < |order| && n > 0
    requires forall j: nat :: IssueOrder.Ancestor(IssueOrder.IndexIssues(issues), order[k].id, j).Some? ==>
      IssueOrder.Ancestor(IssueOrder.IndexIssues(issues), order[k].id, j).value !in target.issues
    requires IssueOrder.Ancestor(IssueOrder.IndexIssues(issues), order[k].id, n).Some?
    ensures m < k && Some(order[m].id) == IssueOrder.Ancestor(IssueOrder.IndexIssues(issues), order[k].id, n)
  {
    var byId := IssueOrder.IndexIssues(issues);
    SameElements(order, issues);
    var child := k;
    if n > 1 { child := MissingAncestorEarlier(issues, target, order, k, n - 1); }
    assert Some(order[child].id) == IssueOrder.Ancestor(byId, order[k].id, n - 1);
    assert order[child] in issues;
    IssueOrder.IndexFinds(issues, order[child]);
    var p := IssueOrder.Ancestor(byId, order[k].id, n).value;
    assert IssueOrder.Parent(byId, order[child].id) == Some(p);
    m :| 0 <= m < child && order[m].id == p;
  }

  /* ---- outcome ---- */

  /** What a successful merge leaves in the target. */
  ghost predicate Merged(source: Source, target: Database, after: Database, plan: MergePlan, bodies: set<string>) {
    && after.agents == target.agents && after.goals == target.goals
    && after.projects.Keys == target.projects.Keys + R.ImportedProjects(plan.projectImports)
    && after.workspaces.Keys == target.workspaces.Keys + ImportedWorkspaces(plan.projectImports)
    && |after.projects| == |target.projects| + |plan.projectImports|
    && after.issues.Keys == target.issues.Keys + I.IssueIds(source.issues)
    && AvailableIssues(target, plan.issuePlans) == after.issues.Keys
    && after.comments.Keys == AvailableComments(target, plan.commentPlans)
    && D.DocumentsSettled(target, after, plan.documentPlans)
    && |after.revisions| == |target.revisions| + RevisionCount(plan.documentPlans)
    && after.attachments.Keys == target.attachments.Keys + R.ServedIds(plan.attachmentPlans, bodies)
  }

  lemma MergeOutcome(source: Source, target: Database, request: Request, order: seq<Issue>, plan: MergePlan,
        bodies: set<string>, after: Database)
    requires Mergeable(source, target) && Planned(plan, source, target, request, order)
    requires Apply(target, plan, bodies) == Ok(after)
    ensures Merged(source, target, after, plan, bodies)
  {
    ProjectPhase(source, target, request);
    var db1 := ApplyProjects(target, NewImports(target, plan.projectImports), target.workspaces.Keys).value;
    AppliesAfterIssues(source, target, request, order, plan, bodies, db1);
  }

  lemma {:induction false} InsertsComplete(db: Database, plans: seq<IssuePlan>, p: IssuePlan)
    requires p in plans && p.InsertIssue? && p.source.id !in db.issues
    ensures p in IssueInserts(db, plans)
  {
    if p != plans[0] {
      assert p in plans[1..];
      InsertsComplete(db, plans[1..], p);
    }
  }

  lemma {:induction false} InsertsAreNew(order: seq<Issue>, last: int, ctx: Context)
    ensures forall p :: p in IssuePlansFrom(order, last, ctx) && p.InsertIssue? ==> p.source.id !in ctx.target.issues
  {
    if order != [] {
      InsertsAreNew(order[1..], last, ctx);
      InsertsAreNew(order[1..], last + 1, ctx);
    }
  }

  /** On a target unchanged since planning, every imported issue gets the number its plan previewed,
      with the row its plan describes, and issue numbers stay distinct and within the counter. */
  lemma PreviewsComeTrue(source: Source, target: Database, request: Request, order: seq<Issue>, plan: MergePlan,
        bodies: set<string>, after: Database, p: IssuePlan)
    requires Mergeable(source, target) && Planned(plan, source, target, request, order)
    requires Apply(target, plan, bodies) == Ok(after)
    requires p in plan.issuePlans && p.InsertIssue?
    ensures I.NumbersOk(after)
    ensures p.source.id in after.issues && after.issues[p.source.id] == IssueRow(p, p.previewIssueNumber)
  {
    ProjectPhase(source, target, request);
    var db1 := ApplyProjects(target, NewImports(target, plan.projectImports), target.workspaces.Keys).value;
    var ctx := ContextFor(source, target, request);
    InsertsAreNew(order, target.issueCounter, ctx);
    NumberedAsPreviewed(db1, order, ctx, p);
    var db2 := ApplyIssuePhase(db1, plan.issuePlans).value;
    IssuePhase(db1, target, order, ctx);
    AvailableIsMerged(target, order, target.issueCounter, ctx);
    HistoryPhase(source, target, request, order, plan, db2, bodies);
  }

  lemma NumberedAsPreviewed(db1: Database, order: seq<Issue>, ctx: Context, p: IssuePlan)
    requires db1.issues == ctx.target.issues && db1.issueCounter == ctx.target.issueCounter && I.NumbersOk(db1)
    requires p in IssuePlansFrom(order, db1.issueCounter, ctx) && p.InsertIssue? && p.source.id !in db1.issues
    requires ApplyIssuePhase(db1, IssuePlansFrom(order, db1.issueCounter, ctx)).Ok?
    ensures var after := ApplyIssuePhase(db1, IssuePlansFrom(order, db1.issueCounter, ctx)).value;
      I.NumbersOk(after) && p.source.id in after.issues
        && after.issues[p.source.id] == IssueRow(p, p.previewIssueNumber)
  {
    var plans := IssuePlansFrom(order, db1.issueCounter, ctx);
    I.NumbersAllocated(db1, plans);
    I.PreviewsConsecutive(db1, order, db1.issueCounter, ctx);
    InsertsComplete(db1, plans, p);
    InsertedRow(I.Counted(db1, plans), ApplyIssuePhase(db1, plans).value, IssueInserts(db1, plans),
      db1.issueCounter + 1, p);
  }

  lemma InsertedRow(db: Database, after: Database, inserts: seq<IssuePlan>, number: int, p: IssuePlan)
    requires forall k :: 0 <= k < |inserts| ==> inserts[k].InsertIssue? && inserts[k].previewIssueNumber == number + k
    requires I.Inserted(db, after, inserts, number) && p in inserts
    ensures p.source.id in after.issues && after.issues[p.source.id] == IssueRow(p, p.previewIssueNumber)
  {
    var k :| 0 <= k < |inserts| && inserts[k] == p;
    assert I.RowOf(db, after, inserts[k], number + k);
  }
}
