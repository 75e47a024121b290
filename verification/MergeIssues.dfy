/** Issue numbers, parent links and statuses of an applied merge. */
module MergeIssues {
  import opened Basics
  import opened MergeModel
  import opened MergePlanner
  import opened MergeApply
  import IssueOrder

  /* ---- issue numbers, for any plan on any target ---- */

  /** Issue numbers are distinct and none is above the counter. */
  ghost predicate NumbersOk(db: Database) {
    && (forall i :: i in db.issues && db.issues[i].issueNumber.Some? ==>
      db.issues[i].issueNumber.value <= db.issueCounter)
    && (forall i, j :: i in db.issues && j in db.issues && i != j && db.issues[i].issueNumber.Some? ==>
          db.issues[i].issueNumber != db.issues[j].issueNumber)
  }

  ghost predicate NumbersBelow(db: Database, number: int) {
    forall i :: i in db.issues && db.issues[i].issueNumber.Some? ==> db.issues[i].issueNumber.value < number
  }

  ghost predicate RowOf(db: Database, after: Database, insert: IssuePlan, number: int)
    requires insert.InsertIssue?
  {
    var id := insert.source.id;
    id !in db.issues && id in after.issues && after.issues[id] == IssueRow(insert, number)
  }

  /** The issue phase changes only the issue table, adding one row per insert. */
  ghost predicate Inserted(db: Database, after: Database, inserts: seq<IssuePlan>, number: int)
    requires forall k :: 0 <= k < |inserts| ==> inserts[k].InsertIssue?
  {
    && after == db.(issues := after.issues)
    && (forall i :: i in db.issues ==> i in after.issues && after.issues[i] == db.issues[i])
    && (forall k :: 0 <= k < |inserts| ==> RowOf(db, after, inserts[k], number + k))
    && (forall i :: i in after.issues ==> i in db.issues || exists k :: 0 <= k < |inserts| && inserts[k].source.id == i)
  }

  lemma {:induction false} IssuesInserted(db: Database, inserts: seq<IssuePlan>, number: int)
    requires forall k :: 0 <= k < |inserts| ==> inserts[k].InsertIssue?
    requires ApplyIssues(db, inserts, number).Ok?
    ensures Inserted(db, ApplyIssues(db, inserts, number).value, inserts, number)
    decreases |inserts|
  {
    if inserts != [] {
      var db1 := InsertIssueRow(db, IssueRow(inserts[0], number)).value;
      IssuesInserted(db1, inserts[1..], number + 1);
      var after := ApplyIssues(db, inserts, number).value;
      forall k | 0 <= k < |inserts| ensures RowOf(db, after, inserts[k], number + k) {
        if k > 0 { assert RowOf(db1, after, inserts[1..][k - 1], number + 1 + (k - 1)); }
      }
      forall i | i in after.issues
        ensures i in db.issues || exists k :: 0 <= k < |inserts| && inserts[k].source.id == i
      {
        if i !in db1.issues {
          var k :| 0 <= k < |inserts[1..]| && inserts[1..][k].source.id == i;
          assert inserts[k + 1].source.id == i;
        } else if i !in db.issues {
          assert inserts[0].source.id == i;
        }
      }
    }
  }

  lemma InsertedNumbersOk(db: Database, after: Database, inserts: seq<IssuePlan>)
    requires forall k :: 0 <= k < |inserts| ==> inserts[k].InsertIssue?
    requires NumbersOk(db)
    requires Inserted(db.(issueCounter := db.issueCounter + |inserts|), after, inserts, db.issueCounter + 1)
    ensures NumbersOk(after)
  {
    forall i | i in after.issues && after.issues[i].issueNumber.Some?
      ensures after.issues[i].issueNumber.value <= after.issueCounter
    {
      var k := if i in db.issues then 0 else OriginOf(db, after, inserts, i);
    }
    forall i, j | i in after.issues && j in after.issues && i != j && after.issues[i].issueNumber.Some?
      ensures after.issues[i].issueNumber != after.issues[j].issueNumber
    {
      var k := if i in db.issues then 0 else OriginOf(db, after, inserts, i);
      var m := if j in db.issues then 0 else OriginOf(db, after, inserts, j);
    }
  }

  ghost function OriginOf(db: Database, after: Database, inserts: seq<IssuePlan>, i: Id): (k: nat)
    requires forall k :: 0 <= k < |inserts| ==> inserts[k].InsertIssue?
    requires Inserted(db.(issueCounter := db.issueCounter + |inserts|), after, inserts, db.issueCounter + 1)
    requires i in after.issues && i !in db.issues
    ensures k < |inserts| && inserts[k].source.id == i && after.issues[i].issueNumber == Some(db.issueCounter + 1 + k)
  {
    var k :| 0 <= k < |inserts| && inserts[k].source.id == i;
    assert RowOf(db.(issueCounter := db.issueCounter + |inserts|), after, inserts[k], db.issueCounter + 1 + k);
    k
  }

  /** Whatever the plan and however the target has changed since it was made: the inserted issues get
      exactly the next numbers, in plan order, and numbers stay distinct and within the counter. */
  lemma NumbersAllocated(db: Database, plans: seq<IssuePlan>)
    requires NumbersOk(db) && ApplyIssuePhase(db, plans).Ok?
    ensures NumbersOk(ApplyIssuePhase(db, plans).value)
    ensures Inserted(Counted(db, plans), ApplyIssuePhase(db, plans).value, IssueInserts(db, plans), db.issueCounter + 1)
  {
    IssuesInserted(Counted(db, plans), IssueInserts(db, plans), db.issueCounter + 1);
    InsertedNumbersOk(db, ApplyIssuePhase(db, plans).value, IssueInserts(db, plans));
  }

  /** The counter after room has been made for a plan's inserts. */
  function Counted(db: Database, plans: seq<IssuePlan>): Database {
    db.(issueCounter := db.issueCounter + |IssueInserts(db, plans)|)
  }

  /* ---- the plan made for this very target ---- */

  /** The rows an issue plan points at exist, once the imported projects are in. */
  ghost predicate ProjectsInPlace(db: Database, ctx: Context) {
    && db.agents == ctx.target.agents && db.goals == ctx.target.goals
    && ctx.target.projects.Keys <= db.projects.Keys
    && (forall id :: id in ctx.importIds && FindProject(ctx.source.projects, id).Some? ==> id in db.projects)
    && ctx.target.workspaces.Keys + ctx.importedWorkspaces <= db.workspaces.Keys
  }

  lemma PlannedRefsExist(db: Database, issue: Issue, number: int, ctx: Context)
    requires ProjectsInPlace(db, ctx) && RefOk(issue.parentId, db.issues.Keys)
    ensures IssueRefsOk(db, IssueRow(InsertIssueFor(issue, number, ctx), number))
  {
    if issue.projectId.Some? {
      FoundProject(ctx.source.projects, issue.projectId.value);
    }
  }

  function IssueIds(issues: seq<Issue>): (ids: set<Id>)
    ensures forall i :: i in ids <==> exists k :: 0 <= k < |issues| && issues[k].id == i
  {
    set k | 0 <= k < |issues| :: issues[k].id
  }

  /** Issues arrive in an order in which every missing parent comes before its children. */
  ghost predicate ParentsReady(target: Database, order: seq<Issue>) {
    forall k :: 0 <= k < |order| && order[k].id !in target.issues && order[k].parentId.Some? ==>
      order[k].parentId.value in target.issues || exists j :: 0 <= j < k && order[j].id == order[k].parentId.value
  }

  lemma InsertsStep(fixed: Database, order: seq<Issue>, last: int, ctx: Context)
    requires fixed.issues == ctx.target.issues && order != []
    ensures IssueInserts(fixed, IssuePlansFrom(order, last, ctx)) ==
      if order[0].id in ctx.target.issues then IssueInserts(fixed, IssuePlansFrom(order[1..], last, ctx))
      else [InsertIssueFor(order[0], last + 1, ctx)] + IssueInserts(fixed, IssuePlansFrom(order[1..], last + 1, ctx))
  {
    var plans := IssuePlansFrom(order, last, ctx);
    if order[0].id in ctx.target.issues {
      assert plans[0].SkipIssue? && plans[1..] == IssuePlansFrom(order[1..], last, ctx);
    } else {
      assert plans[0] == InsertIssueFor(order[0], last + 1, ctx);
      assert plans[0].source.id == order[0].id;
      assert plans[1..] == IssuePlansFrom(order[1..], last + 1, ctx);
    }
  }

  lemma ApplyIssuesStep(db: Database, insert: IssuePlan, rest: seq<IssuePlan>, number: int)
    requires insert.InsertIssue? && forall k :: 0 <= k < |rest| ==> rest[k].InsertIssue?
    requires InsertIssueRow(db, IssueRow(insert, number)).Ok?
    ensures ApplyIssues(db, [insert] + rest, number)
         == ApplyIssues(InsertIssueRow(db, IssueRow(insert, number)).value, rest, number + 1)
  {
    assert ([insert] + rest)[1..] == rest;
  }

  /** Half way through the issue phase: `db` has the target's issues and the first `at` of the order. */
  ghost predicate HalfWay(db: Database, order: seq<Issue>, at: nat, last: int, ctx: Context)
    requires at <= |order|
  {
    && IssueOrder.UniqueIssues(order) && ParentsReady(ctx.target, order) && ProjectsInPlace(db, ctx)
    && db.issues.Keys == ctx.target.issues.Keys + IssueIds(order[..at]) && NumbersBelow(db, last + 1)
  }

  /** The rest of the issue phase, from position `at` of the order. */
  function Rest(db: Database, fixed: Database, order: seq<Issue>, at: nat, last: int, ctx: Context): Result<Database>
    requires at <= |order|
  {
    ApplyIssues(db, IssueInserts(fixed, IssuePlansFrom(order[at..], last, ctx)), last + 1)
  }

  /** Applying a fresh plan: no issue insertion fails, so every reference an issue carries exists at
      the moment it goes in; afterwards the target has its own issues and all the source's. */
  lemma {:induction false} IssuesGoIn(db: Database, fixed: Database, order: seq<Issue>, at: nat, last: int,
        ctx: Context)
    requires at <= |order| && HalfWay(db, order, at, last, ctx) && fixed.issues == ctx.target.issues
    ensures var r := Rest(db, fixed, order, at, last, ctx);
      r.Ok? && r.value.issues.Keys == ctx.target.issues.Keys + IssueIds(order)
    decreases |order| - at
  {
    if at == |order| {
      assert order[..at] == order && order[at..] == [];
    } else {
      HalfWayStep(db, fixed, order, at, last, ctx);
      if order[at].id in ctx.target.issues {
        IssuesGoIn(db, fixed, order, at + 1, last, ctx);
      } else {
        var db1 := InsertIssueRow(db, IssueRow(InsertIssueFor(order[at], last + 1, ctx), last + 1)).value;
        IssuesGoIn(db1, fixed, order, at + 1, last + 1, ctx);
      }
    }
  }

  lemma HalfWayStep(db: Database, fixed: Database, order: seq<Issue>, at: nat, last: int, ctx: Context)
    requires at < |order| && HalfWay(db, order, at, last, ctx) && fixed.issues == ctx.target.issues
    ensures order[at].id in ctx.target.issues ==>
      && HalfWay(db, order, at + 1, last, ctx)
      && ApplyIssues(db, IssueInserts(fixed, IssuePlansFrom(order[at..], last, ctx)), last + 1)
         == ApplyIssues(db, IssueInserts(fixed, IssuePlansFrom(order[at + 1..], last, ctx)), last + 1)
    ensures order[at].id !in ctx.target.issues ==>
      var r := InsertIssueRow(db, IssueRow(InsertIssueFor(order[at], last + 1, ctx), last + 1));
      && r.Ok? && HalfWay(r.value, order, at + 1, last + 1, ctx)
      && ApplyIssues(db, IssueInserts(fixed, IssuePlansFrom(order[at..], last, ctx)), last + 1)
         == ApplyIssues(r.value, IssueInserts(fixed, IssuePlansFrom(order[at + 1..], last + 1, ctx)), last + 2)
  {
    assert order[at..][0] == order[at] && order[at..][1..] == order[at + 1..];
    IssueIdsStep(order, at);
    InsertsStep(fixed, order[at..], last, ctx);
    if order[at].id !in ctx.target.issues {
      IssueGoesIn(db, order, at, last, ctx);
      var plan := InsertIssueFor(order[at], last + 1, ctx);
      ApplyIssuesStep(db, plan, IssueInserts(fixed, IssuePlansFrom(order[at + 1..], last + 1, ctx)), last + 1);
    }
  }

  lemma IssueGoesIn(db: Database, order: seq<Issue>, at: nat, last: int, ctx: Context)
    requires at < |order| && IssueOrder.UniqueIssues(order) && ParentsReady(ctx.target, order)
      && ProjectsInPlace(db, ctx)
    requires db.issues.Keys == ctx.target.issues.Keys + IssueIds(order[..at]) && NumbersBelow(db, last + 1)
    requires order[at].id !in ctx.target.issues
    ensures var r := InsertIssueRow(db, IssueRow(InsertIssueFor(order[at], last + 1, ctx), last + 1));
      && r.Ok? && ProjectsInPlace(r.value, ctx) && NumbersBelow(r.value, last + 2)
      && r.value.issues.Keys == db.issues.Keys + {order[at].id}
  {
    NotYetIn(db, order, at, ctx.target);
    PlannedRefsExist(db, order[at], last + 1, ctx);
  }

  /** The inserts of a fresh plan carry consecutive previews, so what they preview is what they get. */
  lemma {:induction false} PreviewsConsecutive(fixed: Database, order: seq<Issue>, last: int, ctx: Context)
    requires fixed.issues == ctx.target.issues
    ensures var inserts := IssueInserts(fixed, IssuePlansFrom(order, last, ctx));
      forall k :: 0 <= k < |inserts| ==> inserts[k].previewIssueNumber == last + 1 + k
  {
    if order != [] {
      InsertsStep(fixed, order, last, ctx);
      PreviewsConsecutive(fixed, order[1..], last, ctx);
      PreviewsConsecutive(fixed, order[1..], last + 1, ctx);
    }
  }

  lemma IssueIdsStep(order: seq<Issue>, at: nat)
    requires at < |order|
    ensures IssueIds(order[..at + 1]) == IssueIds(order[..at]) + {order[at].id}
  {
    forall i | i in IssueIds(order[..at + 1]) ensures i in IssueIds(order[..at]) + {order[at].id} {
      var k :| 0 <= k < at + 1 && order[..at + 1][k].id == i;
      assert k < at ==> order[..at][k].id == i;
    }
    forall i | i in IssueIds(order[..at]) + {order[at].id} ensures i in IssueIds(order[..at + 1]) {
      if i == order[at].id {
        assert order[..at + 1][at].id == i;
      } else {
        var k :| 0 <= k < at && order[..at][k].id == i;
        assert order[..at + 1][k].id == i;
      }
    }
  }

  lemma NotYetIn(db: Database, order: seq<Issue>, at: nat, target: Database)
    requires at < |order| && IssueOrder.UniqueIssues(order) && ParentsReady(target, order)
    requires db.issues.Keys == target.issues.Keys + IssueIds(order[..at]) && order[at].id !in target.issues
    ensures order[at].id !in db.issues && RefOk(order[at].parentId, db.issues.Keys)
  {
    assert forall k :: 0 <= k < at ==> order[..at][k].id != order[at].id;
    if order[at].parentId.Some? && order[at].parentId.value !in target.issues {
      var j :| 0 <= j < at && order[j].id == order[at].parentId.value;
      assert order[..at][j].id == order[at].parentId.value;
    }
  }

  /** Source parents are closed over the two instances, and on a parent cycle an issue that has to be imported
      hangs from one that the target has. */
  ghost predicate ParentsSound(issues: seq<Issue>, target: Database) {
    && (forall x :: x in issues && x.id !in target.issues && x.parentId.Some? ==>
          x.parentId.value in IssueIds(issues) || x.parentId.value in target.issues)
    && (forall x ::
      x in issues && x.id !in target.issues && IssueOrder.OnCycle(IssueOrder.IndexIssues(issues), x.id) ==>
          x.parentId.Some? && x.parentId.value in target.issues)
  }

  lemma OrderPutsParentsFirst(issues: seq<Issue>, target: Database, order: seq<Issue>, depth: map<Id, nat>)
    requires IssueOrder.UniqueIssues(issues) && multiset(order) == multiset(issues) && ParentsSound(issues, target)
    requires IssueOrder.DepthMap(IssueOrder.IndexIssues(issues), depth) && IssueOrder.InImportOrder(depth, order)
    ensures ParentsReady(target, order)
  {
    var byId := IssueOrder.IndexIssues(issues);
    SameElements(order, issues);
    forall k | 0 <= k < |order| ensures order[k].id in byId && byId[order[k].id] == order[k] {
      assert order[k] in issues;
      IssueOrder.IndexFinds(issues, order[k]);
    }
    forall k | 0 <= k < |order| && order[k].id !in target.issues && order[k].parentId.Some?
               && order[k].parentId.value !in target.issues
      ensures exists j :: 0 <= j < k && order[j].id == order[k].parentId.value
    {
      var p := order[k].parentId.value;
      assert order[k] in issues;
      var m :| 0 <= m < |issues| && issues[m].id == p;
      assert issues[m] in order;
      var j :| 0 <= j < |order| && order[j] == issues[m];
      assert IssueOrder.Parent(byId, order[k].id) == Some(order[j].id);
      IssueOrder.OffCycleAfterParent(byId, depth, order, k, j);
    }
  }

  /* ---- statuses ---- */

  /** No planned issue is in progress with neither an agent of the target nor a nonblank user. */
  lemma {:induction false} NoOrphanedProgress(order: seq<Issue>, last: int, ctx: Context)
    ensures forall k :: 0 <= k < |IssuePlansFrom(order, last, ctx)| ==>
      var p := IssuePlansFrom(order, last, ctx)[k];
      p.InsertIssue? && p.targetStatus == "in_progress" ==>
        (p.targetAssigneeAgentId.Some? && p.targetAssigneeAgentId.value in ctx.target.agents) || HasUser(p.source)
  {
    if order != [] {
      NoOrphanedProgress(order[1..], last, ctx);
      NoOrphanedProgress(order[1..], last + 1, ctx);
    }
  }
}
