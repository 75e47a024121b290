/** The history merge as a whole: when applying a plan succeeds, what it leaves, and why merging again does nothing. */
module MergeTheorems {
  import opened Basics
  import opened MergeModel
  import opened MergePlanner
  import opened MergeApply
  import I = MergeIssues
  import R = MergeRows
  import D = MergeDocuments
  import IssueOrder

  /** What the two instances must agree on before a merge: keys are unique on each side, an id used by
      both means the same row, and no document slot or asset of the source is taken by something else. */
  ghost predicate Mergeable(source: Source, target: Database) {
    && IssueOrder.UniqueIssues(source.issues) && UniqueBy(source.comments, R.CommentId)
    && UniqueBy(source.workspaces, R.WorkspaceId)
    && I.NumbersOk(target)
    && D.DocumentsMergeable(source, target)
    && AttachmentsMergeable(source, target)
  }

  ghost predicate AttachmentsMergeable(source: Source, target: Database) {
    && UniqueBy(source.attachments, R.AttachmentId) && UniqueBy(source.attachments, R.AttachmentAsset)
    && UniqueBy(source.attachments, R.AttachmentObject)
    && (forall a :: a in target.attachments ==> target.attachments[a].assetId in target.assets)
    && (forall x :: x in source.attachments && x.id !in target.attachments ==>
          x.assetId !in target.assets && forall a :: a in target.assets ==> target.assets[a].objectKey != x.objectKey)
  }

  /** The planner's result together with the issue order its sort produced. */
  ghost predicate Planned(plan: MergePlan, source: Source, target: Database, request: Request, order: seq<Issue>) {
    IsPlan(plan, source, target, request, order) && multiset(order) == multiset(source.issues)
  }

  /* ---- project phase ---- */

  lemma ProjectPhase(source: Source, target: Database, request: Request)
    requires UniqueBy(source.workspaces, R.WorkspaceId)
    ensures var imports := ProjectImportsFor(Dedup(request.importProjectIds), source, target);
      var r := ApplyProjects(target, NewImports(target, imports), target.workspaces.Keys);
      && r.Ok? && R.ProjectsAdded(target, r.value, imports)
      && I.ProjectsInPlace(r.value, ContextFor(source, target, request))
  {
    var ids := Dedup(request.importProjectIds);
    var imports := ProjectImportsFor(ids, source, target);
    R.DedupDistinct(request.importProjectIds);
    R.PlannedImportsReady(ids, source, target);
    R.ProjectsGoIn(target, imports, target.workspaces.Keys);
    R.ImportShape(ids, source, target);
    var db := ApplyProjects(target, imports, target.workspaces.Keys).value;
    var ctx := ContextFor(source, target, request);
  }

  /* ---- issue phase ---- */

  /** After the issue phase the target has its own issues and every source issue. */
  ghost predicate IssuesMerged(db: Database, after: Database, issues: set<Id>) {
    && after == db.(issueCounter := after.issueCounter, issues := after.issues)
    && after.issues.Keys == db.issues.Keys + issues
  }

  lemma {:induction false} InsertIds(fixed: Database, order: seq<Issue>, last: int, ctx: Context)
    requires fixed.issues == ctx.target.issues
    ensures var inserts := IssueInserts(fixed, IssuePlansFrom(order, last, ctx));
      fixed.issues.Keys + InsertedIssueIds(inserts) == fixed.issues.Keys + I.IssueIds(order)
  {
    if order != [] {
      I.InsertsStep(fixed, order, last, ctx);
      IssueIdsHead(order);
      if order[0].id in ctx.target.issues {
        InsertIds(fixed, order[1..], last, ctx);
      } else {
        InsertIds(fixed, order[1..], last + 1, ctx);
        InsertedIdsHead(InsertIssueFor(order[0], last + 1, ctx),
          IssueInserts(fixed, IssuePlansFrom(order[1..], last + 1, ctx)));
      }
    }
  }

  lemma IssueIdsHead(order: seq<Issue>)
    requires order != []
    ensures I.IssueIds(order) == {order[0].id} + I.IssueIds(order[1..])
  {
    forall i | i in I.IssueIds(order) && i != order[0].id ensures i in I.IssueIds(order[1..]) {
      var k :| 0 <= k < |order| && order[k].id == i;
      assert order[1..][k - 1].id == i;
    }
    forall i | i in I.IssueIds(order[1..]) ensures i in I.IssueIds(order) {
      var k :| 0 <= k < |order[1..]| && order[1..][k].id == i;
      assert order[k + 1].id == i;
    }
  }

  lemma InsertedIdsHead(p: IssuePlan, rest: seq<IssuePlan>)
    requires p.InsertIssue?
    ensures InsertedIssueIds([p] + rest) == {p.source.id} + InsertedIssueIds(rest)
  {
    forall i | i in InsertedIssueIds([p] + rest) && i != p.source.id ensures i in InsertedIssueIds(rest) {
      var k :| 0 <= k < |[p] + rest| && ([p] + rest)[k].InsertIssue? && ([p] + rest)[k].source.id == i;
      assert rest[k - 1] == ([p] + rest)[k];
    }
    forall i | i in {p.source.id} + InsertedIssueIds(rest) ensures i in InsertedIssueIds([p] + rest) {
      if i == p.source.id {
        assert ([p] + rest)[0] == p;
      } else {
        var k :| 0 <= k < |rest| && rest[k].InsertIssue? && rest[k].source.id == i;
        assert ([p] + rest)[k + 1] == rest[k];
      }
    }
  }

  lemma IssuePhase(db: Database, target: Database, order: seq<Issue>, ctx: Context)
    requires ctx.target == target && db.issues == target.issues && db.issueCounter == target.issueCounter
    requires ApplyIssuePhase(db, IssuePlansFrom(order, target.issueCounter, ctx)).Ok?
    ensures IssuesMerged(db, ApplyIssuePhase(db, IssuePlansFrom(order, target.issueCounter, ctx)).value,
      I.IssueIds(order))
  {
    KeysAfterPhase(db, IssuePlansFrom(order, target.issueCounter, ctx));
    InsertIds(db, order, target.issueCounter, ctx);
  }

  lemma KeysAfterPhase(db: Database, plans: seq<IssuePlan>)
    requires ApplyIssuePhase(db, plans).Ok?
    ensures var after := ApplyIssuePhase(db, plans).value;
      && after == db.(issueCounter := after.issueCounter, issues := after.issues)
      && after.issues.Keys == db.issues.Keys + InsertedIssueIds(IssueInserts(db, plans))
      && forall i :: i in db.issues ==> after.issues[i] == db.issues[i]
  {
    var inserts := IssueInserts(db, plans);
    I.IssuesInserted(I.Counted(db, plans), inserts, db.issueCounter + 1);
    KeysInserted(I.Counted(db, plans), ApplyIssuePhase(db, plans).value, inserts, db.issueCounter + 1);
  }

  lemma KeysInserted(db: Database, after: Database, inserts: seq<IssuePlan>, number: int)
    requires forall k :: 0 <= k < |inserts| ==> inserts[k].InsertIssue?
    requires I.Inserted(db, after, inserts, number)
    ensures after.issues.Keys == db.issues.Keys + InsertedIssueIds(inserts)
  {
    forall i | i in InsertedIssueIds(inserts) ensures i in after.issues {
      var k :| 0 <= k < |inserts| && inserts[k].InsertIssue? && inserts[k].source.id == i;
      assert I.RowOf(db, after, inserts[k], number + k);
    }
    forall i | i in after.issues && i !in db.issues ensures i in InsertedIssueIds(inserts) {
      var k :| 0 <= k < |inserts| && inserts[k].source.id == i;
    }
  }

  /** The planner's set of issues available after the import is what the issue phase leaves. */
  lemma {:induction false} AvailableIsMerged(target: Database, order: seq<Issue>, last: int, ctx: Context)
    requires ctx.target == target
    ensures AvailableIssues(target, IssuePlansFrom(order, last, ctx)) == target.issues.Keys + I.IssueIds(order)
  {
    if order != [] {
      IssueIdsHead(order);
      var plans := IssuePlansFrom(order, last, ctx);
      if order[0].id in target.issues {
        AvailableIsMerged(target, order[1..], last, ctx);
        var rest := IssuePlansFrom(order[1..], last, ctx);
        SkippedIdsHead(plans[0], rest);
        assert plans == [plans[0]] + rest;
      } else {
        AvailableIsMerged(target, order[1..], last + 1, ctx);
        InsertedIdsHead(InsertIssueFor(order[0], last + 1, ctx), IssuePlansFrom(order[1..], last + 1, ctx));
      }
    }
  }

  lemma SkippedIdsHead(p: IssuePlan, rest: seq<IssuePlan>)
    requires p.SkipIssue?
    ensures InsertedIssueIds([p] + rest) == InsertedIssueIds(rest)
  {
    forall i | i in InsertedIssueIds([p] + rest) ensures i in InsertedIssueIds(rest) {
      var k :| 0 <= k < |[p] + rest| && ([p] + rest)[k].InsertIssue? && ([p] + rest)[k].source.id == i;
      assert rest[k - 1] == ([p] + rest)[k];
    }
    forall i | i in InsertedIssueIds(rest) ensures i in InsertedIssueIds([p] + rest) {
      var k :| 0 <= k < |rest| && rest[k].InsertIssue? && rest[k].source.id == i;
      assert ([p] + rest)[k + 1] == rest[k];
    }
  }

  /* ---- comments, documents, attachments ---- */

  function CommentRows(source: Source, request: Request): seq<Comment> {
    if request.includeComments then Sort(source.comments, CommentNoLater) else []
  }

  lemma SortedRows(source: Source, target: Database, request: Request)
    requires Mergeable(source, target)
    ensures UniqueBy(CommentRows(source, request), R.CommentId)
    ensures var rows := Sort(source.attachments, AttachmentNoLater);
      && UniqueBy(rows, R.AttachmentId) && UniqueBy(rows, R.AttachmentAsset) && UniqueBy(rows, R.AttachmentObject)
      && forall x :: x in rows <==> x in source.attachments
  {
    SortPermutes(source.comments, CommentNoLater);
    UniqueByPermuted(source.comments, Sort(source.comments, CommentNoLater), R.CommentId);
    var rows := Sort(source.attachments, AttachmentNoLater);
    SortPermutes(source.attachments, AttachmentNoLater);
    UniqueByPermuted(source.attachments, rows, R.AttachmentId);
    UniqueByPermuted(source.attachments, rows, R.AttachmentAsset);
    UniqueByPermuted(source.attachments, rows, R.AttachmentObject);
  }

  lemma PlannedAttachmentsReady(source: Source, target: Database, db: Database, issues: set<Id>, comments: set<Id>,
        request: Request)
    requires Mergeable(source, target)
    requires db.assets == target.assets && db.attachments == target.attachments && db.agents == target.agents
    requires issues <= db.issues.Keys && comments <= db.comments.Keys
    ensures R.AttachmentsReady(db,
      AttachmentPlansFor(Sort(source.attachments, AttachmentNoLater), target, issues, comments), db.attachments.Keys)
  {
    SortedRows(source, target, request);
    var rows := Sort(source.attachments, AttachmentNoLater);
    var plans := AttachmentPlansFor(rows, target, issues, comments);
    forall k | 0 <= k < |plans| ensures R.AttachmentReady(db, plans[k]) {
      assert rows[k] in rows;
    }
    forall j, k | 0 <= j < k < |plans|
      ensures R.AttachmentSource(plans[j]) != R.AttachmentSource(plans[k])
      ensures R.AttachmentSourceAsset(plans[j]) != R.AttachmentSourceAsset(plans[k])
      ensures R.AttachmentSourceObject(plans[j]) != R.AttachmentSourceObject(plans[k])
    {
      assert R.AttachmentId(rows[j]) != R.AttachmentId(rows[k])
        && R.AttachmentAsset(rows[j]) != R.AttachmentAsset(rows[k]);
      assert R.AttachmentObject(rows[j]) != R.AttachmentObject(rows[k]);
    }
  }

  /** What the history phase leaves, starting from a target whose issues are already merged. */
  ghost predicate HistoryMerged(target: Database, db: Database, after: Database, plan: MergePlan, bodies: set<string>) {
    && after == db.(comments := after.comments, documents := after.documents, links := after.links,
                    revisions := after.revisions, assets := after.assets, attachments := after.attachments)
    && after.comments.Keys == target.comments.Keys + InsertedCommentIds(plan.commentPlans)
    && D.DocumentsSettled(target, after, plan.documentPlans)
    && |after.revisions| == |target.revisions| + RevisionCount(plan.documentPlans)
    && after.attachments.Keys == target.attachments.Keys + R.ServedIds(plan.attachmentPlans, bodies)
  }

  /** The tables the history phase works on are still the target's own. */
  ghost predicate HistoryUntouched(target: Database, db: Database) {
    && db.comments == target.comments && DocumentsUntouched(target, db)
    && db.assets == target.assets && db.attachments == target.attachments
  }

  ghost predicate DocumentsUntouched(target: Database, db: Database) {
    db.documents == target.documents && db.links == target.links && db.revisions == target.revisions
      && db.agents == target.agents
  }

  lemma DocumentPlansApart(source: Source, target: Database, issues: set<Id>, plans: seq<DocumentPlan>)
    requires D.DocumentsMergeable(source, target)
    requires plans == DocumentPlansFor(Sort(source.documents, DocumentNoLater), source, target, issues)
    ensures forall i, j :: 0 <= i < j < |plans| ==> plans[i].source.documentId != plans[j].source.documentId
  {
    var rows := Sort(source.documents, DocumentNoLater);
    SortPermutes(source.documents, DocumentNoLater);
    UniqueByPermuted(source.documents, rows, D.DocumentId);
    SourcesApart(rows, plans);
  }

  lemma SourcesApart(rows: seq<IssueDocument>, plans: seq<DocumentPlan>)
    requires UniqueBy(rows, D.DocumentId) && |plans| == |rows|
    requires forall k :: 0 <= k < |rows| ==> plans[k].source == rows[k]
    ensures forall i, j :: 0 <= i < j < |plans| ==> plans[i].source.documentId != plans[j].source.documentId
  {
    forall i, j | 0 <= i < j < |plans| ensures plans[i].source.documentId != plans[j].source.documentId {
      assert D.DocumentId(rows[i]) != D.DocumentId(rows[j]);
    }
  }

  lemma DocumentPhase(source: Source, target: Database, db: Database, issues: set<Id>, plans: seq<DocumentPlan>)
    requires D.DocumentsMergeable(source, target) && DocumentsUntouched(target, db) && issues <= db.issues.Keys
    requires plans == DocumentPlansFor(Sort(source.documents, DocumentNoLater), source, target, issues)
    ensures var r := ApplyDocuments(db, plans);
      && r.Ok? && r.value == db.(documents := r.value.documents, links := r.value.links, revisions := r.value.revisions)
      && D.DocumentsSettled(target, r.value, plans) && |r.value.revisions| == |target.revisions| + RevisionCount(plans)
  {
    D.PlannedDocumentsReady(source, target, db, issues);
    D.DocumentsGoIn(db, plans);
    D.WrittenAllFrame(db, plans);
    D.RevisionsAppended(db, plans);
    DocumentPlansApart(source, target, issues, plans);
    D.DocumentsSettle(db, plans);
    D.SettledFromTarget(target, db, D.WrittenAll(db, plans), plans);
  }

  lemma CommentPhase(source: Source, target: Database, request: Request, plans: seq<CommentPlan>, db: Database,
        issues: set<Id>)
    requires Mergeable(source, target) && db.comments == target.comments && db.agents == target.agents
      && issues <= db.issues.Keys
    requires plans == CommentPlansFor(CommentRows(source, request), target, issues)
    ensures var r := ApplyComments(db, plans, db.comments.Keys);
      && r.Ok? && r.value == db.(comments := r.value.comments)
      && r.value.comments.Keys == AvailableComments(target, plans)
  {
    SortedRows(source, target, request);
    R.PlannedCommentsReady(CommentRows(source, request), target, issues, db);
    R.CommentsGoIn(db, plans, db.comments.Keys);
  }

  lemma AttachmentPhase(source: Source, target: Database, request: Request, plans: seq<AttachmentPlan>, db: Database,
                        issues: set<Id>, comments: set<Id>, bodies: set<string>)
    requires Mergeable(source, target)
    requires db.assets == target.assets && db.attachments == target.attachments && db.agents == target.agents
    requires issues <= db.issues.Keys && comments <= db.comments.Keys
    requires plans == AttachmentPlansFor(Sort(source.attachments, AttachmentNoLater), target, issues, comments)
    ensures var r := ApplyAttachments(db, plans, db.attachments.Keys, bodies);
      && r.Ok? && r.value == db.(assets := r.value.assets, attachments := r.value.attachments)
      && r.value.attachments.Keys == target.attachments.Keys + R.ServedIds(plans, bodies)
  {
    PlannedAttachmentsReady(source, target, db, issues, comments, request);
    R.AttachmentsGoIn(db, plans, db.attachments.Keys, bodies);
  }

  lemma HistoryPhase(source: Source, target: Database, request: Request, order: seq<Issue>, plan: MergePlan,
        db: Database, bodies: set<string>)
    requires Mergeable(source, target) && IsPlan(plan, source, target, request, order)
    requires HistoryUntouched(target, db) && AvailableIssues(target, plan.issuePlans) <= db.issues.Keys
    ensures ApplyHistory(db, plan, bodies).Ok?
    ensures HistoryMerged(target, db, ApplyHistory(db, plan, bodies).value, plan, bodies)
  {
    var issues := AvailableIssues(target, plan.issuePlans);
    CommentPhase(source, target, request, plan.commentPlans, db, issues);
    var db1 := ApplyComments(db, plan.commentPlans, db.comments.Keys).value;
    DocumentPhase(source, target, db1, issues, plan.documentPlans);
    var db2 := ApplyDocuments(db1, plan.documentPlans).value;
    AttachmentPhase(source, target, request, plan.attachmentPlans, db2, issues,
      AvailableComments(target, plan.commentPlans), bodies);
    var db3 := ApplyAttachments(db2, plan.attachmentPlans, db2.attachments.Keys, bodies).value;
    D.SettledInAfter(target, db2, db3, plan.documentPlans);
    assert ApplyHistory(db, plan, bodies) == Ok(db3);
  }
}
