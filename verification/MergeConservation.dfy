/** What the planner accounts for, and what applying a plan can never lose. */
module MergeConservation {
  import opened Basics
  import opened MergeModel
  import opened MergePlanner
  import opened MergeApply

  /* ---- every source row has exactly one plan entry ---- */

  function IssueSource(p: IssuePlan): Issue { p.source }
  function CommentSource(p: CommentPlan): Comment { p.source }
  function DocumentSource(p: DocumentPlan): IssueDocument { p.source }
  function AttachmentSource(p: AttachmentPlan): Attachment { p.source }

  function MapSeq<A, B>(s: seq<A>, f: A -> B): (t: seq<B>)
    ensures |t| == |s| && forall k :: 0 <= k < |s| ==> t[k] == f(s[k])
  {
    seq(|s|, k requires 0 <= k < |s| => f(s[k]))
  }

  lemma {:induction false} IssueSources(order: seq<Issue>, last: int, ctx: Context)
    ensures MapSeq(IssuePlansFrom(order, last, ctx), IssueSource) == order
  {
    if order != [] {
      var next := if order[0].id in ctx.target.issues then last else last + 1;
      IssueSources(order[1..], next, ctx);
      var first := HeadPlan(order, last, next, ctx);
      MapSeqCons(first, IssuePlansFrom(order[1..], next, ctx), IssueSource);
      assert order == [order[0]] + order[1..];
    }
  }

  lemma HeadPlan(order: seq<Issue>, last: int, next: int, ctx: Context) returns (first: IssuePlan)
    requires order != [] && next == if order[0].id in ctx.target.issues then last else last + 1
    ensures first.source == order[0]
    ensures IssuePlansFrom(order, last, ctx) == [first] + IssuePlansFrom(order[1..], next, ctx)
  {
    first := IssuePlansFrom(order, last, ctx)[0];
  }

  lemma MapSeqCons<A, B>(first: A, rest: seq<A>, f: A -> B)
    ensures MapSeq([first] + rest, f) == [f(first)] + MapSeq(rest, f)
  {
  }

  /** The sources of the plan entries are the source rows themselves, each as often as it was read. */
  lemma EveryRowPlannedOnce(plan: MergePlan, source: Source, target: Database, request: Request, order: seq<Issue>)
    requires IsPlan(plan, source, target, request, order) && multiset(order) == multiset(source.issues)
    ensures multiset(MapSeq(plan.issuePlans, IssueSource)) == multiset(source.issues)
    ensures multiset(MapSeq(plan.commentPlans, CommentSource))
      == if request.includeComments then multiset(source.comments) else multiset{}
    ensures multiset(MapSeq(plan.documentPlans, DocumentSource)) == multiset(source.documents)
    ensures multiset(MapSeq(plan.attachmentPlans, AttachmentSource)) == multiset(source.attachments)
  {
    IssueSources(order, target.issueCounter, ContextFor(source, target, request));
    var issues := AvailableIssues(target, plan.issuePlans);
    CommentSources(source, request, target, issues);
    DocumentSources(source, target, issues);
    AttachmentSources(source, target, issues, AvailableComments(target, plan.commentPlans));
  }

  lemma CommentSources(source: Source, request: Request, target: Database, issues: set<Id>)
    ensures var rows := if request.includeComments then Sort(source.comments, CommentNoLater) else [];
      multiset(MapSeq(CommentPlansFor(rows, target, issues), CommentSource))
      == if request.includeComments then multiset(source.comments) else multiset{}
  {
    var rows := if request.includeComments then Sort(source.comments, CommentNoLater) else [];
    SortPermutes(source.comments, CommentNoLater);
    assert MapSeq(CommentPlansFor(rows, target, issues), CommentSource) == rows;
  }

  lemma DocumentSources(source: Source, target: Database, issues: set<Id>)
    ensures var plans := DocumentPlansFor(Sort(source.documents, DocumentNoLater), source, target, issues);
      multiset(MapSeq(plans, DocumentSource)) == multiset(source.documents)
  {
    var rows := Sort(source.documents, DocumentNoLater);
    var plans := DocumentPlansFor(rows, source, target, issues);
    SortPermutes(source.documents, DocumentNoLater);
    forall k | 0 <= k < |rows| ensures plans[k].source == rows[k] { }
    assert MapSeq(plans, DocumentSource) == rows;
  }

  lemma AttachmentSources(source: Source, target: Database, issues: set<Id>, comments: set<Id>)
    ensures var plans := AttachmentPlansFor(Sort(source.attachments, AttachmentNoLater), target, issues, comments);
      multiset(MapSeq(plans, AttachmentSource)) == multiset(source.attachments)
  {
    var rows := Sort(source.attachments, AttachmentNoLater);
    SortPermutes(source.attachments, AttachmentNoLater);
    assert MapSeq(AttachmentPlansFor(rows, target, issues, comments), AttachmentSource) == rows;
  }

  /* ---- the reported counts partition the rows ---- */

  lemma CountsPartition(imports: seq<ProjectImport>, issues: seq<IssuePlan>, comments: seq<CommentPlan>,
                        documents: seq<DocumentPlan>, attachments: seq<AttachmentPlan>)
    ensures var c := CountsOf(imports, issues, comments, documents, attachments);
      && c.issuesToInsert + c.issuesExisting == |issues| && c.issueDrift <= c.issuesExisting
      && c.commentsToInsert + c.commentsExisting + c.commentsMissingParent == |comments|
      && c.documentsToInsert + c.documentsToMerge + c.documentsExisting + c.documentsConflictingKey
        + c.documentsMissingParent == |documents|
      && c.attachmentsToInsert + c.attachmentsExisting + c.attachmentsMissingParent == |attachments|
  {
    IssueCounts(issues);
    CommentCounts(comments);
    DocumentCounts(documents);
    AttachmentCounts(attachments);
  }

  lemma {:induction false} IssueCounts(s: seq<IssuePlan>)
    ensures CountIf(s, (p: IssuePlan) => p.InsertIssue?) + CountIf(s, (p: IssuePlan) => p.SkipIssue?) == |s|
    ensures CountIf(s, (p: IssuePlan) => p.SkipIssue? && |p.driftKeys| > 0)
         <= CountIf(s, (p: IssuePlan) => p.SkipIssue?)
  {
    if s != [] { IssueCounts(s[..|s| - 1]); }
  }

  lemma {:induction false} CommentCounts(s: seq<CommentPlan>)
    ensures CountIf(s, (p: CommentPlan) => p.InsertComment?) + CountIf(s, (p: CommentPlan) => p.SkipExistingComment?)
          + CountIf(s, (p: CommentPlan) => p.SkipOrphanComment?) == |s|
  {
    if s != [] { CommentCounts(s[..|s| - 1]); }
  }

  lemma {:induction false} DocumentCounts(s: seq<DocumentPlan>)
    ensures CountIf(s, (p: DocumentPlan) => p.InsertDocument?) + CountIf(s, (p: DocumentPlan) => p.MergeDocument?)
          + CountIf(s, (p: DocumentPlan) => p.SkipExistingDocument?)
          + CountIf(s, (p: DocumentPlan) => p.SkipConflictingDocument?)
          + CountIf(s, (p: DocumentPlan) => p.SkipOrphanDocument?) == |s|
  {
    if s != [] { DocumentCounts(s[..|s| - 1]); }
  }

  lemma {:induction false} AttachmentCounts(s: seq<AttachmentPlan>)
    ensures CountIf(s, (p: AttachmentPlan) => p.InsertAttachment?)
          + CountIf(s, (p: AttachmentPlan) => p.SkipExistingAttachment?)
          + CountIf(s, (p: AttachmentPlan) => p.SkipOrphanAttachment?) == |s|
  {
    if s != [] { AttachmentCounts(s[..|s| - 1]); }
  }

  /** The adjustment tally is what occurs in the plan entries, plus one dropped document agent for
      each document that was then found unchanged. */
  lemma TallyAccounts(plan: MergePlan, target: Database)
    requires IsTally(plan, target)
    ensures plan.adjustments == IssueAdjustments(plan.issuePlans) + CommentAdjustments(plan.commentPlans)
      + DocumentAdjustments(plan.documentPlans) + AttachmentAdjustments(plan.attachmentPlans)
      + multiset{}[ClearDocumentAgent := UnchangedDroppingAgent(plan.documentPlans, target)]
  {
    DocumentTallySplit(plan.documentPlans, target);
  }

  /* ---- applying any plan to any target only adds rows, except that it may rewrite documents and links ---- */

  ghost predicate SubMap<K, V>(m: map<K, V>, n: map<K, V>) {
    forall k :: k in m ==> k in n && n[k] == m[k]
  }

  predicate SameCreation(a: Document, b: Document) {
    a.createdAt == b.createdAt && a.createdByAgentId == b.createdByAgentId
  }

  predicate SameLinkRow(a: Link, b: Link) {
    a.id == b.id && a.createdAt == b.createdAt
  }

  ghost predicate Extends(db: Database, after: Database) {
    && db.agents == after.agents && db.goals == after.goals
    && SubMap(db.projects, after.projects) && SubMap(db.workspaces, after.workspaces) && SubMap(db.issues, after.issues)
    && SubMap(db.comments, after.comments) && SubMap(db.assets, after.assets)
      && SubMap(db.attachments, after.attachments)
    && db.documents.Keys <= after.documents.Keys && db.links.Keys <= after.links.Keys
    && (forall d :: d in db.links ==> SameLinkRow(db.links[d], after.links[d]))
    && (forall d :: d in db.documents ==> SameCreation(db.documents[d], after.documents[d]))
    && db.revisions <= after.revisions
  }

  lemma {:induction false} WorkspacesExtend(db: Database, projectId: Id, rows: seq<Workspace>, existing: set<Id>)
    requires ApplyWorkspaces(db, projectId, rows, existing).Ok?
    ensures Extends(db, ApplyWorkspaces(db, projectId, rows, existing).value)
    decreases |rows|
  {
    if rows != [] {
      if rows[0].id in existing {
        WorkspacesExtend(db, projectId, rows[1..], existing);
      } else {
        var next := InsertWorkspaceRow(db, rows[0].(projectId := projectId)).value;
        WorkspacesExtend(next, projectId, rows[1..], existing);
      }
    }
  }

  lemma {:induction false} ProjectsExtend(db: Database, imports: seq<ProjectImport>, existing: set<Id>)
    requires ApplyProjects(db, imports, existing).Ok?
    ensures Extends(db, ApplyProjects(db, imports, existing).value)
    decreases |imports|
  {
    if imports != [] {
      var next := FirstProjectExtends(db, imports, existing);
      ProjectsExtend(next, imports[1..], existing);
      ExtendsTrans(db, next, ApplyProjects(db, imports, existing).value);
    }
  }

  lemma FirstProjectExtends(db: Database, imports: seq<ProjectImport>, existing: set<Id>) returns (next: Database)
    requires imports != [] && ApplyProjects(db, imports, existing).Ok?
    ensures Extends(db, next) && ApplyProjects(db, imports, existing) == ApplyProjects(next, imports[1..], existing)
  {
    var db1 := InsertProjectRow(db, ProjectRow(imports[0])).value;
    WorkspacesExtend(db1, imports[0].source.id, imports[0].workspaces, existing);
    next := ApplyWorkspaces(db1, imports[0].source.id, imports[0].workspaces, existing).value;
  }

  lemma {:induction false} IssuesExtend(db: Database, inserts: seq<IssuePlan>, number: int)
    requires forall k :: 0 <= k < |inserts| ==> inserts[k].InsertIssue?
    requires ApplyIssues(db, inserts, number).Ok?
    ensures Extends(db, ApplyIssues(db, inserts, number).value)
    decreases |inserts|
  {
    if inserts != [] {
      IssuesExtend(InsertIssueRow(db, IssueRow(inserts[0], number)).value, inserts[1..], number + 1);
    }
  }

  lemma {:induction false} CommentsExtend(db: Database, plans: seq<CommentPlan>, existing: set<Id>)
    requires ApplyComments(db, plans, existing).Ok?
    ensures Extends(db, ApplyComments(db, plans, existing).value)
    decreases |plans|
  {
    if plans != [] {
      if !plans[0].InsertComment? || plans[0].source.id in existing || plans[0].source.issueId !in db.issues {
        CommentsExtend(db, plans[1..], existing);
      } else {
        CommentsExtend(InsertCommentRow(db, plans[0].source.(authorAgentId := plans[0].targetAuthorAgentId)).value,
          plans[1..], existing);
      }
    }
  }

  lemma {:induction false} RevisionsExtend(db: Database, documentId: Id, plans: seq<RevisionPlan>, existing: set<Id>)
    requires ApplyRevisions(db, documentId, plans, existing).Ok?
    ensures Extends(db, ApplyRevisions(db, documentId, plans, existing).value)
    decreases |plans|
  {
    if plans != [] {
      if plans[0].source.id in existing {
        RevisionsExtend(db, documentId, plans[1..], existing);
      } else {
        var next := InsertRevisionRow(db, RevisionRow(documentId, plans[0])).value;
        RevisionsExtend(next, documentId, plans[1..], existing);
      }
    }
  }

  lemma LinkInsertExtends(db: Database, d: Id, row: Link)
    requires InsertLinkRow(db, d, row).Ok?
    ensures Extends(db, InsertLinkRow(db, d, row).value)
  {
  }

  lemma LinkUpdateExtends(db: Database, d: Id, row: Link)
    requires d in db.links && SameLinkRow(db.links[d], row) && UpdateLinkRow(db, d, row).Ok?
    ensures Extends(db, UpdateLinkRow(db, d, row).value)
  {
  }

  lemma DocumentUpdateExtends(db: Database, d: Id, row: Document)
    requires d in db.documents && SameCreation(db.documents[d], row) && UpdateDocumentRow(db, d, row).Ok?
    ensures Extends(db, UpdateDocumentRow(db, d, row).value)
  {
  }

  lemma ExtendsTrans(a: Database, b: Database, c: Database)
    requires Extends(a, b) && Extends(b, c)
    ensures Extends(a, c)
  {
    forall d | d in a.links ensures SameLinkRow(a.links[d], c.links[d]) {
      assert SameLinkRow(a.links[d], b.links[d]) && SameLinkRow(b.links[d], c.links[d]);
    }
    forall d | d in a.documents ensures SameCreation(a.documents[d], c.documents[d]) {
      assert SameCreation(a.documents[d], b.documents[d]) && SameCreation(b.documents[d], c.documents[d]);
    }
  }

  lemma RowsExtend(db: Database, d: IssueDocument, write: DocumentWrite)
    requires WriteDocumentRows(db, d, write).Ok?
    ensures Extends(db, WriteDocumentRows(db, d, write).value)
  {
    var id := d.documentId;
    if id !in db.documents {
      var db1 := InsertDocumentRow(db, id, NewDocument(d.doc, write)).value;
      assert Extends(db, db1);
      LinkInsertExtends(db1, id, d.link);
      ExtendsTrans(db, db1, WriteDocumentRows(db, d, write).value);
    } else {
      var db1: Database;
      if id !in db.links {
        LinkInsertExtends(db, id, d.link);
        db1 := InsertLinkRow(db, id, d.link).value;
      } else {
        LinkUpdateExtends(db, id, MergedLink(db.links[id], d.link));
        db1 := UpdateLinkRow(db, id, MergedLink(db.links[id], d.link)).value;
      }
      DocumentUpdateExtends(db1, id, MergedDocument(db.documents[id], d.doc, write));
      ExtendsTrans(db, db1, WriteDocumentRows(db, d, write).value);
    }
  }

  lemma WriteExtends(db: Database, d: IssueDocument, write: DocumentWrite)
    requires WriteDocument(db, d, write).Ok?
    ensures Extends(db, WriteDocument(db, d, write).value)
  {
    RowsExtend(db, d, write);
    var db1 := WriteDocumentRows(db, d, write).value;
    RevisionsExtend(db1, d.documentId, write.revisionsToInsert, RevisionIds(db1.revisions, d.documentId));
    ExtendsTrans(db, db1, WriteDocument(db, d, write).value);
  }

  lemma {:induction false} DocumentsExtend(db: Database, plans: seq<DocumentPlan>)
    requires ApplyDocuments(db, plans).Ok?
    ensures Extends(db, ApplyDocuments(db, plans).value)
    decreases |plans|
  {
    if plans != [] {
      if !plans[0].Writes() || Skipped(db, plans[0].source) {
        DocumentsExtend(db, plans[1..]);
      } else {
        WriteExtends(db, plans[0].source, plans[0].write);
        var db1 := WriteDocument(db, plans[0].source, plans[0].write).value;
        DocumentsExtend(db1, plans[1..]);
        ExtendsTrans(db, db1, ApplyDocuments(db1, plans[1..]).value);
      }
    }
  }

  lemma {:induction false} AttachmentsExtend(db: Database, plans: seq<AttachmentPlan>, existing: set<Id>,
        bodies: set<string>)
    requires ApplyAttachments(db, plans, existing, bodies).Ok?
    ensures Extends(db, ApplyAttachments(db, plans, existing, bodies).value)
    decreases |plans|
  {
    if plans != [] {
      var p := plans[0];
      if !p.InsertAttachment? || p.source.id in existing
         || p.source.issueId !in db.issues || p.source.objectKey !in bodies {
        AttachmentsExtend(db, plans[1..], existing, bodies);
      } else {
        var next := FirstAttachmentExtends(db, plans, existing, bodies);
        AttachmentsExtend(next, plans[1..], existing, bodies);
        ExtendsTrans(db, next, ApplyAttachments(next, plans[1..], existing, bodies).value);
      }
    }
  }

  lemma FirstAttachmentExtends(db: Database, plans: seq<AttachmentPlan>, existing: set<Id>, bodies: set<string>)
    returns (next: Database)
    requires plans != [] && ApplyAttachments(db, plans, existing, bodies).Ok? && plans[0].InsertAttachment?
    requires plans[0].source.id !in existing && plans[0].source.issueId in db.issues
    requires plans[0].source.objectKey in bodies
    ensures Extends(db, next)
    ensures ApplyAttachments(db, plans, existing, bodies) == ApplyAttachments(next, plans[1..], existing, bodies)
  {
    var p := plans[0];
    var db1 := InsertAssetRow(db, p.source.assetId, Asset(p.source.objectKey, p.targetCreatedByAgentId)).value;
    next := InsertAttachmentRow(db1, p.source.id,
      AttachmentRow(p.source.issueId, p.source.assetId, p.targetIssueCommentId)).value;
  }

  /** No plan, however stale, makes the target lose a row: projects, issues, comments and attachments
      stay as they are, revisions are only appended, and rewritten documents keep their creation. */
  lemma NothingLost(db: Database, plan: MergePlan, bodies: set<string>)
    requires Apply(db, plan, bodies).Ok?
    ensures Extends(db, Apply(db, plan, bodies).value)
  {
    var imports := NewImports(db, plan.projectImports);
    ProjectsExtend(db, imports, db.workspaces.Keys);
    var db1 := ApplyProjects(db, imports, db.workspaces.Keys).value;
    IssuePhaseExtends(db1, plan.issuePlans);
    var db2 := ApplyIssuePhase(db1, plan.issuePlans).value;
    HistoryExtends(db2, plan, bodies);
    ExtendsTrans(db, db1, db2);
    ExtendsTrans(db, db2, Apply(db, plan, bodies).value);
  }

  lemma IssuePhaseExtends(db: Database, plans: seq<IssuePlan>)
    requires ApplyIssuePhase(db, plans).Ok?
    ensures Extends(db, ApplyIssuePhase(db, plans).value)
  {
    var inserts := IssueInserts(db, plans);
    IssuesExtend(db.(issueCounter := db.issueCounter + |inserts|), inserts, db.issueCounter + 1);
  }

  lemma HistoryExtends(db: Database, plan: MergePlan, bodies: set<string>)
    requires ApplyHistory(db, plan, bodies).Ok?
    ensures Extends(db, ApplyHistory(db, plan, bodies).value)
  {
    CommentsExtend(db, plan.commentPlans, db.comments.Keys);
    var db1 := ApplyComments(db, plan.commentPlans, db.comments.Keys).value;
    DocumentsExtend(db1, plan.documentPlans);
    var db2 := ApplyDocuments(db1, plan.documentPlans).value;
    AttachmentsExtend(db2, plan.attachmentPlans, db2.attachments.Keys, bodies);
    ExtendsTrans(db, db1, db2);
    ExtendsTrans(db, db2, ApplyHistory(db, plan, bodies).value);
  }
}
