/** What the transaction writes, row by row, whatever plan it is given. */
module MergeContents {
  import opened Basics
  import opened MergeModel
  import opened MergeApply
  import opened MergeConservation

  /* ---- each phase touches its own tables ---- */

  lemma {:induction false} WorkspacesFrame(db: Database, projectId: Id, rows: seq<Workspace>, existing: set<Id>)
    requires ApplyWorkspaces(db, projectId, rows, existing).Ok?
    ensures var after := ApplyWorkspaces(db, projectId, rows, existing).value;
      after == db.(workspaces := after.workspaces)
    decreases |rows|
  {
    if rows != [] {
      if rows[0].id in existing {
        WorkspacesFrame(db, projectId, rows[1..], existing);
      } else {
        WorkspacesFrame(InsertWorkspaceRow(db, rows[0].(projectId := projectId)).value, projectId, rows[1..], existing);
      }
    }
  }

  lemma {:induction false} ProjectsFrame(db: Database, imports: seq<ProjectImport>, existing: set<Id>)
    requires ApplyProjects(db, imports, existing).Ok?
    ensures var after := ApplyProjects(db, imports, existing).value;
      after == db.(projects := after.projects, workspaces := after.workspaces)
    decreases |imports|
  {
    if imports != [] {
      var db1 := InsertProjectRow(db, ProjectRow(imports[0])).value;
      WorkspacesFrame(db1, imports[0].source.id, imports[0].workspaces, existing);
      var db2 := ApplyWorkspaces(db1, imports[0].source.id, imports[0].workspaces, existing).value;
      ProjectsFrame(db2, imports[1..], existing);
    }
  }

  lemma {:induction false} IssuesFrame(db: Database, inserts: seq<IssuePlan>, number: int)
    requires forall k :: 0 <= k < |inserts| ==> inserts[k].InsertIssue?
    requires ApplyIssues(db, inserts, number).Ok?
    ensures var after := ApplyIssues(db, inserts, number).value; after == db.(issues := after.issues)
    decreases |inserts|
  {
    if inserts != [] {
      IssuesFrame(InsertIssueRow(db, IssueRow(inserts[0], number)).value, inserts[1..], number + 1);
    }
  }

  lemma {:induction false} CommentsFrame(db: Database, plans: seq<CommentPlan>, existing: set<Id>)
    requires ApplyComments(db, plans, existing).Ok?
    ensures var after := ApplyComments(db, plans, existing).value; after == db.(comments := after.comments)
    decreases |plans|
  {
    if plans != [] {
      if !CommentGoesIn(db, plans[0], existing) {
        CommentsFrame(db, plans[1..], existing);
      } else {
        CommentsFrame(InsertCommentRow(db, CommentRow(plans[0])).value, plans[1..], existing);
      }
    }
  }

  ghost predicate OnlyDocuments(db: Database, after: Database) {
    after == db.(documents := after.documents, links := after.links, revisions := after.revisions)
  }

  lemma {:induction false} RevisionsFrame(db: Database, documentId: Id, plans: seq<RevisionPlan>, existing: set<Id>)
    requires ApplyRevisions(db, documentId, plans, existing).Ok?
    ensures OnlyDocuments(db, ApplyRevisions(db, documentId, plans, existing).value)
    decreases |plans|
  {
    if plans != [] {
      if plans[0].source.id in existing {
        RevisionsFrame(db, documentId, plans[1..], existing);
      } else {
        var next := InsertRevisionRow(db, RevisionRow(documentId, plans[0])).value;
        RevisionsFrame(next, documentId, plans[1..], existing);
      }
    }
  }

  lemma DocumentRowsFrame(db: Database, d: IssueDocument, write: DocumentWrite)
    requires WriteDocumentRows(db, d, write).Ok?
    ensures OnlyDocuments(db, WriteDocumentRows(db, d, write).value)
  {
    if d.documentId in db.documents {
      LinkRowFrame(db, d.documentId, d.link);
    }
  }

  lemma LinkRowFrame(db: Database, d: Id, link: Link)
    ensures InsertLinkRow(db, d, link).Ok? ==> OnlyDocuments(db, InsertLinkRow(db, d, link).value)
    ensures d in db.links ==>
      var row := MergedLink(db.links[d], link);
      UpdateLinkRow(db, d, row).Ok? ==> OnlyDocuments(db, UpdateLinkRow(db, d, row).value)
  {
  }

  lemma DocumentFrame(db: Database, d: IssueDocument, write: DocumentWrite)
    requires WriteDocument(db, d, write).Ok?
    ensures OnlyDocuments(db, WriteDocument(db, d, write).value)
  {
    DocumentRowsFrame(db, d, write);
    var db1 := WriteDocumentRows(db, d, write).value;
    RevisionsFrame(db1, d.documentId, write.revisionsToInsert, RevisionIds(db1.revisions, d.documentId));
  }

  lemma {:induction false} DocumentsFrame(db: Database, plans: seq<DocumentPlan>)
    requires ApplyDocuments(db, plans).Ok?
    ensures OnlyDocuments(db, ApplyDocuments(db, plans).value)
    decreases |plans|
  {
    if plans != [] {
      if !plans[0].Writes() || Skipped(db, plans[0].source) {
        DocumentsFrame(db, plans[1..]);
      } else {
        DocumentFrame(db, plans[0].source, plans[0].write);
        DocumentsFrame(WriteDocument(db, plans[0].source, plans[0].write).value, plans[1..]);
      }
    }
  }

  /* ---- the rows written ---- */

  function CommentRow(p: CommentPlan): Comment
    requires p.InsertComment?
  {
    p.source.(authorAgentId := p.targetAuthorAgentId)
  }

  predicate CommentGoesIn(db: Database, p: CommentPlan, existing: set<Id>) {
    p.InsertComment? && p.source.id !in existing && p.source.issueId in db.issues
  }

  lemma {:induction false} CommentWritten(db: Database, plans: seq<CommentPlan>, existing: set<Id>, k: nat)
    requires ApplyComments(db, plans, existing).Ok? && k < |plans| && CommentGoesIn(db, plans[k], existing)
    ensures var after := ApplyComments(db, plans, existing).value;
      plans[k].source.id in after.comments && after.comments[plans[k].source.id] == CommentRow(plans[k])
    decreases |plans|
  {
    if !CommentGoesIn(db, plans[0], existing) {
      CommentWritten(db, plans[1..], existing, k - 1);
    } else {
      var db1 := InsertCommentRow(db, CommentRow(plans[0])).value;
      if k > 0 { CommentWritten(db1, plans[1..], existing, k - 1); } else { CommentsExtend(db1, plans[1..], existing); }
    }
  }

  predicate AttachmentGoesIn(db: Database, p: AttachmentPlan, existing: set<Id>, bodies: set<string>) {
    p.InsertAttachment? && p.source.id !in existing && p.source.issueId in db.issues && p.source.objectKey in bodies
  }

  ghost predicate AttachmentWritten(after: Database, p: AttachmentPlan)
    requires p.InsertAttachment?
  {
    && p.source.id in after.attachments
    && after.attachments[p.source.id] == AttachmentRow(p.source.issueId, p.source.assetId, p.targetIssueCommentId)
    && p.source.assetId in after.assets
    && after.assets[p.source.assetId] == Asset(p.source.objectKey, p.targetCreatedByAgentId)
  }

  lemma AttachmentStays(db: Database, after: Database, p: AttachmentPlan)
    requires p.InsertAttachment? && AttachmentWritten(db, p) && Extends(db, after)
    ensures AttachmentWritten(after, p)
  {
  }

  lemma {:induction false} AttachmentIn(db: Database, plans: seq<AttachmentPlan>, existing: set<Id>,
        bodies: set<string>, k: nat)
    requires ApplyAttachments(db, plans, existing, bodies).Ok? && k < |plans|
      && AttachmentGoesIn(db, plans[k], existing, bodies)
    ensures AttachmentWritten(ApplyAttachments(db, plans, existing, bodies).value, plans[k])
    decreases |plans|
  {
    var p := plans[0];
    if !AttachmentGoesIn(db, p, existing, bodies) {
      AttachmentIn(db, plans[1..], existing, bodies, k - 1);
    } else {
      var db1 := InsertAssetRow(db, p.source.assetId, Asset(p.source.objectKey, p.targetCreatedByAgentId)).value;
      var db2 := InsertAttachmentRow(db1, p.source.id,
        AttachmentRow(p.source.issueId, p.source.assetId, p.targetIssueCommentId)).value;
      if k > 0 {
        AttachmentIn(db2, plans[1..], existing, bodies, k - 1);
      } else {
        AttachmentsExtend(db2, plans[1..], existing, bodies);
        AttachmentStays(db2, ApplyAttachments(db2, plans[1..], existing, bodies).value, p);
      }
    }
  }

  ghost predicate WorkspaceWritten(after: Database, projectId: Id, w: Workspace) {
    w.id in after.workspaces && after.workspaces[w.id] == w.(projectId := projectId)
  }

  lemma {:induction false} WorkspaceIn(db: Database, projectId: Id, rows: seq<Workspace>, existing: set<Id>, k: nat)
    requires ApplyWorkspaces(db, projectId, rows, existing).Ok? && k < |rows| && rows[k].id !in existing
    ensures WorkspaceWritten(ApplyWorkspaces(db, projectId, rows, existing).value, projectId, rows[k])
    decreases |rows|
  {
    if rows[0].id in existing {
      WorkspaceIn(db, projectId, rows[1..], existing, k - 1);
    } else {
      var db1 := InsertWorkspaceRow(db, rows[0].(projectId := projectId)).value;
      if k > 0 {
        WorkspaceIn(db1, projectId, rows[1..], existing, k - 1);
      } else {
        WorkspacesExtend(db1, projectId, rows[1..], existing);
      }
    }
  }

  ghost predicate ImportWritten(after: Database, p: ProjectImport, existing: set<Id>) {
    && p.source.id in after.projects && after.projects[p.source.id] == ProjectRow(p)
    && forall j :: 0 <= j < |p.workspaces| && p.workspaces[j].id !in existing ==>
      WorkspaceWritten(after, p.source.id, p.workspaces[j])
  }

  lemma FirstImportWritten(db: Database, p: ProjectImport, existing: set<Id>)
    requires InsertProjectRow(db, ProjectRow(p)).Ok?
    requires ApplyWorkspaces(InsertProjectRow(db, ProjectRow(p)).value, p.source.id, p.workspaces, existing).Ok?
    ensures var db1 := InsertProjectRow(db, ProjectRow(p)).value;
      ImportWritten(ApplyWorkspaces(db1, p.source.id, p.workspaces, existing).value, p, existing)
  {
    var db1 := InsertProjectRow(db, ProjectRow(p)).value;
    WorkspacesFrame(db1, p.source.id, p.workspaces, existing);
    forall j | 0 <= j < |p.workspaces| && p.workspaces[j].id !in existing
      ensures WorkspaceWritten(ApplyWorkspaces(db1, p.source.id, p.workspaces, existing).value, p.source.id,
        p.workspaces[j])
    {
      WorkspaceIn(db1, p.source.id, p.workspaces, existing, j);
    }
  }

  lemma ImportStays(db: Database, after: Database, p: ProjectImport, existing: set<Id>)
    requires ImportWritten(db, p, existing) && Extends(db, after)
    ensures ImportWritten(after, p, existing)
  {
    forall j | 0 <= j < |p.workspaces| && p.workspaces[j].id !in existing
      ensures WorkspaceWritten(after, p.source.id, p.workspaces[j])
    {
      assert WorkspaceWritten(db, p.source.id, p.workspaces[j]);
    }
  }

  lemma {:induction false} ImportIn(db: Database, imports: seq<ProjectImport>, existing: set<Id>, k: nat)
    requires ApplyProjects(db, imports, existing).Ok? && k < |imports|
    ensures ImportWritten(ApplyProjects(db, imports, existing).value, imports[k], existing)
    decreases |imports|
  {
    var p := imports[0];
    var db2 := ApplyWorkspaces(InsertProjectRow(db, ProjectRow(p)).value, p.source.id, p.workspaces, existing).value;
    if k > 0 {
      ImportIn(db2, imports[1..], existing, k - 1);
    } else {
      FirstImportWritten(db, p, existing);
      ProjectsExtend(db2, imports[1..], existing);
      ImportStays(db2, ApplyProjects(db2, imports[1..], existing).value, p, existing);
    }
  }

  lemma {:induction false} NewImportListed(db: Database, imports: seq<ProjectImport>, p: ProjectImport)
    requires p in imports && p.source.id !in db.projects
    ensures p in NewImports(db, imports)
  {
    if imports[0] != p { NewImportListed(db, imports[1..], p); }
  }

  /* ---- the transaction ---- */

  /** Every planned row that the target lacked and that could go in is there as planned. */
  ghost predicate RowsWritten(target: Database, after: Database, plan: MergePlan, bodies: set<string>) {
    && (forall p :: p in plan.projectImports && p.source.id !in target.projects ==>
      ImportWritten(after, p, target.workspaces.Keys))
    && (forall k :: 0 <= k < |plan.commentPlans| && CommentGoesIn(after, plan.commentPlans[k], target.comments.Keys) ==>
          var id := plan.commentPlans[k].source.id;
          id in after.comments && after.comments[id] == CommentRow(plan.commentPlans[k]))
    && (forall k ::
      0 <= k < |plan.attachmentPlans|
      && AttachmentGoesIn(after, plan.attachmentPlans[k], target.attachments.Keys, bodies) ==>
          AttachmentWritten(after, plan.attachmentPlans[k]))
  }

  lemma HistoryWritten(db: Database, plan: MergePlan, bodies: set<string>, after: Database)
    requires ApplyHistory(db, plan, bodies) == Ok(after)
    ensures after.issues == db.issues
    ensures forall k :: 0 <= k < |plan.commentPlans| && CommentGoesIn(after, plan.commentPlans[k], db.comments.Keys) ==>
      var id := plan.commentPlans[k].source.id;
      id in after.comments && after.comments[id] == CommentRow(plan.commentPlans[k])
    ensures forall k ::
      0 <= k < |plan.attachmentPlans|
      && AttachmentGoesIn(after, plan.attachmentPlans[k], db.attachments.Keys, bodies) ==>
      AttachmentWritten(after, plan.attachmentPlans[k])
  {
    var db1 := ApplyComments(db, plan.commentPlans, db.comments.Keys).value;
    var db2 := ApplyDocuments(db1, plan.documentPlans).value;
    CommentsFrame(db, plan.commentPlans, db.comments.Keys);
    DocumentsFrame(db1, plan.documentPlans);
    AttachmentsFrame(db2, plan.attachmentPlans, db2.attachments.Keys, bodies);
    forall k | 0 <= k < |plan.commentPlans| && CommentGoesIn(after, plan.commentPlans[k], db.comments.Keys)
      ensures var id := plan.commentPlans[k].source.id;
        id in after.comments && after.comments[id] == CommentRow(plan.commentPlans[k])
    {
      CommentWritten(db, plan.commentPlans, db.comments.Keys, k);
    }
    forall k | 0 <= k < |plan.attachmentPlans|
               && AttachmentGoesIn(after, plan.attachmentPlans[k], db.attachments.Keys, bodies)
      ensures AttachmentWritten(after, plan.attachmentPlans[k])
    {
      AttachmentIn(db2, plan.attachmentPlans, db2.attachments.Keys, bodies, k);
    }
  }

  lemma {:induction false} AttachmentsFrame(db: Database, plans: seq<AttachmentPlan>, existing: set<Id>,
        bodies: set<string>)
    requires ApplyAttachments(db, plans, existing, bodies).Ok?
    ensures var after := ApplyAttachments(db, plans, existing, bodies).value;
      after == db.(assets := after.assets, attachments := after.attachments)
    decreases |plans|
  {
    if plans != [] {
      var p := plans[0];
      if !AttachmentGoesIn(db, p, existing, bodies) {
        AttachmentsFrame(db, plans[1..], existing, bodies);
      } else {
        var db1 := InsertAssetRow(db, p.source.assetId, Asset(p.source.objectKey, p.targetCreatedByAgentId)).value;
        var db2 := InsertAttachmentRow(db1, p.source.id,
          AttachmentRow(p.source.issueId, p.source.assetId, p.targetIssueCommentId)).value;
        AttachmentsFrame(db2, plans[1..], existing, bodies);
      }
    }
  }

  lemma ImportsWritten(target: Database, plan: MergePlan, db1: Database, after: Database)
    requires ApplyProjects(target, NewImports(target, plan.projectImports), target.workspaces.Keys) == Ok(db1)
    requires Extends(db1, after)
    ensures forall p :: p in plan.projectImports && p.source.id !in target.projects ==>
      ImportWritten(after, p, target.workspaces.Keys)
  {
    var imports := NewImports(target, plan.projectImports);
    forall p | p in plan.projectImports && p.source.id !in target.projects
      ensures ImportWritten(after, p, target.workspaces.Keys)
    {
      NewImportListed(target, plan.projectImports, p);
      var k :| 0 <= k < |imports| && imports[k] == p;
      ImportIn(target, imports, target.workspaces.Keys, k);
      ImportStays(db1, after, p, target.workspaces.Keys);
    }
  }

  /** A transaction that commits has written every row its plan describes, unless the target had the row,
      lacked its issue, or no source could serve its body. */
  lemma RowsAsPlanned(target: Database, plan: MergePlan, bodies: set<string>, after: Database)
    requires Apply(target, plan, bodies) == Ok(after)
    ensures RowsWritten(target, after, plan, bodies)
  {
    var imports := NewImports(target, plan.projectImports);
    var db1 := ApplyProjects(target, imports, target.workspaces.Keys).value;
    var db2 := ApplyIssuePhase(db1, plan.issuePlans).value;
    ProjectsFrame(target, imports, target.workspaces.Keys);
    PhaseFrame(db1, plan.issuePlans);
    HistoryWritten(db2, plan, bodies, after);
    IssuePhaseExtends(db1, plan.issuePlans);
    HistoryExtends(db2, plan, bodies);
    ExtendsTrans(db1, db2, after);
    ImportsWritten(target, plan, db1, after);
  }

  lemma PhaseFrame(db: Database, plans: seq<IssuePlan>)
    requires ApplyIssuePhase(db, plans).Ok?
    ensures var after := ApplyIssuePhase(db, plans).value;
      after == db.(issueCounter := after.issueCounter, issues := after.issues)
  {
    var inserts := IssueInserts(db, plans);
    IssuesFrame(db.(issueCounter := db.issueCounter + |inserts|), inserts, db.issueCounter + 1);
  }
}
