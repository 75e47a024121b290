/** A merge keeps the target's references alive and its unique columns unique, whatever the plan. */
module MergeIntegrity {
  import opened Basics
  import opened MergeModel
  import opened MergeApply

  /* ---- integrity, table by table ---- */

  ghost predicate Alive(ref: Option<Id>, keys: set<Id>) {
    forall i :: ref == Some(i) ==> i in keys
  }

  ghost predicate ProjectsSound(db: Database) {
    && (forall p :: p in db.projects ==>
          && db.projects[p].id == p && Alive(db.projects[p].goalId, db.goals)
          && Alive(db.projects[p].leadAgentId, db.agents))
    && forall w :: w in db.workspaces ==> db.workspaces[w].id == w && db.workspaces[w].projectId in db.projects
  }

  ghost predicate IssueSound(db: Database, i: Id)
    requires i in db.issues
  {
    var row := db.issues[i];
    && row.id == i && Alive(row.parentId, db.issues.Keys) && Alive(row.projectId, db.projects.Keys)
    && Alive(row.projectWorkspaceId, db.workspaces.Keys) && Alive(row.goalId, db.goals)
    && Alive(row.assigneeAgentId, db.agents) && Alive(row.createdByAgentId, db.agents)
  }

  ghost predicate IssuesSound(db: Database) {
    && (forall i :: i in db.issues ==> IssueSound(db, i))
    && forall i, j :: i in db.issues && j in db.issues && i != j && db.issues[i].issueNumber.Some? ==>
         db.issues[i].issueNumber != db.issues[j].issueNumber
  }

  ghost predicate CommentsSound(db: Database) {
    forall c :: c in db.comments ==>
      && db.comments[c].id == c && db.comments[c].issueId in db.issues
      && Alive(db.comments[c].authorAgentId, db.agents)
  }

  ghost predicate DocumentsSound(db: Database) {
    && (forall d :: d in db.documents ==>
          Alive(db.documents[d].createdByAgentId, db.agents) && Alive(db.documents[d].updatedByAgentId, db.agents))
    && (forall d :: d in db.links ==> d in db.documents && db.links[d].issueId in db.issues)
    && (forall d, e :: d in db.links && e in db.links && d != e ==> db.links[d].id != db.links[e].id)
    && forall d, e :: d in db.links && e in db.links && d != e ==>
         db.links[d].issueId != db.links[e].issueId || db.links[d].key != db.links[e].key
  }

  ghost predicate RevisionsSound(db: Database) {
    && (forall k :: 0 <= k < |db.revisions| ==>
          db.revisions[k].documentId in db.documents && Alive(db.revisions[k].createdByAgentId, db.agents))
    && (forall j, k :: 0 <= j < k < |db.revisions| ==> db.revisions[j].id != db.revisions[k].id)
    && forall j, k :: 0 <= j < k < |db.revisions| && db.revisions[j].documentId == db.revisions[k].documentId ==>
         db.revisions[j].revisionNumber != db.revisions[k].revisionNumber
  }

  ghost predicate AttachmentsSound(db: Database) {
    && (forall a :: a in db.assets ==> Alive(db.assets[a].createdByAgentId, db.agents))
    && (forall a, b :: a in db.assets && b in db.assets && a != b ==> db.assets[a].objectKey != db.assets[b].objectKey)
    && (forall a :: a in db.attachments ==>
          && db.attachments[a].issueId in db.issues && db.attachments[a].assetId in db.assets
          && Alive(db.attachments[a].issueCommentId, db.comments.Keys))
    && forall a, b :: a in db.attachments && b in db.attachments && a != b ==>
         db.attachments[a].assetId != db.attachments[b].assetId
  }

  ghost predicate Integral(db: Database) {
    && ProjectsSound(db) && IssuesSound(db) && CommentsSound(db)
    && DocumentsSound(db) && RevisionsSound(db) && AttachmentsSound(db)
  }

  /* ---- tables a statement leaves alone ---- */

  /** No key is gone. */
  ghost predicate KeysGrow(db: Database, after: Database) {
    && db.agents == after.agents && db.goals == after.goals
    && db.projects.Keys <= after.projects.Keys && db.workspaces.Keys <= after.workspaces.Keys
    && db.issues.Keys <= after.issues.Keys && db.comments.Keys <= after.comments.Keys
    && db.documents.Keys <= after.documents.Keys && db.assets.Keys <= after.assets.Keys
  }

  lemma IssuesStay(db: Database, after: Database)
    requires IssuesSound(db) && KeysGrow(db, after) && after.issues == db.issues
    ensures IssuesSound(after)
  {
    forall i | i in after.issues ensures IssueSound(after, i) { assert IssueSound(db, i); }
  }

  lemma CommentsStay(db: Database, after: Database)
    requires CommentsSound(db) && KeysGrow(db, after) && after.comments == db.comments
    ensures CommentsSound(after)
  {
  }

  lemma DocumentsStay(db: Database, after: Database)
    requires DocumentsSound(db) && KeysGrow(db, after) && after.documents == db.documents && after.links == db.links
    ensures DocumentsSound(after)
  {
  }

  lemma RevisionsStay(db: Database, after: Database)
    requires RevisionsSound(db) && KeysGrow(db, after) && after.revisions == db.revisions
    ensures RevisionsSound(after)
  {
  }

  lemma AttachmentsStay(db: Database, after: Database)
    requires AttachmentsSound(db) && KeysGrow(db, after)
    requires after.assets == db.assets && after.attachments == db.attachments
    ensures AttachmentsSound(after)
  {
  }

  /** Tables a statement does not touch stay sound when no key is lost. */
  lemma Untouched(db: Database, after: Database)
    requires Integral(db) && KeysGrow(db, after)
    ensures after.projects == db.projects && after.workspaces == db.workspaces ==> ProjectsSound(after)
    ensures after.issues == db.issues ==> IssuesSound(after)
    ensures after.comments == db.comments ==> CommentsSound(after)
    ensures after.documents == db.documents && after.links == db.links ==> DocumentsSound(after)
    ensures after.revisions == db.revisions ==> RevisionsSound(after)
    ensures after.assets == db.assets && after.attachments == db.attachments ==> AttachmentsSound(after)
  {
    if after.issues == db.issues { IssuesStay(db, after); }
    if after.comments == db.comments { CommentsStay(db, after); }
    if after.documents == db.documents && after.links == db.links { DocumentsStay(db, after); }
    if after.revisions == db.revisions { RevisionsStay(db, after); }
    if after.assets == db.assets && after.attachments == db.attachments { AttachmentsStay(db, after); }
  }

  /* ---- single rows ---- */

  lemma AliveIs(ref: Option<Id>, keys: set<Id>)
    ensures RefOk(ref, keys) <==> Alive(ref, keys)
  {
  }

  lemma ProjectKept(db: Database, row: Project)
    requires Integral(db) && InsertProjectRow(db, row).Ok?
    ensures Integral(InsertProjectRow(db, row).value)
  {
    AliveIs(row.goalId, db.goals);
    AliveIs(row.leadAgentId, db.agents);
    assert ProjectsSound(InsertProjectRow(db, row).value);
    Untouched(db, InsertProjectRow(db, row).value);
  }

  lemma WorkspaceKept(db: Database, row: Workspace)
    requires Integral(db) && InsertWorkspaceRow(db, row).Ok?
    ensures Integral(InsertWorkspaceRow(db, row).value)
  {
    assert ProjectsSound(InsertWorkspaceRow(db, row).value);
    Untouched(db, InsertWorkspaceRow(db, row).value);
  }

  lemma IssueRowSound(db: Database, row: Issue)
    requires InsertIssueRow(db, row).Ok?
    ensures IssueSound(InsertIssueRow(db, row).value, row.id)
  {
    AliveIs(row.parentId, db.issues.Keys);
    AliveIs(row.projectId, db.projects.Keys);
    AliveIs(row.projectWorkspaceId, db.workspaces.Keys);
    AliveIs(row.goalId, db.goals);
    AliveIs(row.assigneeAgentId, db.agents);
    AliveIs(row.createdByAgentId, db.agents);
  }

  lemma IssuesGrow(db: Database, row: Issue)
    requires IssuesSound(db) && InsertIssueRow(db, row).Ok?
    ensures IssuesSound(InsertIssueRow(db, row).value)
  {
    var after := InsertIssueRow(db, row).value;
    IssueRowSound(db, row);
    forall i | i in after.issues ensures IssueSound(after, i) {
      if i != row.id { assert IssueSound(db, i); }
    }
  }

  lemma IssueKept(db: Database, row: Issue)
    requires Integral(db) && InsertIssueRow(db, row).Ok?
    ensures Integral(InsertIssueRow(db, row).value)
  {
    IssuesGrow(db, row);
    Untouched(db, InsertIssueRow(db, row).value);
  }

  lemma CommentsGrow(db: Database, row: Comment)
    requires CommentsSound(db) && InsertCommentRow(db, row).Ok?
    ensures CommentsSound(InsertCommentRow(db, row).value)
  {
    AliveIs(row.authorAgentId, db.agents);
  }

  lemma CommentKept(db: Database, row: Comment)
    requires Integral(db) && InsertCommentRow(db, row).Ok?
    ensures Integral(InsertCommentRow(db, row).value)
  {
    CommentsGrow(db, row);
    Untouched(db, InsertCommentRow(db, row).value);
  }

  /** Only documents and links differ, and no document is gone. */
  ghost predicate DocumentsOnly(db: Database, after: Database) {
    after == db.(documents := after.documents, links := after.links) && db.documents.Keys <= after.documents.Keys
  }

  lemma OthersKept(db: Database, after: Database)
    requires Integral(db) && DocumentsOnly(db, after) && DocumentsSound(after)
    ensures Integral(after)
  {
    Untouched(db, after);
  }

  lemma DocumentKept(db: Database, id: Id, row: Document)
    requires Integral(db)
    ensures InsertDocumentRow(db, id, row).Ok? ==> Integral(InsertDocumentRow(db, id, row).value)
    ensures id in db.documents && UpdateDocumentRow(db, id, row).Ok? ==> Integral(UpdateDocumentRow(db, id, row).value)
  {
    AliveIs(row.createdByAgentId, db.agents);
    AliveIs(row.updatedByAgentId, db.agents);
    var after := db.(documents := db.documents[id := row]);
    if DocumentRefsOk(db, row) {
      assert DocumentsSound(after);
      OthersKept(db, after);
    }
  }

  lemma LinksGrow(db: Database, id: Id, row: Link)
    requires DocumentsSound(db) && id in db.documents && row.issueId in db.issues
    requires SlotFree(db, id, row.issueId, row.key)
    requires forall d :: d in db.links && d != id ==> db.links[d].id != row.id
    ensures DocumentsSound(db.(links := db.links[id := row]))
  {
  }

  lemma LinkInsertKept(db: Database, id: Id, row: Link)
    requires Integral(db) && InsertLinkRow(db, id, row).Ok?
    ensures Integral(InsertLinkRow(db, id, row).value)
  {
    LinksGrow(db, id, row);
    OthersKept(db, InsertLinkRow(db, id, row).value);
  }

  lemma LinkUpdateKept(db: Database, id: Id, row: Link)
    requires Integral(db) && id in db.links && db.links[id].id == row.id && UpdateLinkRow(db, id, row).Ok?
    ensures Integral(UpdateLinkRow(db, id, row).value)
  {
    LinksGrow(db, id, row);
    OthersKept(db, UpdateLinkRow(db, id, row).value);
  }

  lemma RevisionsGrow(db: Database, row: Revision)
    requires RevisionsSound(db) && InsertRevisionRow(db, row).Ok?
    ensures RevisionsSound(InsertRevisionRow(db, row).value)
  {
    AliveIs(row.createdByAgentId, db.agents);
  }

  lemma RevisionKept(db: Database, row: Revision)
    requires Integral(db) && InsertRevisionRow(db, row).Ok?
    ensures Integral(InsertRevisionRow(db, row).value)
  {
    RevisionsGrow(db, row);
    Untouched(db, InsertRevisionRow(db, row).value);
  }

  lemma AssetsGrow(db: Database, id: Id, row: Asset)
    requires AttachmentsSound(db) && InsertAssetRow(db, id, row).Ok?
    ensures AttachmentsSound(InsertAssetRow(db, id, row).value)
  {
    AliveIs(row.createdByAgentId, db.agents);
  }

  lemma AssetKept(db: Database, id: Id, row: Asset)
    requires Integral(db) && InsertAssetRow(db, id, row).Ok?
    ensures Integral(InsertAssetRow(db, id, row).value)
  {
    AssetsGrow(db, id, row);
    Untouched(db, InsertAssetRow(db, id, row).value);
  }

  lemma AttachmentsGrow(db: Database, id: Id, row: AttachmentRow)
    requires AttachmentsSound(db) && InsertAttachmentRow(db, id, row).Ok?
    ensures AttachmentsSound(InsertAttachmentRow(db, id, row).value)
  {
    AliveIs(row.issueCommentId, db.comments.Keys);
  }

  lemma AttachmentKept(db: Database, id: Id, row: AttachmentRow)
    requires Integral(db) && InsertAttachmentRow(db, id, row).Ok?
    ensures Integral(InsertAttachmentRow(db, id, row).value)
  {
    AttachmentsGrow(db, id, row);
    Untouched(db, InsertAttachmentRow(db, id, row).value);
  }

  /* ---- phases ---- */

  lemma {:induction false} WorkspacesKept(db: Database, projectId: Id, rows: seq<Workspace>, existing: set<Id>)
    requires Integral(db) && ApplyWorkspaces(db, projectId, rows, existing).Ok?
    ensures Integral(ApplyWorkspaces(db, projectId, rows, existing).value)
    decreases |rows|
  {
    if rows != [] {
      if rows[0].id in existing {
        WorkspacesKept(db, projectId, rows[1..], existing);
      } else {
        var row := rows[0].(projectId := projectId);
        WorkspaceKept(db, row);
        WorkspacesKept(InsertWorkspaceRow(db, row).value, projectId, rows[1..], existing);
      }
    }
  }

  lemma {:induction false} ProjectsKept(db: Database, imports: seq<ProjectImport>, existing: set<Id>)
    requires Integral(db) && ApplyProjects(db, imports, existing).Ok?
    ensures Integral(ApplyProjects(db, imports, existing).value)
    decreases |imports|
  {
    if imports != [] {
      var p := imports[0];
      ProjectKept(db, ProjectRow(p));
      var db1 := InsertProjectRow(db, ProjectRow(p)).value;
      WorkspacesKept(db1, p.source.id, p.workspaces, existing);
      ProjectsKept(ApplyWorkspaces(db1, p.source.id, p.workspaces, existing).value, imports[1..], existing);
    }
  }

  lemma {:induction false} IssuesKept(db: Database, inserts: seq<IssuePlan>, number: int)
    requires forall k :: 0 <= k < |inserts| ==> inserts[k].InsertIssue?
    requires Integral(db) && ApplyIssues(db, inserts, number).Ok?
    ensures Integral(ApplyIssues(db, inserts, number).value)
    decreases |inserts|
  {
    if inserts != [] {
      IssueKept(db, IssueRow(inserts[0], number));
      IssuesKept(InsertIssueRow(db, IssueRow(inserts[0], number)).value, inserts[1..], number + 1);
    }
  }

  lemma CountedIssuesKept(db: Database, counted: Database, inserts: seq<IssuePlan>, number: int)
    requires forall k :: 0 <= k < |inserts| ==> inserts[k].InsertIssue?
    requires Integral(db) && counted == db.(issueCounter := counted.issueCounter)
    requires ApplyIssues(counted, inserts, number).Ok?
    ensures Integral(ApplyIssues(counted, inserts, number).value)
  {
    Untouched(db, counted);
    IssuesKept(counted, inserts, number);
  }

  lemma IssuePhaseKept(db: Database, plans: seq<IssuePlan>)
    requires Integral(db) && ApplyIssuePhase(db, plans).Ok?
    ensures Integral(ApplyIssuePhase(db, plans).value)
  {
    var inserts := IssueInserts(db, plans);
    CountedIssuesKept(db, db.(issueCounter := db.issueCounter + |inserts|), inserts, db.issueCounter + 1);
  }

  lemma {:induction false} CommentsKept(db: Database, plans: seq<CommentPlan>, existing: set<Id>)
    requires Integral(db) && ApplyComments(db, plans, existing).Ok?
    ensures Integral(ApplyComments(db, plans, existing).value)
    decreases |plans|
  {
    if plans != [] {
      if !plans[0].InsertComment? || plans[0].source.id in existing || plans[0].source.issueId !in db.issues {
        CommentsKept(db, plans[1..], existing);
      } else {
        var row := plans[0].source.(authorAgentId := plans[0].targetAuthorAgentId);
        CommentKept(db, row);
        CommentsKept(InsertCommentRow(db, row).value, plans[1..], existing);
      }
    }
  }

  lemma UpdatedRowsKept(db: Database, d: IssueDocument, row: Document)
    requires Integral(db) && d.documentId in db.documents && d.documentId in db.links
    requires UpdateLinkRow(db, d.documentId, MergedLink(db.links[d.documentId], d.link)).Ok?
    ensures var db1 := UpdateLinkRow(db, d.documentId, MergedLink(db.links[d.documentId], d.link)).value;
      UpdateDocumentRow(db1, d.documentId, row).Ok? ==> Integral(UpdateDocumentRow(db1, d.documentId, row).value)
  {
    LinkUpdateKept(db, d.documentId, MergedLink(db.links[d.documentId], d.link));
    DocumentKept(UpdateLinkRow(db, d.documentId, MergedLink(db.links[d.documentId], d.link)).value, d.documentId, row);
  }

  lemma DocumentRowsKept(db: Database, d: IssueDocument, write: DocumentWrite)
    requires Integral(db) && WriteDocumentRows(db, d, write).Ok?
    ensures Integral(WriteDocumentRows(db, d, write).value)
  {
    var id := d.documentId;
    if id !in db.documents {
      DocumentKept(db, id, NewDocument(d.doc, write));
      LinkInsertKept(InsertDocumentRow(db, id, NewDocument(d.doc, write)).value, id, d.link);
    } else if id !in db.links {
      LinkInsertKept(db, id, d.link);
      DocumentKept(InsertLinkRow(db, id, d.link).value, id, MergedDocument(db.documents[id], d.doc, write));
    } else {
      UpdatedRowsKept(db, d, MergedDocument(db.documents[id], d.doc, write));
    }
  }

  lemma {:induction false} RevisionsKept(db: Database, documentId: Id, plans: seq<RevisionPlan>, existing: set<Id>)
    requires Integral(db) && ApplyRevisions(db, documentId, plans, existing).Ok?
    ensures Integral(ApplyRevisions(db, documentId, plans, existing).value)
    decreases |plans|
  {
    if plans != [] {
      if plans[0].source.id in existing {
        RevisionsKept(db, documentId, plans[1..], existing);
      } else {
        RevisionKept(db, RevisionRow(documentId, plans[0]));
        RevisionsKept(InsertRevisionRow(db, RevisionRow(documentId, plans[0])).value, documentId, plans[1..], existing);
      }
    }
  }

  lemma {:induction false} DocumentsKept(db: Database, plans: seq<DocumentPlan>)
    requires Integral(db) && ApplyDocuments(db, plans).Ok?
    ensures Integral(ApplyDocuments(db, plans).value)
    decreases |plans|
  {
    if plans != [] {
      var d := plans[0].source;
      if !plans[0].Writes() || Skipped(db, d) {
        DocumentsKept(db, plans[1..]);
      } else {
        DocumentRowsKept(db, d, plans[0].write);
        var db1 := WriteDocumentRows(db, d, plans[0].write).value;
        RevisionsKept(db1, d.documentId, plans[0].write.revisionsToInsert, RevisionIds(db1.revisions, d.documentId));
        DocumentsKept(WriteDocument(db, d, plans[0].write).value, plans[1..]);
      }
    }
  }

  lemma {:induction false} AttachmentsKept(db: Database, plans: seq<AttachmentPlan>, existing: set<Id>,
        bodies: set<string>)
    requires Integral(db) && ApplyAttachments(db, plans, existing, bodies).Ok?
    ensures Integral(ApplyAttachments(db, plans, existing, bodies).value)
    decreases |plans|
  {
    if plans != [] {
      var p := plans[0];
      if !p.InsertAttachment? || p.source.id in existing
         || p.source.issueId !in db.issues || p.source.objectKey !in bodies {
        AttachmentsKept(db, plans[1..], existing, bodies);
      } else {
        var asset := Asset(p.source.objectKey, p.targetCreatedByAgentId);
        var row := AttachmentRow(p.source.issueId, p.source.assetId, p.targetIssueCommentId);
        AssetKept(db, p.source.assetId, asset);
        var db1 := InsertAssetRow(db, p.source.assetId, asset).value;
        AttachmentKept(db1, p.source.id, row);
        AttachmentsKept(InsertAttachmentRow(db1, p.source.id, row).value, plans[1..], existing, bodies);
      }
    }
  }

  /** Whatever the plan, even one made for another target, a transaction that commits leaves a target of sound
      references and unique columns as sound as it was. */
  lemma IntegrityKept(db: Database, plan: MergePlan, bodies: set<string>)
    requires Integral(db) && Apply(db, plan, bodies).Ok?
    ensures Integral(Apply(db, plan, bodies).value)
  {
    var imports := NewImports(db, plan.projectImports);
    ProjectsKept(db, imports, db.workspaces.Keys);
    var db1 := ApplyProjects(db, imports, db.workspaces.Keys).value;
    IssuePhaseKept(db1, plan.issuePlans);
    HistoryKept(ApplyIssuePhase(db1, plan.issuePlans).value, plan, bodies);
  }

  lemma HistoryKept(db: Database, plan: MergePlan, bodies: set<string>)
    requires Integral(db) && ApplyHistory(db, plan, bodies).Ok?
    ensures Integral(ApplyHistory(db, plan, bodies).value)
  {
    CommentsKept(db, plan.commentPlans, db.comments.Keys);
    var db1 := ApplyComments(db, plan.commentPlans, db.comments.Keys).value;
    DocumentsKept(db1, plan.documentPlans);
    var db2 := ApplyDocuments(db1, plan.documentPlans).value;
    AttachmentsKept(db2, plan.attachmentPlans, db2.attachments.Keys, bodies);
  }
}
