/** The rows a merge writes, column by column. */
module MergeFilled {
  import opened Basics
  import opened MergeModel
  import opened MergePlanner
  import opened MergeApply
  import C = MergeContents
  import D = MergeDocuments
  import F = MergeFinal
  import R = MergeRows
  import T = MergeTheorems

  /* ---- what a row must hold ---- */

  ghost predicate ProjectFilled(row: Project, p: ProjectImport) {
    && row.id == p.source.id && row.name == p.source.name
    && row.goalId == p.targetGoalId && row.leadAgentId == p.targetLeadAgentId
  }

  ghost predicate WorkspaceFilled(row: Workspace, w: Workspace, projectId: Id) {
    row.id == w.id && row.projectId == projectId && row.isPrimary == w.isPrimary && row.createdAt == w.createdAt
  }

  ghost predicate IssueFilled(row: Issue, p: IssuePlan, number: int)
    requires p.InsertIssue?
  {
    && row.id == p.source.id && row.parentId == p.source.parentId && row.createdAt == p.source.createdAt
    && row.title == p.source.title && row.description == p.source.description
    && row.priority == p.source.priority && row.assigneeUserId == p.source.assigneeUserId
    && row.status == p.targetStatus && row.projectId == p.targetProjectId
    && row.projectWorkspaceId == p.targetProjectWorkspaceId && row.goalId == p.targetGoalId
    && row.assigneeAgentId == p.targetAssigneeAgentId && row.createdByAgentId == p.targetCreatedByAgentId
    && row.issueNumber == Some(number)
  }

  ghost predicate CommentFilled(row: Comment, p: CommentPlan)
    requires p.InsertComment?
  {
    && row.id == p.source.id && row.issueId == p.source.issueId && row.body == p.source.body
    && row.createdAt == p.source.createdAt && row.authorAgentId == p.targetAuthorAgentId
  }

  /** What an insert and an update of a document have in common. */
  ghost predicate DocumentFilled(row: Document, doc: Document, write: DocumentWrite) {
    && row.title == doc.title && row.format == doc.format && row.latestBody == doc.latestBody
    && row.updatedAt == doc.updatedAt && row.updatedByUserId == doc.updatedByUserId
    && row.updatedByAgentId == write.targetUpdatedByAgentId
    && row.latestRevisionId == write.latestRevisionId && row.latestRevisionNumber == write.latestRevisionNumber
  }

  /** A new document is created as the source says; one the target has keeps its creation. */
  ghost predicate DocumentCreated(row: Document, doc: Document, write: DocumentWrite, before: Option<Document>) {
    match before
    case None => row.createdAt == doc.createdAt && row.createdByAgentId == write.targetCreatedByAgentId
    case Some(was) => row.createdAt == was.createdAt && row.createdByAgentId == was.createdByAgentId
  }

  /** The link is moved where the source has it; one the target has keeps its id and creation. */
  ghost predicate LinkFilled(row: Link, link: Link, before: Option<Link>) {
    && row.issueId == link.issueId && row.key == link.key && row.updatedAt == link.updatedAt
    && match before
       case None => row.id == link.id && row.createdAt == link.createdAt
       case Some(was) => row.id == was.id && row.createdAt == was.createdAt
  }

  ghost predicate RevisionFilled(row: Revision, p: RevisionPlan, documentId: Id) {
    && row.id == p.source.id && row.documentId == documentId && row.body == p.source.body
    && row.createdAt == p.source.createdAt && row.createdByAgentId == p.targetCreatedByAgentId
    && row.revisionNumber == p.targetRevisionNumber
  }

  ghost predicate AttachmentFilled(row: AttachmentRow, asset: Asset, p: AttachmentPlan)
    requires p.InsertAttachment?
  {
    && row.issueId == p.source.issueId && row.assetId == p.source.assetId
    && row.issueCommentId == p.targetIssueCommentId
    && asset.objectKey == p.source.objectKey && asset.createdByAgentId == p.targetCreatedByAgentId
  }

  /* ---- what each entry leaves in the target ---- */

  function Before<K, V>(m: map<K, V>, k: K): Option<V> {
    if k in m then Some(m[k]) else None
  }

  ghost predicate ImportLeaves(target: Database, after: Database, p: ProjectImport) {
    && p.source.id in after.projects && ProjectFilled(after.projects[p.source.id], p)
    && forall j :: 0 <= j < |p.workspaces| && p.workspaces[j].id !in target.workspaces ==>
         p.workspaces[j].id in after.workspaces
         && WorkspaceFilled(after.workspaces[p.workspaces[j].id], p.workspaces[j], p.source.id)
  }

  ghost predicate IssueLeaves(after: Database, p: IssuePlan)
    requires p.InsertIssue?
  {
    p.source.id in after.issues && IssueFilled(after.issues[p.source.id], p, p.previewIssueNumber)
  }

  ghost predicate CommentLeaves(after: Database, p: CommentPlan)
    requires p.InsertComment?
  {
    p.source.id in after.comments && CommentFilled(after.comments[p.source.id], p)
  }

  /** A document's revisions afterwards are the earlier ones followed by one for each planned. */
  ghost predicate RevisionsAppended(now: seq<Revision>, earlier: seq<Revision>, plans: seq<RevisionPlan>, id: Id) {
    && |now| == |earlier| + |plans| && now[..|earlier|] == earlier
    && forall k :: 0 <= k < |plans| ==> RevisionFilled(now[|earlier| + k], plans[k], id)
  }

  ghost predicate DocumentLeaves(target: Database, after: Database, p: DocumentPlan)
    requires p.Writes()
  {
    var id := p.source.documentId;
    && id in after.documents && DocumentFilled(after.documents[id], p.source.doc, p.write)
    && DocumentCreated(after.documents[id], p.source.doc, p.write, Before(target.documents, id))
    && id in after.links && LinkFilled(after.links[id], p.source.link, Before(target.links, id))
    && RevisionsAppended(RevisionsOf(after.revisions, id), RevisionsOf(target.revisions, id),
                         p.write.revisionsToInsert, id)
  }

  ghost predicate AttachmentLeaves(after: Database, p: AttachmentPlan)
    requires p.InsertAttachment?
  {
    && p.source.id in after.attachments && p.source.assetId in after.assets
    && AttachmentFilled(after.attachments[p.source.id], after.assets[p.source.assetId], p)
  }

  ghost predicate Filled(target: Database, after: Database, plan: MergePlan, bodies: set<string>) {
    && (forall p :: p in plan.projectImports ==> ImportLeaves(target, after, p))
    && (forall p :: p in plan.issuePlans && p.InsertIssue? ==> IssueLeaves(after, p))
    && (forall p :: p in plan.commentPlans && p.InsertComment? ==> CommentLeaves(after, p))
    && (forall p :: p in plan.documentPlans && p.Writes() ==> DocumentLeaves(target, after, p))
    && (forall p :: p in plan.attachmentPlans && p.InsertAttachment? && p.source.objectKey in bodies ==>
          AttachmentLeaves(after, p))
  }

  /* ---- the proof ---- */

  lemma IssueRowFills(p: IssuePlan, number: int)
    requires p.InsertIssue?
    ensures IssueFilled(IssueRow(p, number), p, number)
  {
  }

  lemma ImportFills(target: Database, after: Database, p: ProjectImport)
    requires C.ImportWritten(after, p, target.workspaces.Keys)
    ensures ImportLeaves(target, after, p)
  {
    forall j | 0 <= j < |p.workspaces| && p.workspaces[j].id !in target.workspaces
      ensures p.workspaces[j].id in after.workspaces
      ensures WorkspaceFilled(after.workspaces[p.workspaces[j].id], p.workspaces[j], p.source.id)
    {
      assert C.WorkspaceWritten(after, p.source.id, p.workspaces[j]);
    }
  }

  lemma RevisionRowsFill(earlier: seq<Revision>, id: Id, plans: seq<RevisionPlan>)
    ensures RevisionsAppended(earlier + D.RevisionRows(id, plans), earlier, plans, id)
  {
    var rows := D.RevisionRows(id, plans);
    forall k | 0 <= k < |plans| ensures RevisionFilled((earlier + rows)[|earlier| + k], plans[k], id) {
      assert (earlier + rows)[|earlier| + k] == rows[k] == RevisionRow(id, plans[k]);
    }
  }

  lemma DocumentRowFills(target: Database, d: IssueDocument, write: DocumentWrite)
    ensures DocumentFilled(D.FinalDocument(target, d, write), d.doc, write)
    ensures DocumentCreated(D.FinalDocument(target, d, write), d.doc, write, Before(target.documents, d.documentId))
  {
  }

  lemma LinkRowFills(target: Database, d: IssueDocument)
    ensures LinkFilled(D.FinalLink(target, d), d.link, Before(target.links, d.documentId))
  {
  }

  lemma DocumentFills(target: Database, after: Database, p: DocumentPlan)
    requires p.Writes() && D.DocumentWritten(target, after, p.source, p.write)
    ensures DocumentLeaves(target, after, p)
  {
    DocumentRowFills(target, p.source, p.write);
    LinkRowFills(target, p.source);
    var id := p.source.documentId;
    RevisionRowsFill(RevisionsOf(target.revisions, id), id, p.write.revisionsToInsert);
  }

  lemma ImportsNew(source: Source, target: Database, request: Request, p: ProjectImport)
    requires p in ProjectImportsFor(Dedup(request.importProjectIds), source, target)
    ensures p.source.id !in target.projects
  {
    var ids := Dedup(request.importProjectIds);
    var imports := ProjectImportsFor(ids, source, target);
    var k :| 0 <= k < |imports| && imports[k] == p;
    R.ImportRequested(ids, source, target, k);
  }

  /** The planner imports a comment or an attachment only when the target lacks it and its issue is available. */
  lemma InsertsCanGoIn(plan: MergePlan, source: Source, target: Database, request: Request, order: seq<Issue>)
    requires IsPlan(plan, source, target, request, order)
    ensures forall p :: p in plan.commentPlans && p.InsertComment? ==>
      p.source.id !in target.comments && p.source.issueId in AvailableIssues(target, plan.issuePlans)
    ensures forall p :: p in plan.attachmentPlans && p.InsertAttachment? ==>
      p.source.id !in target.attachments && p.source.issueId in AvailableIssues(target, plan.issuePlans)
  {
  }

  lemma CommentsFill(target: Database, after: Database, plan: MergePlan, bodies: set<string>)
    requires C.RowsWritten(target, after, plan, bodies)
    requires forall p :: p in plan.commentPlans && p.InsertComment? ==>
      p.source.id !in target.comments && p.source.issueId in after.issues
    ensures forall p :: p in plan.commentPlans && p.InsertComment? ==> CommentLeaves(after, p)
  {
    forall p | p in plan.commentPlans && p.InsertComment? ensures CommentLeaves(after, p) {
      var k :| 0 <= k < |plan.commentPlans| && plan.commentPlans[k] == p;
      assert C.CommentGoesIn(after, plan.commentPlans[k], target.comments.Keys);
    }
  }

  lemma AttachmentsFill(target: Database, after: Database, plan: MergePlan, bodies: set<string>)
    requires C.RowsWritten(target, after, plan, bodies)
    requires forall p :: p in plan.attachmentPlans && p.InsertAttachment? ==>
      p.source.id !in target.attachments && p.source.issueId in after.issues
    ensures forall p :: p in plan.attachmentPlans && p.InsertAttachment? && p.source.objectKey in bodies ==>
      AttachmentLeaves(after, p)
  {
    forall p | p in plan.attachmentPlans && p.InsertAttachment? && p.source.objectKey in bodies
      ensures AttachmentLeaves(after, p)
    {
      var k :| 0 <= k < |plan.attachmentPlans| && plan.attachmentPlans[k] == p;
      assert C.AttachmentGoesIn(after, plan.attachmentPlans[k], target.attachments.Keys, bodies);
      assert C.AttachmentWritten(after, plan.attachmentPlans[k]);
    }
  }

  lemma DocumentsFill(target: Database, after: Database, plan: MergePlan)
    requires D.DocumentsSettled(target, after, plan.documentPlans)
    ensures forall p :: p in plan.documentPlans && p.Writes() ==> DocumentLeaves(target, after, p)
  {
    forall p | p in plan.documentPlans && p.Writes() ensures DocumentLeaves(target, after, p) {
      var k :| 0 <= k < |plan.documentPlans| && plan.documentPlans[k] == p;
      DocumentFills(target, after, p);
    }
  }

  lemma IssuesFill(source: Source, target: Database, request: Request, order: seq<Issue>, plan: MergePlan,
        bodies: set<string>, after: Database)
    requires T.Mergeable(source, target) && T.Planned(plan, source, target, request, order)
    requires Apply(target, plan, bodies) == Ok(after)
    ensures forall p :: p in plan.issuePlans && p.InsertIssue? ==> IssueLeaves(after, p)
  {
    forall p | p in plan.issuePlans && p.InsertIssue? ensures IssueLeaves(after, p) {
      F.PreviewsComeTrue(source, target, request, order, plan, bodies, after, p);
      IssueRowFills(p, p.previewIssueNumber);
    }
  }

  /** A merge that succeeds leaves, for every entry of the plan that writes, rows that hold in each column what
      the entry and its source row say. */
  lemma MergeFills(source: Source, target: Database, request: Request, order: seq<Issue>, plan: MergePlan,
        bodies: set<string>, after: Database)
    requires T.Mergeable(source, target) && T.Planned(plan, source, target, request, order)
    requires Apply(target, plan, bodies) == Ok(after)
    ensures Filled(target, after, plan, bodies)
  {
    C.RowsAsPlanned(target, plan, bodies, after);
    F.MergeOutcome(source, target, request, order, plan, bodies, after);
    InsertsCanGoIn(plan, source, target, request, order);
    IssuesFill(source, target, request, order, plan, bodies, after);
    CommentsFill(target, after, plan, bodies);
    DocumentsFill(target, after, plan);
    AttachmentsFill(target, after, plan, bodies);
    forall p | p in plan.projectImports ensures ImportLeaves(target, after, p) {
      ImportsNew(source, target, request, p);
      ImportFills(target, after, p);
    }
  }
}
