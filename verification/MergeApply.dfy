/** `applyMergePlan` (cli/src/commands/worktree.ts): one transaction of inserts and updates against the target.
    An insert or update fails when it breaks a primary key, unique index or foreign key of
    packages/db/src/schema, and a failure abandons the transaction. */
module MergeApply {
  import opened Basics
  import opened MergeModel

  /* ---- single-row statements under the schema's constraints ---- */

  predicate RefOk(ref: Option<Id>, keys: set<Id>) {
    ref.Some? ==> ref.value in keys
  }

  function InsertProjectRow(db: Database, row: Project): Result<Database> {
    if row.id in db.projects || !RefOk(row.goalId, db.goals) || !RefOk(row.leadAgentId, db.agents) then Err
    else Ok(db.(projects := db.projects[row.id := row]))
  }

  function InsertWorkspaceRow(db: Database, row: Workspace): Result<Database> {
    if row.id in db.workspaces || row.projectId !in db.projects then Err
    else Ok(db.(workspaces := db.workspaces[row.id := row]))
  }

  predicate NumberFree(db: Database, number: Option<int>) {
    number.Some? ==> forall i | i in db.issues :: db.issues[i].issueNumber != number
  }

  predicate IssueRefsOk(db: Database, row: Issue) {
    && RefOk(row.parentId, db.issues.Keys) && RefOk(row.projectId, db.projects.Keys)
    && RefOk(row.projectWorkspaceId, db.workspaces.Keys) && RefOk(row.goalId, db.goals)
    && RefOk(row.assigneeAgentId, db.agents) && RefOk(row.createdByAgentId, db.agents)
  }

  /** The unique identifier is the company prefix and the issue number. */
  function InsertIssueRow(db: Database, row: Issue): Result<Database> {
    if row.id in db.issues || !IssueRefsOk(db, row) || !NumberFree(db, row.issueNumber) then Err
    else Ok(db.(issues := db.issues[row.id := row]))
  }

  function InsertCommentRow(db: Database, row: Comment): Result<Database> {
    if row.id in db.comments || row.issueId !in db.issues || !RefOk(row.authorAgentId, db.agents) then Err
    else Ok(db.(comments := db.comments[row.id := row]))
  }

  predicate DocumentRefsOk(db: Database, row: Document) {
    RefOk(row.createdByAgentId, db.agents) && RefOk(row.updatedByAgentId, db.agents)
  }

  function InsertDocumentRow(db: Database, id: Id, row: Document): Result<Database> {
    if id in db.documents || !DocumentRefsOk(db, row) then Err
    else Ok(db.(documents := db.documents[id := row]))
  }

  function UpdateDocumentRow(db: Database, id: Id, row: Document): Result<Database>
    requires id in db.documents
  {
    if !DocumentRefsOk(db, row) then Err else Ok(db.(documents := db.documents[id := row]))
  }

  /** No other document holds the (issue, key) slot. */
  predicate SlotFree(db: Database, documentId: Id, issueId: Id, key: string) {
    forall d | d in db.links :: d != documentId ==> !(db.links[d].issueId == issueId && db.links[d].key == key)
  }

  function InsertLinkRow(db: Database, documentId: Id, row: Link): Result<Database> {
    if || documentId in db.links || documentId !in db.documents || row.issueId !in db.issues
       || (exists d | d in db.links :: db.links[d].id == row.id)
       || !SlotFree(db, documentId, row.issueId, row.key) then Err
    else Ok(db.(links := db.links[documentId := row]))
  }

  function UpdateLinkRow(db: Database, documentId: Id, row: Link): Result<Database>
    requires documentId in db.links && db.links[documentId].id == row.id
  {
    if row.issueId !in db.issues || !SlotFree(db, documentId, row.issueId, row.key) then Err
    else Ok(db.(links := db.links[documentId := row]))
  }

  function InsertRevisionRow(db: Database, row: Revision): Result<Database> {
    if || row.documentId !in db.documents || !RefOk(row.createdByAgentId, db.agents)
       || (exists k :: 0 <= k < |db.revisions| && db.revisions[k].id == row.id)
       || (exists k :: 0 <= k < |db.revisions| && db.revisions[k].documentId == row.documentId
                       && db.revisions[k].revisionNumber == row.revisionNumber) then Err
    else Ok(db.(revisions := db.revisions + [row]))
  }

  function InsertAssetRow(db: Database, id: Id, row: Asset): Result<Database> {
    if || id in db.assets || !RefOk(row.createdByAgentId, db.agents)
       || (exists a | a in db.assets :: db.assets[a].objectKey == row.objectKey) then Err
    else Ok(db.(assets := db.assets[id := row]))
  }

  function InsertAttachmentRow(db: Database, id: Id, row: AttachmentRow): Result<Database> {
    if || id in db.attachments || row.issueId !in db.issues || row.assetId !in db.assets
       || !RefOk(row.issueCommentId, db.comments.Keys)
       || (exists a | a in db.attachments :: db.attachments[a].assetId == row.assetId) then Err
    else Ok(db.(attachments := db.attachments[id := row]))
  }

  /* ---- the phases of the transaction as functions of the database ---- */

  function ApplyWorkspaces(db: Database, projectId: Id, rows: seq<Workspace>, existing: set<Id>): Result<Database>
    decreases |rows|
  {
    if rows == [] then Ok(db)
    else if rows[0].id in existing then ApplyWorkspaces(db, projectId, rows[1..], existing)
    else
      var db1 :- InsertWorkspaceRow(db, rows[0].(projectId := projectId));
      ApplyWorkspaces(db1, projectId, rows[1..], existing)
  }

  function ProjectRow(p: ProjectImport): Project {
    p.source.(goalId := p.targetGoalId, leadAgentId := p.targetLeadAgentId)
  }

  function ApplyProjects(db: Database, imports: seq<ProjectImport>, existing: set<Id>): Result<Database>
    decreases |imports|
  {
    if imports == [] then Ok(db)
    else
      var db1 :- InsertProjectRow(db, ProjectRow(imports[0]));
      var db2 :- ApplyWorkspaces(db1, imports[0].source.id, imports[0].workspaces, existing);
      ApplyProjects(db2, imports[1..], existing)
  }

  function NewImports(db: Database, imports: seq<ProjectImport>): seq<ProjectImport> {
    if imports == [] then []
    else if imports[0].source.id in db.projects then NewImports(db, imports[1..])
    else [imports[0]] + NewImports(db, imports[1..])
  }

  function IssueInserts(db: Database, plans: seq<IssuePlan>): (inserts: seq<IssuePlan>)
    ensures forall k :: 0 <= k < |inserts| ==> inserts[k].InsertIssue?
  {
    if plans == [] then []
    else if plans[0].InsertIssue? && plans[0].source.id !in db.issues then [plans[0]] + IssueInserts(db, plans[1..])
    else IssueInserts(db, plans[1..])
  }

  function IssueRow(p: IssuePlan, number: int): Issue
    requires p.InsertIssue?
  {
    p.source.(projectId := p.targetProjectId, projectWorkspaceId := p.targetProjectWorkspaceId,
      goalId := p.targetGoalId, status := p.targetStatus, assigneeAgentId := p.targetAssigneeAgentId,
      createdByAgentId := p.targetCreatedByAgentId, issueNumber := Some(number))
  }

  /** `number` is the next issue number. */
  function ApplyIssues(db: Database, inserts: seq<IssuePlan>, number: int): Result<Database>
    requires forall k :: 0 <= k < |inserts| ==> inserts[k].InsertIssue?
    decreases |inserts|
  {
    if inserts == [] then Ok(db)
    else
      var db1 :- InsertIssueRow(db, IssueRow(inserts[0], number));
      ApplyIssues(db1, inserts[1..], number + 1)
  }

  function ApplyComments(db: Database, plans: seq<CommentPlan>, existing: set<Id>): Result<Database>
    decreases |plans|
  {
    if plans == [] then Ok(db)
    else if !plans[0].InsertComment? || plans[0].source.id in existing || plans[0].source.issueId !in db.issues then
      ApplyComments(db, plans[1..], existing)
    else
      var db1 :- InsertCommentRow(db, plans[0].source.(authorAgentId := plans[0].targetAuthorAgentId));
      ApplyComments(db1, plans[1..], existing)
  }

  function NewDocument(source: Document, write: DocumentWrite): Document {
    source.(latestRevisionId := write.latestRevisionId, latestRevisionNumber := write.latestRevisionNumber,
      createdByAgentId := write.targetCreatedByAgentId, updatedByAgentId := write.targetUpdatedByAgentId)
  }

  /** The update keeps the row's creation columns. */
  function MergedDocument(existing: Document, source: Document, write: DocumentWrite): Document {
    NewDocument(source, write).(createdByAgentId := existing.createdByAgentId, createdAt := existing.createdAt)
  }

  function MergedLink(existing: Link, source: Link): Link {
    existing.(issueId := source.issueId, key := source.key, updatedAt := source.updatedAt)
  }

  function WriteDocumentRows(db: Database, d: IssueDocument, write: DocumentWrite): Result<Database> {
    if d.documentId !in db.documents then
      var db1 :- InsertDocumentRow(db, d.documentId, NewDocument(d.doc, write));
      InsertLinkRow(db1, d.documentId, d.link)
    else
      var db1 :- if d.documentId !in db.links
                 then InsertLinkRow(db, d.documentId, d.link)
                 else UpdateLinkRow(db, d.documentId, MergedLink(db.links[d.documentId], d.link));
      UpdateDocumentRow(db1, d.documentId, MergedDocument(db.documents[d.documentId], d.doc, write))
  }

  function RevisionRow(documentId: Id, p: RevisionPlan): Revision {
    p.source.(documentId := documentId, revisionNumber := p.targetRevisionNumber,
      createdByAgentId := p.targetCreatedByAgentId)
  }

  function ApplyRevisions(db: Database, documentId: Id, plans: seq<RevisionPlan>, existing: set<Id>): Result<Database>
    decreases |plans|
  {
    if plans == [] then Ok(db)
    else if plans[0].source.id in existing then ApplyRevisions(db, documentId, plans[1..], existing)
    else
      var db1 :- InsertRevisionRow(db, RevisionRow(documentId, plans[0]));
      ApplyRevisions(db1, documentId, plans[1..], existing)
  }

  function RevisionIds(revisions: seq<Revision>, documentId: Id): set<Id> {
    set k | 0 <= k < |revisions| && revisions[k].documentId == documentId :: revisions[k].id
  }

  predicate Skipped(db: Database, d: IssueDocument) {
    d.link.issueId !in db.issues || !SlotFree(db, d.documentId, d.link.issueId, d.link.key)
  }

  function WriteDocument(db: Database, d: IssueDocument, write: DocumentWrite): Result<Database> {
    var db1 :- WriteDocumentRows(db, d, write);
    ApplyRevisions(db1, d.documentId, write.revisionsToInsert, RevisionIds(db1.revisions, d.documentId))
  }

  function ApplyDocuments(db: Database, plans: seq<DocumentPlan>): Result<Database>
    decreases |plans|
  {
    if plans == [] then Ok(db)
    else if !plans[0].Writes() || Skipped(db, plans[0].source) then ApplyDocuments(db, plans[1..])
    else
      var db1 :- WriteDocument(db, plans[0].source, plans[0].write);
      ApplyDocuments(db1, plans[1..])
  }

  /** `bodies` are the object keys some source storage can serve. */
  function ApplyAttachments(db: Database, plans: seq<AttachmentPlan>, existing: set<Id>,
        bodies: set<string>): Result<Database>
    decreases |plans|
  {
    if plans == [] then Ok(db)
    else
      var p := plans[0];
      if !p.InsertAttachment? || p.source.id in existing
         || p.source.issueId !in db.issues || p.source.objectKey !in bodies then
        ApplyAttachments(db, plans[1..], existing, bodies)
      else
        var db1 :- InsertAssetRow(db, p.source.assetId, Asset(p.source.objectKey, p.targetCreatedByAgentId));
        var db2 :- InsertAttachmentRow(db1, p.source.id,
          AttachmentRow(p.source.issueId, p.source.assetId, p.targetIssueCommentId));
        ApplyAttachments(db2, plans[1..], existing, bodies)
  }

  function ApplyIssuePhase(db: Database, plans: seq<IssuePlan>): Result<Database> {
    var inserts := IssueInserts(db, plans);
    ApplyIssues(db.(issueCounter := db.issueCounter + |inserts|), inserts, db.issueCounter + 1)
  }

  /** Comments, documents and attachments hang off issues that are in place by now. */
  function ApplyHistory(db: Database, plan: MergePlan, bodies: set<string>): Result<Database> {
    var db1 :- ApplyComments(db, plan.commentPlans, db.comments.Keys);
    var db2 :- ApplyDocuments(db1, plan.documentPlans);
    ApplyAttachments(db2, plan.attachmentPlans, db2.attachments.Keys, bodies)
  }

  function Apply(db: Database, plan: MergePlan, bodies: set<string>): Result<Database> {
    var db1 :- ApplyProjects(db, NewImports(db, plan.projectImports), db.workspaces.Keys);
    var db2 :- ApplyIssuePhase(db1, plan.issuePlans);
    ApplyHistory(db2, plan, bodies)
  }

  /* ---- the transaction's loops ---- */

  method ImportWorkspaces(start: Database, projectId: Id, rows: seq<Workspace>, existing: set<Id>)
    returns (r: Result<Database>)
    ensures r == ApplyWorkspaces(start, projectId, rows, existing)
  {
    var db := start;
    for k := 0 to |rows|
      invariant ApplyWorkspaces(start, projectId, rows, existing) == ApplyWorkspaces(db, projectId, rows[k..], existing)
    {
      assert rows[k..][0] == rows[k] && rows[k..][1..] == rows[k + 1..];
      if rows[k].id in existing { continue; }
      db :- InsertWorkspaceRow(db, rows[k].(projectId := projectId));
    }
    return Ok(db);
  }

  method ImportProjects(start: Database, imports: seq<ProjectImport>, existing: set<Id>) returns (r: Result<Database>)
    ensures r == ApplyProjects(start, imports, existing)
  {
    var db := start;
    for k := 0 to |imports|
      invariant ApplyProjects(start, imports, existing) == ApplyProjects(db, imports[k..], existing)
    {
      assert imports[k..][0] == imports[k] && imports[k..][1..] == imports[k + 1..];
      db :- InsertProjectRow(db, ProjectRow(imports[k]));
      db :- ImportWorkspaces(db, imports[k].source.id, imports[k].workspaces, existing);
    }
    return Ok(db);
  }

  method InsertIssues(start: Database, inserts: seq<IssuePlan>, first: int) returns (r: Result<Database>)
    requires forall k :: 0 <= k < |inserts| ==> inserts[k].InsertIssue?
    ensures r == ApplyIssues(start, inserts, first)
  {
    var db := start;
    var next := first;
    for k := 0 to |inserts|
      invariant ApplyIssues(start, inserts, first) == ApplyIssues(db, inserts[k..], next)
    {
      assert inserts[k..][0] == inserts[k] && inserts[k..][1..] == inserts[k + 1..];
      var number := next;
      next := next + 1;
      db :- InsertIssueRow(db, IssueRow(inserts[k], number));
    }
    return Ok(db);
  }

  method ImportIssues(start: Database, plans: seq<IssuePlan>) returns (r: Result<Database>)
    ensures r == ApplyIssuePhase(start, plans)
  {
    var inserts := IssueInserts(start, plans);
    var db := start;
    var next := 0;
    if |inserts| > 0 {
      db := db.(issueCounter := db.issueCounter + |inserts|);
      next := db.issueCounter - |inserts| + 1;
    }
    r := InsertIssues(db, inserts, next);
  }

  method ImportComments(start: Database, plans: seq<CommentPlan>) returns (r: Result<Database>)
    ensures r == ApplyComments(start, plans, start.comments.Keys)
  {
    var existing := start.comments.Keys;
    var db := start;
    for k := 0 to |plans|
      invariant ApplyComments(start, plans, existing) == ApplyComments(db, plans[k..], existing)
    {
      var p := plans[k];
      assert plans[k..][0] == p && plans[k..][1..] == plans[k + 1..];
      if !p.InsertComment? || p.source.id in existing { continue; }
      if p.source.issueId !in db.issues { continue; }
      db :- InsertCommentRow(db, p.source.(authorAgentId := p.targetAuthorAgentId));
    }
    return Ok(db);
  }

  method ImportRevisions(start: Database, documentId: Id, plans: seq<RevisionPlan>) returns (r: Result<Database>)
    ensures r == ApplyRevisions(start, documentId, plans, RevisionIds(start.revisions, documentId))
  {
    var existing := RevisionIds(start.revisions, documentId);
    var db := start;
    for k := 0 to |plans|
      invariant ApplyRevisions(start, documentId, plans, existing)
        == ApplyRevisions(db, documentId, plans[k..], existing)
    {
      assert plans[k..][0] == plans[k] && plans[k..][1..] == plans[k + 1..];
      if plans[k].source.id in existing { continue; }
      db :- InsertRevisionRow(db, RevisionRow(documentId, plans[k]));
    }
    return Ok(db);
  }

  method ImportDocuments(start: Database, plans: seq<DocumentPlan>) returns (r: Result<Database>)
    ensures r == ApplyDocuments(start, plans)
  {
    var db := start;
    for k := 0 to |plans|
      invariant ApplyDocuments(start, plans) == ApplyDocuments(db, plans[k..])
    {
      var p := plans[k];
      assert plans[k..][0] == p && plans[k..][1..] == plans[k + 1..];
      if !p.Writes() || Skipped(db, p.source) { continue; }
      db :- WriteDocumentRows(db, p.source, p.write);
      db :- ImportRevisions(db, p.source.documentId, p.write.revisionsToInsert);
    }
    return Ok(db);
  }

  method ImportAttachments(start: Database, plans: seq<AttachmentPlan>, bodies: set<string>)
    returns (r: Result<Database>)
    ensures r == ApplyAttachments(start, plans, start.attachments.Keys, bodies)
  {
    var existing := start.attachments.Keys;
    var db := start;
    for k := 0 to |plans|
      invariant ApplyAttachments(start, plans, existing, bodies) == ApplyAttachments(db, plans[k..], existing, bodies)
    {
      var p := plans[k];
      assert plans[k..][0] == p && plans[k..][1..] == plans[k + 1..];
      if !p.InsertAttachment? || p.source.id in existing { continue; }
      if p.source.issueId !in db.issues || p.source.objectKey !in bodies { continue; }
      db :- InsertAssetRow(db, p.source.assetId, Asset(p.source.objectKey, p.targetCreatedByAgentId));
      db :- InsertAttachmentRow(db, p.source.id,
        AttachmentRow(p.source.issueId, p.source.assetId, p.targetIssueCommentId));
    }
    return Ok(db);
  }

  method ImportHistory(start: Database, plan: MergePlan, bodies: set<string>) returns (r: Result<Database>)
    ensures r == ApplyHistory(start, plan, bodies)
  {
    var db := start;
    db :- ImportComments(db, plan.commentPlans);
    db :- ImportDocuments(db, plan.documentPlans);
    r := ImportAttachments(db, plan.attachmentPlans, bodies);
  }

  method ApplyMergePlan(target: Database, plan: MergePlan, bodies: set<string>) returns (r: Result<Database>)
    ensures r == Apply(target, plan, bodies)
  {
    var db := target;
    db :- ImportProjects(db, NewImports(db, plan.projectImports), db.workspaces.Keys);
    db :- ImportIssues(db, plan.issuePlans);
    r := ImportHistory(db, plan, bodies);
  }
}
