/** Rows and tables of the history merge (cli/src/commands/worktree-merge-history-lib.ts and worktree.ts).
    Only columns that a decision reads or a constraint mentions are kept. */
module MergeModel {
  import opened Basics

  datatype Issue = Issue(
    id: Id, parentId: Option<Id>, createdAt: int,
    title: string, description: Option<string>, status: string, priority: string,
    projectId: Option<Id>, projectWorkspaceId: Option<Id>, goalId: Option<Id>,
    assigneeAgentId: Option<Id>, assigneeUserId: Option<string>, createdByAgentId: Option<Id>,
    issueNumber: Option<int>)

  datatype Comment = Comment(id: Id, issueId: Id, authorAgentId: Option<Id>, body: string, createdAt: int)

  datatype Project = Project(id: Id, name: string, goalId: Option<Id>, leadAgentId: Option<Id>)

  datatype Workspace = Workspace(id: Id, projectId: Id, isPrimary: bool, createdAt: int)

  /** The `documents` columns. */
  datatype Document = Document(
    title: Option<string>, format: string, latestBody: string,
    latestRevisionId: Option<Id>, latestRevisionNumber: int,
    createdByAgentId: Option<Id>, updatedByAgentId: Option<Id>, updatedByUserId: Option<string>,
    createdAt: int, updatedAt: int)

  /** The `issue_documents` columns. `documentId` is unique in that table, so links are keyed by it. */
  datatype Link = Link(id: Id, issueId: Id, key: string, createdAt: int, updatedAt: int)

  /** The join of a link with its document, as both instances are read. */
  datatype IssueDocument = IssueDocument(documentId: Id, link: Link, doc: Document)

  datatype Revision = Revision(
    id: Id, documentId: Id, revisionNumber: int, body: string, createdByAgentId: Option<Id>, createdAt: int)

  /** The join of an attachment with its asset. */
  datatype Attachment = Attachment(
    id: Id, issueId: Id, issueCommentId: Option<Id>, assetId: Id, objectKey: string,
    createdByAgentId: Option<Id>, createdAt: int)

  datatype Asset = Asset(objectKey: string, createdByAgentId: Option<Id>)

  datatype AttachmentRow = AttachmentRow(issueId: Id, assetId: Id, issueCommentId: Option<Id>)

  /** One company's rows in the source instance, as the SELECTs return them. */
  datatype Source = Source(
    issues: seq<Issue>, comments: seq<Comment>, projects: seq<Project>, workspaces: seq<Workspace>,
    documents: seq<IssueDocument>, revisions: seq<Revision>, attachments: seq<Attachment>)

  /** One company's rows in the target instance. */
  datatype Database = Database(
    issueCounter: int, agents: set<Id>, goals: set<Id>,
    projects: map<Id, Project>, workspaces: map<Id, Workspace>,
    issues: map<Id, Issue>, comments: map<Id, Comment>,
    documents: map<Id, Document>, links: map<Id, Link>, revisions: seq<Revision>,
    assets: map<Id, Asset>, attachments: map<Id, AttachmentRow>)

  function RevisionsOf(revisions: seq<Revision>, documentId: Id): seq<Revision> {
    if revisions == [] then []
    else
      var last := revisions[|revisions| - 1];
      var before := RevisionsOf(revisions[..|revisions| - 1], documentId);
      if last.documentId == documentId then before + [last] else before
  }

  /* ---- what a plan says ---- */

  datatype Adjustment =
    | ClearAssigneeAgent | ClearProject | ClearProjectWorkspace | ClearGoal | ClearAuthorAgent
    | CoerceInProgressToTodo | ClearDocumentAgent | ClearDocumentRevisionAgent | ClearAttachmentAgent

  datatype Resolution = Preserved | Cleared | Mapped | Imported

  datatype IssuePlan =
    | InsertIssue(
        source: Issue, previewIssueNumber: int, targetStatus: string,
        targetAssigneeAgentId: Option<Id>, targetCreatedByAgentId: Option<Id>,
        targetProjectId: Option<Id>, targetProjectWorkspaceId: Option<Id>, targetGoalId: Option<Id>,
        projectResolution: Resolution, mappedProjectName: Option<string>, adjustments: seq<Adjustment>)
    | SkipIssue(source: Issue, driftKeys: seq<string>)

  datatype CommentPlan =
    | InsertComment(source: Comment, targetAuthorAgentId: Option<Id>, adjustments: seq<Adjustment>)
    | SkipExistingComment(source: Comment)
    | SkipOrphanComment(source: Comment)

  datatype RevisionPlan = RevisionPlan(
    source: Revision, targetRevisionNumber: int, targetCreatedByAgentId: Option<Id>, adjustments: seq<Adjustment>)

  /** What an insert or a merge of a document writes. */
  datatype DocumentWrite = DocumentWrite(
    targetCreatedByAgentId: Option<Id>, targetUpdatedByAgentId: Option<Id>,
    latestRevisionId: Option<Id>, latestRevisionNumber: int,
    revisionsToInsert: seq<RevisionPlan>, adjustments: seq<Adjustment>)

  datatype DocumentPlan =
    | InsertDocument(source: IssueDocument, write: DocumentWrite)
    | MergeDocument(source: IssueDocument, write: DocumentWrite)
    | SkipExistingDocument(source: IssueDocument)
    | SkipOrphanDocument(source: IssueDocument)
    | SkipConflictingDocument(source: IssueDocument)
  {
    predicate Writes() { InsertDocument? || MergeDocument? }
  }

  datatype AttachmentPlan =
    | InsertAttachment(
        source: Attachment, targetIssueCommentId: Option<Id>, targetCreatedByAgentId: Option<Id>,
        adjustments: seq<Adjustment>)
    | SkipExistingAttachment(source: Attachment)
    | SkipOrphanAttachment(source: Attachment)

  datatype ProjectImport = ProjectImport(
    source: Project, targetLeadAgentId: Option<Id>, targetGoalId: Option<Id>, workspaces: seq<Workspace>)

  datatype Counts = Counts(
    projectsToImport: nat,
    issuesToInsert: nat, issuesExisting: nat, issueDrift: nat,
    commentsToInsert: nat, commentsExisting: nat, commentsMissingParent: nat,
    documentsToInsert: nat, documentsToMerge: nat, documentsExisting: nat,
    documentsConflictingKey: nat, documentsMissingParent: nat, documentRevisionsToInsert: nat,
    attachmentsToInsert: nat, attachmentsExisting: nat, attachmentsMissingParent: nat)

  /** `adjustments` is the per-kind tally; a tally by kind is a multiset of kinds. */
  datatype MergePlan = MergePlan(
    projectImports: seq<ProjectImport>, issuePlans: seq<IssuePlan>, commentPlans: seq<CommentPlan>,
    documentPlans: seq<DocumentPlan>, attachmentPlans: seq<AttachmentPlan>,
    counts: Counts, adjustments: multiset<Adjustment>)

  /** The operator's choices. */
  datatype Request = Request(includeComments: bool, importProjectIds: seq<Id>, projectIdOverrides: map<Id, Option<Id>>)
}
