/** `buildWorktreeMergePlan` (cli/src/commands/worktree-merge-history-lib.ts): what merging a source into a
    target would do. */
module MergePlanner {
  import opened Basics
  import opened MergeModel
  import opened RevisionNumbers
  import IssueOrder
  import Text

  /* ---- row orders ---- */

  predicate CommentNoLater(a: Comment, b: Comment) {
    if a.createdAt != b.createdAt then a.createdAt < b.createdAt else a.id <= b.id
  }

  predicate DocumentNoLater(a: IssueDocument, b: IssueDocument) {
    if a.doc.createdAt != b.doc.createdAt then a.doc.createdAt < b.doc.createdAt
    else if a.link.createdAt != b.link.createdAt then a.link.createdAt < b.link.createdAt
    else a.documentId <= b.documentId
  }

  predicate RevisionNoLater(a: Revision, b: Revision) {
    if a.revisionNumber != b.revisionNumber then a.revisionNumber < b.revisionNumber
    else if a.createdAt != b.createdAt then a.createdAt < b.createdAt
    else a.id <= b.id
  }

  predicate AttachmentNoLater(a: Attachment, b: Attachment) {
    if a.createdAt != b.createdAt then a.createdAt < b.createdAt else a.id <= b.id
  }

  predicate WorkspaceNoLater(a: Workspace, b: Workspace) {
    if a.isPrimary != b.isPrimary then a.isPrimary
    else if a.createdAt != b.createdAt then a.createdAt < b.createdAt
    else a.id <= b.id
  }

  /* ---- projects ---- */

  function FindProject(projects: seq<Project>, id: Id): Option<Project> {
    if projects == [] then None
    else if projects[|projects| - 1].id == id then Some(projects[|projects| - 1])
    else FindProject(projects[..|projects| - 1], id)
  }

  lemma {:induction false} FoundProject(projects: seq<Project>, id: Id)
    ensures FindProject(projects, id).Some? ==>
      FindProject(projects, id).value.id == id && FindProject(projects, id).value in projects
  {
    if projects != [] { FoundProject(projects[..|projects| - 1], id); }
  }

  function WorkspacesOf(workspaces: seq<Workspace>, projectId: Id): seq<Workspace> {
    if workspaces == [] then []
    else
      var last := workspaces[|workspaces| - 1];
      var before := WorkspacesOf(workspaces[..|workspaces| - 1], projectId);
      if last.projectId == projectId then before + [last] else before
  }

  /** The values of `new Set(ids)` in iteration order. */
  function Dedup(ids: seq<Id>): seq<Id> {
    if ids == [] then []
    else
      var before := Dedup(ids[..|ids| - 1]);
      if ids[|ids| - 1] in before then before else before + [ids[|ids| - 1]]
  }

  function ProjectImportFor(project: Project, source: Source, target: Database): ProjectImport {
    ProjectImport(project, Kept(project.leadAgentId, target.agents), Kept(project.goalId, target.goals),
      Sort(WorkspacesOf(source.workspaces, project.id), WorkspaceNoLater))
  }

  function ProjectImportsFor(ids: seq<Id>, source: Source, target: Database): seq<ProjectImport> {
    if ids == [] then []
    else
      var id := ids[|ids| - 1];
      var before := ProjectImportsFor(ids[..|ids| - 1], source, target);
      if id in target.projects then before
      else match FindProject(source.projects, id)
        case None => before
        case Some(project) => before + [ProjectImportFor(project, source, target)]
  }

  function WorkspaceIds(workspaces: seq<Workspace>): (ids: set<Id>)
    ensures forall i :: i in ids <==> exists k :: 0 <= k < |workspaces| && workspaces[k].id == i
  {
    set k | 0 <= k < |workspaces| :: workspaces[k].id
  }

  function ImportedWorkspaces(imports: seq<ProjectImport>): (ids: set<Id>)
    ensures forall i :: i in ids <==> exists k :: 0 <= k < |imports| && i in WorkspaceIds(imports[k].workspaces)
  {
    set k, i | 0 <= k < |imports| && i in WorkspaceIds(imports[k].workspaces) :: i
  }

  /* ---- issues ---- */

  datatype Context = Context(
    source: Source, target: Database, importIds: set<Id>, overrides: map<Id, Option<Id>>, importedWorkspaces: set<Id>)

  predicate HasUser(issue: Issue) {
    issue.assigneeUserId.Some? && !Text.Blank(issue.assigneeUserId.value)
  }

  function DriftIf<T(==)>(left: T, right: T, key: string): seq<string> {
    if left == right then [] else [key]
  }

  function Drift(source: Issue, target: Issue): seq<string> {
    DriftIf(source.title, target.title, "title")
    + DriftIf(source.description, target.description, "description")
    + DriftIf(source.status, target.status, "status")
    + DriftIf(source.priority, target.priority, "priority")
    + DriftIf(source.parentId, target.parentId, "parentId")
    + DriftIf(source.projectId, target.projectId, "projectId")
    + DriftIf(source.projectWorkspaceId, target.projectWorkspaceId, "projectWorkspaceId")
    + DriftIf(source.goalId, target.goalId, "goalId")
    + DriftIf(source.assigneeAgentId, target.assigneeAgentId, "assigneeAgentId")
    + DriftIf(source.assigneeUserId, target.assigneeUserId, "assigneeUserId")
  }

  datatype ProjectChoice = ProjectChoice(id: Option<Id>, resolution: Resolution, mappedName: Option<string>)

  /** Same project if the target has it, else the operator's mapping, else the project being imported. */
  function ResolveProject(issue: Issue, ctx: Context): ProjectChoice {
    if issue.projectId.None? then ProjectChoice(None, Cleared, None)
    else
      var id := issue.projectId.value;
      var override := if id in ctx.overrides then ctx.overrides[id] else None;
      if id in ctx.target.projects then ProjectChoice(Some(id), Preserved, None)
      else if override.Some? && override.value in ctx.target.projects then
        ProjectChoice(override, Mapped, Some(ctx.target.projects[override.value].name))
      else if id in ctx.importIds then
        match FindProject(ctx.source.projects, id)
        case Some(project) => ProjectChoice(Some(project.id), Imported, Some(project.name))
        case None => ProjectChoice(None, Cleared, None)
      else ProjectChoice(None, Cleared, None)
  }

  function ResolveWorkspace(issue: Issue, project: Option<Id>, ctx: Context): Option<Id> {
    if project.Some? && project == issue.projectId
      then Kept(issue.projectWorkspaceId, ctx.target.workspaces.Keys + ctx.importedWorkspaces)
      else None
  }

  function When(dropped: bool, adjustment: Adjustment): seq<Adjustment> {
    if dropped then [adjustment] else []
  }

  function InsertIssueFor(issue: Issue, number: int, ctx: Context): IssuePlan {
    var assignee := Kept(issue.assigneeAgentId, ctx.target.agents);
    var project := ResolveProject(issue, ctx);
    var workspace := ResolveWorkspace(issue, project.id, ctx);
    var goal := Kept(issue.goalId, ctx.target.goals);
    var coerce := issue.status == "in_progress" && assignee.None? && !HasUser(issue);
    InsertIssue(issue, number, if coerce then "todo" else issue.status,
      assignee, Kept(issue.createdByAgentId, ctx.target.agents), project.id, workspace, goal,
      project.resolution, project.mappedName,
      When(issue.assigneeAgentId.Some? && assignee.None?, ClearAssigneeAgent)
      + When(issue.projectId.Some? && project.id.None?, ClearProject)
      + When(issue.projectWorkspaceId.Some? && workspace.None?, ClearProjectWorkspace)
      + When(issue.goalId.Some? && goal.None?, ClearGoal)
      + When(coerce, CoerceInProgressToTodo))
  }

  function IssuePlansFrom(order: seq<Issue>, last: int, ctx: Context): seq<IssuePlan> {
    if order == [] then []
    else if order[0].id in ctx.target.issues then
      [SkipIssue(order[0], Drift(order[0], ctx.target.issues[order[0].id]))] + IssuePlansFrom(order[1..], last, ctx)
    else
      [InsertIssueFor(order[0], last + 1, ctx)] + IssuePlansFrom(order[1..], last + 1, ctx)
  }

  function InsertedIssueIds(plans: seq<IssuePlan>): (ids: set<Id>)
    ensures forall i :: i in ids <==> exists k :: 0 <= k < |plans| && plans[k].InsertIssue? && plans[k].source.id == i
  {
    set k | 0 <= k < |plans| && plans[k].InsertIssue? :: plans[k].source.id
  }

  /* ---- comments ---- */

  function CommentPlanFor(comment: Comment, target: Database, issues: set<Id>): CommentPlan {
    if comment.id in target.comments then SkipExistingComment(comment)
    else if comment.issueId !in issues then SkipOrphanComment(comment)
    else
      var author := Kept(comment.authorAgentId, target.agents);
      InsertComment(comment, author, When(comment.authorAgentId.Some? && author.None?, ClearAuthorAgent))
  }

  function InsertedCommentIds(plans: seq<CommentPlan>): (ids: set<Id>)
    ensures forall i :: i in ids <==> exists k :: 0 <= k < |plans| && plans[k].InsertComment? && plans[k].source.id == i
  {
    set k | 0 <= k < |plans| && plans[k].InsertComment? :: plans[k].source.id
  }

  /* ---- documents ---- */

  /** The target's row for a document, as read through the join of links, documents and issues. */
  function Joined(target: Database, documentId: Id): Option<IssueDocument> {
    if documentId in target.links && documentId in target.documents && target.links[documentId].issueId in target.issues
      then Some(IssueDocument(documentId, target.links[documentId], target.documents[documentId]))
      else None
  }

  predicate SameSlot(a: Link, b: Link) {
    a.issueId == b.issueId && a.key == b.key
  }

  /** Another document of the target sits on this document's (issue, key) slot. */
  predicate SlotTaken(document: IssueDocument, target: Database) {
    exists d | d in target.links ::
      d != document.documentId && Joined(target, d).Some? && SameSlot(target.links[d], document.link)
  }

  function JoinedRevisions(target: Database, documentId: Id): seq<Revision> {
    if Joined(target, documentId).Some? then RevisionsOf(target.revisions, documentId) else []
  }

  predicate DropsAgent(document: IssueDocument, target: Database) {
    || (document.doc.createdByAgentId.Some? && Kept(document.doc.createdByAgentId, target.agents).None?)
    || (document.doc.updatedByAgentId.Some? && Kept(document.doc.updatedByAgentId, target.agents).None?)
  }

  function LatestRevisionId(document: IssueDocument, existing: Option<IssueDocument>): Option<Id> {
    if document.doc.latestRevisionId.Some? then document.doc.latestRevisionId
    else if existing.Some? then existing.value.doc.latestRevisionId else None
  }

  function LatestRevisionNumber(document: IssueDocument, latest: Option<Id>, numberById: map<Id, int>): int {
    if latest.Some? && latest.value in numberById then numberById[latest.value] else document.doc.latestRevisionNumber
  }

  function DocumentWriteFor(document: IssueDocument, target: Database, revisions: seq<RevisionPlan>,
        numberById: map<Id, int>): DocumentWrite {
    var latest := LatestRevisionId(document, Joined(target, document.documentId));
    DocumentWrite(
      Kept(document.doc.createdByAgentId, target.agents), Kept(document.doc.updatedByAgentId, target.agents),
      latest, LatestRevisionNumber(document, latest, numberById),
      revisions, When(DropsAgent(document, target), ClearDocumentAgent))
  }

  predicate AlreadyMatches(document: IssueDocument, existing: IssueDocument, write: DocumentWrite) {
    && existing.link.key == document.link.key
    && existing.doc.title == document.doc.title
    && existing.doc.format == document.doc.format
    && existing.doc.latestBody == document.doc.latestBody
    && existing.doc.latestRevisionId == write.latestRevisionId
    && existing.doc.latestRevisionNumber == write.latestRevisionNumber
    && existing.doc.updatedByAgentId == write.targetUpdatedByAgentId
    && existing.doc.updatedByUserId == document.doc.updatedByUserId
    && existing.doc.updatedAt == document.doc.updatedAt
    && existing.link.updatedAt == document.link.updatedAt
    && write.revisionsToInsert == []
  }

  function DocumentPlanWith(document: IssueDocument, target: Database, write: DocumentWrite): DocumentPlan {
    match Joined(target, document.documentId)
    case None => InsertDocument(document, write)
    case Some(existing) =>
      if AlreadyMatches(document, existing, write) then SkipExistingDocument(document)
      else MergeDocument(document, write)
  }

  function SourceRevisions(source: Source, documentId: Id): seq<Revision> {
    Sort(RevisionsOf(source.revisions, documentId), RevisionNoLater)
  }

  function TargetRevisions(target: Database, documentId: Id): seq<Revision> {
    Sort(JoinedRevisions(target, documentId), RevisionNoLater)
  }

  function WriteFor(document: IssueDocument, source: Source, target: Database): DocumentWrite {
    var present := TargetRevisions(target, document.documentId);
    var revisions := RevisionPlans(SourceRevisions(source, document.documentId), present, target.agents);
    DocumentWriteFor(document, target, revisions, PlannedNumbers(present, revisions))
  }

  function DocumentPlanFor(document: IssueDocument, source: Source, target: Database, issues: set<Id>): DocumentPlan {
    if document.link.issueId !in issues then SkipOrphanDocument(document)
    else if Joined(target, document.documentId).None? && SlotTaken(document, target)
      then SkipConflictingDocument(document)
    else DocumentPlanWith(document, target, WriteFor(document, source, target))
  }

  /* ---- attachments ---- */

  function AttachmentPlanFor(attachment: Attachment, target: Database, issues: set<Id>,
        comments: set<Id>): AttachmentPlan {
    if attachment.id in target.attachments then SkipExistingAttachment(attachment)
    else if attachment.issueId !in issues then SkipOrphanAttachment(attachment)
    else
      var author := Kept(attachment.createdByAgentId, target.agents);
      InsertAttachment(attachment, Kept(attachment.issueCommentId, comments), author,
        When(attachment.createdByAgentId.Some? && author.None?, ClearAttachmentAgent))
  }

  /* ---- tallies and counts ---- */

  function CountIf<T>(s: seq<T>, p: T -> bool): nat {
    if s == [] then 0 else CountIf(s[..|s| - 1], p) + if p(s[|s| - 1]) then 1 else 0
  }

  function RevisionAdjustments(plans: seq<RevisionPlan>): multiset<Adjustment> {
    if plans == [] then multiset{}
    else RevisionAdjustments(plans[..|plans| - 1]) + multiset(plans[|plans| - 1].adjustments)
  }

  function IssueAdjustments(plans: seq<IssuePlan>): multiset<Adjustment> {
    if plans == [] then multiset{}
    else
      var last := plans[|plans| - 1];
      IssueAdjustments(plans[..|plans| - 1]) + if last.InsertIssue? then multiset(last.adjustments) else multiset{}
  }

  function CommentAdjustments(plans: seq<CommentPlan>): multiset<Adjustment> {
    if plans == [] then multiset{}
    else
      var last := plans[|plans| - 1];
      CommentAdjustments(plans[..|plans| - 1]) + if last.InsertComment? then multiset(last.adjustments) else multiset{}
  }

  function DocumentAdjustments(plans: seq<DocumentPlan>): multiset<Adjustment> {
    if plans == [] then multiset{}
    else
      var last := plans[|plans| - 1];
      DocumentAdjustments(plans[..|plans| - 1])
      + (if last.Writes() then multiset(last.write.adjustments) + RevisionAdjustments(last.write.revisionsToInsert)
         else multiset{})
  }

  function AttachmentAdjustments(plans: seq<AttachmentPlan>): multiset<Adjustment> {
    if plans == [] then multiset{}
    else
      var last := plans[|plans| - 1];
      AttachmentAdjustments(plans[..|plans| - 1])
      + if last.InsertAttachment? then multiset(last.adjustments) else multiset{}
  }

  /** Documents that turn out unchanged although a reference of theirs to an agent is dropped. */
  function UnchangedDroppingAgent(plans: seq<DocumentPlan>, target: Database): nat {
    CountIf(plans, (p: DocumentPlan) => p.SkipExistingDocument? && DropsAgent(p.source, target))
  }

  function RevisionCount(plans: seq<DocumentPlan>): nat {
    if plans == [] then 0
    else
      var last := plans[|plans| - 1];
      RevisionCount(plans[..|plans| - 1]) + if last.Writes() then |last.write.revisionsToInsert| else 0
  }

  function CountsOf(imports: seq<ProjectImport>, issues: seq<IssuePlan>, comments: seq<CommentPlan>,
                    documents: seq<DocumentPlan>, attachments: seq<AttachmentPlan>): Counts {
    Counts(|imports|,
      CountIf(issues, (p: IssuePlan) => p.InsertIssue?),
      CountIf(issues, (p: IssuePlan) => p.SkipIssue?),
      CountIf(issues, (p: IssuePlan) => p.SkipIssue? && |p.driftKeys| > 0),
      CountIf(comments, (p: CommentPlan) => p.InsertComment?),
      CountIf(comments, (p: CommentPlan) => p.SkipExistingComment?),
      CountIf(comments, (p: CommentPlan) => p.SkipOrphanComment?),
      CountIf(documents, (p: DocumentPlan) => p.InsertDocument?),
      CountIf(documents, (p: DocumentPlan) => p.MergeDocument?),
      CountIf(documents, (p: DocumentPlan) => p.SkipExistingDocument?),
      CountIf(documents, (p: DocumentPlan) => p.SkipConflictingDocument?),
      CountIf(documents, (p: DocumentPlan) => p.SkipOrphanDocument?),
      RevisionCount(documents),
      CountIf(attachments, (p: AttachmentPlan) => p.InsertAttachment?),
      CountIf(attachments, (p: AttachmentPlan) => p.SkipExistingAttachment?),
      CountIf(attachments, (p: AttachmentPlan) => p.SkipOrphanAttachment?))
  }

  /* ---- the plan as a function of its inputs ---- */

  function ContextFor(source: Source, target: Database, request: Request): Context {
    var ids := Dedup(request.importProjectIds);
    Context(source, target, (set i | i in ids), request.projectIdOverrides,
      ImportedWorkspaces(ProjectImportsFor(ids, source, target)))
  }

  function AvailableIssues(target: Database, plans: seq<IssuePlan>): set<Id> {
    target.issues.Keys + InsertedIssueIds(plans)
  }

  function AvailableComments(target: Database, plans: seq<CommentPlan>): set<Id> {
    target.comments.Keys + InsertedCommentIds(plans)
  }

  /** `plan` is what the planner computes when the issue sort yields `order`. */
  ghost predicate IsPlan(plan: MergePlan, source: Source, target: Database, request: Request, order: seq<Issue>) {
    var issues := AvailableIssues(target, plan.issuePlans);
    var comments := if request.includeComments then Sort(source.comments, CommentNoLater) else [];
    var documents := Sort(source.documents, DocumentNoLater);
    var attachments := Sort(source.attachments, AttachmentNoLater);
    && plan.projectImports == ProjectImportsFor(Dedup(request.importProjectIds), source, target)
    && plan.issuePlans == IssuePlansFrom(order, target.issueCounter, ContextFor(source, target, request))
    && plan.commentPlans == CommentPlansFor(comments, target, issues)
    && plan.documentPlans == DocumentPlansFor(documents, source, target, issues)
    && plan.attachmentPlans == AttachmentPlansFor(attachments, target, issues,
      AvailableComments(target, plan.commentPlans))
  }

  ghost predicate IsCounted(plan: MergePlan) {
    plan.counts == CountsOf(plan.projectImports, plan.issuePlans, plan.commentPlans, plan.documentPlans,
      plan.attachmentPlans)
  }

  function CommentPlansFor(rows: seq<Comment>, target: Database, issues: set<Id>): (plans: seq<CommentPlan>)
    ensures |plans| == |rows| && forall k :: 0 <= k < |rows| ==> plans[k] == CommentPlanFor(rows[k], target, issues)
  {
    seq(|rows|, k requires 0 <= k < |rows| => CommentPlanFor(rows[k], target, issues))
  }

  function DocumentPlansFor(rows: seq<IssueDocument>, source: Source, target: Database,
        issues: set<Id>): (plans: seq<DocumentPlan>)
    ensures |plans| == |rows| && forall k :: 0 <= k < |rows| ==>
      plans[k] == DocumentPlanFor(rows[k], source, target, issues)
  {
    seq(|rows|, k requires 0 <= k < |rows| => DocumentPlanFor(rows[k], source, target, issues))
  }

  function AttachmentPlansFor(rows: seq<Attachment>, target: Database, issues: set<Id>,
        comments: set<Id>): (plans: seq<AttachmentPlan>)
    ensures |plans| == |rows| && forall k :: 0 <= k < |rows| ==>
      plans[k] == AttachmentPlanFor(rows[k], target, issues, comments)
  {
    seq(|rows|, k requires 0 <= k < |rows| => AttachmentPlanFor(rows[k], target, issues, comments))
  }

  /* ---- the planner's loops ---- */

  method PlanProjectImports(ids: seq<Id>, source: Source, target: Database) returns (imports: seq<ProjectImport>)
    ensures imports == ProjectImportsFor(ids, source, target)
  {
    imports := [];
    for k := 0 to |ids|
      invariant imports == ProjectImportsFor(ids[..k], source, target)
    {
      PrefixStep(ids, k);
      var id := ids[k];
      assert ids[..k + 1][..k] == ids[..k];
      if id in target.projects { continue; }
      var project := FindProject(source.projects, id);
      if project.None? { continue; }
      imports := imports + [ProjectImportFor(project.value, source, target)];
    }
    assert ids[..|ids|] == ids;
  }

  lemma IssuePlansStep(order: seq<Issue>, k: nat, last: int, ctx: Context)
    requires k < |order|
    ensures IssuePlansFrom(order[k..], last, ctx)
         == if order[k].id in ctx.target.issues
            then [SkipIssue(order[k], Drift(order[k], ctx.target.issues[order[k].id]))]
              + IssuePlansFrom(order[k + 1..], last, ctx)
            else [InsertIssueFor(order[k], last + 1, ctx)] + IssuePlansFrom(order[k + 1..], last + 1, ctx)
  {
    assert order[k..][0] == order[k] && order[k..][1..] == order[k + 1..];
  }

  lemma IssueTallyStep(plans: seq<IssuePlan>, plan: IssuePlan)
    ensures IssueAdjustments(plans + [plan])
         == IssueAdjustments(plans) + if plan.InsertIssue? then multiset(plan.adjustments) else multiset{}
  {
    AppendShift(plans, plan, []);
  }

  method PlanIssues(order: seq<Issue>, ctx: Context) returns (plans: seq<IssuePlan>, tally: multiset<Adjustment>)
    ensures plans == IssuePlansFrom(order, ctx.target.issueCounter, ctx)
    ensures tally == IssueAdjustments(plans)
  {
    plans, tally := [], multiset{};
    var last := ctx.target.issueCounter;
    for k := 0 to |order|
      invariant IssuePlansFrom(order, ctx.target.issueCounter, ctx) == plans + IssuePlansFrom(order[k..], last, ctx)
      invariant tally == IssueAdjustments(plans)
    {
      var issue := order[k];
      IssuePlansStep(order, k, last, ctx);
      var plan: IssuePlan;
      if issue.id in ctx.target.issues {
        plan := SkipIssue(issue, Drift(issue, ctx.target.issues[issue.id]));
      } else {
        last := last + 1;
        plan := InsertIssueFor(issue, last, ctx);
        tally := tally + multiset(plan.adjustments);
      }
      IssueTallyStep(plans, plan);
      AppendShift(plans, plan, IssuePlansFrom(order[k + 1..], last, ctx));
      plans := plans + [plan];
    }
  }

  lemma CommentTallied(plans: seq<CommentPlan>, plan: CommentPlan)
    ensures CommentAdjustments(plans + [plan])
         == CommentAdjustments(plans) + if plan.InsertComment? then multiset(plan.adjustments) else multiset{}
  {
    AppendShift(plans, plan, []);
  }

  method PlanComments(rows: seq<Comment>, target: Database, issues: set<Id>)
    returns (plans: seq<CommentPlan>, tally: multiset<Adjustment>)
    ensures plans == CommentPlansFor(rows, target, issues)
    ensures tally == CommentAdjustments(plans)
  {
    ghost var expected := CommentPlansFor(rows, target, issues);
    plans, tally := [], multiset{};
    for k := 0 to |rows|
      invariant plans == expected[..k]
      invariant tally == CommentAdjustments(plans)
    {
      var plan := CommentPlanFor(rows[k], target, issues);
      if plan.InsertComment? {
        tally := tally + multiset(plan.adjustments);
      }
      PrefixStep(expected, k);
      CommentTallied(plans, plan);
      plans := plans + [plan];
    }
    assert expected[..|rows|] == expected;
  }

  /** What a document adds to the tally. A dropped agent is tallied before the document is compared
      with the target, so a document found unchanged still counts. */
  function Noted(plan: DocumentPlan, target: Database): multiset<Adjustment> {
    if plan.Writes() then multiset(plan.write.adjustments) + RevisionAdjustments(plan.write.revisionsToInsert)
    else if plan.SkipExistingDocument? then multiset(When(DropsAgent(plan.source, target), ClearDocumentAgent))
    else multiset{}
  }

  method PlanDocument(document: IssueDocument, source: Source, target: Database, issues: set<Id>)
    returns (plan: DocumentPlan, tally: multiset<Adjustment>)
    ensures plan == DocumentPlanFor(document, source, target, issues)
    ensures tally == Noted(plan, target)
  {
    if document.link.issueId !in issues {
      return SkipOrphanDocument(document), multiset{};
    }
    if Joined(target, document.documentId).None? && SlotTaken(document, target) {
      return SkipConflictingDocument(document), multiset{};
    }
    var present := TargetRevisions(target, document.documentId);
    var revisions, numberById := PlanRevisions(SourceRevisions(source, document.documentId), present, target.agents);
    var write := DocumentWriteFor(document, target, revisions, numberById);
    plan := DocumentPlanWith(document, target, write);
    tally := multiset(write.adjustments) + RevisionAdjustments(revisions);
  }

  method PlanDocuments(rows: seq<IssueDocument>, source: Source, target: Database, issues: set<Id>)
    returns (plans: seq<DocumentPlan>, tally: multiset<Adjustment>)
    ensures plans == DocumentPlansFor(rows, source, target, issues)
    ensures tally == DocumentTally(plans, target)
  {
    ghost var expected := DocumentPlansFor(rows, source, target, issues);
    plans, tally := [], multiset{};
    for k := 0 to |rows|
      invariant plans == expected[..k]
      invariant tally == DocumentTally(plans, target)
    {
      var plan, noted := PlanDocument(rows[k], source, target, issues);
      PrefixStep(expected, k);
      AppendShift(plans, plan, []);
      tally := tally + noted;
      plans := plans + [plan];
    }
    assert expected[..|rows|] == expected;
  }

  function DocumentTally(plans: seq<DocumentPlan>, target: Database): multiset<Adjustment> {
    if plans == [] then multiset{} else DocumentTally(plans[..|plans| - 1], target) + Noted(plans[|plans| - 1], target)
  }

  lemma {:induction false} DocumentTallySplit(plans: seq<DocumentPlan>, target: Database)
    ensures DocumentTally(plans, target)
         == DocumentAdjustments(plans) + multiset{}[ClearDocumentAgent := UnchangedDroppingAgent(plans, target)]
  {
    if plans != [] {
      DocumentTallySplit(plans[..|plans| - 1], target);
    }
  }

  lemma AttachmentTallied(plans: seq<AttachmentPlan>, plan: AttachmentPlan)
    ensures AttachmentAdjustments(plans + [plan])
         == AttachmentAdjustments(plans) + if plan.InsertAttachment? then multiset(plan.adjustments) else multiset{}
  {
    AppendShift(plans, plan, []);
  }

  method PlanAttachments(rows: seq<Attachment>, target: Database, issues: set<Id>, comments: set<Id>)
    returns (plans: seq<AttachmentPlan>, tally: multiset<Adjustment>)
    ensures plans == AttachmentPlansFor(rows, target, issues, comments)
    ensures tally == AttachmentAdjustments(plans)
  {
    ghost var expected := AttachmentPlansFor(rows, target, issues, comments);
    plans, tally := [], multiset{};
    for k := 0 to |rows|
      invariant plans == expected[..k]
      invariant tally == AttachmentAdjustments(plans)
    {
      var plan := AttachmentPlanFor(rows[k], target, issues, comments);
      if plan.InsertAttachment? {
        tally := tally + multiset(plan.adjustments);
      }
      PrefixStep(expected, k);
      AttachmentTallied(plans, plan);
      plans := plans + [plan];
    }
    assert expected[..|rows|] == expected;
  }

  ghost predicate IsTally(plan: MergePlan, target: Database) {
    plan.adjustments == IssueAdjustments(plan.issuePlans) + CommentAdjustments(plan.commentPlans)
      + DocumentTally(plan.documentPlans, target) + AttachmentAdjustments(plan.attachmentPlans)
  }

  method PlanInOrder(source: Source, target: Database, request: Request, order: seq<Issue>) returns (plan: MergePlan)
    ensures IsPlan(plan, source, target, request, order)
    ensures IsTally(plan, target) && IsCounted(plan)
  {
    var imports := PlanProjectImports(Dedup(request.importProjectIds), source, target);
    var issuePlans, issueTally := PlanIssues(order, ContextFor(source, target, request));
    var issues := AvailableIssues(target, issuePlans);
    var comments := if request.includeComments then Sort(source.comments, CommentNoLater) else [];
    var commentPlans, commentTally := PlanComments(comments, target, issues);
    var documentPlans, documentTally := PlanDocuments(Sort(source.documents, DocumentNoLater), source, target, issues);
    var available := AvailableComments(target, commentPlans);
    var attachmentPlans, attachmentTally :=
      PlanAttachments(Sort(source.attachments, AttachmentNoLater), target, issues, available);
    var counts := CountsOf(imports, issuePlans, commentPlans, documentPlans, attachmentPlans);
    plan := MergePlan(imports, issuePlans, commentPlans, documentPlans, attachmentPlans, counts,
      issueTally + commentTally + documentTally + attachmentTally);
  }

  method BuildWorktreeMergePlan(source: Source, target: Database, request: Request)
    returns (plan: MergePlan, ghost order: seq<Issue>, ghost depth: map<Id, nat>)
    requires IssueOrder.UniqueIssues(source.issues)
    ensures multiset(order) == multiset(source.issues)
    ensures IssueOrder.DepthMap(IssueOrder.IndexIssues(source.issues), depth) && IssueOrder.InImportOrder(depth, order)
    ensures IsPlan(plan, source, target, request, order)
    ensures IsTally(plan, target) && IsCounted(plan)
  {
    var sorted;
    sorted, depth := IssueOrder.SortIssuesForImport(source.issues);
    order := sorted;
    plan := PlanInOrder(source, target, request, sorted);
  }
}
