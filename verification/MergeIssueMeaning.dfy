/** What every issue entry and every project import of a merge plan says, told from the two instances and the
    operator's request alone. */
module MergeIssueMeaning {
  import opened Basics
  import opened MergeModel
  import opened MergePlanner
  import R = MergeRows
  import RevisionNumbers
  import Text

  /* ---- references ---- */

  /** The reference is kept when it is alive, and dropped otherwise. */
  ghost predicate KeptOrDropped(ref: Option<Id>, alive: set<Id>, kept: Option<Id>) {
    && (forall i :: ref == Some(i) && i in alive ==> kept == Some(i))
    && ((ref == None || ref.value !in alive) ==> kept == None)
  }

  lemma KeptIs(ref: Option<Id>, alive: set<Id>)
    ensures KeptOrDropped(ref, alive, RevisionNumbers.Kept(ref, alive))
  {
  }

  /* ---- the project of an issue ---- */

  ghost predicate LastWithId(projects: seq<Project>, j: int, id: Id) {
    && 0 <= j < |projects| && projects[j].id == id
    && forall k :: j < k < |projects| ==> projects[k].id != id
  }

  /** The row the source's lookup by id finds: the last one. */
  ghost predicate SourceProject(source: Source, j: int, id: Id) {
    LastWithId(source.projects, j, id)
  }

  /** The operator maps the project to one the target has. */
  ghost predicate MappedTo(request: Request, target: Database, id: Id, to: Id) {
    && id in request.projectIdOverrides && request.projectIdOverrides[id] == Some(to)
    && to in target.projects
  }

  ghost predicate Importable(source: Source, request: Request, id: Id) {
    id in request.importProjectIds && exists p :: p in source.projects && p.id == id
  }

  ghost predicate Goes(p: IssuePlan, to: Option<Id>, how: Resolution, name: Option<string>)
    requires p.InsertIssue?
  {
    p.targetProjectId == to && p.projectResolution == how && p.mappedProjectName == name
  }

  /** The project is kept if the target has it, else mapped as the operator says, else imported with its
      issue; only if none of these can be is it cleared. */
  ghost predicate ProjectSays(p: IssuePlan, source: Source, target: Database, request: Request)
    requires p.InsertIssue?
  {
    match p.source.projectId
    case None => Goes(p, None, Cleared, None)
    case Some(id) =>
      var mapped := exists to :: MappedTo(request, target, id, to);
      && (id in target.projects ==> Goes(p, Some(id), Preserved, None))
      && (forall to :: id !in target.projects && MappedTo(request, target, id, to) ==>
            Goes(p, Some(to), Mapped, Some(target.projects[to].name)))
      && (forall j :: id !in target.projects && !mapped && id in request.importProjectIds
                      && SourceProject(source, j, id) ==>
            Goes(p, Some(id), Imported, Some(source.projects[j].name)))
      && (p.targetProjectId == None <==> id !in target.projects && !mapped && !Importable(source, request, id))
      && (p.targetProjectId == None ==> Goes(p, None, Cleared, None))
  }

  /** The target has the workspace, or it comes with a project that is imported. */
  ghost predicate WorkspaceComes(source: Source, target: Database, request: Request, id: Id) {
    || id in target.workspaces
    || exists w :: w in source.workspaces && w.id == id && w.projectId !in target.projects
         && Importable(source, request, w.projectId)
  }

  /** The workspace is kept exactly when the issue keeps its project and the workspace will be there. */
  ghost predicate WorkspaceSays(p: IssuePlan, source: Source, target: Database, request: Request)
    requires p.InsertIssue?
  {
    && (p.targetProjectWorkspaceId == None || p.targetProjectWorkspaceId == p.source.projectWorkspaceId)
    && (p.targetProjectWorkspaceId.Some? <==>
          && p.source.projectWorkspaceId.Some? && p.targetProjectId.Some? && p.targetProjectId == p.source.projectId
          && WorkspaceComes(source, target, request, p.source.projectWorkspaceId.value))
  }

  /** In progress with nobody on it: no agent that survives, and no user but a blank one. */
  ghost predicate Abandoned(p: IssuePlan)
    requires p.InsertIssue?
  {
    && p.source.status == "in_progress" && p.targetAssigneeAgentId == None
    && (p.source.assigneeUserId == None
        || forall k :: 0 <= k < |p.source.assigneeUserId.value| ==> Text.IsSpace(p.source.assigneeUserId.value[k]))
  }

  /** What the entry admits to having changed. */
  ghost predicate Changed(p: IssuePlan, a: Adjustment)
    requires p.InsertIssue?
  {
    match a
    case ClearAssigneeAgent => p.source.assigneeAgentId.Some? && p.targetAssigneeAgentId.None?
    case ClearProject => p.source.projectId.Some? && p.targetProjectId.None?
    case ClearProjectWorkspace => p.source.projectWorkspaceId.Some? && p.targetProjectWorkspaceId.None?
    case ClearGoal => p.source.goalId.Some? && p.targetGoalId.None?
    case CoerceInProgressToTodo => Abandoned(p)
    case _ => false
  }

  ghost predicate InsertSays(p: IssuePlan, source: Source, target: Database, request: Request)
    requires p.InsertIssue?
  {
    && p.source.id !in target.issues
    && ProjectSays(p, source, target, request) && WorkspaceSays(p, source, target, request)
    && KeptOrDropped(p.source.goalId, target.goals, p.targetGoalId)
    && KeptOrDropped(p.source.assigneeAgentId, target.agents, p.targetAssigneeAgentId)
    && KeptOrDropped(p.source.createdByAgentId, target.agents, p.targetCreatedByAgentId)
    && (if Abandoned(p) then p.targetStatus == "todo" else p.targetStatus == p.source.status)
    && forall a :: multiset(p.adjustments)[a] == if Changed(p, a) then 1 else 0
  }

  /** The compared fields two rows of one issue differ in, under the names they are reported by. */
  ghost predicate Differs(a: Issue, b: Issue, key: string) {
    || (key == "title" && a.title != b.title) || (key == "description" && a.description != b.description)
    || (key == "status" && a.status != b.status) || (key == "priority" && a.priority != b.priority)
    || (key == "parentId" && a.parentId != b.parentId) || (key == "projectId" && a.projectId != b.projectId)
    || (key == "projectWorkspaceId" && a.projectWorkspaceId != b.projectWorkspaceId)
    || (key == "goalId" && a.goalId != b.goalId) || (key == "assigneeAgentId" && a.assigneeAgentId != b.assigneeAgentId)
    || (key == "assigneeUserId" && a.assigneeUserId != b.assigneeUserId)
  }

  ghost predicate SkipSays(p: IssuePlan, target: Database)
    requires p.SkipIssue?
  {
    p.source.id in target.issues
    && forall key :: key in p.driftKeys <==> Differs(p.source, target.issues[p.source.id], key)
  }

  /** An issue the target has is skipped, with what differs; any other is imported. */
  ghost predicate IssueSays(p: IssuePlan, source: Source, target: Database, request: Request) {
    if p.SkipIssue? then SkipSays(p, target) else InsertSays(p, source, target, request)
  }

  /* ---- the planner's functions say that ---- */

  lemma {:induction false} FoundIsLast(projects: seq<Project>, id: Id)
    ensures FindProject(projects, id).None? ==> forall k :: 0 <= k < |projects| ==> projects[k].id != id
    ensures FindProject(projects, id).Some? ==>
      exists j :: LastWithId(projects, j, id) && FindProject(projects, id) == Some(projects[j])
  {
    if projects != [] {
      var front, last := projects[..|projects| - 1], |projects| - 1;
      FoundIsLast(front, id);
      if projects[last].id == id {
        assert LastWithId(projects, last, id);
      } else if FindProject(front, id).Some? {
        var j :| LastWithId(front, j, id) && FindProject(front, id) == Some(front[j]);
        assert LastWithId(projects, j, id) && projects[j] == front[j];
      }
    }
  }

  lemma FoundProjectIs(source: Source, id: Id)
    ensures FindProject(source.projects, id).Some? <==> exists p :: p in source.projects && p.id == id
    ensures forall j :: SourceProject(source, j, id) ==> FindProject(source.projects, id) == Some(source.projects[j])
    ensures FindProject(source.projects, id).Some? ==> FindProject(source.projects, id).value.id == id
  {
    FoundIsLast(source.projects, id);
    FoundProject(source.projects, id);
  }

  lemma RequestedIds(request: Request)
    ensures forall i :: i in Dedup(request.importProjectIds) <==> i in request.importProjectIds
    ensures Distinct(Dedup(request.importProjectIds))
  {
    R.DedupDistinct(request.importProjectIds);
  }

  lemma {:induction false} WorkspacesOfMembers(all: seq<Workspace>, projectId: Id)
    ensures forall w :: w in WorkspacesOf(all, projectId) <==> w in all && w.projectId == projectId
  {
    if all != [] {
      assert all == all[..|all| - 1] + [all[|all| - 1]];
      WorkspacesOfMembers(all[..|all| - 1], projectId);
    }
  }

  /** The imports' workspaces are the source's workspaces of imported projects. */
  lemma ImportedWorkspacesAre(source: Source, target: Database, request: Request, id: Id)
    ensures id in ContextFor(source, target, request).importedWorkspaces
      <==> exists w :: w in source.workspaces && w.id == id && w.projectId !in target.projects
             && Importable(source, request, w.projectId)
  {
    var ids := Dedup(request.importProjectIds);
    var imports := ProjectImportsFor(ids, source, target);
    RequestedIds(request);
    R.ImportShape(ids, source, target);
    if id in ImportedWorkspaces(imports) {
      var k :| 0 <= k < |imports| && id in WorkspaceIds(imports[k].workspaces);
      R.ImportRequested(ids, source, target, k);
      WorkspaceOfImport(ids, source, target, request, imports[k], id);
    }
    if exists w :: w in source.workspaces && w.id == id && w.projectId !in target.projects
         && Importable(source, request, w.projectId)
    {
      var w :| w in source.workspaces && w.id == id && w.projectId !in target.projects
        && Importable(source, request, w.projectId);
      FoundProjectIs(source, w.projectId);
      assert w.projectId in R.ImportedProjects(imports);
      var k :| 0 <= k < |imports| && imports[k].source.id == w.projectId;
      ImportHasWorkspace(ids, source, target, imports[k], w);
    }
  }

  lemma WorkspaceOfImport(ids: seq<Id>, source: Source, target: Database, request: Request, p: ProjectImport, id: Id)
    requires R.ImportOf(ids, source, target, p) && id in WorkspaceIds(p.workspaces)
    requires forall i :: i in ids <==> i in request.importProjectIds
    ensures exists w :: w in source.workspaces && w.id == id && w.projectId !in target.projects
             && Importable(source, request, w.projectId)
  {
    var j :| 0 <= j < |p.workspaces| && p.workspaces[j].id == id;
    var w := p.workspaces[j];
    assert w in p.workspaces;
    SortPermutes(WorkspacesOf(source.workspaces, p.source.id), WorkspaceNoLater);
    WorkspacesOfMembers(source.workspaces, p.source.id);
    FoundProjectIs(source, p.source.id);
    assert w in source.workspaces && w.projectId == p.source.id;
  }

  lemma ImportHasWorkspace(ids: seq<Id>, source: Source, target: Database, p: ProjectImport, w: Workspace)
    requires R.ImportOf(ids, source, target, p) && w in source.workspaces && w.projectId == p.source.id
    ensures w.id in WorkspaceIds(p.workspaces)
  {
    SortPermutes(WorkspacesOf(source.workspaces, p.source.id), WorkspaceNoLater);
    WorkspacesOfMembers(source.workspaces, p.source.id);
    assert w in p.workspaces;
    var j :| 0 <= j < |p.workspaces| && p.workspaces[j] == w;
    assert p.workspaces[j].id == w.id;
  }

  /** What the operator maps a project to, if that is of use. */
  function Mapping(request: Request, target: Database, id: Id): Option<Id> {
    if id in request.projectIdOverrides && request.projectIdOverrides[id].Some?
       && request.projectIdOverrides[id].value in target.projects
    then request.projectIdOverrides[id] else None
  }

  lemma MappingIs(request: Request, target: Database, id: Id)
    ensures forall to: Id :: MappedTo(request, target, id, to) <==> Mapping(request, target, id) == Some(to)
    ensures Mapping(request, target, id).Some? ==> Mapping(request, target, id).value in target.projects
    ensures (exists to :: MappedTo(request, target, id, to)) <==> Mapping(request, target, id).Some?
  {
    if Mapping(request, target, id).Some? { assert MappedTo(request, target, id, Mapping(request, target, id).value); }
  }

  lemma ChoiceIs(issue: Issue, source: Source, target: Database, request: Request)
    requires issue.projectId.Some?
    requires forall to: Id :: MappedTo(request, target, issue.projectId.value, to) ==>
      Mapping(request, target, issue.projectId.value) == Some(to)
    ensures var id, found := issue.projectId.value, FindProject(source.projects, issue.projectId.value);
      var mapping := Mapping(request, target, id);
      ResolveProject(issue, ContextFor(source, target, request))
      == if id in target.projects then ProjectChoice(Some(id), Preserved, None)
         else if mapping.Some? then ProjectChoice(mapping, Mapped, Some(target.projects[mapping.value].name))
         else if id in request.importProjectIds && found.Some? then
           ProjectChoice(Some(found.value.id), Imported, Some(found.value.name))
         else ProjectChoice(None, Cleared, None)
  {
    RequestedIds(request);
  }

  lemma ProjectResolved(issue: Issue, number: int, source: Source, target: Database, request: Request)
    ensures ProjectSays(InsertIssueFor(issue, number, ContextFor(source, target, request)), source, target, request)
  {
    var p := InsertIssueFor(issue, number, ContextFor(source, target, request));
    var choice := ResolveProject(issue, ContextFor(source, target, request));
    assert p.source == issue && Goes(p, choice.id, choice.resolution, choice.mappedName);
    if issue.projectId.Some? {
      MappingIs(request, target, issue.projectId.value);
      ChoiceIs(issue, source, target, request);
      FoundProjectIs(source, issue.projectId.value);
      ChoiceSays(p, source, target, request, choice);
    }
  }

  lemma ChoiceSays(p: IssuePlan, source: Source, target: Database, request: Request, choice: ProjectChoice)
    requires p.InsertIssue? && p.source.projectId.Some? && Goes(p, choice.id, choice.resolution, choice.mappedName)
    requires var id, found := p.source.projectId.value, FindProject(source.projects, p.source.projectId.value);
      var mapping := Mapping(request, target, id);
      && (mapping.Some? ==> mapping.value in target.projects)
      && choice == if id in target.projects then ProjectChoice(Some(id), Preserved, None)
         else if mapping.Some? then ProjectChoice(mapping, Mapped, Some(target.projects[mapping.value].name))
         else if id in request.importProjectIds && found.Some? then
           ProjectChoice(Some(found.value.id), Imported, Some(found.value.name))
         else ProjectChoice(None, Cleared, None)
    ensures ProjectSays(p, source, target, request)
  {
    MappingIs(request, target, p.source.projectId.value);
    FoundProjectIs(source, p.source.projectId.value);
  }

  lemma WorkspaceResolved(issue: Issue, number: int, source: Source, target: Database, request: Request)
    ensures WorkspaceSays(InsertIssueFor(issue, number, ContextFor(source, target, request)), source, target, request)
  {
    if issue.projectWorkspaceId.Some? {
      ImportedWorkspacesAre(source, target, request, issue.projectWorkspaceId.value);
    }
  }

  lemma WhenCounts(dropped: bool, adjustment: Adjustment, a: Adjustment)
    ensures multiset(When(dropped, adjustment))[a] == if dropped && a == adjustment then 1 else 0
  {
  }

  lemma FiveCounts(v: seq<Adjustment>, w: seq<Adjustment>, x: seq<Adjustment>, y: seq<Adjustment>, z: seq<Adjustment>,
        a: Adjustment)
    ensures multiset(v + w + x + y + z)[a]
      == multiset(v)[a] + multiset(w)[a] + multiset(x)[a] + multiset(y)[a] + multiset(z)[a]
  {
  }

  predicate AnyOf(a: Adjustment, agent: bool, project: bool, workspace: bool, goal: bool, status: bool) {
    match a
    case ClearAssigneeAgent => agent
    case ClearProject => project
    case ClearProjectWorkspace => workspace
    case ClearGoal => goal
    case CoerceInProgressToTodo => status
    case _ => false
  }

  lemma FiveWhens(a: Adjustment, agent: bool, project: bool, workspace: bool, goal: bool, status: bool)
    ensures multiset(When(agent, ClearAssigneeAgent) + When(project, ClearProject)
        + When(workspace, ClearProjectWorkspace) + When(goal, ClearGoal) + When(status, CoerceInProgressToTodo))[a]
      == if AnyOf(a, agent, project, workspace, goal, status) then 1 else 0
  {
    FiveCounts(When(agent, ClearAssigneeAgent), When(project, ClearProject),
      When(workspace, ClearProjectWorkspace), When(goal, ClearGoal), When(status, CoerceInProgressToTodo), a);
    WhenCounts(agent, ClearAssigneeAgent, a);
    WhenCounts(project, ClearProject, a);
    WhenCounts(workspace, ClearProjectWorkspace, a);
    WhenCounts(goal, ClearGoal, a);
    WhenCounts(status, CoerceInProgressToTodo, a);
  }

  lemma AdjustmentsAre(issue: Issue, number: int, ctx: Context)
    ensures var p := InsertIssueFor(issue, number, ctx);
      p.adjustments == When(issue.assigneeAgentId.Some? && p.targetAssigneeAgentId.None?, ClearAssigneeAgent)
        + When(issue.projectId.Some? && p.targetProjectId.None?, ClearProject)
        + When(issue.projectWorkspaceId.Some? && p.targetProjectWorkspaceId.None?, ClearProjectWorkspace)
        + When(issue.goalId.Some? && p.targetGoalId.None?, ClearGoal)
        + When(Abandoned(p), CoerceInProgressToTodo)
    ensures var p := InsertIssueFor(issue, number, ctx);
      p.targetStatus == if Abandoned(p) then "todo" else issue.status
  {
  }

  lemma ChangedIs(p: IssuePlan, a: Adjustment, status: bool)
    requires p.InsertIssue? && (status <==> Abandoned(p))
    ensures Changed(p, a)
       <==> AnyOf(a, p.source.assigneeAgentId.Some? && p.targetAssigneeAgentId.None?,
              p.source.projectId.Some? && p.targetProjectId.None?,
              p.source.projectWorkspaceId.Some? && p.targetProjectWorkspaceId.None?,
              p.source.goalId.Some? && p.targetGoalId.None?, status)
  {
  }

  lemma CountedFrom(p: IssuePlan, agent: bool, project: bool, workspace: bool, goal: bool, status: bool, a: Adjustment)
    requires p.InsertIssue? && (status <==> Abandoned(p))
    requires agent <==> p.source.assigneeAgentId.Some? && p.targetAssigneeAgentId.None?
    requires project <==> p.source.projectId.Some? && p.targetProjectId.None?
    requires workspace <==> p.source.projectWorkspaceId.Some? && p.targetProjectWorkspaceId.None?
    requires goal <==> p.source.goalId.Some? && p.targetGoalId.None?
    requires p.adjustments == When(agent, ClearAssigneeAgent) + When(project, ClearProject)
      + When(workspace, ClearProjectWorkspace) + When(goal, ClearGoal) + When(status, CoerceInProgressToTodo)
    ensures multiset(p.adjustments)[a] == if Changed(p, a) then 1 else 0
  {
    FiveWhens(a, agent, project, workspace, goal, status);
    ChangedIs(p, a, status);
  }

  lemma AdjustmentsCounted(p: IssuePlan, a: Adjustment)
    requires p.InsertIssue?
    requires p.adjustments == When(p.source.assigneeAgentId.Some? && p.targetAssigneeAgentId.None?, ClearAssigneeAgent)
        + When(p.source.projectId.Some? && p.targetProjectId.None?, ClearProject)
        + When(p.source.projectWorkspaceId.Some? && p.targetProjectWorkspaceId.None?, ClearProjectWorkspace)
        + When(p.source.goalId.Some? && p.targetGoalId.None?, ClearGoal)
        + When(Abandoned(p), CoerceInProgressToTodo)
    ensures multiset(p.adjustments)[a] == if Changed(p, a) then 1 else 0
  {
    CountedFrom(p, p.source.assigneeAgentId.Some? && p.targetAssigneeAgentId.None?,
      p.source.projectId.Some? && p.targetProjectId.None?,
      p.source.projectWorkspaceId.Some? && p.targetProjectWorkspaceId.None?,
      p.source.goalId.Some? && p.targetGoalId.None?, Abandoned(p), a);
  }

  lemma RefsDecided(issue: Issue, number: int, ctx: Context)
    ensures var p := InsertIssueFor(issue, number, ctx);
      && p.source == issue && KeptOrDropped(issue.goalId, ctx.target.goals, p.targetGoalId)
      && KeptOrDropped(issue.assigneeAgentId, ctx.target.agents, p.targetAssigneeAgentId)
      && KeptOrDropped(issue.createdByAgentId, ctx.target.agents, p.targetCreatedByAgentId)
  {
    KeptIs(issue.goalId, ctx.target.goals);
    KeptIs(issue.assigneeAgentId, ctx.target.agents);
    KeptIs(issue.createdByAgentId, ctx.target.agents);
  }

  lemma InsertDecided(issue: Issue, number: int, source: Source, target: Database, request: Request)
    requires issue.id !in target.issues
    ensures InsertSays(InsertIssueFor(issue, number, ContextFor(source, target, request)), source, target, request)
  {
    var ctx := ContextFor(source, target, request);
    ProjectResolved(issue, number, source, target, request);
    WorkspaceResolved(issue, number, source, target, request);
    RefsDecided(issue, number, ctx);
    AdjustmentsAre(issue, number, ctx);
    forall a { AdjustmentsCounted(InsertIssueFor(issue, number, ctx), a); }
  }

  lemma DriftIfSays<T>(left: T, right: T, name: string, key: string)
    ensures key in DriftIf(left, right, name) <==> key == name && left != right
  {
  }

  lemma DriftSays(a: Issue, b: Issue, key: string)
    ensures key in Drift(a, b) <==> Differs(a, b, key)
  {
    DriftIfSays(a.title, b.title, "title", key);
    DriftIfSays(a.description, b.description, "description", key);
    DriftIfSays(a.status, b.status, "status", key);
    DriftIfSays(a.priority, b.priority, "priority", key);
    DriftIfSays(a.parentId, b.parentId, "parentId", key);
    DriftIfSays(a.projectId, b.projectId, "projectId", key);
    DriftIfSays(a.projectWorkspaceId, b.projectWorkspaceId, "projectWorkspaceId", key);
    DriftIfSays(a.goalId, b.goalId, "goalId", key);
    DriftIfSays(a.assigneeAgentId, b.assigneeAgentId, "assigneeAgentId", key);
    DriftIfSays(a.assigneeUserId, b.assigneeUserId, "assigneeUserId", key);
  }

  lemma SkipDecided(issue: Issue, target: Database)
    requires issue.id in target.issues
    ensures SkipSays(SkipIssue(issue, Drift(issue, target.issues[issue.id])), target)
  {
    forall key ensures key in Drift(issue, target.issues[issue.id]) <==> Differs(issue, target.issues[issue.id], key) {
      DriftSays(issue, target.issues[issue.id], key);
    }
  }

  lemma {:induction false} IssuesDecided(order: seq<Issue>, last: int, source: Source, target: Database,
                                         request: Request, p: IssuePlan)
    requires p in IssuePlansFrom(order, last, ContextFor(source, target, request))
    ensures IssueSays(p, source, target, request)
  {
    var ctx := ContextFor(source, target, request);
    if order[0].id in target.issues {
      SkipDecided(order[0], target);
      if p in IssuePlansFrom(order[1..], last, ctx) {
        IssuesDecided(order[1..], last, source, target, request, p);
      }
    } else {
      InsertDecided(order[0], last + 1, source, target, request);
      if p in IssuePlansFrom(order[1..], last + 1, ctx) {
        IssuesDecided(order[1..], last + 1, source, target, request, p);
      }
    }
  }

  /* ---- project imports ---- */

  /** Primary workspaces first, then by creation time and id. */
  ghost predicate WorkspaceBefore(a: Workspace, b: Workspace) {
    || (a.isPrimary && !b.isPrimary)
    || (a.isPrimary == b.isPrimary
        && (a.createdAt < b.createdAt || (a.createdAt == b.createdAt && a.id <= b.id)))
  }

  /** An import is of a requested source project the target lacks, with the workspaces of that project. */
  ghost predicate ImportSays(p: ProjectImport, source: Source, target: Database, request: Request) {
    && p.source.id in request.importProjectIds && p.source.id !in target.projects
    && (exists j :: SourceProject(source, j, p.source.id) && source.projects[j] == p.source)
    && KeptOrDropped(p.source.leadAgentId, target.agents, p.targetLeadAgentId)
    && KeptOrDropped(p.source.goalId, target.goals, p.targetGoalId)
    && (forall w :: w in p.workspaces <==> w in source.workspaces && w.projectId == p.source.id)
    && forall i, j :: 0 <= i < j < |p.workspaces| ==> WorkspaceBefore(p.workspaces[i], p.workspaces[j])
  }

  lemma WorkspacesSorted(rows: seq<Workspace>)
    ensures var sorted := Sort(rows, WorkspaceNoLater);
      && (forall w :: w in sorted <==> w in rows)
      && forall i, j :: 0 <= i < j < |sorted| ==> WorkspaceBefore(sorted[i], sorted[j])
  {
    SortPermutes(rows, WorkspaceNoLater);
    SortSorts(rows, WorkspaceNoLater);
  }

  lemma ImportDecided(p: ProjectImport, source: Source, target: Database, request: Request)
    requires R.ImportOf(Dedup(request.importProjectIds), source, target, p)
    ensures ImportSays(p, source, target, request)
  {
    RequestedIds(request);
    FoundIsLast(source.projects, p.source.id);
    WorkspacesOfMembers(source.workspaces, p.source.id);
    WorkspacesSorted(WorkspacesOf(source.workspaces, p.source.id));
    KeptIs(p.source.leadAgentId, target.agents);
    KeptIs(p.source.goalId, target.goals);
    var j :| LastWithId(source.projects, j, p.source.id)
      && FindProject(source.projects, p.source.id) == Some(source.projects[j]);
    assert SourceProject(source, j, p.source.id);
  }

  /** Every issue entry and every import of a plan says what the instances and the request make it say, and
      every import that can be made is. */
  lemma IssuesMean(plan: MergePlan, source: Source, target: Database, request: Request, order: seq<Issue>)
    requires IsPlan(plan, source, target, request, order)
    ensures forall p :: p in plan.issuePlans ==> IssueSays(p, source, target, request)
    ensures forall p :: p in plan.projectImports ==> ImportSays(p, source, target, request)
    ensures forall id :: id !in target.projects && Importable(source, request, id) ==>
      exists p :: p in plan.projectImports && p.source.id == id
  {
    forall p | p in plan.issuePlans ensures IssueSays(p, source, target, request) {
      IssuesDecided(order, target.issueCounter, source, target, request, p);
    }
    var ids := Dedup(request.importProjectIds);
    RequestedIds(request);
    R.ImportShape(ids, source, target);
    forall p | p in plan.projectImports ensures ImportSays(p, source, target, request) {
      var k :| 0 <= k < |plan.projectImports| && plan.projectImports[k] == p;
      ImportDecided(p, source, target, request);
    }
    forall id | id !in target.projects && Importable(source, request, id)
      ensures exists p :: p in plan.projectImports && p.source.id == id
    {
      FoundProjectIs(source, id);
      assert id in R.ImportedProjects(plan.projectImports);
      var k :| 0 <= k < |plan.projectImports| && plan.projectImports[k].source.id == id;
      assert plan.projectImports[k] in plan.projectImports;
    }
  }

  /** Imports come in the order their projects were first requested. */
  lemma {:induction false} DedupGrows(a: seq<Id>, b: seq<Id>)
    ensures Dedup(a) <= Dedup(a + b)
  {
    if b == [] {
      assert a + b == a;
    } else {
      assert (a + b)[..|a + b| - 1] == a + b[..|b| - 1];
      DedupGrows(a, b[..|b| - 1]);
    }
  }
}
