/** Projects, comments and attachments of an applied merge: no insertion fails, and what ends up in the target. */
module MergeRows {
  import opened Basics
  import opened MergeModel
  import opened MergePlanner
  import opened MergeApply

  /* ---- keys of the source tables ---- */

  function WorkspaceId(w: Workspace): Id { w.id }
  function CommentId(c: Comment): Id { c.id }
  function AttachmentId(a: Attachment): Id { a.id }
  function AttachmentAsset(a: Attachment): Id { a.assetId }
  function AttachmentObject(a: Attachment): string { a.objectKey }

  /* ---- projects and workspaces ---- */

  ghost predicate WorkspacesReady(db: Database, rows: seq<Workspace>, existing: set<Id>) {
    && existing <= db.workspaces.Keys && UniqueBy(rows, WorkspaceId)
    && forall k :: 0 <= k < |rows| && rows[k].id !in existing ==> rows[k].id !in db.workspaces
  }

  lemma {:induction false} WorkspacesGoIn(db: Database, projectId: Id, rows: seq<Workspace>, existing: set<Id>)
    requires projectId in db.projects && WorkspacesReady(db, rows, existing)
    ensures var r := ApplyWorkspaces(db, projectId, rows, existing);
      && r.Ok? && r.value == db.(workspaces := r.value.workspaces)
      && r.value.workspaces.Keys == db.workspaces.Keys + WorkspaceIds(rows)
    decreases |rows|
  {
    if rows != [] {
      UniqueByTail(rows, WorkspaceId);
      assert WorkspaceIds(rows) == {rows[0].id} + WorkspaceIds(rows[1..]) by { WorkspaceIdsHead(rows); }
      if rows[0].id in existing {
        WorkspacesGoIn(db, projectId, rows[1..], existing);
      } else {
        var db1 := InsertWorkspaceRow(db, rows[0].(projectId := projectId)).value;
        forall k | 0 <= k < |rows[1..]| ensures rows[1..][k].id != rows[0].id { assert rows[1..][k] in rows[1..]; }
        WorkspacesGoIn(db1, projectId, rows[1..], existing);
      }
    }
  }

  lemma WorkspaceIdsHead(rows: seq<Workspace>)
    requires rows != []
    ensures WorkspaceIds(rows) == {rows[0].id} + WorkspaceIds(rows[1..])
  {
    forall i | i in WorkspaceIds(rows) ensures i == rows[0].id || i in WorkspaceIds(rows[1..]) {
      var k :| 0 <= k < |rows| && rows[k].id == i;
      if k > 0 { assert rows[1..][k - 1].id == i; }
    }
    forall i | i in WorkspaceIds(rows[1..]) ensures i in WorkspaceIds(rows) {
      var k :| 0 <= k < |rows[1..]| && rows[1..][k].id == i;
      assert rows[k + 1].id == i;
    }
  }

  ghost predicate ImportReady(db: Database, p: ProjectImport, existing: set<Id>) {
    && p.source.id !in db.projects && RefOk(p.targetGoalId, db.goals) && RefOk(p.targetLeadAgentId, db.agents)
    && WorkspacesReady(db, p.workspaces, existing)
  }

  ghost predicate Apart(p: ProjectImport, q: ProjectImport) {
    p.source.id != q.source.id && WorkspaceIds(p.workspaces) !! WorkspaceIds(q.workspaces)
  }

  ghost predicate ImportsReady(db: Database, imports: seq<ProjectImport>, existing: set<Id>) {
    && (forall k :: 0 <= k < |imports| ==> ImportReady(db, imports[k], existing))
    && (forall j, k :: 0 <= j < k < |imports| ==> Apart(imports[j], imports[k]))
  }

  function ImportedProjects(imports: seq<ProjectImport>): (ids: set<Id>)
    ensures forall i :: i in ids <==> exists k :: 0 <= k < |imports| && imports[k].source.id == i
  {
    set k | 0 <= k < |imports| :: imports[k].source.id
  }

  /** The imported projects and their workspaces are new keys, and the only ones. */
  ghost predicate ProjectsAdded(db: Database, after: Database, imports: seq<ProjectImport>) {
    && after == db.(projects := after.projects, workspaces := after.workspaces)
    && after.projects.Keys == db.projects.Keys + ImportedProjects(imports)
    && after.workspaces.Keys == db.workspaces.Keys + ImportedWorkspaces(imports)
    && |after.projects| == |db.projects| + |imports|
  }

  /** What bringing in one project with its workspaces does. */
  ghost predicate ProjectAdded(db: Database, after: Database, p: ProjectImport) {
    && after == db.(projects := after.projects, workspaces := after.workspaces)
    && after.projects.Keys == db.projects.Keys + {p.source.id}
    && after.workspaces.Keys == db.workspaces.Keys + WorkspaceIds(p.workspaces)
  }

  /** One project's rows leave the others' imports executable. */
  lemma ImportsStillReady(db: Database, after: Database, imports: seq<ProjectImport>, existing: set<Id>)
    requires imports != [] && ImportsReady(db, imports, existing) && ProjectAdded(db, after, imports[0])
    ensures ImportsReady(after, imports[1..], existing)
  {
    forall k | 0 <= k < |imports[1..]| ensures ImportReady(after, imports[1..][k], existing) {
      var q := imports[k + 1];
      assert ImportReady(db, q, existing) && Apart(imports[0], q);
      forall w | 0 <= w < |q.workspaces| && q.workspaces[w].id !in existing
        ensures q.workspaces[w].id !in after.workspaces
      {
        assert q.workspaces[w].id in WorkspaceIds(q.workspaces);
      }
    }
    forall j, k | 0 <= j < k < |imports[1..]| ensures Apart(imports[1..][j], imports[1..][k]) {
      assert Apart(imports[j + 1], imports[k + 1]);
    }
  }

  lemma ImportedHead(imports: seq<ProjectImport>)
    requires imports != []
    ensures ImportedProjects(imports) == {imports[0].source.id} + ImportedProjects(imports[1..])
    ensures ImportedWorkspaces(imports) == WorkspaceIds(imports[0].workspaces) + ImportedWorkspaces(imports[1..])
  {
    var rest := imports[1..];
    forall k | 0 < k < |imports|
      ensures imports[k].source.id in ImportedProjects(rest)
      ensures WorkspaceIds(imports[k].workspaces) <= ImportedWorkspaces(rest)
    {
      assert rest[k - 1] == imports[k];
    }
    forall k | 0 <= k < |rest|
      ensures rest[k].source.id in ImportedProjects(imports)
      ensures WorkspaceIds(rest[k].workspaces) <= ImportedWorkspaces(imports)
    {
      assert imports[k + 1] == rest[k];
    }
  }

  lemma ProjectsAddedHead(db: Database, mid: Database, after: Database, imports: seq<ProjectImport>)
    requires imports != [] && imports[0].source.id !in db.projects && ProjectAdded(db, mid, imports[0])
    requires ProjectsAdded(mid, after, imports[1..])
    ensures ProjectsAdded(db, after, imports)
  {
    assert |mid.projects.Keys| == |db.projects.Keys| + 1;
    ImportedHead(imports);
    UnionRegroups(db.projects.Keys, {imports[0].source.id}, ImportedProjects(imports[1..]));
    UnionRegroups(db.workspaces.Keys, WorkspaceIds(imports[0].workspaces), ImportedWorkspaces(imports[1..]));
  }

  lemma UnionRegroups(a: set<Id>, b: set<Id>, c: set<Id>)
    ensures a + b + c == a + (b + c)
  {
  }

  lemma FirstProjectGoesIn(db: Database, imports: seq<ProjectImport>, existing: set<Id>) returns (next: Database)
    requires imports != [] && ImportReady(db, imports[0], existing)
    ensures ProjectAdded(db, next, imports[0]) && imports[0].source.id !in db.projects
    ensures ApplyProjects(db, imports, existing) == ApplyProjects(next, imports[1..], existing)
  {
    var p := imports[0];
    var db1 := InsertProjectRow(db, ProjectRow(p)).value;
    WorkspacesGoIn(db1, p.source.id, p.workspaces, existing);
    next := ApplyWorkspaces(db1, p.source.id, p.workspaces, existing).value;
  }

  lemma {:induction false} ProjectsGoIn(db: Database, imports: seq<ProjectImport>, existing: set<Id>)
    requires ImportsReady(db, imports, existing)
    ensures ApplyProjects(db, imports, existing).Ok?
    ensures ProjectsAdded(db, ApplyProjects(db, imports, existing).value, imports)
    decreases |imports|
  {
    if imports != [] {
      assert ImportReady(db, imports[0], existing);
      var next := FirstProjectGoesIn(db, imports, existing);
      ImportsStillReady(db, next, imports, existing);
      ProjectsGoIn(next, imports[1..], existing);
      ProjectsAddedHead(db, next, ApplyProjects(next, imports[1..], existing).value, imports);
    }
  }

  /** The planned imports of a well-keyed source satisfy `ImportsReady`. */
  lemma PlannedImportsReady(ids: seq<Id>, source: Source, target: Database)
    requires Distinct(ids) && UniqueBy(source.workspaces, WorkspaceId)
    ensures ImportsReady(target, ProjectImportsFor(ids, source, target), target.workspaces.Keys)
    ensures NewImports(target, ProjectImportsFor(ids, source, target)) == ProjectImportsFor(ids, source, target)
  {
    var imports := ProjectImportsFor(ids, source, target);
    ImportShape(ids, source, target);
    forall k | 0 <= k < |imports| ensures ImportReady(target, imports[k], target.workspaces.Keys) {
      assert ImportOf(ids, source, target, imports[k]);
      PlannedWorkspaces(source.workspaces, imports[k].source.id);
    }
    forall j, k | 0 <= j < k < |imports| ensures Apart(imports[j], imports[k]) {
      assert ImportOf(ids, source, target, imports[j]) && ImportOf(ids, source, target, imports[k]);
      PlannedWorkspaces(source.workspaces, imports[j].source.id);
      PlannedWorkspaces(source.workspaces, imports[k].source.id);
      ImportsApart(source.workspaces, imports[j], imports[k]);
    }
    assert forall k :: 0 <= k < |imports| ==> ImportReady(target, imports[k], target.workspaces.Keys);
    AllNew(target, imports);
  }

  lemma ImportsApart(all: seq<Workspace>, p: ProjectImport, q: ProjectImport)
    requires UniqueBy(all, WorkspaceId) && p.source.id != q.source.id
    requires forall w :: w in p.workspaces ==> w in all && w.projectId == p.source.id
    requires forall w :: w in q.workspaces ==> w in all && w.projectId == q.source.id
    ensures Apart(p, q)
  {
    forall i | i in WorkspaceIds(p.workspaces) && i in WorkspaceIds(q.workspaces) ensures false {
      var v :| 0 <= v < |p.workspaces| && p.workspaces[v].id == i;
      var w :| 0 <= w < |q.workspaces| && q.workspaces[w].id == i;
      assert p.workspaces[v] in p.workspaces && q.workspaces[w] in q.workspaces;
      UniqueByKey(all, WorkspaceId, p.workspaces[v], q.workspaces[w]);
    }
  }

  lemma {:induction false} AllNew(db: Database, imports: seq<ProjectImport>)
    requires forall k :: 0 <= k < |imports| ==> imports[k].source.id !in db.projects
    ensures NewImports(db, imports) == imports
  {
    if imports != [] { AllNew(db, imports[1..]); }
  }

  lemma PlannedWorkspaces(all: seq<Workspace>, projectId: Id)
    requires UniqueBy(all, WorkspaceId)
    ensures var rows := Sort(WorkspacesOf(all, projectId), WorkspaceNoLater);
      UniqueBy(rows, WorkspaceId) && forall w :: w in rows ==> w in all && w.projectId == projectId
  {
    WorkspacesOfKeyed(all, projectId);
    SortPermutes(WorkspacesOf(all, projectId), WorkspaceNoLater);
    UniqueByPermuted(WorkspacesOf(all, projectId), Sort(WorkspacesOf(all, projectId), WorkspaceNoLater), WorkspaceId);
  }

  lemma {:induction false} WorkspacesOfKeyed(all: seq<Workspace>, projectId: Id)
    requires UniqueBy(all, WorkspaceId)
    ensures UniqueBy(WorkspacesOf(all, projectId), WorkspaceId)
    ensures forall w :: w in WorkspacesOf(all, projectId) ==> w in all && w.projectId == projectId
  {
    if all != [] {
      var front, last := all[..|all| - 1], all[|all| - 1];
      WorkspacesOfKeyed(front, projectId);
      var before := WorkspacesOf(front, projectId);
      forall k | 0 <= k < |before| ensures before[k].id != last.id {
        assert before[k] in front;
        var j :| 0 <= j < |front| && front[j] == before[k];
        assert WorkspaceId(all[j]) != WorkspaceId(all[|all| - 1]);
      }
    }
  }

  ghost predicate Requested(ids: seq<Id>, id: Id) { id in ids }

  lemma RequestedFront(ids: seq<Id>)
    requires ids != [] && Distinct(ids)
    ensures Requested(ids, ids[|ids| - 1]) && !Requested(ids[..|ids| - 1], ids[|ids| - 1])
    ensures forall id :: Requested(ids[..|ids| - 1], id) ==> Requested(ids, id)
  {
    assert ids == ids[..|ids| - 1] + [ids[|ids| - 1]];
  }

  /** The import of a requested source project that the target lacks. */
  ghost predicate ImportOf(ids: seq<Id>, source: Source, target: Database, p: ProjectImport) {
    && Requested(ids, p.source.id) && p.source.id !in target.projects
    && FindProject(source.projects, p.source.id) == Some(p.source) && p == ProjectImportFor(p.source, source, target)
  }

  lemma {:induction false} ImportRequested(ids: seq<Id>, source: Source, target: Database, k: nat)
    requires k < |ProjectImportsFor(ids, source, target)|
    ensures ImportOf(ids, source, target, ProjectImportsFor(ids, source, target)[k])
  {
    var front, last := ids[..|ids| - 1], ids[|ids| - 1];
    assert ids == front + [last];
    FoundProject(source.projects, last);
    if k < |ProjectImportsFor(front, source, target)| {
      ImportRequested(front, source, target, k);
    }
  }

  lemma {:induction false} RequestImported(ids: seq<Id>, source: Source, target: Database, id: Id)
    requires id in ids && id !in target.projects && FindProject(source.projects, id).Some?
    ensures id in ImportedProjects(ProjectImportsFor(ids, source, target))
  {
    var front, last := ids[..|ids| - 1], ids[|ids| - 1];
    assert ids == front + [last];
    var imports := ProjectImportsFor(ids, source, target);
    if id == last {
      FoundProject(source.projects, last);
      assert imports[|imports| - 1].source.id == id;
    } else {
      RequestImported(front, source, target, id);
      var k :| 0 <= k < |ProjectImportsFor(front, source, target)|
        && ProjectImportsFor(front, source, target)[k].source.id == id;
      assert imports[k].source.id == id;
    }
  }

  lemma {:induction false} ImportsDistinct(ids: seq<Id>, source: Source, target: Database)
    requires Distinct(ids)
    ensures var imports := ProjectImportsFor(ids, source, target);
      forall j, k :: 0 <= j < k < |imports| ==> imports[j].source.id != imports[k].source.id
  {
    if ids != [] {
      var front, last := ids[..|ids| - 1], ids[|ids| - 1];
      var before, imports := ProjectImportsFor(front, source, target), ProjectImportsFor(ids, source, target);
      ImportsDistinct(front, source, target);
      FoundProject(source.projects, last);
      RequestedFront(ids);
      forall j, k | 0 <= j < k < |imports| ensures imports[j].source.id != imports[k].source.id {
        assert imports[j] == before[j];
        ImportRequested(front, source, target, j);
        if k < |before| { assert imports[k] == before[k]; }
      }
    }
  }

  /** The planned imports are the requested source projects that the target lacks, each once, and nothing else. */
  lemma ImportShape(ids: seq<Id>, source: Source, target: Database)
    requires Distinct(ids)
    ensures var imports := ProjectImportsFor(ids, source, target);
      && (forall k :: 0 <= k < |imports| ==> ImportOf(ids, source, target, imports[k]))
      && (forall j, k :: 0 <= j < k < |imports| ==> imports[j].source.id != imports[k].source.id)
      && (forall id :: id in ids && id !in target.projects && FindProject(source.projects, id).Some? ==>
            id in ImportedProjects(imports))
  {
    var imports := ProjectImportsFor(ids, source, target);
    ImportsDistinct(ids, source, target);
    forall k | 0 <= k < |imports| ensures ImportOf(ids, source, target, imports[k]) {
      ImportRequested(ids, source, target, k);
    }
    forall id | id in ids && id !in target.projects && FindProject(source.projects, id).Some?
      ensures id in ImportedProjects(imports)
    {
      RequestImported(ids, source, target, id);
    }
  }

  lemma {:induction false} DedupDistinct(ids: seq<Id>)
    ensures Distinct(Dedup(ids)) && forall i :: i in Dedup(ids) <==> i in ids
  {
    if ids != [] {
      DedupDistinct(ids[..|ids| - 1]);
      assert ids == ids[..|ids| - 1] + [ids[|ids| - 1]];
    }
  }

  /* ---- comments ---- */

  function CommentSource(p: CommentPlan): Id { p.source.id }

  ghost predicate CommentReady(db: Database, p: CommentPlan) {
    p.InsertComment? ==>
      p.source.id !in db.comments && p.source.issueId in db.issues && RefOk(p.targetAuthorAgentId, db.agents)
  }

  ghost predicate CommentsReady(db: Database, plans: seq<CommentPlan>, existing: set<Id>) {
    && existing <= db.comments.Keys && UniqueBy(plans, CommentSource)
    && forall k :: 0 <= k < |plans| ==> CommentReady(db, plans[k])
  }

  lemma {:induction false} CommentsGoIn(db: Database, plans: seq<CommentPlan>, existing: set<Id>)
    requires CommentsReady(db, plans, existing)
    ensures var r := ApplyComments(db, plans, existing);
      && r.Ok? && r.value == db.(comments := r.value.comments)
      && r.value.comments.Keys == db.comments.Keys + InsertedCommentIds(plans)
    decreases |plans|
  {
    if plans != [] {
      UniqueByTail(plans, CommentSource);
      InsertedCommentHead(plans);
      assert CommentReady(db, plans[0]);
      if plans[0].InsertComment? {
        var db1 := InsertCommentRow(db, plans[0].source.(authorAgentId := plans[0].targetAuthorAgentId)).value;
        forall k | 0 <= k < |plans[1..]| ensures CommentReady(db1, plans[1..][k]) {
          assert CommentReady(db, plans[k + 1]) && plans[1..][k] in plans[1..];
        }
        CommentsGoIn(db1, plans[1..], existing);
      } else {
        CommentsGoIn(db, plans[1..], existing);
      }
    }
  }

  lemma InsertedCommentHead(plans: seq<CommentPlan>)
    requires plans != []
    ensures InsertedCommentIds(plans)
         == InsertedCommentIds(plans[1..]) + if plans[0].InsertComment? then {plans[0].source.id} else {}
  {
    forall i | i in InsertedCommentIds(plans) && !(plans[0].InsertComment? && plans[0].source.id == i)
      ensures i in InsertedCommentIds(plans[1..])
    {
      var k :| 0 <= k < |plans| && plans[k].InsertComment? && plans[k].source.id == i;
      assert plans[1..][k - 1] == plans[k];
    }
    forall i | i in InsertedCommentIds(plans[1..]) ensures i in InsertedCommentIds(plans) {
      var k :| 0 <= k < |plans[1..]| && plans[1..][k].InsertComment? && plans[1..][k].source.id == i;
      assert plans[k + 1] == plans[1..][k];
    }
  }

  lemma PlannedCommentsReady(rows: seq<Comment>, target: Database, issues: set<Id>, db: Database)
    requires UniqueBy(rows, CommentId)
    requires db.comments == target.comments && db.agents == target.agents && issues <= db.issues.Keys
    ensures CommentsReady(db, CommentPlansFor(rows, target, issues), db.comments.Keys)
  {
    var plans := CommentPlansFor(rows, target, issues);
    forall j, k | 0 <= j < k < |plans| ensures CommentSource(plans[j]) != CommentSource(plans[k]) {
      assert CommentId(rows[j]) != CommentId(rows[k]);
    }
  }

  /* ---- attachments ---- */

  function AttachmentSource(p: AttachmentPlan): Id { p.source.id }
  function AttachmentSourceAsset(p: AttachmentPlan): Id { p.source.assetId }
  function AttachmentSourceObject(p: AttachmentPlan): string { p.source.objectKey }

  ghost predicate AttachmentReady(db: Database, p: AttachmentPlan) {
    p.InsertAttachment? ==>
      && p.source.id !in db.attachments && p.source.issueId in db.issues
      && RefOk(p.targetCreatedByAgentId, db.agents) && RefOk(p.targetIssueCommentId, db.comments.Keys)
      && p.source.assetId !in db.assets
      && (forall a :: a in db.assets ==> db.assets[a].objectKey != p.source.objectKey)
  }

  ghost predicate AttachmentsReady(db: Database, plans: seq<AttachmentPlan>, existing: set<Id>) {
    && existing <= db.attachments.Keys
    && (forall a :: a in db.attachments ==> db.attachments[a].assetId in db.assets)
    && UniqueBy(plans, AttachmentSource) && UniqueBy(plans, AttachmentSourceAsset)
      && UniqueBy(plans, AttachmentSourceObject)
    && forall k :: 0 <= k < |plans| ==> AttachmentReady(db, plans[k])
  }

  /** The attachments whose bodies some storage can serve. */
  function ServedIds(plans: seq<AttachmentPlan>, bodies: set<string>): (ids: set<Id>)
    ensures forall i :: i in ids <==>
      exists k ::
        0 <= k < |plans| && plans[k].InsertAttachment? && plans[k].source.objectKey in bodies && plans[k].source.id == i
  {
    set k | 0 <= k < |plans| && plans[k].InsertAttachment? && plans[k].source.objectKey in bodies :: plans[k].source.id
  }

  lemma ServedHead(plans: seq<AttachmentPlan>, bodies: set<string>)
    requires plans != []
    ensures ServedIds(plans, bodies) == ServedIds(plans[1..], bodies)
      + if plans[0].InsertAttachment? && plans[0].source.objectKey in bodies then {plans[0].source.id} else {}
  {
    forall i | i in ServedIds(plans, bodies)
      && !(plans[0].InsertAttachment? && plans[0].source.objectKey in bodies && plans[0].source.id == i)
      ensures i in ServedIds(plans[1..], bodies)
    {
      var k :| 0 <= k < |plans| && plans[k].InsertAttachment? && plans[k].source.objectKey in bodies
        && plans[k].source.id == i;
      assert plans[1..][k - 1] == plans[k];
    }
    forall i | i in ServedIds(plans[1..], bodies) ensures i in ServedIds(plans, bodies) {
      var k :| 0 <= k < |plans[1..]| && plans[1..][k].InsertAttachment? && plans[1..][k].source.objectKey in bodies
        && plans[1..][k].source.id == i;
      assert plans[k + 1] == plans[1..][k];
    }
  }

  function PutAttachment(db: Database, p: AttachmentPlan): Database
    requires p.InsertAttachment?
  {
    db.(assets := db.assets[p.source.assetId := Asset(p.source.objectKey, p.targetCreatedByAgentId)],
        attachments := db.attachments[p.source.id := AttachmentRow(p.source.issueId, p.source.assetId,
          p.targetIssueCommentId)])
  }

  lemma AttachmentsReadyTail(db: Database, plans: seq<AttachmentPlan>, existing: set<Id>)
    requires AttachmentsReady(db, plans, existing) && plans != []
    ensures AttachmentsReady(db, plans[1..], existing)
    ensures plans[0].InsertAttachment? ==> AttachmentsReady(PutAttachment(db, plans[0]), plans[1..], existing)
  {
    UniqueByTail(plans, AttachmentSource);
    UniqueByTail(plans, AttachmentSourceAsset);
    UniqueByTail(plans, AttachmentSourceObject);
    if plans[0].InsertAttachment? {
      var db1 := PutAttachment(db, plans[0]);
      forall k | 0 <= k < |plans[1..]| ensures AttachmentReady(db1, plans[1..][k]) {
        assert AttachmentReady(db, plans[k + 1]) && plans[1..][k] in plans[1..];
        assert AttachmentSource(plans[1..][k]) != AttachmentSource(plans[0]);
        assert AttachmentSourceAsset(plans[1..][k]) != AttachmentSourceAsset(plans[0]);
        assert AttachmentSourceObject(plans[1..][k]) != AttachmentSourceObject(plans[0]);
      }
    }
  }

  lemma {:induction false} AttachmentsGoIn(db: Database, plans: seq<AttachmentPlan>, existing: set<Id>,
        bodies: set<string>)
    requires AttachmentsReady(db, plans, existing)
    ensures var r := ApplyAttachments(db, plans, existing, bodies);
      && r.Ok? && r.value == db.(assets := r.value.assets, attachments := r.value.attachments)
      && r.value.attachments.Keys == db.attachments.Keys + ServedIds(plans, bodies)
    decreases |plans|
  {
    if plans != [] {
      var p := plans[0];
      AttachmentsReadyTail(db, plans, existing);
      ServedHead(plans, bodies);
      assert AttachmentReady(db, p);
      if p.InsertAttachment? && p.source.objectKey in bodies {
        AttachmentRowsGoIn(db, p, existing);
        AttachmentsGoIn(PutAttachment(db, p), plans[1..], existing, bodies);
      } else {
        AttachmentsGoIn(db, plans[1..], existing, bodies);
      }
    }
  }

  lemma AttachmentRowsGoIn(db: Database, p: AttachmentPlan, existing: set<Id>)
    requires p.InsertAttachment? && AttachmentReady(db, p) && existing <= db.attachments.Keys
    requires forall a :: a in db.attachments ==> db.attachments[a].assetId in db.assets
    ensures p.source.id !in existing
    ensures var r := InsertAssetRow(db, p.source.assetId, Asset(p.source.objectKey, p.targetCreatedByAgentId));
      && r.Ok?
      && InsertAttachmentRow(r.value, p.source.id,
        AttachmentRow(p.source.issueId, p.source.assetId, p.targetIssueCommentId))
         == Ok(PutAttachment(db, p))
  {
  }
}
