/** Planning again after a merge: there is nothing left to do. */
module MergeAgain {
  import opened Basics
  import opened MergeModel
  import opened RevisionNumbers
  import opened MergePlanner
  import opened MergeApply
  import opened MergeTheorems
  import opened MergeFinal
  import I = MergeIssues
  import R = MergeRows
  import D = MergeDocuments

  /* ---- revision numbers looked up by id ---- */

  lemma {:induction false} TargetLookup(target: seq<Revision>)
    requires UniqueBy(target, D.RevisionId)
    ensures TargetNumbers(target).Keys == IdsIn(target)
    ensures forall r :: r in target ==> TargetNumbers(target)[r.id] == r.revisionNumber
  {
    if target != [] {
      var front, last := target[..|target| - 1], target[|target| - 1];
      assert target == front + [last];
      assert UniqueBy(front, D.RevisionId);
      TargetLookup(front);
      IdsInStep(front, last);
      forall r | r in target ensures TargetNumbers(target)[r.id] == r.revisionNumber {
        if r.id != last.id {
          assert r in front;
        } else {
          assert last in target;
          UniqueByKey(target, D.RevisionId, r, last);
        }
      }
    }
  }

  lemma IdsInStep(front: seq<Revision>, last: Revision)
    ensures IdsIn(front + [last]) == IdsIn(front) + {last.id}
  {
    var all := front + [last];
    forall i | i in IdsIn(all) ensures i in IdsIn(front) + {last.id} {
      var k :| 0 <= k < |all| && all[k].id == i;
      if k < |front| { assert front[k].id == i; }
    }
    forall i | i in IdsIn(front) + {last.id} ensures i in IdsIn(all) {
      if i in IdsIn(front) {
        var k :| 0 <= k < |front| && front[k].id == i;
        assert all[k].id == i;
      } else {
        assert all[|front|].id == i;
      }
    }
  }

  lemma {:induction false} PlannedLookup(target: seq<Revision>, plans: seq<RevisionPlan>)
    requires UniqueBy(target, D.RevisionId) && UniqueBy(plans, D.PlannedRevisionId)
    requires forall k :: 0 <= k < |plans| ==> plans[k].source.id !in IdsIn(target)
    ensures forall i ::
      i in PlannedNumbers(target, plans)
      <==> i in IdsIn(target) || exists k :: 0 <= k < |plans| && plans[k].source.id == i
    ensures forall r :: r in target ==> PlannedNumbers(target, plans)[r.id] == r.revisionNumber
    ensures forall k :: 0 <= k < |plans| ==>
      PlannedNumbers(target, plans)[plans[k].source.id] == plans[k].targetRevisionNumber
  {
    TargetLookup(target);
    if plans != [] {
      var front, last := plans[..|plans| - 1], plans[|plans| - 1];
      assert UniqueBy(front, D.PlannedRevisionId);
      PlannedLookup(target, front);
      forall r | r in target ensures r.id in IdsIn(target) { var k :| 0 <= k < |target| && target[k] == r; }
      LastPlanApart(plans);
    }
  }

  lemma LastPlanApart(plans: seq<RevisionPlan>)
    requires UniqueBy(plans, D.PlannedRevisionId) && plans != []
    ensures forall k :: 0 <= k < |plans| - 1 ==>
      plans[k].source.id != plans[|plans| - 1].source.id && plans[..|plans| - 1][k] == plans[k]
  {
    forall k | 0 <= k < |plans| - 1 ensures plans[k].source.id != plans[|plans| - 1].source.id {
      assert D.PlannedRevisionId(plans[k]) != D.PlannedRevisionId(plans[|plans| - 1]);
    }
  }

  lemma {:induction false} NothingMissing(source: seq<Revision>, existing: set<Id>, used: set<int>, cursor: int,
        agents: set<Id>)
    requires forall r :: r in source ==> r.id in existing
    ensures PlansFrom(source, existing, used, cursor, agents) == []
  {
    if source != [] {
      assert source[0] in source && forall r :: r in source[1..] ==> r in source;
      NothingMissing(source[1..], existing, used, cursor, agents);
    }
  }

  /* ---- one document ---- */

  /** The target's revisions of a document after its planned revisions have been added. */
  ghost predicate Grown(ours: seq<Revision>, plans: seq<RevisionPlan>, grown: seq<Revision>, d: Id) {
    && UniqueBy(grown, D.RevisionId)
    && (forall r :: r in grown <==> r in ours || r in D.RevisionRows(d, plans))
  }

  lemma GrownTarget(source: Source, target: Database, after: Database, d: IssueDocument, write: DocumentWrite)
    requires D.DocumentsMergeable(source, target) && D.DocumentWritten(target, after, d, write)
    requires d.link.issueId in after.issues
    requires write.revisionsToInsert
      == RevisionPlans(SourceRevisions(source, d.documentId), TargetRevisions(target, d.documentId), target.agents)
    ensures Grown(TargetRevisions(target, d.documentId), write.revisionsToInsert, TargetRevisions(after, d.documentId),
      d.documentId)
  {
    var id := d.documentId;
    var theirs, ours := SourceRevisions(source, id), TargetRevisions(target, id);
    var plans, rows := write.revisionsToInsert, D.RevisionRows(id, write.revisionsToInsert);
    var before := RevisionsOf(target.revisions, id);
    D.RevisionsOfMembers(target.revisions, id);
    D.TargetRevisionsOf(source, target, id);
    D.SourceRevisionsOf(source, id);
    D.PlannedRevisions(theirs, ours, target.agents);
    assert RevisionsOf(after.revisions, id) == before + rows;
    GrownUnique(before, ours, plans, id);
    assert Joined(after, id).Some?;
    SortPermutes(before + rows, RevisionNoLater);
    UniqueByPermuted(before + rows, TargetRevisions(after, id), D.RevisionId);
  }

  lemma GrownUnique(before: seq<Revision>, ours: seq<Revision>, plans: seq<RevisionPlan>, d: Id)
    requires UniqueBy(before, D.RevisionId) && UniqueBy(plans, D.PlannedRevisionId)
    requires forall r :: r in before ==> r in ours
    requires forall k :: 0 <= k < |plans| ==> plans[k].source.id !in IdsIn(ours)
    ensures UniqueBy(before + D.RevisionRows(d, plans), D.RevisionId)
  {
    var rows := D.RevisionRows(d, plans);
    var all := before + rows;
    forall i, j | 0 <= i < j < |all| ensures D.RevisionId(all[i]) != D.RevisionId(all[j]) {
      if j >= |before| {
        var q := plans[j - |before|];
        if i < |before| {
          assert before[i] in before;
          var m :| 0 <= m < |ours| && ours[m] == before[i];
        } else {
          assert D.PlannedRevisionId(plans[i - |before|]) != D.PlannedRevisionId(q);
        }
      } else {
        assert D.RevisionId(before[i]) != D.RevisionId(before[j]);
      }
    }
  }

  /** Looking the latest revision up again gives the number that was written. */
  lemma SameLatest(document: IssueDocument, latest: Option<Id>, ours: seq<Revision>, plans: seq<RevisionPlan>,
        grown: seq<Revision>)
    requires UniqueBy(ours, D.RevisionId) && UniqueBy(plans, D.PlannedRevisionId)
    requires forall k :: 0 <= k < |plans| ==> plans[k].source.id !in IdsIn(ours)
    requires Grown(ours, plans, grown, document.documentId)
    ensures LatestRevisionNumber(document, latest, TargetNumbers(grown))
      == LatestRevisionNumber(document, latest, PlannedNumbers(ours, plans))
  {
    TargetLookup(grown);
    PlannedLookup(ours, plans);
    if latest.Some? {
      var i := latest.value;
      if i in IdsIn(grown) { GrownIds(ours, plans, grown, document.documentId, i); }
      var rows := D.RevisionRows(document.documentId, plans);
      if i in IdsIn(ours) {
        var k :| 0 <= k < |ours| && ours[k].id == i;
        assert ours[k] in ours && ours[k] in grown;
        InIds(grown, ours[k]);
      } else if k :| 0 <= k < |plans| && plans[k].source.id == i {
        assert rows[k] in rows && rows[k] in grown;
        InIds(grown, rows[k]);
      } else {
        assert i !in IdsIn(grown);
      }
    }
  }

  /** Ids of the grown revisions come from the old ones or the plans. */
  lemma GrownIds(ours: seq<Revision>, plans: seq<RevisionPlan>, grown: seq<Revision>, d: Id, i: Id)
    requires Grown(ours, plans, grown, d) && i in IdsIn(grown)
    ensures i in IdsIn(ours) || exists k :: 0 <= k < |plans| && plans[k].source.id == i
  {
    var k :| 0 <= k < |grown| && grown[k].id == i;
    assert grown[k] in grown;
    if grown[k] in ours {
      InIds(ours, grown[k]);
    } else {
      var rows := D.RevisionRows(d, plans);
      var m :| 0 <= m < |rows| && rows[m] == grown[k];
      assert plans[m].source.id == i;
    }
  }

  lemma InIds(revisions: seq<Revision>, r: Revision)
    requires r in revisions
    ensures r.id in IdsIn(revisions)
  {
    var k :| 0 <= k < |revisions| && revisions[k] == r;
  }

  lemma GrownHas(ours: seq<Revision>, plans: seq<RevisionPlan>, grown: seq<Revision>, d: Id, r: Revision)
    requires Grown(ours, plans, grown, d) && (r.id in IdsIn(ours) || D.IsPlanned(plans, r))
    ensures r.id in IdsIn(grown)
  {
    if r.id in IdsIn(ours) {
      var k :| 0 <= k < |ours| && ours[k].id == r.id;
      assert ours[k] in ours;
      InIds(grown, ours[k]);
    } else {
      var k :| 0 <= k < |plans| && plans[k].source == r;
      assert D.RevisionRows(d, plans)[k] in D.RevisionRows(d, plans);
      InIds(grown, D.RevisionRows(d, plans)[k]);
    }
  }

  lemma NoRevisionsAgain(source: Source, target: Database, after: Database, d: IssueDocument, write: DocumentWrite)
    requires D.DocumentsMergeable(source, target)
    requires write.revisionsToInsert
      == RevisionPlans(SourceRevisions(source, d.documentId), TargetRevisions(target, d.documentId), target.agents)
    requires Grown(TargetRevisions(target, d.documentId), write.revisionsToInsert, TargetRevisions(after, d.documentId),
      d.documentId)
    ensures RevisionPlans(SourceRevisions(source, d.documentId), TargetRevisions(after, d.documentId), after.agents)
      == []
  {
    var theirs, ours := SourceRevisions(source, d.documentId), TargetRevisions(target, d.documentId);
    var grown := TargetRevisions(after, d.documentId);
    D.SourceRevisionsOf(source, d.documentId);
    D.PlannedRevisions(theirs, ours, target.agents);
    forall r | r in theirs ensures r.id in IdsIn(grown) {
      assert r.id in IdsIn(ours) || D.IsPlanned(write.revisionsToInsert, r);
      GrownHas(ours, write.revisionsToInsert, grown, d.documentId, r);
    }
    NothingMissing(theirs, IdsIn(grown), NumbersIn(grown), MaxNumber(grown) + 1, after.agents);
  }

  lemma WrittenMatches(source: Source, target: Database, after: Database, d: IssueDocument, issues: set<Id>)
    requires D.DocumentsMergeable(source, target) && after.agents == target.agents
    requires d.link.issueId in after.issues
    requires D.DocumentWritten(target, after, d, WriteFor(d, source, target))
    ensures Joined(after, d.documentId).Some?
    ensures AlreadyMatches(d, Joined(after, d.documentId).value, WriteFor(d, source, after))
  {
    var write := WriteFor(d, source, target);
    var ours, plans := TargetRevisions(target, d.documentId), write.revisionsToInsert;
    GrownTarget(source, target, after, d, write);
    NoRevisionsAgain(source, target, after, d, write);
    D.TargetRevisionsOf(source, target, d.documentId);
    D.SourceRevisionsOf(source, d.documentId);
    D.PlannedRevisions(SourceRevisions(source, d.documentId), ours, target.agents);
    SameLatest(d, write.latestRevisionId, ours, plans, TargetRevisions(after, d.documentId));
  }

  lemma DocumentAgain(source: Source, target: Database, after: Database, d: IssueDocument, issues: set<Id>)
    requires D.DocumentsMergeable(source, target) && d in source.documents && after.agents == target.agents
    requires issues == after.issues.Keys && target.issues.Keys <= issues
    requires var p := DocumentPlanFor(d, source, target, issues);
      if p.Writes() then D.DocumentWritten(target, after, d, p.write) else D.SameDocument(target, after, d.documentId)
    ensures !DocumentPlanFor(d, source, after, issues).Writes()
  {
    var p := DocumentPlanFor(d, source, target, issues);
    if d.link.issueId in issues {
      var k :| 0 <= k < |source.documents| && source.documents[k] == d;
      assert !SlotTaken(d, target);
      if p.Writes() {
        WrittenMatches(source, target, after, d, issues);
      } else {
        assert Joined(after, d.documentId) == Joined(target, d.documentId);
        assert TargetRevisions(after, d.documentId) == TargetRevisions(target, d.documentId);
        assert WriteFor(d, source, after) == WriteFor(d, source, target);
      }
    }
  }

  /* ---- the whole plan ---- */

  lemma {:induction false} NoImportsAgain(ids: seq<Id>, source: Source, after: Database)
    requires forall id :: id in ids && FindProject(source.projects, id).Some? ==> id in after.projects
    ensures ProjectImportsFor(ids, source, after) == []
  {
    if ids != [] {
      assert ids == ids[..|ids| - 1] + [ids[|ids| - 1]];
      NoImportsAgain(ids[..|ids| - 1], source, after);
    }
  }

  lemma {:induction false} NoIssuesAgain(order: seq<Issue>, last: int, ctx: Context)
    requires forall x :: x in order ==> x.id in ctx.target.issues
    ensures forall p :: p in IssuePlansFrom(order, last, ctx) ==> p.SkipIssue?
  {
    if order != [] {
      assert order[0] in order;
      NoIssuesAgain(order[1..], last, ctx);
    }
  }

  /** Nothing is planned except attachments whose bodies no storage could serve. */
  ghost predicate NothingToDo(again: MergePlan, plan: MergePlan, bodies: set<string>) {
    && again.projectImports == []
    && (forall p :: p in again.issuePlans ==> p.SkipIssue?)
    && (forall p :: p in again.commentPlans ==> !p.InsertComment?)
    && (forall p :: p in again.documentPlans ==> !p.Writes())
    && |again.attachmentPlans| == |plan.attachmentPlans|
    && (forall k :: 0 <= k < |plan.attachmentPlans| ==>
          (again.attachmentPlans[k].InsertAttachment? <==>
             plan.attachmentPlans[k].InsertAttachment? && plan.attachmentPlans[k].source.objectKey !in bodies)
          && again.attachmentPlans[k].source == plan.attachmentPlans[k].source)
  }

  lemma IssuesAgain(source: Source, target: Database, after: Database, plan: MergePlan, request: Request,
        order: seq<Issue>)
    requires after.issues.Keys == target.issues.Keys + I.IssueIds(source.issues)
      == AvailableIssues(target, plan.issuePlans)
    requires multiset(order) == multiset(source.issues)
    ensures var plans := IssuePlansFrom(order, after.issueCounter, ContextFor(source, after, request));
      && (forall p :: p in plans ==> p.SkipIssue?)
      && AvailableIssues(after, plans) == AvailableIssues(target, plan.issuePlans)
  {
    SameElements(order, source.issues);
    forall x | x in order ensures x.id in after.issues {
      var k :| 0 <= k < |source.issues| && source.issues[k] == x;
      assert source.issues[k].id in I.IssueIds(source.issues);
    }
    var plans := IssuePlansFrom(order, after.issueCounter, ContextFor(source, after, request));
    NoIssuesAgain(order, after.issueCounter, ContextFor(source, after, request));
    forall k | 0 <= k < |plans| ensures !plans[k].InsertIssue? {
      assert plans[k] in plans;
    }
    assert InsertedIssueIds(plans) == {};
  }

  lemma CommentsAgain(rows: seq<Comment>, target: Database, after: Database, issues: set<Id>)
    requires after.comments.Keys == AvailableComments(target, CommentPlansFor(rows, target, issues))
    ensures forall p :: p in CommentPlansFor(rows, after, issues) ==> !p.InsertComment?
  {
    var plans, again := CommentPlansFor(rows, target, issues), CommentPlansFor(rows, after, issues);
    forall k | 0 <= k < |again| ensures !again[k].InsertComment? {
      if plans[k].InsertComment? { assert rows[k].id in InsertedCommentIds(plans); }
    }
  }

  lemma DocumentsAgain(source: Source, target: Database, after: Database, issues: set<Id>)
    requires D.DocumentsMergeable(source, target) && after.agents == target.agents
    requires issues == after.issues.Keys && target.issues.Keys <= issues
    requires D.DocumentsSettled(target, after,
      DocumentPlansFor(Sort(source.documents, DocumentNoLater), source, target, issues))
    ensures forall p :: p in DocumentPlansFor(Sort(source.documents, DocumentNoLater), source, after, issues) ==>
      !p.Writes()
  {
    var rows := Sort(source.documents, DocumentNoLater);
    var plans, again := DocumentPlansFor(rows, source, target, issues), DocumentPlansFor(rows, source, after, issues);
    D.SortedDocuments(source);
    forall k | 0 <= k < |again| ensures !again[k].Writes() {
      assert rows[k] in rows;
      if !plans[k].Writes() { OnlyWriter(rows, plans, k); }
      DocumentAgain(source, target, after, rows[k], issues);
    }
  }

  /** Nobody but its own plan writes a document. */
  lemma OnlyWriter(rows: seq<IssueDocument>, plans: seq<DocumentPlan>, k: nat)
    requires UniqueBy(rows, D.DocumentId) && |plans| == |rows| && k < |rows| && !plans[k].Writes()
    requires forall j :: 0 <= j < |rows| ==> plans[j].source == rows[j]
    ensures D.NotWritten(plans, rows[k].documentId)
  {
    forall j: int ensures !D.Writer(plans, j, rows[k].documentId) {
      if 0 <= j < |plans| && j != k { assert D.DocumentId(rows[j]) != D.DocumentId(rows[k]); }
    }
  }

  lemma AttachmentsAgain(rows: seq<Attachment>, target: Database, after: Database, issues: set<Id>, c1: set<Id>,
        c2: set<Id>, bodies: set<string>)
    requires UniqueBy(rows, R.AttachmentId)
    requires after.attachments.Keys
      == target.attachments.Keys + R.ServedIds(AttachmentPlansFor(rows, target, issues, c1), bodies)
    ensures var plans := AttachmentPlansFor(rows, target, issues, c1);
      var again := AttachmentPlansFor(rows, after, issues, c2);
      forall k :: 0 <= k < |rows| ==>
        (again[k].InsertAttachment? <==> plans[k].InsertAttachment? && plans[k].source.objectKey !in bodies)
        && again[k].source == plans[k].source
  {
    var plans, again := AttachmentPlansFor(rows, target, issues, c1), AttachmentPlansFor(rows, after, issues, c2);
    forall k | 0 <= k < |rows|
      ensures again[k].InsertAttachment? <==> plans[k].InsertAttachment? && plans[k].source.objectKey !in bodies
    {
      ServedIff(rows, plans, bodies, k);
    }
  }

  lemma ServedIff(rows: seq<Attachment>, plans: seq<AttachmentPlan>, bodies: set<string>, k: nat)
    requires UniqueBy(rows, R.AttachmentId) && k < |rows| == |plans|
    requires forall j :: 0 <= j < |rows| ==> plans[j].source == rows[j]
    ensures rows[k].id in R.ServedIds(plans, bodies)
       <==> plans[k].InsertAttachment? && plans[k].source.objectKey in bodies
  {
    if rows[k].id in R.ServedIds(plans, bodies) {
      var j :| 0 <= j < |plans| && plans[j].InsertAttachment? && plans[j].source.objectKey in bodies
        && plans[j].source.id == rows[k].id;
      assert j != k ==> R.AttachmentId(rows[j]) != R.AttachmentId(rows[k]);
    }
  }

  /** Merging again from the same source plans nothing new: no project, issue, comment or document write,
      no revision, and only those attachments whose bodies were missing the first time. */
  lemma MergeReachesFixedPoint(source: Source, target: Database, request: Request, order: seq<Issue>, plan: MergePlan,
        bodies: set<string>, after: Database, order2: seq<Issue>, again: MergePlan)
    requires Mergeable(source, target) && Planned(plan, source, target, request, order)
    requires Apply(target, plan, bodies) == Ok(after)
    requires Planned(again, source, after, request, order2)
    ensures NothingToDo(again, plan, bodies)
  {
    MergeOutcome(source, target, request, order, plan, bodies, after);
    ImportsAgain(source, target, request, plan, after);
    IssuesAgain(source, target, after, plan, request, order2);
    var issues := AvailableIssues(target, plan.issuePlans);
    CommentsAgain(CommentRows(source, request), target, after, issues);
    DocumentsAgain(source, target, after, issues);
    SortedRows(source, target, request);
    AttachmentsAgain(Sort(source.attachments, AttachmentNoLater), target, after, issues,
      AvailableComments(target, plan.commentPlans), AvailableComments(after, again.commentPlans), bodies);
  }

  lemma ImportsAgain(source: Source, target: Database, request: Request, plan: MergePlan, after: Database)
    requires plan.projectImports == ProjectImportsFor(Dedup(request.importProjectIds), source, target)
    requires target.projects.Keys + R.ImportedProjects(plan.projectImports) <= after.projects.Keys
    ensures ProjectImportsFor(Dedup(request.importProjectIds), source, after) == []
  {
    var ids := Dedup(request.importProjectIds);
    R.DedupDistinct(request.importProjectIds);
    R.ImportShape(ids, source, target);
    NoImportsAgain(ids, source, after);
  }

  /* ---- applying a plan with nothing to do ---- */

  lemma {:induction false} NoInserts(db: Database, plans: seq<IssuePlan>)
    requires forall p :: p in plans ==> p.SkipIssue?
    ensures IssueInserts(db, plans) == []
  {
    if plans != [] { assert plans[0] in plans; NoInserts(db, plans[1..]); }
  }

  lemma {:induction false} NoComments(db: Database, plans: seq<CommentPlan>, existing: set<Id>)
    requires forall p :: p in plans ==> !p.InsertComment?
    ensures ApplyComments(db, plans, existing) == Ok(db)
    decreases |plans|
  {
    if plans != [] { assert plans[0] in plans; NoComments(db, plans[1..], existing); }
  }

  lemma {:induction false} NoDocuments(db: Database, plans: seq<DocumentPlan>)
    requires forall p :: p in plans ==> !p.Writes()
    ensures ApplyDocuments(db, plans) == Ok(db)
    decreases |plans|
  {
    if plans != [] { assert plans[0] in plans; NoDocuments(db, plans[1..]); }
  }

  lemma {:induction false} NoAttachments(db: Database, plans: seq<AttachmentPlan>, existing: set<Id>,
        bodies: set<string>)
    requires forall p :: p in plans && p.InsertAttachment? ==> p.source.objectKey !in bodies
    ensures ApplyAttachments(db, plans, existing, bodies) == Ok(db)
    decreases |plans|
  {
    if plans != [] { assert plans[0] in plans; NoAttachments(db, plans[1..], existing, bodies); }
  }

  /** The second merge leaves the target exactly as the first one did. */
  lemma MergeIsIdempotent(source: Source, target: Database, request: Request, order: seq<Issue>, plan: MergePlan,
        bodies: set<string>,
                          after: Database, order2: seq<Issue>, again: MergePlan)
    requires Mergeable(source, target) && Planned(plan, source, target, request, order)
    requires Apply(target, plan, bodies) == Ok(after)
    requires Planned(again, source, after, request, order2)
    ensures Apply(after, again, bodies) == Ok(after)
  {
    MergeReachesFixedPoint(source, target, request, order, plan, bodies, after, order2, again);
    NothingChanges(after, plan, again, bodies);
  }

  lemma NothingChanges(after: Database, plan: MergePlan, again: MergePlan, bodies: set<string>)
    requires NothingToDo(again, plan, bodies)
    ensures Apply(after, again, bodies) == Ok(after)
  {
    assert NewImports(after, []) == [] && ApplyProjects(after, [], after.workspaces.Keys) == Ok(after);
    NoInserts(after, again.issuePlans);
    assert ApplyIssuePhase(after, again.issuePlans) == Ok(after);
    NoComments(after, again.commentPlans, after.comments.Keys);
    NoDocuments(after, again.documentPlans);
    forall p | p in again.attachmentPlans && p.InsertAttachment? ensures p.source.objectKey !in bodies {
      var k :| 0 <= k < |again.attachmentPlans| && again.attachmentPlans[k] == p;
    }
    NoAttachments(after, again.attachmentPlans, after.attachments.Keys, bodies);
  }
}
