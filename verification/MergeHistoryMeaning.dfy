/** What every comment, document, revision and attachment entry of a merge plan says, told from the two
    instances alone. */
module MergeHistoryMeaning {
  import opened Basics
  import opened MergeModel
  import opened MergePlanner
  import RevisionNumbers
  import A = MergeAgain
  import D = MergeDocuments
  import F = MergeFinal
  import I = MergeIssueMeaning
  import T = MergeTheorems

  /* ---- comments and attachments ---- */

  /** The issue is there once the plan's issues are in: either instance has it. */
  ghost predicate IssueThere(source: Source, target: Database, id: Id) {
    id in target.issues || exists i :: i in source.issues && i.id == id
  }

  ghost predicate Dropped(ref: Option<Id>, kept: Option<Id>) {
    ref.Some? && kept.None?
  }

  /** A comment the target has is skipped, and so is one without its issue; any other is imported. */
  ghost predicate CommentSays(p: CommentPlan, source: Source, target: Database) {
    match p
    case SkipExistingComment(c) => c.id in target.comments
    case SkipOrphanComment(c) => c.id !in target.comments && !IssueThere(source, target, c.issueId)
    case InsertComment(c, author, adjustments) =>
      && c.id !in target.comments && IssueThere(source, target, c.issueId)
      && I.KeptOrDropped(c.authorAgentId, target.agents, author)
      && adjustments == if Dropped(c.authorAgentId, author) then [ClearAuthorAgent] else []
  }

  /** The comment is there once the plan's comments are in. */
  ghost predicate CommentThere(plan: MergePlan, target: Database, id: Id) {
    id in target.comments || exists q :: q in plan.commentPlans && q.InsertComment? && q.source.id == id
  }

  ghost predicate AttachmentSays(p: AttachmentPlan, plan: MergePlan, source: Source, target: Database) {
    match p
    case SkipExistingAttachment(a) => a.id in target.attachments
    case SkipOrphanAttachment(a) => a.id !in target.attachments && !IssueThere(source, target, a.issueId)
    case InsertAttachment(a, comment, author, adjustments) =>
      && a.id !in target.attachments && IssueThere(source, target, a.issueId)
      && I.KeptOrDropped(a.createdByAgentId, target.agents, author)
      && adjustments == (if Dropped(a.createdByAgentId, author) then [ClearAttachmentAgent] else [])
      && (comment == None || comment == a.issueCommentId)
      && (comment.Some? <==> a.issueCommentId.Some? && CommentThere(plan, target, a.issueCommentId.value))
  }

  /* ---- documents ---- */

  /** The target shows the document: row, link and the link's issue are there. */
  ghost predicate InTarget(target: Database, d: Id) {
    d in target.documents && d in target.links && target.links[d].issueId in target.issues
  }

  ghost predicate TargetRevision(target: Database, d: Id, r: Revision) {
    InTarget(target, d) && r in target.revisions && r.documentId == d
  }

  /** Another document of the target has the slot. */
  ghost predicate Conflicts(document: IssueDocument, target: Database) {
    exists e :: e != document.documentId && InTarget(target, e)
      && target.links[e].issueId == document.link.issueId && target.links[e].key == document.link.key
  }

  /** The latest revision is the one the source names, and failing that the one the target does; its number is
      the one it has in the target or gets from the plan, and failing both the one the source gives. */
  ghost predicate LatestSays(document: IssueDocument, target: Database, plans: seq<RevisionPlan>, latest: Option<Id>,
        number: int)
  {
    var d := document.documentId;
    && (document.doc.latestRevisionId.Some? ==> latest == document.doc.latestRevisionId)
    && (document.doc.latestRevisionId.None? && InTarget(target, d) ==> latest == target.documents[d].latestRevisionId)
    && (document.doc.latestRevisionId.None? && !InTarget(target, d) ==> latest == None)
    && (forall k :: 0 <= k < |plans| && latest == Some(plans[k].source.id) ==> number == plans[k].targetRevisionNumber)
    && (forall r :: TargetRevision(target, d, r) && latest == Some(r.id) ==> number == r.revisionNumber)
    && ((forall k :: 0 <= k < |plans| ==> latest != Some(plans[k].source.id))
        && (forall r :: TargetRevision(target, d, r) ==> latest != Some(r.id)) ==>
          number == document.doc.latestRevisionNumber)
  }

  ghost predicate RevisionSays(p: RevisionPlan, target: Database) {
    && I.KeptOrDropped(p.source.createdByAgentId, target.agents, p.targetCreatedByAgentId)
    && p.adjustments == if Dropped(p.source.createdByAgentId, p.targetCreatedByAgentId)
         then [ClearDocumentRevisionAgent] else []
  }

  /** By number, then by creation time and id. */
  ghost predicate RevisionBefore(a: Revision, b: Revision) {
    || a.revisionNumber < b.revisionNumber
    || (a.revisionNumber == b.revisionNumber
        && (a.createdAt < b.createdAt || (a.createdAt == b.createdAt && a.id <= b.id)))
  }

  ghost predicate Missing(r: Revision, source: Source, target: Database, d: Id) {
    && r in source.revisions && r.documentId == d
    && forall t :: TargetRevision(target, d, t) ==> t.id != r.id
  }

  ghost predicate WriteSays(document: IssueDocument, write: DocumentWrite, source: Source, target: Database) {
    var plans := write.revisionsToInsert;
    && I.KeptOrDropped(document.doc.createdByAgentId, target.agents, write.targetCreatedByAgentId)
    && I.KeptOrDropped(document.doc.updatedByAgentId, target.agents, write.targetUpdatedByAgentId)
    && write.adjustments == (
         if Dropped(document.doc.createdByAgentId, write.targetCreatedByAgentId)
            || Dropped(document.doc.updatedByAgentId, write.targetUpdatedByAgentId)
         then [ClearDocumentAgent] else [])
    && LatestSays(document, target, plans, write.latestRevisionId, write.latestRevisionNumber)
    && (forall r :: Missing(r, source, target, document.documentId)
         <==> exists k :: 0 <= k < |plans| && plans[k].source == r)
    && (forall k :: 0 <= k < |plans| ==> RevisionSays(plans[k], target))
    && forall i, j :: 0 <= i < j < |plans| ==> RevisionBefore(plans[i].source, plans[j].source)
  }

  /** The target shows the document just as the merge would leave it. */
  ghost predicate Unchanged(document: IssueDocument, source: Source, target: Database) {
    var d := document.documentId;
    && InTarget(target, d)
    && var there := target.documents[d];
       && target.links[d].key == document.link.key && target.links[d].updatedAt == document.link.updatedAt
       && there.title == document.doc.title && there.format == document.doc.format
       && there.latestBody == document.doc.latestBody && there.updatedAt == document.doc.updatedAt
       && there.updatedByUserId == document.doc.updatedByUserId
       && I.KeptOrDropped(document.doc.updatedByAgentId, target.agents, there.updatedByAgentId)
       && LatestSays(document, target, [], there.latestRevisionId, there.latestRevisionNumber)
       && forall r :: !Missing(r, source, target, d)
  }

  ghost predicate DocumentSays(p: DocumentPlan, source: Source, target: Database) {
    var there, shown := IssueThere(source, target, p.source.link.issueId), InTarget(target, p.source.documentId);
    match p
    case SkipOrphanDocument(_) => !there
    case SkipConflictingDocument(d) => there && !shown && Conflicts(d, target)
    case SkipExistingDocument(d) => there && Unchanged(d, source, target)
    case InsertDocument(d, write) => there && !shown && !Conflicts(d, target) && WriteSays(d, write, source, target)
    case MergeDocument(d, write) =>
      there && shown && !Unchanged(d, source, target) && WriteSays(d, write, source, target)
  }

  /* ---- the planner's functions say that ---- */

  lemma AvailableIssuesAre(plan: MergePlan, source: Source, target: Database, request: Request, order: seq<Issue>,
                           id: Id)
    requires T.Planned(plan, source, target, request, order)
    ensures id in AvailableIssues(target, plan.issuePlans) <==> IssueThere(source, target, id)
  {
    T.AvailableIsMerged(target, order, target.issueCounter, ContextFor(source, target, request));
    F.SameIssueIds(source.issues, order);
    if i :| i in source.issues && i.id == id {
      var k :| 0 <= k < |source.issues| && source.issues[k] == i;
    }
  }

  lemma CommentDecided(c: Comment, source: Source, target: Database, issues: set<Id>)
    requires c.issueId in issues <==> IssueThere(source, target, c.issueId)
    ensures CommentSays(CommentPlanFor(c, target, issues), source, target)
  {
    I.KeptIs(c.authorAgentId, target.agents);
  }

  lemma AttachmentDecided(a: Attachment, plan: MergePlan, source: Source, target: Database, issues: set<Id>)
    requires a.issueId in issues <==> IssueThere(source, target, a.issueId)
    ensures AttachmentSays(AttachmentPlanFor(a, target, issues, AvailableComments(target, plan.commentPlans)),
              plan, source, target)
  {
    I.KeptIs(a.createdByAgentId, target.agents);
    if a.issueCommentId.Some? { CommentsAre(plan, target, a.issueCommentId.value); }
  }

  lemma CommentsAre(plan: MergePlan, target: Database, id: Id)
    ensures id in AvailableComments(target, plan.commentPlans) <==> CommentThere(plan, target, id)
  {
    if q :| q in plan.commentPlans && q.InsertComment? && q.source.id == id {
      var k :| 0 <= k < |plan.commentPlans| && plan.commentPlans[k] == q;
    }
  }

  lemma JoinedIs(target: Database, d: Id)
    ensures Joined(target, d).Some? <==> InTarget(target, d)
    ensures InTarget(target, d) ==> Joined(target, d) == Some(IssueDocument(d, target.links[d], target.documents[d]))
  {
  }

  lemma TakenIs(document: IssueDocument, target: Database)
    ensures SlotTaken(document, target) <==> Conflicts(document, target)
  {
    forall e { JoinedIs(target, e); }
  }

  lemma TargetRevisionsAre(target: Database, d: Id)
    requires UniqueBy(target.revisions, D.RevisionId)
    ensures UniqueBy(TargetRevisions(target, d), D.RevisionId)
    ensures forall r :: r in TargetRevisions(target, d) <==> TargetRevision(target, d, r)
  {
    JoinedIs(target, d);
    D.RevisionsOfMembers(target.revisions, d);
    SortPermutes(JoinedRevisions(target, d), RevisionNoLater);
    UniqueByPermuted(JoinedRevisions(target, d), TargetRevisions(target, d), D.RevisionId);
  }

  lemma SourceRevisionsAre(source: Source, d: Id)
    requires UniqueBy(source.revisions, D.RevisionId)
    ensures UniqueBy(SourceRevisions(source, d), D.RevisionId)
    ensures forall r :: r in SourceRevisions(source, d) <==> r in source.revisions && r.documentId == d
    ensures forall i, j :: 0 <= i < j < |SourceRevisions(source, d)| ==>
      RevisionBefore(SourceRevisions(source, d)[i], SourceRevisions(source, d)[j])
  {
    D.SourceRevisionsOf(source, d);
    SortSorts(RevisionsOf(source.revisions, d), RevisionNoLater);
  }

  ghost predicate InOrder(revisions: seq<Revision>) {
    forall i, j :: 0 <= i < j < |revisions| ==> RevisionBefore(revisions[i], revisions[j])
  }

  lemma {:induction false} MissingInOrder(revisions: seq<Revision>, existing: set<Id>)
    requires InOrder(revisions)
    ensures InOrder(RevisionNumbers.Missing(revisions, existing))
  {
    if revisions != [] {
      assert forall k :: 0 <= k < |revisions[1..]| ==> revisions[1..][k] == revisions[k + 1];
      MissingInOrder(revisions[1..], existing);
      D.MissingMembers(revisions[1..], existing);
      var rest := RevisionNumbers.Missing(revisions[1..], existing);
      forall k | 0 <= k < |rest| ensures RevisionBefore(revisions[0], rest[k]) {
        assert rest[k] in rest && rest[k] in revisions[1..];
        var i :| 0 <= i < |revisions[1..]| && revisions[1..][i] == rest[k];
      }
    }
  }

  lemma PlansInOrder(theirs: seq<Revision>, ours: seq<Revision>, agents: set<Id>)
    requires InOrder(theirs)
    ensures var plans := RevisionNumbers.RevisionPlans(theirs, ours, agents);
      forall i, j :: 0 <= i < j < |plans| ==> RevisionBefore(plans[i].source, plans[j].source)
  {
    MissingInOrder(theirs, RevisionNumbers.IdsIn(ours));
    D.PlannedShape(theirs, ours, agents);
  }

  lemma PlansSay(theirs: seq<Revision>, ours: seq<Revision>, target: Database, k: nat)
    requires k < |RevisionNumbers.RevisionPlans(theirs, ours, target.agents)|
    ensures RevisionSays(RevisionNumbers.RevisionPlans(theirs, ours, target.agents)[k], target)
  {
    RevisionNumbers.PlansFromParts(theirs, RevisionNumbers.IdsIn(ours), RevisionNumbers.NumbersIn(ours),
      RevisionNumbers.MaxNumber(ours) + 1, target.agents);
    I.KeptIs(D.PlannedMissing(theirs, ours)[k].createdByAgentId, target.agents);
  }

  lemma InIds(revisions: seq<Revision>, id: Id)
    ensures id in RevisionNumbers.IdsIn(revisions) <==> exists r :: r in revisions && r.id == id
  {
    if id in RevisionNumbers.IdsIn(revisions) {
      var k :| 0 <= k < |revisions| && revisions[k].id == id;
      assert revisions[k] in revisions;
    }
    if r :| r in revisions && r.id == id {
      var k :| 0 <= k < |revisions| && revisions[k] == r;
    }
  }

  lemma MissingIs(source: Source, target: Database, d: Id, r: Revision)
    requires UniqueBy(source.revisions, D.RevisionId) && UniqueBy(target.revisions, D.RevisionId)
    ensures Missing(r, source, target, d)
       <==> r in SourceRevisions(source, d) && r.id !in RevisionNumbers.IdsIn(TargetRevisions(target, d))
  {
    SourceRevisionsAre(source, d);
    TargetRevisionsAre(target, d);
    InIds(TargetRevisions(target, d), r.id);
  }

  function PlansOf(source: Source, target: Database, d: Id): seq<RevisionPlan> {
    RevisionNumbers.RevisionPlans(SourceRevisions(source, d), TargetRevisions(target, d), target.agents)
  }

  lemma PlannedAreMissing(source: Source, target: Database, d: Id)
    requires UniqueBy(source.revisions, D.RevisionId) && UniqueBy(target.revisions, D.RevisionId)
    ensures forall r :: Missing(r, source, target, d) <==> D.IsPlanned(PlansOf(source, target, d), r)
    ensures UniqueBy(PlansOf(source, target, d), D.PlannedRevisionId)
    ensures forall k :: 0 <= k < |PlansOf(source, target, d)| ==>
      PlansOf(source, target, d)[k].source.id !in RevisionNumbers.IdsIn(TargetRevisions(target, d))
  {
    SourceRevisionsAre(source, d);
    D.PlannedRevisions(SourceRevisions(source, d), TargetRevisions(target, d), target.agents);
    forall r ensures Missing(r, source, target, d) <==> D.IsPlanned(PlansOf(source, target, d), r) {
      MissingIs(source, target, d, r);
    }
  }

  /** The lookup the planner keeps gives the number the latest revision has or gets. */
  lemma NumberIs(document: IssueDocument, source: Source, target: Database, latest: Option<Id>)
    requires UniqueBy(source.revisions, D.RevisionId) && UniqueBy(target.revisions, D.RevisionId)
    ensures var d := document.documentId;
      var plans := PlansOf(source, target, d);
      var number := LatestRevisionNumber(document, latest,
        RevisionNumbers.PlannedNumbers(TargetRevisions(target, d), plans));
      && (forall k :: 0 <= k < |plans| && latest == Some(plans[k].source.id) ==>
            number == plans[k].targetRevisionNumber)
      && (forall r :: TargetRevision(target, d, r) && latest == Some(r.id) ==> number == r.revisionNumber)
      && ((forall k :: 0 <= k < |plans| ==> latest != Some(plans[k].source.id))
          && (forall r :: TargetRevision(target, d, r) ==> latest != Some(r.id)) ==>
            number == document.doc.latestRevisionNumber)
  {
    var d := document.documentId;
    var ours, plans := TargetRevisions(target, d), PlansOf(source, target, d);
    TargetRevisionsAre(target, d);
    PlannedAreMissing(source, target, d);
    A.PlannedLookup(ours, plans);
    if latest.Some? { InIds(ours, latest.value); }
    forall r | TargetRevision(target, d, r) && latest == Some(r.id)
      ensures LatestRevisionNumber(document, latest, RevisionNumbers.PlannedNumbers(ours, plans)) == r.revisionNumber
    {
      assert r in ours;
    }
  }

  lemma LatestDecided(document: IssueDocument, source: Source, target: Database)
    requires UniqueBy(source.revisions, D.RevisionId) && UniqueBy(target.revisions, D.RevisionId)
    ensures var write := WriteFor(document, source, target);
      LatestSays(document, target, write.revisionsToInsert, write.latestRevisionId, write.latestRevisionNumber)
  {
    JoinedIs(target, document.documentId);
    NumberIs(document, source, target, WriteFor(document, source, target).latestRevisionId);
  }

  lemma WriteDecided(document: IssueDocument, source: Source, target: Database)
    requires UniqueBy(source.revisions, D.RevisionId) && UniqueBy(target.revisions, D.RevisionId)
    ensures WriteSays(document, WriteFor(document, source, target), source, target)
  {
    var d, write := document.documentId, WriteFor(document, source, target);
    I.KeptIs(document.doc.createdByAgentId, target.agents);
    I.KeptIs(document.doc.updatedByAgentId, target.agents);
    LatestDecided(document, source, target);
    PlannedAreMissing(source, target, d);
    SourceRevisionsAre(source, d);
    PlansInOrder(SourceRevisions(source, d), TargetRevisions(target, d), target.agents);
    forall k | 0 <= k < |write.revisionsToInsert| ensures RevisionSays(write.revisionsToInsert[k], target) {
      PlansSay(SourceRevisions(source, d), TargetRevisions(target, d), target, k);
    }
    forall r ensures Missing(r, source, target, d)
      <==> exists k :: 0 <= k < |write.revisionsToInsert| && write.revisionsToInsert[k].source == r
    {
      assert Missing(r, source, target, d) <==> D.IsPlanned(write.revisionsToInsert, r);
    }
  }

  /** There is only one such revision and number. */
  lemma LatestOnce(document: IssueDocument, target: Database, plans: seq<RevisionPlan>, a: Option<Id>, m: int,
        b: Option<Id>, n: int)
    requires LatestSays(document, target, plans, a, m) && LatestSays(document, target, plans, b, n)
    ensures a == b && m == n
  {
    if k :| 0 <= k < |plans| && a == Some(plans[k].source.id) {
    } else if r :| TargetRevision(target, document.documentId, r) && a == Some(r.id) {
    }
  }

  lemma MatchIs(document: IssueDocument, source: Source, target: Database)
    requires UniqueBy(source.revisions, D.RevisionId) && UniqueBy(target.revisions, D.RevisionId)
    requires InTarget(target, document.documentId)
    ensures AlreadyMatches(document, Joined(target, document.documentId).value, WriteFor(document, source, target))
       <==> Unchanged(document, source, target)
  {
    var d, write := document.documentId, WriteFor(document, source, target);
    var there := target.documents[d];
    JoinedIs(target, d);
    WriteDecided(document, source, target);
    NoneMissingIff(document, source, target);
    if write.revisionsToInsert == [] {
      if LatestSays(document, target, [], there.latestRevisionId, there.latestRevisionNumber) {
        LatestOnce(document, target, [], there.latestRevisionId, there.latestRevisionNumber,
          write.latestRevisionId, write.latestRevisionNumber);
      }
    }
  }

  lemma NoneMissingIff(document: IssueDocument, source: Source, target: Database)
    requires WriteSays(document, WriteFor(document, source, target), source, target)
    ensures WriteFor(document, source, target).revisionsToInsert == []
       <==> forall r :: !Missing(r, source, target, document.documentId)
  {
    var plans := WriteFor(document, source, target).revisionsToInsert;
    if plans != [] { assert Missing(plans[0].source, source, target, document.documentId); }
  }

  lemma DocumentDecided(document: IssueDocument, source: Source, target: Database, issues: set<Id>)
    requires UniqueBy(source.revisions, D.RevisionId) && UniqueBy(target.revisions, D.RevisionId)
    requires document.link.issueId in issues <==> IssueThere(source, target, document.link.issueId)
    ensures DocumentSays(DocumentPlanFor(document, source, target, issues), source, target)
  {
    JoinedIs(target, document.documentId);
    TakenIs(document, target);
    WriteDecided(document, source, target);
    if InTarget(target, document.documentId) { MatchIs(document, source, target); }
  }

  /* ---- the whole plan ---- */

  ghost predicate CommentBefore(a: Comment, b: Comment) {
    a.createdAt < b.createdAt || (a.createdAt == b.createdAt && a.id <= b.id)
  }

  ghost predicate AttachmentBefore(a: Attachment, b: Attachment) {
    a.createdAt < b.createdAt || (a.createdAt == b.createdAt && a.id <= b.id)
  }

  /** By creation of the document, then of its link, then by id. */
  ghost predicate DocumentBefore(a: IssueDocument, b: IssueDocument) {
    || a.doc.createdAt < b.doc.createdAt
    || (a.doc.createdAt == b.doc.createdAt
        && (a.link.createdAt < b.link.createdAt
            || (a.link.createdAt == b.link.createdAt && a.documentId <= b.documentId)))
  }

  ghost predicate CommentsOrdered(plans: seq<CommentPlan>) {
    forall i, j :: 0 <= i < j < |plans| ==> CommentBefore(plans[i].source, plans[j].source)
  }

  ghost predicate DocumentsOrdered(plans: seq<DocumentPlan>) {
    forall i, j :: 0 <= i < j < |plans| ==> DocumentBefore(plans[i].source, plans[j].source)
  }

  ghost predicate AttachmentsOrdered(plans: seq<AttachmentPlan>) {
    forall i, j :: 0 <= i < j < |plans| ==> AttachmentBefore(plans[i].source, plans[j].source)
  }

  lemma CommentsInOrder(source: Source, target: Database, request: Request, issues: set<Id>)
    ensures var rows := if request.includeComments then Sort(source.comments, CommentNoLater) else [];
      CommentsOrdered(CommentPlansFor(rows, target, issues))
  {
    SortSorts(source.comments, CommentNoLater);
  }

  lemma DocumentsInOrder(source: Source, target: Database, issues: set<Id>)
    ensures DocumentsOrdered(DocumentPlansFor(Sort(source.documents, DocumentNoLater), source, target, issues))
  {
    var rows := Sort(source.documents, DocumentNoLater);
    SortSorts(source.documents, DocumentNoLater);
    SourcesOrdered(rows, DocumentPlansFor(rows, source, target, issues));
  }

  lemma SourcesOrdered(rows: seq<IssueDocument>, plans: seq<DocumentPlan>)
    requires Sorted(rows, DocumentNoLater) && |plans| == |rows|
    requires forall k :: 0 <= k < |rows| ==> plans[k].source == rows[k]
    ensures DocumentsOrdered(plans)
  {
    forall i, j | 0 <= i < j < |plans| ensures DocumentBefore(plans[i].source, plans[j].source) {
      assert DocumentNoLater(rows[i], rows[j]);
    }
  }

  lemma AttachmentsInOrder(source: Source, target: Database, issues: set<Id>, comments: set<Id>)
    ensures AttachmentsOrdered(
      AttachmentPlansFor(Sort(source.attachments, AttachmentNoLater), target, issues, comments))
  {
    SortSorts(source.attachments, AttachmentNoLater);
  }

  /** The entries of each kind follow the order of their source rows. */
  lemma HistoryInOrder(plan: MergePlan, source: Source, target: Database, request: Request, order: seq<Issue>)
    requires IsPlan(plan, source, target, request, order)
    ensures CommentsOrdered(plan.commentPlans) && DocumentsOrdered(plan.documentPlans)
    ensures AttachmentsOrdered(plan.attachmentPlans)
  {
    var issues := AvailableIssues(target, plan.issuePlans);
    CommentsInOrder(source, target, request, issues);
    DocumentsInOrder(source, target, issues);
    AttachmentsInOrder(source, target, issues, AvailableComments(target, plan.commentPlans));
  }

  lemma CommentsMean(rows: seq<Comment>, source: Source, target: Database, issues: set<Id>)
    requires forall id :: id in issues <==> IssueThere(source, target, id)
    ensures forall p :: p in CommentPlansFor(rows, target, issues) ==> CommentSays(p, source, target)
  {
    var plans := CommentPlansFor(rows, target, issues);
    forall p | p in plans ensures CommentSays(p, source, target) {
      var k :| 0 <= k < |plans| && plans[k] == p;
      CommentDecided(rows[k], source, target, issues);
    }
  }

  lemma DocumentsMean(rows: seq<IssueDocument>, source: Source, target: Database, issues: set<Id>)
    requires UniqueBy(source.revisions, D.RevisionId) && UniqueBy(target.revisions, D.RevisionId)
    requires forall id :: id in issues <==> IssueThere(source, target, id)
    ensures forall p :: p in DocumentPlansFor(rows, source, target, issues) ==> DocumentSays(p, source, target)
  {
    var plans := DocumentPlansFor(rows, source, target, issues);
    forall p | p in plans ensures DocumentSays(p, source, target) {
      var k :| 0 <= k < |plans| && plans[k] == p;
      DocumentDecided(rows[k], source, target, issues);
    }
  }

  lemma AttachmentsMean(rows: seq<Attachment>, plan: MergePlan, source: Source, target: Database, issues: set<Id>)
    requires forall id :: id in issues <==> IssueThere(source, target, id)
    ensures forall p :: p in AttachmentPlansFor(rows, target, issues, AvailableComments(target, plan.commentPlans)) ==>
      AttachmentSays(p, plan, source, target)
  {
    var plans := AttachmentPlansFor(rows, target, issues, AvailableComments(target, plan.commentPlans));
    forall p | p in plans ensures AttachmentSays(p, plan, source, target) {
      var k :| 0 <= k < |plans| && plans[k] == p;
      AttachmentDecided(rows[k], plan, source, target, issues);
    }
  }

  /** Every comment, document and attachment entry of a plan says what the two instances make it say. */
  lemma HistoryMeans(plan: MergePlan, source: Source, target: Database, request: Request, order: seq<Issue>)
    requires T.Planned(plan, source, target, request, order)
    requires UniqueBy(source.revisions, D.RevisionId) && UniqueBy(target.revisions, D.RevisionId)
    ensures forall p :: p in plan.commentPlans ==> CommentSays(p, source, target)
    ensures forall p :: p in plan.documentPlans ==> DocumentSays(p, source, target)
    ensures forall p :: p in plan.attachmentPlans ==> AttachmentSays(p, plan, source, target)
  {
    var issues := AvailableIssues(target, plan.issuePlans);
    forall id ensures id in issues <==> IssueThere(source, target, id) {
      AvailableIssuesAre(plan, source, target, request, order, id);
    }
    CommentsMean(if request.includeComments then Sort(source.comments, CommentNoLater) else [], source, target, issues);
    DocumentsMean(Sort(source.documents, DocumentNoLater), source, target, issues);
    AttachmentsMean(Sort(source.attachments, AttachmentNoLater), plan, source, target, issues);
  }
}
