/** What the counts and the tally of adjustments of a merge plan count. */
module MergeTallies {
  import opened Basics
  import opened MergeModel
  import opened MergePlanner
  import D = MergeDocuments
  import H = MergeHistoryMeaning
  import I = MergeIssueMeaning
  import T = MergeTheorems

  /* ---- counting positions ---- */

  ghost function Where<T(!new)>(s: seq<T>, p: T -> bool): set<int> {
    set k: int | 0 <= k < |s| && p(s[k])
  }

  lemma WhereStep<T(!new)>(s: seq<T>, p: T -> bool)
    requires s != []
    ensures Where(s, p) == Where(s[..|s| - 1], p) + (if p(s[|s| - 1]) then {|s| - 1} else {})
    ensures |s| - 1 !in Where(s[..|s| - 1], p)
  {
  }

  lemma {:induction false} CountIsSize<T(!new)>(s: seq<T>, p: T -> bool)
    ensures CountIf(s, p) == |Where(s, p)|
  {
    if s == [] {
      assert Where(s, p) == {};
    } else {
      CountIsSize(s[..|s| - 1], p);
      WhereStep(s, p);
    }
  }

  /* ---- the counts ---- */

  /** Each issue, comment and attachment count is that of the entries of its kind. */
  lemma RowCountsMean(plan: MergePlan)
    requires IsCounted(plan)
    ensures var c := plan.counts;
      && c.projectsToImport == |plan.projectImports|
      && c.issuesToInsert == |Where(plan.issuePlans, (p: IssuePlan) => p.InsertIssue?)|
      && c.issuesExisting == |Where(plan.issuePlans, (p: IssuePlan) => p.SkipIssue?)|
      && c.issueDrift == |Where(plan.issuePlans, (p: IssuePlan) => p.SkipIssue? && |p.driftKeys| > 0)|
      && c.commentsToInsert == |Where(plan.commentPlans, (p: CommentPlan) => p.InsertComment?)|
      && c.commentsExisting == |Where(plan.commentPlans, (p: CommentPlan) => p.SkipExistingComment?)|
      && c.commentsMissingParent == |Where(plan.commentPlans, (p: CommentPlan) => p.SkipOrphanComment?)|
      && c.attachmentsToInsert == |Where(plan.attachmentPlans, (p: AttachmentPlan) => p.InsertAttachment?)|
      && c.attachmentsExisting == |Where(plan.attachmentPlans, (p: AttachmentPlan) => p.SkipExistingAttachment?)|
      && c.attachmentsMissingParent == |Where(plan.attachmentPlans, (p: AttachmentPlan) => p.SkipOrphanAttachment?)|
  {
    CountIsSize(plan.issuePlans, (p: IssuePlan) => p.InsertIssue?);
    CountIsSize(plan.issuePlans, (p: IssuePlan) => p.SkipIssue?);
    CountIsSize(plan.issuePlans, (p: IssuePlan) => p.SkipIssue? && |p.driftKeys| > 0);
    CountIsSize(plan.commentPlans, (p: CommentPlan) => p.InsertComment?);
    CountIsSize(plan.commentPlans, (p: CommentPlan) => p.SkipExistingComment?);
    CountIsSize(plan.commentPlans, (p: CommentPlan) => p.SkipOrphanComment?);
    CountIsSize(plan.attachmentPlans, (p: AttachmentPlan) => p.InsertAttachment?);
    CountIsSize(plan.attachmentPlans, (p: AttachmentPlan) => p.SkipExistingAttachment?);
    CountIsSize(plan.attachmentPlans, (p: AttachmentPlan) => p.SkipOrphanAttachment?);
  }

  /** Revisions to insert, by document entry and position. */
  ghost function Revisions(plans: seq<DocumentPlan>): set<(int, int)> {
    set k: int, j: int | 0 <= k < |plans| && plans[k].Writes() && 0 <= j < |plans[k].write.revisionsToInsert| :: (k, j)
  }

  /** And so is each document count; revisions are counted over all documents. */
  lemma DocumentCountsMean(plan: MergePlan)
    requires IsCounted(plan)
    ensures var c := plan.counts;
      && c.documentsToInsert == |Where(plan.documentPlans, (p: DocumentPlan) => p.InsertDocument?)|
      && c.documentsToMerge == |Where(plan.documentPlans, (p: DocumentPlan) => p.MergeDocument?)|
      && c.documentsExisting == |Where(plan.documentPlans, (p: DocumentPlan) => p.SkipExistingDocument?)|
      && c.documentsConflictingKey == |Where(plan.documentPlans, (p: DocumentPlan) => p.SkipConflictingDocument?)|
      && c.documentsMissingParent == |Where(plan.documentPlans, (p: DocumentPlan) => p.SkipOrphanDocument?)|
      && c.documentRevisionsToInsert == |Revisions(plan.documentPlans)|
  {
    CountIsSize(plan.documentPlans, (p: DocumentPlan) => p.InsertDocument?);
    CountIsSize(plan.documentPlans, (p: DocumentPlan) => p.MergeDocument?);
    CountIsSize(plan.documentPlans, (p: DocumentPlan) => p.SkipExistingDocument?);
    CountIsSize(plan.documentPlans, (p: DocumentPlan) => p.SkipConflictingDocument?);
    CountIsSize(plan.documentPlans, (p: DocumentPlan) => p.SkipOrphanDocument?);
    RevisionsCounted(plan.documentPlans);
  }

  ghost function Row<T>(k: int, js: set<T>): set<(int, T)> {
    set j | j in js :: (k, j)
  }

  lemma {:induction false} RowSize<T>(k: int, js: set<T>)
    ensures |Row(k, js)| == |js|
    decreases |js|
  {
    if js == {} {
      assert Row(k, js) == {};
    } else {
      var j :| j in js;
      RowSize(k, js - {j});
      assert Row(k, js) == Row(k, js - {j}) + {(k, j)};
    }
  }

  ghost function UpTo(n: nat): (r: set<int>)
    ensures |r| == n && forall j :: j in r <==> 0 <= j < n
  {
    if n == 0 then {} else UpTo(n - 1) + {n - 1}
  }

  lemma RevisionsStep(plans: seq<DocumentPlan>)
    requires plans != []
    ensures var last := plans[|plans| - 1];
      |Revisions(plans)| == |Revisions(plans[..|plans| - 1])|
        + if last.Writes() then |last.write.revisionsToInsert| else 0
  {
    var front, last := plans[..|plans| - 1], plans[|plans| - 1];
    var js := if last.Writes() then UpTo(|last.write.revisionsToInsert|) else {};
    RowSize(|front|, js);
    assert Revisions(plans) == Revisions(front) + Row(|front|, js);
    assert Revisions(front) !! Row(|front|, js);
  }

  lemma {:induction false} RevisionsCounted(plans: seq<DocumentPlan>)
    ensures RevisionCount(plans) == |Revisions(plans)|
  {
    if plans == [] {
      assert Revisions(plans) == {};
    } else {
      RevisionsCounted(plans[..|plans| - 1]);
      RevisionsStep(plans);
    }
  }

  /* ---- the tally ---- */

  lemma {:induction false} IssuesTallied(plans: seq<IssuePlan>, a: Adjustment)
    requires forall k :: 0 <= k < |plans| && plans[k].InsertIssue? ==>
      multiset(plans[k].adjustments)[a] == if I.Changed(plans[k], a) then 1 else 0
    ensures IssueAdjustments(plans)[a] == |Where(plans, (p: IssuePlan) => p.InsertIssue? && I.Changed(p, a))|
  {
    var q := (p: IssuePlan) => p.InsertIssue? && I.Changed(p, a);
    if plans == [] {
      assert Where(plans, q) == {};
    } else {
      IssuesTallied(plans[..|plans| - 1], a);
      WhereStep(plans, q);
    }
  }

  lemma {:induction false} CommentsTallied(plans: seq<CommentPlan>, a: Adjustment)
    requires forall k :: 0 <= k < |plans| && plans[k].InsertComment? ==>
      plans[k].adjustments
        == if H.Dropped(plans[k].source.authorAgentId, plans[k].targetAuthorAgentId) then [ClearAuthorAgent] else []
    ensures CommentAdjustments(plans)[a] == |Where(plans, (p: CommentPlan) => p.InsertComment?
      && a == ClearAuthorAgent && H.Dropped(p.source.authorAgentId, p.targetAuthorAgentId))|
  {
    var q := (p: CommentPlan) => p.InsertComment? && a == ClearAuthorAgent
      && H.Dropped(p.source.authorAgentId, p.targetAuthorAgentId);
    if plans == [] {
      assert Where(plans, q) == {};
    } else {
      CommentsTallied(plans[..|plans| - 1], a);
      WhereStep(plans, q);
    }
  }

  lemma {:induction false} AttachmentsTallied(plans: seq<AttachmentPlan>, a: Adjustment)
    requires forall k :: 0 <= k < |plans| && plans[k].InsertAttachment? ==>
      plans[k].adjustments
        == if H.Dropped(plans[k].source.createdByAgentId, plans[k].targetCreatedByAgentId)
          then [ClearAttachmentAgent] else []
    ensures AttachmentAdjustments(plans)[a] == |Where(plans, (p: AttachmentPlan) => p.InsertAttachment?
      && a == ClearAttachmentAgent && H.Dropped(p.source.createdByAgentId, p.targetCreatedByAgentId))|
  {
    var q := (p: AttachmentPlan) => p.InsertAttachment? && a == ClearAttachmentAgent
      && H.Dropped(p.source.createdByAgentId, p.targetCreatedByAgentId);
    if plans == [] {
      assert Where(plans, q) == {};
    } else {
      AttachmentsTallied(plans[..|plans| - 1], a);
      WhereStep(plans, q);
    }
  }

  /** The document names an agent, as creator or updater, that the target does not have. */
  ghost predicate LosesAgent(document: IssueDocument, target: Database) {
    || (document.doc.createdByAgentId.Some? && document.doc.createdByAgentId.value !in target.agents)
    || (document.doc.updatedByAgentId.Some? && document.doc.updatedByAgentId.value !in target.agents)
  }

  ghost predicate RevisionLoses(p: RevisionPlan) {
    H.Dropped(p.source.createdByAgentId, p.targetCreatedByAgentId)
  }

  ghost predicate RevisionsTell(plans: seq<RevisionPlan>) {
    forall j :: 0 <= j < |plans| ==>
      plans[j].adjustments == if RevisionLoses(plans[j]) then [ClearDocumentRevisionAgent] else []
  }

  lemma {:induction false} RevisionsTallied(plans: seq<RevisionPlan>, a: Adjustment)
    requires RevisionsTell(plans)
    ensures RevisionAdjustments(plans)[a]
      == if a == ClearDocumentRevisionAgent then |Where(plans, (p: RevisionPlan) => RevisionLoses(p))| else 0
  {
    var q := (p: RevisionPlan) => RevisionLoses(p);
    if plans == [] {
      assert Where(plans, q) == {};
    } else {
      RevisionsTallied(plans[..|plans| - 1], a);
      WhereStep(plans, q);
    }
  }

  /** What document entries say of the agents they lose. */
  ghost predicate DocumentsTell(plans: seq<DocumentPlan>, target: Database) {
    forall k :: 0 <= k < |plans| && plans[k].Writes() ==>
      && plans[k].write.adjustments == (if LosesAgent(plans[k].source, target) then [ClearDocumentAgent] else [])
      && RevisionsTell(plans[k].write.revisionsToInsert)
  }

  /** Revisions to insert that lose their author. */
  ghost function LosingRevisions(plans: seq<DocumentPlan>): set<(int, int)> {
    set k: int, j: int |
      0 <= k < |plans| && plans[k].Writes() && 0 <= j < |plans[k].write.revisionsToInsert|
      && RevisionLoses(plans[k].write.revisionsToInsert[j]) :: (k, j)
  }

  lemma NotedIs(p: DocumentPlan, target: Database, a: Adjustment)
    requires DocumentsTell([p], target)
    ensures Noted(p, target)[a]
      == (if a == ClearDocumentAgent && (p.Writes() || p.SkipExistingDocument?) && LosesAgent(p.source, target) then 1
          else 0)
       + (if a == ClearDocumentRevisionAgent && p.Writes()
          then |Where(p.write.revisionsToInsert, (r: RevisionPlan) => RevisionLoses(r))| else 0)
  {
    assert [p][0] == p;
    assert DropsAgent(p.source, target) <==> LosesAgent(p.source, target);
    if p.Writes() { RevisionsTallied(p.write.revisionsToInsert, a); }
  }

  lemma {:induction false} DocumentsTallied(plans: seq<DocumentPlan>, target: Database, a: Adjustment)
    requires DocumentsTell(plans, target)
    ensures DocumentTally(plans, target)[a]
      == (if a == ClearDocumentAgent
          then |Where(plans, (p: DocumentPlan) =>
                  (p.Writes() || p.SkipExistingDocument?) && LosesAgent(p.source, target))| else 0)
       + (if a == ClearDocumentRevisionAgent then |LosingRevisions(plans)| else 0)
  {
    var q := (p: DocumentPlan) => (p.Writes() || p.SkipExistingDocument?) && LosesAgent(p.source, target);
    if plans == [] {
      assert Where(plans, q) == {} && LosingRevisions(plans) == {};
    } else {
      var front, last := plans[..|plans| - 1], plans[|plans| - 1];
      DocumentsTallied(front, target, a);
      NotedIs(last, target, a);
      WhereStep(plans, q);
      LosingStep(plans);
    }
  }

  lemma LosingStep(plans: seq<DocumentPlan>)
    requires plans != []
    ensures var last := plans[|plans| - 1];
      |LosingRevisions(plans)| == |LosingRevisions(plans[..|plans| - 1])|
        + if last.Writes() then |Where(last.write.revisionsToInsert, (r: RevisionPlan) => RevisionLoses(r))| else 0
  {
    var front, last := plans[..|plans| - 1], plans[|plans| - 1];
    var js := if last.Writes() then Where(last.write.revisionsToInsert, (r: RevisionPlan) => RevisionLoses(r)) else {};
    RowSize(|front|, js);
    assert LosingRevisions(plans) == LosingRevisions(front) + Row(|front|, js);
    assert LosingRevisions(front) !! Row(|front|, js);
  }

  lemma DocumentsDoTell(plan: MergePlan, source: Source, target: Database)
    requires forall p :: p in plan.documentPlans ==> H.DocumentSays(p, source, target)
    ensures DocumentsTell(plan.documentPlans, target)
  {
    forall k | 0 <= k < |plan.documentPlans| && plan.documentPlans[k].Writes()
      ensures plan.documentPlans[k].write.adjustments
        == if LosesAgent(plan.documentPlans[k].source, target) then [ClearDocumentAgent] else []
      ensures RevisionsTell(plan.documentPlans[k].write.revisionsToInsert)
    {
      assert plan.documentPlans[k] in plan.documentPlans;
      assert H.WriteSays(plan.documentPlans[k].source, plan.documentPlans[k].write, source, target);
      assert forall j :: 0 <= j < |plan.documentPlans[k].write.revisionsToInsert| ==>
        H.RevisionSays(plan.documentPlans[k].write.revisionsToInsert[j], target);
    }
  }

  ghost predicate IssueKind(a: Adjustment) {
    a.ClearAssigneeAgent? || a.ClearProject? || a.ClearProjectWorkspace? || a.ClearGoal? || a.CoerceInProgressToTodo?
  }

  /** How many entries of the plan make an adjustment of each kind. A document that loses an agent is counted
      although it is then found unchanged. */
  ghost function Making(plan: MergePlan, target: Database, a: Adjustment): nat {
    match a
    case ClearAuthorAgent => |Where(plan.commentPlans, (p: CommentPlan) =>
      p.InsertComment? && H.Dropped(p.source.authorAgentId, p.targetAuthorAgentId))|
    case ClearAttachmentAgent => |Where(plan.attachmentPlans, (p: AttachmentPlan) =>
      p.InsertAttachment? && H.Dropped(p.source.createdByAgentId, p.targetCreatedByAgentId))|
    case ClearDocumentAgent => |Where(plan.documentPlans, (p: DocumentPlan) =>
      (p.Writes() || p.SkipExistingDocument?) && LosesAgent(p.source, target))|
    case ClearDocumentRevisionAgent => |LosingRevisions(plan.documentPlans)|
    case _ => |Where(plan.issuePlans, (p: IssuePlan) => p.InsertIssue? && I.Changed(p, a))|
  }

  lemma IssueShare(plan: MergePlan, source: Source, target: Database, request: Request, order: seq<Issue>,
                   a: Adjustment)
    requires IsPlan(plan, source, target, request, order)
    ensures IssueAdjustments(plan.issuePlans)[a] == if IssueKind(a) then Making(plan, target, a) else 0
  {
    I.IssuesMean(plan, source, target, request, order);
    forall k | 0 <= k < |plan.issuePlans| && plan.issuePlans[k].InsertIssue?
      ensures multiset(plan.issuePlans[k].adjustments)[a] == if I.Changed(plan.issuePlans[k], a) then 1 else 0
    {
      assert plan.issuePlans[k] in plan.issuePlans;
      assert I.InsertSays(plan.issuePlans[k], source, target, request);
    }
    IssuesTallied(plan.issuePlans, a);
    if !IssueKind(a) {
      assert Where(plan.issuePlans, (p: IssuePlan) => p.InsertIssue? && I.Changed(p, a)) == {};
    }
  }

  lemma CommentShare(plan: MergePlan, source: Source, target: Database, a: Adjustment)
    requires forall p :: p in plan.commentPlans ==> H.CommentSays(p, source, target)
    ensures CommentAdjustments(plan.commentPlans)[a] == if a.ClearAuthorAgent? then Making(plan, target, a) else 0
  {
    var plans := plan.commentPlans;
    var q := (p: CommentPlan) => p.InsertComment? && a == ClearAuthorAgent
      && H.Dropped(p.source.authorAgentId, p.targetAuthorAgentId);
    assert forall k :: 0 <= k < |plans| ==> plans[k] in plans && H.CommentSays(plans[k], source, target);
    CommentsTallied(plans, a);
    if a == ClearAuthorAgent {
      assert Where(plans, q) == Where(plans, (p: CommentPlan) =>
        p.InsertComment? && H.Dropped(p.source.authorAgentId, p.targetAuthorAgentId));
    } else {
      assert Where(plans, q) == {};
    }
  }

  lemma AttachmentShare(plan: MergePlan, source: Source, target: Database, a: Adjustment)
    requires forall p :: p in plan.attachmentPlans ==> H.AttachmentSays(p, plan, source, target)
    ensures AttachmentAdjustments(plan.attachmentPlans)[a]
         == if a.ClearAttachmentAgent? then Making(plan, target, a) else 0
  {
    var plans := plan.attachmentPlans;
    var q := (p: AttachmentPlan) => p.InsertAttachment? && a == ClearAttachmentAgent
      && H.Dropped(p.source.createdByAgentId, p.targetCreatedByAgentId);
    assert forall k :: 0 <= k < |plans| ==> plans[k] in plans && H.AttachmentSays(plans[k], plan, source, target);
    AttachmentsTallied(plans, a);
    if a == ClearAttachmentAgent {
      assert Where(plans, q) == Where(plans, (p: AttachmentPlan) =>
        p.InsertAttachment? && H.Dropped(p.source.createdByAgentId, p.targetCreatedByAgentId));
    } else {
      assert Where(plans, q) == {};
    }
  }

  lemma DocumentShare(plan: MergePlan, source: Source, target: Database, a: Adjustment)
    requires forall p :: p in plan.documentPlans ==> H.DocumentSays(p, source, target)
    ensures DocumentTally(plan.documentPlans, target)[a]
         == if a.ClearDocumentAgent? || a.ClearDocumentRevisionAgent? then Making(plan, target, a) else 0
  {
    DocumentsDoTell(plan, source, target);
    DocumentsTallied(plan.documentPlans, target, a);
  }

  lemma TallySplit(plan: MergePlan, target: Database, a: Adjustment)
    requires IsTally(plan, target)
    ensures plan.adjustments[a] == IssueAdjustments(plan.issuePlans)[a] + CommentAdjustments(plan.commentPlans)[a]
                                 + DocumentTally(plan.documentPlans, target)[a]
                                 + AttachmentAdjustments(plan.attachmentPlans)[a]
  {
  }

  /** The tally holds each adjustment once for every entry that makes it. */
  lemma TallyMeans(plan: MergePlan, source: Source, target: Database, request: Request, order: seq<Issue>,
                   a: Adjustment)
    requires T.Planned(plan, source, target, request, order) && IsTally(plan, target)
    requires UniqueBy(source.revisions, D.RevisionId) && UniqueBy(target.revisions, D.RevisionId)
    ensures plan.adjustments[a] == Making(plan, target, a)
  {
    IssueShare(plan, source, target, request, order, a);
    H.HistoryMeans(plan, source, target, request, order);
    CommentShare(plan, source, target, a);
    AttachmentShare(plan, source, target, a);
    DocumentShare(plan, source, target, a);
    TallySplit(plan, target, a);
  }
}
