/** The counts shown before a merge are what the merge then does. */
module MergeCounts {
  import opened Basics
  import opened MergeModel
  import opened MergePlanner
  import opened MergeApply
  import opened MergeTheorems
  import opened MergeFinal
  import R = MergeRows
  import D = MergeDocuments
  import IssueOrder

  /** Counting the chosen elements of a sequence is counting their keys, when those differ. */
  lemma {:induction false} KeysCounted<T(!new)>(s: seq<T>, p: T -> bool, key: T -> Id, ids: set<Id>)
    requires forall j, k :: 0 <= j < k < |s| && p(s[j]) && p(s[k]) ==> key(s[j]) != key(s[k])
    requires forall i :: i in ids <==> exists k :: 0 <= k < |s| && p(s[k]) && key(s[k]) == i
    ensures |ids| == CountIf(s, p)
  {
    if s == [] {
      assert ids == {};
    } else {
      var front, last := s[..|s| - 1], s[|s| - 1];
      var before := if p(last) then ids - {key(last)} else ids;
      forall i ensures i in before <==> exists k :: 0 <= k < |front| && p(front[k]) && key(front[k]) == i {
        if i in before {
          var k :| 0 <= k < |s| && p(s[k]) && key(s[k]) == i;
          assert front[k] == s[k];
        }
        if k :| 0 <= k < |front| && p(front[k]) && key(front[k]) == i { assert s[k] == front[k]; }
      }
      KeysCounted(front, p, key, before);
      if p(last) { assert key(last) in ids; }
    }
  }

  lemma DisjointSizes(a: set<Id>, b: set<Id>)
    requires a !! b
    ensures |a + b| == |a| + |b|
  {
  }

  function IssueId(p: IssuePlan): Id { p.source.id }
  function CommentId(p: CommentPlan): Id { p.source.id }
  function DocumentId(p: DocumentPlan): Id { p.source.documentId }
  function AttachmentId(p: AttachmentPlan): Id { p.source.id }

  lemma {:induction false} InsertedAreNew(order: seq<Issue>, last: int, ctx: Context)
    ensures var plans := IssuePlansFrom(order, last, ctx);
      && |plans| == |order|
      && forall k :: 0 <= k < |order| ==>
        plans[k].source == order[k] && (plans[k].InsertIssue? ==> order[k].id !in ctx.target.issues)
    decreases |order|
  {
    if order != [] {
      InsertedAreNew(order[1..], if order[0].id in ctx.target.issues then last else last + 1, ctx);
    }
  }

  lemma IssuesCounted(source: Source, target: Database, request: Request, order: seq<Issue>, plan: MergePlan,
        issues: set<Id>)
    requires IssueOrder.UniqueIssues(source.issues) && Planned(plan, source, target, request, order)
    requires issues == AvailableIssues(target, plan.issuePlans)
    ensures |issues| == |target.issues| + CountIf(plan.issuePlans, (p: IssuePlan) => p.InsertIssue?)
  {
    var plans := plan.issuePlans;
    UniqueOrder(source.issues, order);
    InsertedAreNew(order, target.issueCounter, ContextFor(source, target, request));
    forall j, k | 0 <= j < k < |plans| ensures IssueId(plans[j]) != IssueId(plans[k]) {
      assert order[j].id != order[k].id;
    }
    KeysCounted(plans, (p: IssuePlan) => p.InsertIssue?, IssueId, InsertedIssueIds(plans));
    DisjointSizes(target.issues.Keys, InsertedIssueIds(plans));
  }

  lemma CommentPlansApart(rows: seq<Comment>, target: Database, issues: set<Id>)
    requires UniqueBy(rows, R.CommentId)
    ensures UniqueBy(CommentPlansFor(rows, target, issues), CommentId)
  {
    var plans := CommentPlansFor(rows, target, issues);
    forall j, k | 0 <= j < k < |plans| ensures CommentId(plans[j]) != CommentId(plans[k]) {
      assert R.CommentId(rows[j]) != R.CommentId(rows[k]);
    }
  }

  lemma CommentsCounted(rows: seq<Comment>, target: Database, issues: set<Id>, comments: set<Id>)
    requires UniqueBy(rows, R.CommentId) && comments == AvailableComments(target, CommentPlansFor(rows, target, issues))
    ensures |comments| == |target.comments|
      + CountIf(CommentPlansFor(rows, target, issues), (p: CommentPlan) => p.InsertComment?)
  {
    var plans := CommentPlansFor(rows, target, issues);
    CommentPlansApart(rows, target, issues);
    KeysCounted(plans, (p: CommentPlan) => p.InsertComment?, CommentId, InsertedCommentIds(plans));
    DisjointSizes(target.comments.Keys, InsertedCommentIds(plans));
  }

  lemma AttachmentsCounted(rows: seq<Attachment>, target: Database, issues: set<Id>, comments: set<Id>,
        bodies: set<string>)
    requires UniqueBy(rows, R.AttachmentId) && forall a :: a in rows ==> a.objectKey in bodies
    ensures var plans := AttachmentPlansFor(rows, target, issues, comments);
      |target.attachments.Keys + R.ServedIds(plans, bodies)|
      == |target.attachments| + CountIf(plans, (p: AttachmentPlan) => p.InsertAttachment?)
  {
    var plans := AttachmentPlansFor(rows, target, issues, comments);
    forall j, k | 0 <= j < k < |plans| ensures AttachmentId(plans[j]) != AttachmentId(plans[k]) {
      assert R.AttachmentId(rows[j]) != R.AttachmentId(rows[k]);
    }
    forall k | 0 <= k < |plans| ensures plans[k].source == rows[k] && plans[k].source.objectKey in bodies {
      assert rows[k] in rows;
    }
    KeysCounted(plans, (p: AttachmentPlan) => p.InsertAttachment?, AttachmentId, R.ServedIds(plans, bodies));
    DisjointSizes(target.attachments.Keys, R.ServedIds(plans, bodies));
  }

  function InsertedDocumentIds(plans: seq<DocumentPlan>): (ids: set<Id>)
    ensures forall i :: i in ids <==>
      exists k :: 0 <= k < |plans| && plans[k].InsertDocument? && plans[k].source.documentId == i
  {
    set k | 0 <= k < |plans| && plans[k].InsertDocument? :: plans[k].source.documentId
  }

  lemma InsertedIsWritten(plans: seq<DocumentPlan>, d: Id)
    ensures d in InsertedDocumentIds(plans) ==> !D.NotWritten(plans, d)
  {
    if d in InsertedDocumentIds(plans) {
      var k :| 0 <= k < |plans| && plans[k].InsertDocument? && plans[k].source.documentId == d;
      assert D.Writer(plans, k, d);
    }
  }

  lemma DocumentKeys(source: Source, target: Database, after: Database, issues: set<Id>, plans: seq<DocumentPlan>)
    requires D.DocumentsMergeable(source, target) && D.DocumentsSettled(target, after, plans)
    requires plans == DocumentPlansFor(Sort(source.documents, DocumentNoLater), source, target, issues)
    ensures after.documents.Keys == target.documents.Keys + InsertedDocumentIds(plans)
    ensures target.documents.Keys !! InsertedDocumentIds(plans)
  {
    forall k | 0 <= k < |plans|
      ensures plans[k].InsertDocument? ==> plans[k].source.documentId !in target.documents
      ensures plans[k].MergeDocument? ==> plans[k].source.documentId in target.documents
      ensures plans[k].Writes() ==> plans[k].source.documentId in after.documents
    {
      if plans[k].Writes() { assert D.DocumentWritten(target, after, plans[k].source, plans[k].write); }
    }
    forall d ensures d in after.documents <==> d in target.documents || d in InsertedDocumentIds(plans) {
      InsertedIsWritten(plans, d);
      if D.NotWritten(plans, d) {
        assert D.SameDocument(target, after, d);
      } else {
        var k: int :| D.Writer(plans, k, d);
      }
    }
  }

  lemma InsertsCounted(plans: seq<DocumentPlan>)
    requires forall j, k :: 0 <= j < k < |plans| ==> plans[j].source.documentId != plans[k].source.documentId
    ensures |InsertedDocumentIds(plans)| == CountIf(plans, (p: DocumentPlan) => p.InsertDocument?)
  {
    forall j, k | 0 <= j < k < |plans| ensures DocumentId(plans[j]) != DocumentId(plans[k]) {}
    KeysCounted(plans, (p: DocumentPlan) => p.InsertDocument?, DocumentId, InsertedDocumentIds(plans));
  }

  lemma DocumentsCounted(source: Source, target: Database, after: Database, issues: set<Id>, plans: seq<DocumentPlan>)
    requires D.DocumentsMergeable(source, target) && D.DocumentsSettled(target, after, plans)
    requires plans == DocumentPlansFor(Sort(source.documents, DocumentNoLater), source, target, issues)
    ensures |after.documents| == |target.documents| + CountIf(plans, (p: DocumentPlan) => p.InsertDocument?)
  {
    DocumentPlansApart(source, target, issues, plans);
    DocumentKeys(source, target, after, issues, plans);
    InsertsCounted(plans);
    DisjointSizes(target.documents.Keys, InsertedDocumentIds(plans));
  }

  /** Every table has grown by the number the operator was shown. */
  ghost predicate GrewAsCounted(target: Database, after: Database, c: Counts) {
    && |after.projects| == |target.projects| + c.projectsToImport
    && |after.issues| == |target.issues| + c.issuesToInsert
    && |after.comments| == |target.comments| + c.commentsToInsert
    && |after.documents| == |target.documents| + c.documentsToInsert
    && |after.revisions| == |target.revisions| + c.documentRevisionsToInsert
    && |after.attachments| == |target.attachments| + c.attachmentsToInsert
  }

  /** When a fresh plan applies and every attachment body can be served, the counts come true. */
  lemma CountsComeTrue(source: Source, target: Database, request: Request, order: seq<Issue>, plan: MergePlan,
        bodies: set<string>, after: Database)
    requires Mergeable(source, target) && Planned(plan, source, target, request, order) && IsCounted(plan)
    requires Apply(target, plan, bodies) == Ok(after) && forall a :: a in source.attachments ==> a.objectKey in bodies
    ensures GrewAsCounted(target, after, plan.counts)
  {
    MergeOutcome(source, target, request, order, plan, bodies, after);
    OutcomeCounted(source, target, request, order, plan, bodies, after);
  }

  lemma OutcomeCounted(source: Source, target: Database, request: Request, order: seq<Issue>, plan: MergePlan,
        bodies: set<string>, after: Database)
    requires Mergeable(source, target) && Planned(plan, source, target, request, order) && IsCounted(plan)
    requires Merged(source, target, after, plan, bodies)
    requires forall a :: a in source.attachments ==> a.objectKey in bodies
    ensures GrewAsCounted(target, after, plan.counts)
  {
    var issues := AvailableIssues(target, plan.issuePlans);
    IssuesCounted(source, target, request, order, plan, issues);
    SortedRows(source, target, request);
    CommentsCounted(CommentRows(source, request), target, issues, after.comments.Keys);
    DocumentsCounted(source, target, after, issues, plan.documentPlans);
    SortPermutes(source.attachments, AttachmentNoLater);
    AttachmentsCounted(Sort(source.attachments, AttachmentNoLater), target, issues,
      AvailableComments(target, plan.commentPlans), bodies);
  }
}
