/** Plans applied late or twice: what is there already is left alone, and what can no longer go in is passed over. */
module MergeRetry {
  import opened Basics
  import opened MergeModel
  import opened MergePlanner
  import opened MergeApply
  import opened MergeTheorems
  import D = MergeDocuments
  import F = MergeFinal
  import R = MergeRows

  /* ---- projects and issues ---- */

  lemma {:induction false} NoNewImports(db: Database, imports: seq<ProjectImport>)
    requires forall p :: p in imports ==> p.source.id in db.projects
    ensures NewImports(db, imports) == []
  {
    if imports != [] {
      assert imports[0] in imports;
      NoNewImports(db, imports[1..]);
    }
  }

  lemma {:induction false} NoNewIssues(db: Database, plans: seq<IssuePlan>)
    requires forall p :: p in plans && p.InsertIssue? ==> p.source.id in db.issues
    ensures IssueInserts(db, plans) == []
  {
    if plans != [] {
      assert plans[0] in plans;
      NoNewIssues(db, plans[1..]);
    }
  }

  /* ---- comments and attachments ---- */

  lemma {:induction false} CommentsSkipped(db: Database, plans: seq<CommentPlan>)
    requires forall p :: p in plans && p.InsertComment? ==>
      p.source.id in db.comments || p.source.issueId !in db.issues
    ensures ApplyComments(db, plans, db.comments.Keys) == Ok(db)
    decreases |plans|
  {
    if plans != [] {
      assert plans[0] in plans;
      CommentsSkipped(db, plans[1..]);
    }
  }

  lemma {:induction false} AttachmentsSkipped(db: Database, plans: seq<AttachmentPlan>, bodies: set<string>)
    requires forall p :: p in plans && p.InsertAttachment? && p.source.objectKey in bodies ==>
      p.source.id in db.attachments || p.source.issueId !in db.issues
    ensures ApplyAttachments(db, plans, db.attachments.Keys, bodies) == Ok(db)
    decreases |plans|
  {
    if plans != [] {
      assert plans[0] in plans;
      AttachmentsSkipped(db, plans[1..], bodies);
    }
  }

  /* ---- documents ---- */

  lemma {:induction false} RevisionsSkipped(db: Database, d: Id, plans: seq<RevisionPlan>, existing: set<Id>)
    requires forall k :: 0 <= k < |plans| ==> plans[k].source.id in existing
    ensures ApplyRevisions(db, d, plans, existing) == Ok(db)
    decreases |plans|
  {
    if plans != [] { RevisionsSkipped(db, d, plans[1..], existing); }
  }

  lemma WrittenRevisionsExist(earlier: seq<Revision>, d: Id, plans: seq<RevisionPlan>, revisions: seq<Revision>)
    requires RevisionsOf(revisions, d) == earlier + D.RevisionRows(d, plans)
    ensures forall k :: 0 <= k < |plans| ==> plans[k].source.id in RevisionIds(revisions, d)
  {
    forall k | 0 <= k < |plans| ensures plans[k].source.id in RevisionIds(revisions, d) {
      var row := D.RevisionRows(d, plans)[k];
      assert RevisionsOf(revisions, d)[|earlier| + k] == row;
      D.RevisionsOfMembers(revisions, d);
      assert row in revisions && row.documentId == d;
    }
  }

  /** A document as its plan left it is rewritten to what it is. */
  lemma RewrittenSame(target: Database, after: Database, d: IssueDocument, write: DocumentWrite)
    requires D.DocumentWritten(target, after, d, write) && !Skipped(after, d)
    requires DocumentRefsOk(after, D.FinalDocument(target, d, write))
    ensures WriteDocument(after, d, write) == Ok(after)
  {
    var id := d.documentId;
    assert MergedLink(after.links[id], d.link) == after.links[id];
    assert MergedDocument(after.documents[id], d.doc, write) == after.documents[id];
    assert after.links[id := after.links[id]] == after.links;
    assert after.documents[id := after.documents[id]] == after.documents;
    assert WriteDocumentRows(after, d, write) == Ok(after);
    WrittenRevisionsExist(RevisionsOf(target.revisions, id), id, write.revisionsToInsert, after.revisions);
    RevisionsSkipped(after, id, write.revisionsToInsert, RevisionIds(after.revisions, id));
  }

  ghost predicate Rewritable(target: Database, after: Database, p: DocumentPlan) {
    p.Writes() ==>
      && D.DocumentWritten(target, after, p.source, p.write)
      && DocumentRefsOk(after, D.FinalDocument(target, p.source, p.write))
  }

  lemma {:induction false} DocumentsRewritten(target: Database, after: Database, plans: seq<DocumentPlan>)
    requires forall k :: 0 <= k < |plans| ==> Rewritable(target, after, plans[k])
    ensures ApplyDocuments(after, plans) == Ok(after)
    decreases |plans|
  {
    if plans != [] {
      assert Rewritable(target, after, plans[0]);
      if plans[0].Writes() && !Skipped(after, plans[0].source) {
        RewrittenSame(target, after, plans[0].source, plans[0].write);
      }
      DocumentsRewritten(target, after, plans[1..]);
    }
  }

  lemma PlannedRewritable(source: Source, target: Database, issues: set<Id>, rows: seq<IssueDocument>, after: Database)
    requires D.DocumentsMergeable(source, target) && after.agents == target.agents
    requires D.DocumentsSettled(target, after, DocumentPlansFor(rows, source, target, issues))
    ensures forall k :: 0 <= k < |rows| ==>
      Rewritable(target, after, DocumentPlansFor(rows, source, target, issues)[k])
  {
    var plans := DocumentPlansFor(rows, source, target, issues);
    forall k | 0 <= k < |rows| ensures Rewritable(target, after, plans[k]) {
      assert plans[k] == DocumentPlanFor(rows[k], source, target, issues);
      if plans[k].Writes() {
        assert D.DocumentWritten(target, after, plans[k].source, plans[k].write);
        AgentsKept(plans[k].source, source, target);
      }
    }
  }

  lemma AgentsKept(d: IssueDocument, source: Source, target: Database)
    requires D.Linked(target)
    ensures DocumentRefsOk(target, D.FinalDocument(target, d, WriteFor(d, source, target)))
  {
  }

  /* ---- entries gone stale ---- */

  /** The document's issue is gone, or another document holds its slot. */
  ghost predicate Shut(db: Database, d: IssueDocument) {
    || d.link.issueId !in db.issues
    || exists other :: other in db.links && other != d.documentId
         && db.links[other].issueId == d.link.issueId && db.links[other].key == d.link.key
  }

  lemma {:induction false} DocumentsSkipped(db: Database, plans: seq<DocumentPlan>)
    requires forall p :: p in plans && p.Writes() ==> Shut(db, p.source)
    ensures ApplyDocuments(db, plans) == Ok(db)
    decreases |plans|
  {
    if plans != [] {
      assert plans[0] in plans;
      DocumentsSkipped(db, plans[1..]);
    }
  }

  /** A plan may be older than the target. Entries whose row has come to be there meanwhile, whose issue is gone,
      whose slot is taken or whose body is not served are passed over without failing the transaction. */
  lemma StaleHistorySkipped(db: Database, plan: MergePlan, bodies: set<string>)
    requires forall p :: p in plan.commentPlans && p.InsertComment? ==>
      p.source.id in db.comments || p.source.issueId !in db.issues
    requires forall p :: p in plan.documentPlans && p.Writes() ==> Shut(db, p.source)
    requires forall p :: p in plan.attachmentPlans && p.InsertAttachment? && p.source.objectKey in bodies ==>
      p.source.id in db.attachments || p.source.issueId !in db.issues
    ensures ApplyHistory(db, plan, bodies) == Ok(db)
  {
    CommentsSkipped(db, plan.commentPlans);
    DocumentsSkipped(db, plan.documentPlans);
    AttachmentsSkipped(db, plan.attachmentPlans, bodies);
  }

  /* ---- the whole plan ---- */

  /** Everything a plan inserts is there. */
  ghost predicate Present(db: Database, plan: MergePlan, bodies: set<string>) {
    && (forall p :: p in plan.projectImports ==> p.source.id in db.projects)
    && (forall p :: p in plan.issuePlans && p.InsertIssue? ==> p.source.id in db.issues)
    && (forall p :: p in plan.commentPlans && p.InsertComment? ==> p.source.id in db.comments)
    && (forall p :: p in plan.attachmentPlans && p.InsertAttachment? && p.source.objectKey in bodies ==>
          p.source.id in db.attachments)
  }

  lemma IssuesSkipped(db: Database, plans: seq<IssuePlan>)
    requires forall p :: p in plans && p.InsertIssue? ==> p.source.id in db.issues
    ensures ApplyIssuePhase(db, plans) == Ok(db)
  {
    NoNewIssues(db, plans);
  }

  lemma ProjectsSkipped(db: Database, imports: seq<ProjectImport>)
    requires forall p :: p in imports ==> p.source.id in db.projects
    ensures ApplyProjects(db, NewImports(db, imports), db.workspaces.Keys) == Ok(db)
  {
    NoNewImports(db, imports);
  }

  lemma HistorySkipped(db: Database, plan: MergePlan, bodies: set<string>)
    requires Present(db, plan, bodies) && ApplyDocuments(db, plan.documentPlans) == Ok(db)
    ensures ApplyHistory(db, plan, bodies) == Ok(db)
  {
    CommentsSkipped(db, plan.commentPlans);
    AttachmentsSkipped(db, plan.attachmentPlans, bodies);
  }

  lemma NothingLeft(db: Database, plan: MergePlan, bodies: set<string>)
    requires Present(db, plan, bodies) && ApplyDocuments(db, plan.documentPlans) == Ok(db)
    ensures Apply(db, plan, bodies) == Ok(db)
  {
    ProjectsSkipped(db, plan.projectImports);
    IssuesSkipped(db, plan.issuePlans);
    HistorySkipped(db, plan, bodies);
  }

  lemma ImportsPresent(keys: set<Id>, imports: seq<ProjectImport>)
    requires R.ImportedProjects(imports) <= keys
    ensures forall p :: p in imports ==> p.source.id in keys
  {
    forall p | p in imports ensures p.source.id in keys {
      var k :| 0 <= k < |imports| && imports[k] == p;
      assert p.source.id in R.ImportedProjects(imports);
    }
  }

  lemma IssuesPresent(keys: set<Id>, plans: seq<IssuePlan>)
    requires InsertedIssueIds(plans) <= keys
    ensures forall p :: p in plans && p.InsertIssue? ==> p.source.id in keys
  {
    forall p | p in plans && p.InsertIssue? ensures p.source.id in keys {
      var k :| 0 <= k < |plans| && plans[k] == p;
      assert p.source.id in InsertedIssueIds(plans);
    }
  }

  lemma CommentsPresent(keys: set<Id>, plans: seq<CommentPlan>)
    requires InsertedCommentIds(plans) <= keys
    ensures forall p :: p in plans && p.InsertComment? ==> p.source.id in keys
  {
    forall p | p in plans && p.InsertComment? ensures p.source.id in keys {
      var k :| 0 <= k < |plans| && plans[k] == p;
      assert p.source.id in InsertedCommentIds(plans);
    }
  }

  lemma AttachmentsPresent(keys: set<Id>, plans: seq<AttachmentPlan>, bodies: set<string>)
    requires R.ServedIds(plans, bodies) <= keys
    ensures forall p :: p in plans && p.InsertAttachment? && p.source.objectKey in bodies ==> p.source.id in keys
  {
    forall p | p in plans && p.InsertAttachment? && p.source.objectKey in bodies ensures p.source.id in keys {
      var k :| 0 <= k < |plans| && plans[k] == p;
      assert p.source.id in R.ServedIds(plans, bodies);
    }
  }

  lemma AllPresent(source: Source, target: Database, after: Database, plan: MergePlan, bodies: set<string>)
    requires F.Merged(source, target, after, plan, bodies)
    ensures Present(after, plan, bodies)
  {
    ImportsPresent(after.projects.Keys, plan.projectImports);
    IssuesPresent(after.issues.Keys, plan.issuePlans);
    CommentsPresent(after.comments.Keys, plan.commentPlans);
    AttachmentsPresent(after.attachments.Keys, plan.attachmentPlans, bodies);
  }

  /** A plan applied again, without planning anew, to the target it has already been applied to changes nothing. */
  lemma RetryChangesNothing(source: Source, target: Database, request: Request, order: seq<Issue>, plan: MergePlan,
        bodies: set<string>, after: Database)
    requires Mergeable(source, target) && Planned(plan, source, target, request, order)
    requires Apply(target, plan, bodies) == Ok(after)
    ensures Apply(after, plan, bodies) == Ok(after)
  {
    F.MergeOutcome(source, target, request, order, plan, bodies, after);
    PlannedRewritable(source, target, AvailableIssues(target, plan.issuePlans),
      Sort(source.documents, DocumentNoLater), after);
    DocumentsRewritten(target, after, plan.documentPlans);
    AllPresent(source, target, after, plan, bodies);
    NothingLeft(after, plan, bodies);
  }
}
