/** Documents, links and revisions of an applied merge: no statement fails, and what ends up in the target. */
module MergeDocuments {
  import opened Basics
  import opened MergeModel
  import opened RevisionNumbers
  import opened MergePlanner
  import opened MergeApply

  function DocumentId(d: IssueDocument): Id { d.documentId }
  function DocumentLink(d: IssueDocument): Id { d.link.id }
  function DocumentSlot(d: IssueDocument): (Id, string) { (d.link.issueId, d.link.key) }
  function RevisionId(r: Revision): Id { r.id }
  function PlannedRevisionId(p: RevisionPlan): Id { p.source.id }
  function PlannedNumber(p: RevisionPlan): int { p.targetRevisionNumber }

  /* ---- what a document plan writes ---- */

  function RevisionRows(documentId: Id, plans: seq<RevisionPlan>): (rows: seq<Revision>)
    ensures |rows| == |plans| && forall k :: 0 <= k < |plans| ==> rows[k] == RevisionRow(documentId, plans[k])
  {
    seq(|plans|, k requires 0 <= k < |plans| => RevisionRow(documentId, plans[k]))
  }

  function FinalDocument(db: Database, d: IssueDocument, write: DocumentWrite): Document {
    if d.documentId in db.documents then MergedDocument(db.documents[d.documentId], d.doc, write)
    else NewDocument(d.doc, write)
  }

  function FinalLink(db: Database, d: IssueDocument): Link {
    if d.documentId in db.links then MergedLink(db.links[d.documentId], d.link) else d.link
  }

  function Written(db: Database, d: IssueDocument, write: DocumentWrite): Database {
    db.(documents := db.documents[d.documentId := FinalDocument(db, d, write)],
        links := db.links[d.documentId := FinalLink(db, d)],
        revisions := db.revisions + RevisionRows(d.documentId, write.revisionsToInsert))
  }

  function WrittenAll(db: Database, plans: seq<DocumentPlan>): Database
    decreases |plans|
  {
    if plans == [] then db
    else if plans[0].Writes() then WrittenAll(Written(db, plans[0].source, plans[0].write), plans[1..])
    else WrittenAll(db, plans[1..])
  }

  /* ---- when nothing can fail ---- */

  ghost predicate RevisionReady(db: Database, documentId: Id, p: RevisionPlan) {
    && RefOk(p.targetCreatedByAgentId, db.agents)
    && forall k :: 0 <= k < |db.revisions| ==>
         && db.revisions[k].id != p.source.id
         && (db.revisions[k].documentId == documentId ==> db.revisions[k].revisionNumber != p.targetRevisionNumber)
  }

  ghost predicate RevisionsReady(db: Database, documentId: Id, plans: seq<RevisionPlan>) {
    && UniqueBy(plans, PlannedRevisionId) && UniqueBy(plans, PlannedNumber)
    && forall k :: 0 <= k < |plans| ==> RevisionReady(db, documentId, plans[k])
  }

  ghost predicate LinkIdFree(db: Database, d: IssueDocument) {
    forall e :: e in db.links && db.links[e].id == d.link.id ==> e == d.documentId
  }

  ghost predicate DocumentReady(db: Database, p: DocumentPlan) {
    p.Writes() ==>
      && p.source.link.issueId in db.issues
      && SlotFree(db, p.source.documentId, p.source.link.issueId, p.source.link.key)
      && LinkIdFree(db, p.source)
      && RefOk(p.write.targetCreatedByAgentId, db.agents) && RefOk(p.write.targetUpdatedByAgentId, db.agents)
      && RevisionsReady(db, p.source.documentId, p.write.revisionsToInsert)
  }

  ghost predicate Apart(p: DocumentPlan, q: DocumentPlan) {
    p.Writes() && q.Writes() ==>
      && p.source.documentId != q.source.documentId && p.source.link.id != q.source.link.id
      && !SameSlot(p.source.link, q.source.link)
      && forall j, k :: 0 <= j < |p.write.revisionsToInsert| && 0 <= k < |q.write.revisionsToInsert| ==>
           p.write.revisionsToInsert[j].source.id != q.write.revisionsToInsert[k].source.id
  }

  /** Every document has its link, and document authors are agents of the target. */
  ghost predicate Linked(db: Database) {
    && db.documents.Keys == db.links.Keys
    && forall d :: d in db.documents ==> RefOk(db.documents[d].createdByAgentId, db.agents)
  }

  ghost predicate DocumentsReady(db: Database, plans: seq<DocumentPlan>) {
    && Linked(db)
    && (forall k :: 0 <= k < |plans| ==> DocumentReady(db, plans[k]))
    && (forall j, k :: 0 <= j < k < |plans| ==> Apart(plans[j], plans[k]))
  }

  /* ---- one document ---- */

  lemma {:induction false} RevisionsGoIn(db: Database, documentId: Id, plans: seq<RevisionPlan>, existing: set<Id>)
    requires documentId in db.documents && RevisionsReady(db, documentId, plans)
    requires forall k :: 0 <= k < |plans| ==> plans[k].source.id !in existing
    ensures ApplyRevisions(db, documentId, plans, existing)
         == Ok(db.(revisions := db.revisions + RevisionRows(documentId, plans)))
    decreases |plans|
  {
    if plans == [] {
      assert db.revisions + RevisionRows(documentId, plans) == db.revisions;
    } else {
      var row := RevisionRow(documentId, plans[0]);
      assert RevisionReady(db, documentId, plans[0]);
      assert InsertRevisionRow(db, row) == Ok(db.(revisions := db.revisions + [row]));
      var db1 := db.(revisions := db.revisions + [row]);
      RevisionsReadyTail(db, documentId, plans);
      RevisionsGoIn(db1, documentId, plans[1..], existing);
      assert RevisionRows(documentId, plans) == [row] + RevisionRows(documentId, plans[1..]);
      AppendShift(db.revisions, row, RevisionRows(documentId, plans[1..]));
    }
  }

  lemma RevisionsReadyTail(db: Database, documentId: Id, plans: seq<RevisionPlan>)
    requires RevisionsReady(db, documentId, plans) && plans != []
    ensures RevisionsReady(db.(revisions := db.revisions + [RevisionRow(documentId, plans[0])]), documentId, plans[1..])
  {
    var db1 := db.(revisions := db.revisions + [RevisionRow(documentId, plans[0])]);
    UniqueByTail(plans, PlannedRevisionId);
    UniqueByTail(plans, PlannedNumber);
    forall k | 0 <= k < |plans[1..]| ensures RevisionReady(db1, documentId, plans[1..][k]) {
      assert RevisionReady(db, documentId, plans[k + 1]);
      assert PlannedRevisionId(plans[k + 1]) != PlannedRevisionId(plans[0]);
      assert PlannedNumber(plans[k + 1]) != PlannedNumber(plans[0]);
    }
  }

  lemma RowsGoIn(db: Database, p: DocumentPlan)
    requires Linked(db) && p.Writes() && DocumentReady(db, p)
    ensures !Skipped(db, p.source)
    ensures WriteDocumentRows(db, p.source, p.write) == Ok(db.(
        documents := db.documents[p.source.documentId := FinalDocument(db, p.source, p.write)],
        links := db.links[p.source.documentId := FinalLink(db, p.source)]))
  {
  }

  lemma DocumentGoesIn(db: Database, p: DocumentPlan)
    requires Linked(db) && p.Writes() && DocumentReady(db, p)
    ensures !Skipped(db, p.source) && WriteDocument(db, p.source, p.write) == Ok(Written(db, p.source, p.write))
  {
    RowsGoIn(db, p);
    var db1 := WriteDocumentRows(db, p.source, p.write).value;
    var plans := p.write.revisionsToInsert;
    forall k | 0 <= k < |plans| ensures RevisionReady(db1, p.source.documentId, plans[k]) {
      assert RevisionReady(db, p.source.documentId, plans[k]);
    }
    RevisionsGoIn(db1, p.source.documentId, plans, RevisionIds(db1.revisions, p.source.documentId));
  }

  /** Writing one document leaves the others' plans executable. */
  lemma StillReady(db: Database, p: DocumentPlan, q: DocumentPlan)
    requires p.Writes() && DocumentReady(db, p) && DocumentReady(db, q) && Apart(p, q)
    ensures DocumentReady(Written(db, p.source, p.write), q)
  {
    if q.Writes() {
      var after := Written(db, p.source, p.write);
      var plans := q.write.revisionsToInsert;
      forall k | 0 <= k < |plans| ensures RevisionReady(after, q.source.documentId, plans[k]) {
        assert RevisionReady(db, q.source.documentId, plans[k]);
      }
    }
  }

  lemma ReadyTail(db: Database, plans: seq<DocumentPlan>)
    requires DocumentsReady(db, plans) && plans != []
    ensures DocumentsReady(if plans[0].Writes() then Written(db, plans[0].source, plans[0].write) else db, plans[1..])
  {
    assert DocumentReady(db, plans[0]);
    var db1 := if plans[0].Writes() then Written(db, plans[0].source, plans[0].write) else db;
    forall k | 0 <= k < |plans[1..]| ensures DocumentReady(db1, plans[1..][k]) {
      assert DocumentReady(db, plans[k + 1]) && Apart(plans[0], plans[k + 1]);
      if plans[0].Writes() { StillReady(db, plans[0], plans[k + 1]); }
    }
    forall j, k | 0 <= j < k < |plans[1..]| ensures Apart(plans[1..][j], plans[1..][k]) {
      assert Apart(plans[j + 1], plans[k + 1]);
    }
  }

  lemma {:induction false} DocumentsGoIn(db: Database, plans: seq<DocumentPlan>)
    requires DocumentsReady(db, plans)
    ensures ApplyDocuments(db, plans) == Ok(WrittenAll(db, plans))
    decreases |plans|
  {
    if plans != [] {
      ReadyTail(db, plans);
      assert DocumentReady(db, plans[0]);
      if plans[0].Writes() {
        DocumentGoesIn(db, plans[0]);
        DocumentsGoIn(Written(db, plans[0].source, plans[0].write), plans[1..]);
      } else {
        DocumentsGoIn(db, plans[1..]);
      }
    }
  }

  /* ---- what the whole phase leaves behind ---- */

  /** Document `d` looks the same in both databases. */
  ghost predicate SameDocument(db: Database, after: Database, d: Id) {
    && (d in db.documents <==> d in after.documents) && (d in db.documents ==> db.documents[d] == after.documents[d])
    && (d in db.links <==> d in after.links) && (d in db.links ==> db.links[d] == after.links[d])
    && RevisionsOf(db.revisions, d) == RevisionsOf(after.revisions, d)
  }

  ghost predicate DocumentWritten(db: Database, after: Database, d: IssueDocument, write: DocumentWrite) {
    && d.documentId in after.documents && after.documents[d.documentId] == FinalDocument(db, d, write)
    && d.documentId in after.links && after.links[d.documentId] == FinalLink(db, d)
    && RevisionsOf(after.revisions, d.documentId)
       == RevisionsOf(db.revisions, d.documentId) + RevisionRows(d.documentId, write.revisionsToInsert)
  }

  lemma {:induction false} RevisionsOfConcat(a: seq<Revision>, b: seq<Revision>, d: Id)
    ensures RevisionsOf(a + b, d) == RevisionsOf(a, d) + RevisionsOf(b, d)
  {
    if b == [] {
      assert a + b == a;
    } else {
      var front := b[..|b| - 1];
      assert (a + b)[..|a + b| - 1] == a + front;
      RevisionsOfConcat(a, front, d);
    }
  }

  lemma {:induction false} RevisionsOfRows(rows: seq<Revision>, documentId: Id, d: Id)
    requires forall k :: 0 <= k < |rows| ==> rows[k].documentId == documentId
    ensures RevisionsOf(rows, d) == if d == documentId then rows else []
  {
    if rows != [] {
      RevisionsOfRows(rows[..|rows| - 1], documentId, d);
      assert rows == rows[..|rows| - 1] + [rows[|rows| - 1]];
    }
  }

  lemma WrittenEffect(db: Database, d: IssueDocument, write: DocumentWrite)
    ensures DocumentWritten(db, Written(db, d, write), d, write)
    ensures forall e :: e != d.documentId ==> SameDocument(db, Written(db, d, write), e)
  {
    var rows := RevisionRows(d.documentId, write.revisionsToInsert);
    forall e
      ensures RevisionsOf(db.revisions + rows, e)
           == RevisionsOf(db.revisions, e) + if e == d.documentId then rows else []
    {
      RevisionsOfConcat(db.revisions, rows, e);
      RevisionsOfRows(rows, d.documentId, e);
    }
  }

  ghost predicate Writer(plans: seq<DocumentPlan>, k: int, d: Id) {
    0 <= k < |plans| && plans[k].Writes() && plans[k].source.documentId == d
  }

  lemma {:induction false} UntouchedDocument(db: Database, plans: seq<DocumentPlan>, d: Id)
    requires forall k: int :: !Writer(plans, k, d)
    ensures SameDocument(db, WrittenAll(db, plans), d)
    decreases |plans|
  {
    if plans != [] {
      forall k: int ensures !Writer(plans[1..], k, d) { assert !Writer(plans, k + 1, d); }
      assert !Writer(plans, 0, d);
      if plans[0].Writes() {
        WrittenEffect(db, plans[0].source, plans[0].write);
        assert SameDocument(db, Written(db, plans[0].source, plans[0].write), d);
        UntouchedDocument(Written(db, plans[0].source, plans[0].write), plans[1..], d);
      } else {
        UntouchedDocument(db, plans[1..], d);
      }
    }
  }

  lemma {:induction false} WrittenDocument(db: Database, plans: seq<DocumentPlan>, k: nat)
    requires k < |plans| && plans[k].Writes()
    requires forall i, j :: 0 <= i < j < |plans| ==> plans[i].source.documentId != plans[j].source.documentId
    ensures DocumentWritten(db, WrittenAll(db, plans), plans[k].source, plans[k].write)
    decreases |plans|
  {
    if k == 0 {
      var db1 := Written(db, plans[0].source, plans[0].write);
      WrittenEffect(db, plans[0].source, plans[0].write);
      forall j: int ensures !Writer(plans[1..], j, plans[0].source.documentId) {
        assert 0 <= j < |plans[1..]| ==> plans[1..][j] == plans[j + 1];
      }
      UntouchedDocument(db1, plans[1..], plans[0].source.documentId);
    } else {
      var db1 := if plans[0].Writes() then Written(db, plans[0].source, plans[0].write) else db;
      if plans[0].Writes() { WrittenEffect(db, plans[0].source, plans[0].write); }
      assert plans[1..][k - 1] == plans[k];
      WrittenDocument(db1, plans[1..], k - 1);
      assert SameDocument(db, db1, plans[k].source.documentId);
    }
  }

  lemma {:induction false} WrittenAllFrame(db: Database, plans: seq<DocumentPlan>)
    ensures var after := WrittenAll(db, plans);
      after == db.(documents := after.documents, links := after.links, revisions := after.revisions)
    ensures db.documents.Keys == db.links.Keys ==>
      WrittenAll(db, plans).documents.Keys == WrittenAll(db, plans).links.Keys
    decreases |plans|
  {
    if plans != [] {
      WrittenAllFrame(if plans[0].Writes() then Written(db, plans[0].source, plans[0].write) else db, plans[1..]);
    }
  }

  /** After the phase every planned document is written, every other one is as it was, and each still has its link. */
  ghost predicate DocumentsSettled(db: Database, after: Database, plans: seq<DocumentPlan>) {
    && (forall k :: 0 <= k < |plans| && plans[k].Writes() ==>
      DocumentWritten(db, after, plans[k].source, plans[k].write))
    && (forall d :: NotWritten(plans, d) ==> SameDocument(db, after, d))
    && after.documents.Keys == after.links.Keys
  }

  ghost predicate NotWritten(plans: seq<DocumentPlan>, d: Id) {
    forall k: int :: !Writer(plans, k, d)
  }

  /** As many revisions are appended as the plans say. */
  lemma {:induction false} RevisionsAppended(db: Database, plans: seq<DocumentPlan>)
    ensures |WrittenAll(db, plans).revisions| == |db.revisions| + RevisionCount(plans)
    decreases |plans|
  {
    if plans != [] {
      RevisionCountHead(plans[0], plans[1..]);
      assert [plans[0]] + plans[1..] == plans;
      RevisionsAppended(if plans[0].Writes() then Written(db, plans[0].source, plans[0].write) else db, plans[1..]);
    }
  }

  lemma {:induction false} RevisionCountHead(p: DocumentPlan, rest: seq<DocumentPlan>)
    ensures RevisionCount([p] + rest) == (if p.Writes() then |p.write.revisionsToInsert| else 0) + RevisionCount(rest)
  {
    if rest == [] {
      assert [p] + rest == [p] && [p][..0] == [];
    } else {
      var front := rest[..|rest| - 1];
      assert ([p] + rest)[..|rest|] == [p] + front;
      RevisionCountHead(p, front);
    }
  }

  lemma DocumentsSettle(db: Database, plans: seq<DocumentPlan>)
    requires DocumentsReady(db, plans)
    requires forall i, j :: 0 <= i < j < |plans| ==> plans[i].source.documentId != plans[j].source.documentId
    ensures DocumentsSettled(db, WrittenAll(db, plans), plans)
  {
    WrittenAllFrame(db, plans);
    var after := WrittenAll(db, plans);
    forall k | 0 <= k < |plans| && plans[k].Writes()
      ensures DocumentWritten(db, after, plans[k].source, plans[k].write)
    {
      WrittenDocument(db, plans, k);
    }
    forall d | NotWritten(plans, d) ensures SameDocument(db, after, d) {
      UntouchedDocument(db, plans, d);
    }
  }

  /** Only the document tables matter to `DocumentsSettled`. */
  lemma SettledFromTarget(target: Database, db: Database, after: Database, plans: seq<DocumentPlan>)
    requires db.documents == target.documents && db.links == target.links && db.revisions == target.revisions
    requires DocumentsSettled(db, after, plans)
    ensures DocumentsSettled(target, after, plans)
  {
    forall k | 0 <= k < |plans| && plans[k].Writes()
      ensures DocumentWritten(target, after, plans[k].source, plans[k].write)
    {
      assert DocumentWritten(db, after, plans[k].source, plans[k].write);
    }
    forall d | NotWritten(plans, d) ensures SameDocument(target, after, d) {
      assert SameDocument(db, after, d);
    }
  }

  lemma SettledInAfter(target: Database, mid: Database, after: Database, plans: seq<DocumentPlan>)
    requires after.documents == mid.documents && after.links == mid.links && after.revisions == mid.revisions
    requires DocumentsSettled(target, mid, plans)
    ensures DocumentsSettled(target, after, plans)
  {
    forall k | 0 <= k < |plans| && plans[k].Writes()
      ensures DocumentWritten(target, after, plans[k].source, plans[k].write)
    {
      assert DocumentWritten(target, mid, plans[k].source, plans[k].write);
    }
    forall d | NotWritten(plans, d) ensures SameDocument(target, after, d) {
      assert SameDocument(target, mid, d);
    }
  }

  /* ---- the planner's document plans are executable ---- */

  lemma {:induction false} RevisionsOfMembers(all: seq<Revision>, d: Id)
    ensures forall r :: r in RevisionsOf(all, d) <==> r in all && r.documentId == d
    ensures UniqueBy(all, RevisionId) ==> UniqueBy(RevisionsOf(all, d), RevisionId)
  {
    if all != [] {
      var front, last := all[..|all| - 1], all[|all| - 1];
      assert all == front + [last];
      RevisionsOfMembers(front, d);
      if UniqueBy(all, RevisionId) {
        assert UniqueBy(front, RevisionId);
        var before := RevisionsOf(front, d);
        forall k | 0 <= k < |before| ensures before[k].id != last.id {
          assert before[k] in before && before[k] in front;
          var j :| 0 <= j < |front| && front[j] == before[k];
          assert RevisionId(all[j]) != RevisionId(all[|all| - 1]);
        }
      }
    }
  }

  lemma {:induction false} MissingMembers(source: seq<Revision>, existing: set<Id>)
    ensures forall r :: r in Missing(source, existing) <==> r in source && r.id !in existing
    ensures UniqueBy(source, RevisionId) ==> UniqueBy(Missing(source, existing), RevisionId)
  {
    if source != [] {
      assert source == [source[0]] + source[1..];
      MissingMembers(source[1..], existing);
      if UniqueBy(source, RevisionId) {
        UniqueByTail(source, RevisionId);
        var rest := Missing(source[1..], existing);
        forall k | 0 <= k < |rest| ensures rest[k].id != source[0].id { assert rest[k] in rest; }
      }
    }
  }

  function PlannedMissing(source: seq<Revision>, target: seq<Revision>): seq<Revision> {
    Missing(source, IdsIn(target))
  }

  function PlannedNumbering(source: seq<Revision>, target: seq<Revision>): seq<int> {
    Assigned(PlannedMissing(source, target), NumbersIn(target), MaxNumber(target) + 1)
  }

  lemma PlannedShape(source: seq<Revision>, target: seq<Revision>, agents: set<Id>)
    ensures var plans := RevisionPlans(source, target, agents);
      && |plans| == |PlannedMissing(source, target)|
      && forall k :: 0 <= k < |plans| ==>
           && plans[k].source == PlannedMissing(source, target)[k]
           && plans[k].targetRevisionNumber == PlannedNumbering(source, target)[k]
           && RefOk(plans[k].targetCreatedByAgentId, agents)
  {
    PlansFromParts(source, IdsIn(target), NumbersIn(target), MaxNumber(target) + 1, agents);
  }

  ghost predicate IsPlanned(plans: seq<RevisionPlan>, r: Revision) {
    exists k :: 0 <= k < |plans| && plans[k].source == r
  }

  /** A number no revision of the target has, for a revision the target does not have. */
  ghost predicate PlannedNew(p: RevisionPlan, target: seq<Revision>, agents: set<Id>) {
    && p.source.id !in IdsIn(target) && p.targetRevisionNumber !in NumbersIn(target)
    && RefOk(p.targetCreatedByAgentId, agents)
  }

  /** The planned revisions of a document are exactly its source revisions that the target lacks, each once,
      under numbers that collide with nothing. */
  lemma PlannedRevisions(source: seq<Revision>, target: seq<Revision>, agents: set<Id>)
    requires UniqueBy(source, RevisionId)
    ensures var plans := RevisionPlans(source, target, agents);
      && UniqueBy(plans, PlannedRevisionId) && UniqueBy(plans, PlannedNumber)
      && (forall r :: IsPlanned(plans, r) <==> r in source && r.id !in IdsIn(target))
      && forall k :: 0 <= k < |plans| ==> plans[k].source in source && PlannedNew(plans[k], target, agents)
  {
    var plans, missing := RevisionPlans(source, target, agents), PlannedMissing(source, target);
    PlannedShape(source, target, agents);
    MissingMembers(source, IdsIn(target));
    PlannedNumbers(source, target, agents);
    PlansApart(plans, missing);
    PlansExactly(plans, missing);
    forall k | 0 <= k < |plans| ensures plans[k].source in source && PlannedNew(plans[k], target, agents) {
      assert plans[k].source in missing;
    }
  }

  lemma PlannedNumbers(source: seq<Revision>, target: seq<Revision>, agents: set<Id>)
    ensures var plans := RevisionPlans(source, target, agents);
      && UniqueBy(plans, PlannedNumber)
      && forall k :: 0 <= k < |plans| ==> plans[k].targetRevisionNumber !in NumbersIn(target)
  {
    PlannedShape(source, target, agents);
    AssignedApart(PlannedMissing(source, target), NumbersIn(target), MaxNumber(target) + 1);
    NumbersApart(RevisionPlans(source, target, agents), PlannedNumbering(source, target));
  }

  lemma NumbersApart(plans: seq<RevisionPlan>, numbers: seq<int>)
    requires |plans| == |numbers| && Distinct(numbers)
    requires forall k :: 0 <= k < |plans| ==> plans[k].targetRevisionNumber == numbers[k]
    ensures UniqueBy(plans, PlannedNumber)
  {
    forall j, k | 0 <= j < k < |plans| ensures PlannedNumber(plans[j]) != PlannedNumber(plans[k]) {
      assert numbers[j] != numbers[k];
    }
  }

  lemma PlansExactly(plans: seq<RevisionPlan>, missing: seq<Revision>)
    requires |plans| == |missing| && forall k :: 0 <= k < |plans| ==> plans[k].source == missing[k]
    ensures forall r :: IsPlanned(plans, r) <==> r in missing
  {
    forall r | r in missing ensures IsPlanned(plans, r) {
      var k :| 0 <= k < |missing| && missing[k] == r;
      assert plans[k].source == r;
    }
  }

  lemma PlansApart(plans: seq<RevisionPlan>, revisions: seq<Revision>)
    requires |plans| == |revisions| && UniqueBy(revisions, RevisionId)
    requires forall k :: 0 <= k < |plans| ==> plans[k].source == revisions[k]
    ensures UniqueBy(plans, PlannedRevisionId)
  {
    forall j, k | 0 <= j < k < |plans| ensures PlannedRevisionId(plans[j]) != PlannedRevisionId(plans[k]) {
      assert RevisionId(revisions[j]) != RevisionId(revisions[k]);
    }
  }

  /** What the two instances must agree on for documents to merge: unique keys on each side, ids that
      mean the same row on both, and no source slot held by a different document of the target. */
  ghost predicate DocumentsMergeable(source: Source, target: Database) {
    && UniqueBy(source.documents, DocumentId) && UniqueBy(source.documents, DocumentLink)
    && UniqueBy(source.documents, DocumentSlot)
    && UniqueBy(source.revisions, RevisionId)
    && Linked(target) && (forall d :: d in target.links ==> target.links[d].issueId in target.issues)
    && (forall k :: 0 <= k < |target.revisions| ==> target.revisions[k].documentId in target.documents)
    && UniqueBy(target.revisions, RevisionId)
    && (forall j, k ::
      0 <= j < |source.revisions| && 0 <= k < |target.revisions| && source.revisions[j].id == target.revisions[k].id ==>
          source.revisions[j].documentId == target.revisions[k].documentId)
    && (forall k :: 0 <= k < |source.documents| ==>
          LinkIdFree(target, source.documents[k])
          && SlotFree(target, source.documents[k].documentId, source.documents[k].link.issueId,
            source.documents[k].link.key))
  }

  lemma SourceRevisionsOf(source: Source, d: Id)
    requires UniqueBy(source.revisions, RevisionId)
    ensures UniqueBy(SourceRevisions(source, d), RevisionId)
    ensures forall r :: r in SourceRevisions(source, d) <==> r in source.revisions && r.documentId == d
  {
    RevisionsOfMembers(source.revisions, d);
    SortPermutes(RevisionsOf(source.revisions, d), RevisionNoLater);
    UniqueByPermuted(RevisionsOf(source.revisions, d), SourceRevisions(source, d), RevisionId);
  }

  lemma TargetRevisionsOf(source: Source, target: Database, d: Id)
    requires DocumentsMergeable(source, target)
    ensures forall r :: r in TargetRevisions(target, d) <==> r in target.revisions && r.documentId == d
    ensures UniqueBy(TargetRevisions(target, d), RevisionId)
  {
    RevisionsOfMembers(target.revisions, d);
    SortPermutes(JoinedRevisions(target, d), RevisionNoLater);
    UniqueByPermuted(JoinedRevisions(target, d), TargetRevisions(target, d), RevisionId);
    if Joined(target, d).None? {
      assert d !in target.documents;
      forall r | r in target.revisions ensures r.documentId != d {
        var k :| 0 <= k < |target.revisions| && target.revisions[k] == r;
      }
    }
  }

  lemma PlannedRevisionsReady(source: Source, target: Database, db: Database, d: Id)
    requires DocumentsMergeable(source, target) && db.revisions == target.revisions && db.agents == target.agents
    ensures RevisionsReady(db, d, RevisionPlans(SourceRevisions(source, d), TargetRevisions(target, d), target.agents))
  {
    var theirs, ours := SourceRevisions(source, d), TargetRevisions(target, d);
    var plans := RevisionPlans(theirs, ours, target.agents);
    SourceRevisionsOf(source, d);
    TargetRevisionsOf(source, target, d);
    PlannedRevisions(theirs, ours, target.agents);
    forall k | 0 <= k < |plans| ensures RevisionReady(db, d, plans[k]) {
      var p := plans[k];
      assert p.source in theirs;
      var j :| 0 <= j < |source.revisions| && source.revisions[j] == p.source;
      forall m | 0 <= m < |db.revisions|
        ensures db.revisions[m].id != p.source.id
        ensures db.revisions[m].documentId == d ==> db.revisions[m].revisionNumber != p.targetRevisionNumber
      {
        var r := target.revisions[m];
        if r.documentId == d {
          assert r in ours;
          var i :| 0 <= i < |ours| && ours[i] == r;
        }
      }
    }
  }

  lemma PlannedDocumentReady(source: Source, target: Database, db: Database, d: IssueDocument, issues: set<Id>)
    requires DocumentsMergeable(source, target) && d in source.documents && issues <= db.issues.Keys
    requires db.links == target.links && db.revisions == target.revisions && db.agents == target.agents
    ensures DocumentReady(db, DocumentPlanFor(d, source, target, issues))
  {
    var k :| 0 <= k < |source.documents| && source.documents[k] == d;
    PlannedRevisionsReady(source, target, db, d.documentId);
  }

  lemma PlannedDocumentsApart(source: Source, target: Database, d: IssueDocument, e: IssueDocument, issues: set<Id>)
    requires DocumentsMergeable(source, target)
    requires d.documentId != e.documentId && d.link.id != e.link.id && !SameSlot(d.link, e.link)
    ensures Apart(DocumentPlanFor(d, source, target, issues), DocumentPlanFor(e, source, target, issues))
  {
    var p := RevisionPlans(SourceRevisions(source, d.documentId), TargetRevisions(target, d.documentId), target.agents);
    var q := RevisionPlans(SourceRevisions(source, e.documentId), TargetRevisions(target, e.documentId), target.agents);
    PlannedFrom(source, target, d.documentId);
    PlannedFrom(source, target, e.documentId);
    SourcesApart(source.revisions, p, q, d.documentId, e.documentId);
  }

  lemma PlannedFrom(source: Source, target: Database, d: Id)
    requires UniqueBy(source.revisions, RevisionId)
    ensures var plans := RevisionPlans(SourceRevisions(source, d), TargetRevisions(target, d), target.agents);
      forall k :: 0 <= k < |plans| ==> plans[k].source in source.revisions && plans[k].source.documentId == d
  {
    SourceRevisionsOf(source, d);
    PlannedRevisions(SourceRevisions(source, d), TargetRevisions(target, d), target.agents);
  }

  lemma SourcesApart(all: seq<Revision>, p: seq<RevisionPlan>, q: seq<RevisionPlan>, d: Id, e: Id)
    requires UniqueBy(all, RevisionId) && d != e
    requires forall k :: 0 <= k < |p| ==> p[k].source in all && p[k].source.documentId == d
    requires forall k :: 0 <= k < |q| ==> q[k].source in all && q[k].source.documentId == e
    ensures forall j, k :: 0 <= j < |p| && 0 <= k < |q| ==> p[j].source.id != q[k].source.id
  {
    forall j, k | 0 <= j < |p| && 0 <= k < |q| ensures p[j].source.id != q[k].source.id {
      if p[j].source.id == q[k].source.id {
        UniqueByKey(all, RevisionId, p[j].source, q[k].source);
      }
    }
  }

  lemma SortedDocuments(source: Source)
    requires UniqueBy(source.documents, DocumentId) && UniqueBy(source.documents, DocumentLink)
    requires UniqueBy(source.documents, DocumentSlot)
    ensures var rows := Sort(source.documents, DocumentNoLater);
      && UniqueBy(rows, DocumentId) && UniqueBy(rows, DocumentLink) && UniqueBy(rows, DocumentSlot)
      && forall d :: d in rows <==> d in source.documents
  {
    var rows := Sort(source.documents, DocumentNoLater);
    SortPermutes(source.documents, DocumentNoLater);
    UniqueByPermuted(source.documents, rows, DocumentId);
    UniqueByPermuted(source.documents, rows, DocumentLink);
    UniqueByPermuted(source.documents, rows, DocumentSlot);
  }

  lemma PlannedDocumentsReady(source: Source, target: Database, db: Database, issues: set<Id>)
    requires DocumentsMergeable(source, target) && issues <= db.issues.Keys
    requires db.documents == target.documents && db.links == target.links && db.revisions == target.revisions
    requires db.agents == target.agents
    ensures DocumentsReady(db, DocumentPlansFor(Sort(source.documents, DocumentNoLater), source, target, issues))
  {
    var rows := Sort(source.documents, DocumentNoLater);
    var plans := DocumentPlansFor(rows, source, target, issues);
    SortedDocuments(source);
    forall k | 0 <= k < |plans| ensures DocumentReady(db, plans[k]) {
      assert rows[k] in rows;
      PlannedDocumentReady(source, target, db, rows[k], issues);
    }
    forall j, k | 0 <= j < k < |plans| ensures Apart(plans[j], plans[k]) {
      assert DocumentId(rows[j]) != DocumentId(rows[k]) && DocumentLink(rows[j]) != DocumentLink(rows[k]);
      assert DocumentSlot(rows[j]) != DocumentSlot(rows[k]);
      PlannedDocumentsApart(source, target, rows[j], rows[k], issues);
    }
  }
}
