/** The report is a function of the set of evidence rows, exactly when rows of one key agree on its header. */
module KeyReportOrder {
  import opened Basics
  import opened Text
  import opened KeyReport

  ghost predicate SameRows(a: seq<Evidence>, b: seq<Evidence>) {
    forall r :: r in a <==> r in b
  }

  predicate SameHeader(r: Evidence, q: Evidence) {
    r.companyId == q.companyId && r.agentId == q.agentId && r.keyName == q.keyName && r.revoked == q.revoked
  }

  /** Rows of one key agree on its company, agent, name and revocation. */
  ghost predicate Consistent(rows: seq<Evidence>) {
    forall r, q :: r in rows && q in rows && r.keyId == q.keyId ==> SameHeader(r, q)
  }

  lemma CandidateOrder()
    ensures TotalPreorder(ByUser)
  {
    TextOrder();
    forall x: Candidate, y: Candidate ensures ByUser(x, y) || ByUser(y, x) {
      assert NoLater(x.userId, y.userId) || NoLater(y.userId, x.userId);
    }
    forall x: Candidate, y: Candidate, z: Candidate | ByUser(x, y) && ByUser(y, z) ensures ByUser(x, z) {
      NoLaterTransitive(x.userId, y.userId, z.userId);
    }
  }

  lemma KeyOrder()
    ensures TotalPreorder(CompareTriple)
    ensures forall x, y :: CompareTriple(x, y) && CompareTriple(y, x) ==> x.keyId == y.keyId
  {
    forall x: ReportKey, y: ReportKey
      ensures CompareTriple(x, y) || CompareTriple(y, x)
      ensures CompareTriple(x, y) && CompareTriple(y, x) ==> x.keyId == y.keyId
    {
      Trichotomy(x.companyId, y.companyId);
      Trichotomy(x.agentId, y.agentId);
      Trichotomy(x.keyId, y.keyId);
    }
    forall x: ReportKey, y: ReportKey, z: ReportKey | CompareTriple(x, y) && CompareTriple(y, z)
      ensures CompareTriple(x, z)
    {
      TripleTransitive(x, y, z);
    }
  }

  lemma TripleTransitive(x: ReportKey, y: ReportKey, z: ReportKey)
    requires CompareTriple(x, y) && CompareTriple(y, z)
    ensures CompareTriple(x, z)
  {
    if x.companyId == y.companyId == z.companyId {
      if x.agentId == y.agentId == z.agentId {
        NoLaterTransitive(x.keyId, y.keyId, z.keyId);
      } else if x.agentId == z.agentId {
        Trichotomy(x.agentId, y.agentId);
      } else if x.agentId != y.agentId && y.agentId != z.agentId {
        NoLaterTransitive(x.agentId, y.agentId, z.agentId);
      }
    } else if x.companyId == z.companyId {
      Trichotomy(x.companyId, y.companyId);
    } else if x.companyId != y.companyId && y.companyId != z.companyId {
      NoLaterTransitive(x.companyId, y.companyId, z.companyId);
    }
  }

  /* ---- one key ---- */

  function Unsorted(rows: seq<Evidence>, keyId: string): (cs: seq<Candidate>) {
    CandidateList(UsersOf(rows, keyId), Tallies(rows, keyId))
  }

  lemma SameTallies(a: seq<Evidence>, b: seq<Evidence>, keyId: string, u: string)
    requires SameRows(a, b)
    ensures TallyOf(a, keyId, u) == TallyOf(b, keyId, u)
  {
    assert TallyOf(a, keyId, u).sources == TallyOf(b, keyId, u).sources;
  }

  lemma UnsortedDistinct(rows: seq<Evidence>, keyId: string)
    ensures Distinct(Unsorted(rows, keyId)) && NoTies(Unsorted(rows, keyId), ByUser)
    ensures forall c ::
      c in Unsorted(rows, keyId)
      <==> c.userId in UsersOf(rows, keyId) && c == CandidateFrom(c.userId, TallyOf(rows, keyId, c.userId))
  {
    UsersMeaning(rows, keyId);
    var cs, users := Unsorted(rows, keyId), UsersOf(rows, keyId);
    forall i, j | 0 <= i < j < |cs| ensures cs[i] != cs[j] { assert users[i] != users[j]; }
    forall c ensures c in cs <==> c.userId in users && c == CandidateFrom(c.userId, TallyOf(rows, keyId, c.userId)) {
      if c.userId in users && c == CandidateFrom(c.userId, TallyOf(rows, keyId, c.userId)) {
        var i :| 0 <= i < |users| && users[i] == c.userId;
        assert cs[i] == c;
      }
    }
    forall x, y | x in cs && y in cs && ByUser(x, y) && ByUser(y, x) ensures x == y {
      Trichotomy(x.userId, y.userId);
    }
  }

  lemma SameCandidates(a: seq<Evidence>, b: seq<Evidence>, keyId: string)
    requires SameRows(a, b)
    ensures Sort(Unsorted(a, keyId), ByUser) == Sort(Unsorted(b, keyId), ByUser)
  {
    UnsortedDistinct(a, keyId);
    UnsortedDistinct(b, keyId);
    UsersMeaning(a, keyId);
    UsersMeaning(b, keyId);
    forall c ensures c in Unsorted(a, keyId) <==> c in Unsorted(b, keyId) {
      SameTallies(a, b, keyId, c.userId);
    }
    DistinctSameSet(Unsorted(a, keyId), Unsorted(b, keyId));
    CandidateOrder();
    SortCanonical(Unsorted(a, keyId), Unsorted(b, keyId), ByUser);
  }

  lemma SameEntry(a: seq<Evidence>, b: seq<Evidence>, keyId: string)
    requires SameRows(a, b) && HeaderOf(a, keyId).Some? && HeaderOf(b, keyId).Some?
    requires SameHeader(HeaderOf(a, keyId).value, HeaderOf(b, keyId).value)
    ensures ReportOf(a, keyId) == ReportOf(b, keyId)
  {
    SameCandidates(a, b, keyId);
  }

  /* ---- the whole report ---- */

  lemma EntriesDistinct(rows: seq<Evidence>)
    ensures forall k :: k in KeyIds(rows) ==> HeaderOf(rows, k).Some?
    ensures Distinct(Entries(rows, KeyIds(rows))) && NoTies(Entries(rows, KeyIds(rows)), CompareTriple)
    ensures forall e :: e in Entries(rows, KeyIds(rows)) <==> e.keyId in KeyIds(rows) && e == ReportOf(rows, e.keyId)
  {
    KeyIdsMeaning(rows);
    var ids := KeyIds(rows);
    var es := Entries(rows, ids);
    forall i, j | 0 <= i < j < |es| ensures es[i] != es[j] { assert ids[i] != ids[j]; }
    forall e ensures e in es <==> e.keyId in ids && e == ReportOf(rows, e.keyId) {
      if e.keyId in ids && e == ReportOf(rows, e.keyId) {
        var i :| 0 <= i < |ids| && ids[i] == e.keyId;
        assert es[i] == e;
      }
    }
    KeyOrder();
    forall x, y | x in es && y in es && CompareTriple(x, y) && CompareTriple(y, x) ensures x == y {
      assert x.keyId == y.keyId;
    }
  }

  /** Reordering or repeating the evidence changes nothing when rows of one key agree. */
  lemma OrderIndependent(a: seq<Evidence>, b: seq<Evidence>)
    requires SameRows(a, b) && Consistent(a)
    ensures ReportKeys(a) == ReportKeys(b)
    ensures SummaryOf(ReportKeys(a)) == SummaryOf(ReportKeys(b))
  {
    EntriesDistinct(a);
    EntriesDistinct(b);
    KeyIdsMeaning(a);
    KeyIdsMeaning(b);
    forall k ensures k in KeyIds(a) <==> k in KeyIds(b) { }
    forall k | k in KeyIds(a) ensures ReportOf(a, k) == ReportOf(b, k) { SameEntry(a, b, k); }
    DistinctSameSet(Entries(a, KeyIds(a)), Entries(b, KeyIds(b)));
    KeyOrder();
    SortCanonical(Entries(a, KeyIds(a)), Entries(b, KeyIds(b)), CompareTriple);
  }

  lemma ReportMembers(rows: seq<Evidence>)
    ensures forall e :: e in ReportKeys(rows) <==> HeaderOf(rows, e.keyId).Some? && e == ReportOf(rows, e.keyId)
  {
    EntriesDistinct(rows);
    KeyIdsMeaning(rows);
    SortPermutes(Entries(rows, KeyIds(rows)), CompareTriple);
  }

  lemma {:induction false} FirstRowDecides(r: Evidence, rows: seq<Evidence>)
    ensures HeaderOf([r] + rows, r.keyId) == Some(r)
  {
    var all := [r] + rows;
    if rows == [] {
      assert all[..|all| - 1] == [];
    } else {
      assert all[..|all| - 1] == [r] + rows[..|rows| - 1];
      FirstRowDecides(r, rows[..|rows| - 1]);
    }
  }

  lemma RevocationShows(rows: seq<Evidence>, k: string)
    requires HeaderOf(rows, k).Some?
    ensures ReportOf(rows, k).decision == PreserveRevoked <==> HeaderOf(rows, k).value.revoked
  {
  }

  ghost predicate DependsOnSetOnly(rows: seq<Evidence>) {
    forall other :: SameRows(rows, other) ==> ReportKeys(other) == ReportKeys(rows)
  }

  lemma NotSetOnly(rows: seq<Evidence>, a: seq<Evidence>, b: seq<Evidence>)
    requires SameRows(rows, a) && SameRows(rows, b) && ReportKeys(a) != ReportKeys(b)
    ensures !DependsOnSetOnly(rows)
  {
    if ReportKeys(a) == ReportKeys(rows) {
      assert SameRows(rows, b) && ReportKeys(b) != ReportKeys(rows);
    }
  }

  /** The report depends on the set of rows alone exactly when rows of one key agree on its header. */
  lemma OrderIndependentIffConsistent(rows: seq<Evidence>)
    ensures DependsOnSetOnly(rows) <==> Consistent(rows)
  {
    if Consistent(rows) {
      forall other | SameRows(rows, other) ensures ReportKeys(other) == ReportKeys(rows) {
        OrderIndependent(rows, other);
      }
    } else {
      var r, q :| r in rows && q in rows && r.keyId == q.keyId && !SameHeader(r, q);
      DisagreementShows(rows, r, q);
      NotSetOnly(rows, [r] + rows, [q] + rows);
    }
  }

  lemma DisagreementShows(rows: seq<Evidence>, r: Evidence, q: Evidence)
    requires r in rows && q in rows && r.keyId == q.keyId && !SameHeader(r, q)
    ensures SameRows(rows, [r] + rows) && SameRows(rows, [q] + rows)
    ensures ReportKeys([r] + rows) != ReportKeys([q] + rows)
  {
    var a, b, k := [r] + rows, [q] + rows, r.keyId;
    FirstRowDecides(r, rows);
    FirstRowDecides(q, rows);
    ReportMembers(a);
    ReportMembers(b);
    RevocationShows(a, k);
    RevocationShows(b, k);
    assert ReportOf(a, k) in ReportKeys(a) && ReportOf(b, k) in ReportKeys(b);
    assert ReportOf(a, k) != ReportOf(b, k);
    assert ReportOf(a, k) !in ReportKeys(b);
  }
}
