/** What the report says of each key, told from the evidence rows alone. */
module KeyReportMeaning {
  import opened Basics
  import opened Text
  import opened KeyReport
  import opened KeyReportOrder

  /* ---- what rows say of a user ---- */

  /** The row connects the user to the key. */
  predicate Names(r: Evidence, keyId: string, u: string) {
    r.keyId == keyId && r.userId == Some(u) && u != "" && r.source.Some?
  }

  ghost predicate Named(rows: seq<Evidence>, keyId: string, u: string) {
    exists r :: r in rows && Names(r, keyId, u)
  }

  ghost predicate SourceSeen(rows: seq<Evidence>, keyId: string, u: string, source: SourceKind) {
    exists r :: r in rows && Names(r, keyId, u) && r.source == Some(source)
  }

  ghost predicate Known(rows: seq<Evidence>, keyId: string, u: string) {
    exists r :: r in rows && Names(r, keyId, u) && r.userExists
  }

  ghost predicate Member(rows: seq<Evidence>, keyId: string, u: string) {
    exists r :: r in rows && Names(r, keyId, u) && (r.companyMembershipExists || r.activeCompanyMembership)
  }

  ghost predicate Active(rows: seq<Evidence>, keyId: string, u: string) {
    exists r :: r in rows && Names(r, keyId, u) && r.activeCompanyMembership
  }

  ghost predicate Admin(rows: seq<Evidence>, keyId: string, u: string) {
    exists r :: r in rows && Names(r, keyId, u) && r.instanceAdmin
  }

  /** May answer for the key. */
  ghost predicate MayAnswer(rows: seq<Evidence>, keyId: string, u: string) {
    Known(rows, keyId, u) && (Active(rows, keyId, u) || Admin(rows, keyId, u))
  }

  ghost predicate OnlyOne(rows: seq<Evidence>, keyId: string, u: string) {
    MayAnswer(rows, keyId, u) && forall v :: MayAnswer(rows, keyId, v) ==> v == u
  }

  /** The first row of a key. */
  ghost predicate First(rows: seq<Evidence>, i: int, keyId: string) {
    0 <= i < |rows| && rows[i].keyId == keyId && forall j :: 0 <= j < i ==> rows[j].keyId != keyId
  }

  /* ---- what an entry must say ---- */

  ghost predicate Rising(texts: seq<string>) {
    forall i, j :: 0 <= i < j < |texts| ==> Less(texts[i], texts[j])
  }

  ghost predicate CodeApplies(rows: seq<Evidence>, keyId: string, u: string, code: string) {
    var known, active := Known(rows, keyId, u), Active(rows, keyId, u);
    || (code == "user_not_found" && !known)
    || (code == "active_company_membership" && known && active)
    || (code == "company_membership_inactive" && known && !active && Member(rows, keyId, u))
    || (code == "company_membership_missing" && known && !active && !Member(rows, keyId, u))
    || (code == "instance_admin" && known && Admin(rows, keyId, u))
  }

  ghost predicate SourceApplies(rows: seq<Evidence>, keyId: string, u: string, text: string) {
    || (text == "direct_key_created" && SourceSeen(rows, keyId, u, DirectKeyCreated))
    || (text == "join_claim" && SourceSeen(rows, keyId, u, JoinClaim))
  }

  /** Eligibility, reason codes and sources of a candidate, each list in order without repetitions. */
  ghost predicate CandidateSays(rows: seq<Evidence>, keyId: string, c: Candidate) {
    && (c.eligible <==> MayAnswer(rows, keyId, c.userId))
    && Rising(c.eligibilityReasonCodes) && Rising(c.sources)
    && (forall code :: code in c.eligibilityReasonCodes <==> CodeApplies(rows, keyId, c.userId, code))
    && (forall text :: text in c.sources <==> SourceApplies(rows, keyId, c.userId, text))
  }

  /** One candidate for each user some row connects to the key, in order of user ids. */
  ghost predicate CandidatesSay(rows: seq<Evidence>, keyId: string, cs: seq<Candidate>) {
    && (forall i, j :: 0 <= i < j < |cs| ==> Less(cs[i].userId, cs[j].userId))
    && (forall u :: Named(rows, keyId, u) <==> exists c :: c in cs && c.userId == u)
    && (forall c :: c in cs ==> CandidateSays(rows, keyId, c))
  }

  ghost predicate Kept(e: ReportKey) {
    && e.decision == PreserveRevoked && e.reasonCodes == ["already_revoked"]
    && e.resolvedUserId == None && !e.requiresOperatorAction
  }

  ghost predicate Resolved(e: ReportKey, u: string) {
    && e.decision == Backfill && e.reasonCodes == ["exactly_one_eligible_candidate"]
    && e.resolvedUserId == Some(u) && !e.requiresOperatorAction
  }

  ghost predicate Unresolved(e: ReportKey, reason: string) {
    e.decision == Revoke && e.reasonCodes == [reason] && e.resolvedUserId == None && e.requiresOperatorAction
  }

  /** A revoked key stays revoked. One with exactly one user who may answer for it goes to that user; any
      other is revoked, for want of users, for want of such users, or because there are several. */
  ghost predicate DecidedBy(rows: seq<Evidence>, revoked: bool, e: ReportKey) {
    && (revoked ==> Kept(e))
    && (forall u :: !revoked && OnlyOne(rows, e.keyId, u) ==> Resolved(e, u))
    && (!revoked && (forall u :: !Named(rows, e.keyId, u)) ==> Unresolved(e, "no_provenance"))
    && (!revoked && (exists u :: Named(rows, e.keyId, u)) && (forall u :: !MayAnswer(rows, e.keyId, u)) ==>
          Unresolved(e, "no_eligible_candidate"))
    && (forall u, v :: !revoked && u != v && MayAnswer(rows, e.keyId, u) && MayAnswer(rows, e.keyId, v) ==>
          Unresolved(e, "conflicting_eligible_candidates"))
  }

  ghost predicate EntrySays(rows: seq<Evidence>, e: ReportKey) {
    && CandidatesSay(rows, e.keyId, e.candidates)
    && exists i :: First(rows, i, e.keyId) && e.companyId == rows[i].companyId && e.agentId == rows[i].agentId
         && e.keyName == rows[i].keyName && DecidedBy(rows, rows[i].revoked, e)
  }

  /* ---- the builder's functions say that ---- */

  lemma {:induction false} HeaderIsFirst(rows: seq<Evidence>, keyId: string)
    ensures HeaderOf(rows, keyId).Some? ==> exists i :: First(rows, i, keyId) && HeaderOf(rows, keyId) == Some(rows[i])
    ensures HeaderOf(rows, keyId).None? ==> forall r :: r in rows ==> r.keyId != keyId
  {
    if rows != [] {
      var front, last := rows[..|rows| - 1], rows[|rows| - 1];
      assert rows == front + [last];
      HeaderIsFirst(front, keyId);
      if HeaderOf(front, keyId).Some? {
        var i :| First(front, i, keyId) && HeaderOf(front, keyId) == Some(front[i]);
        assert First(rows, i, keyId) && rows[i] == front[i];
      } else if last.keyId == keyId {
        forall j | 0 <= j < |front| ensures rows[j].keyId != keyId { assert front[j] in front; }
        assert First(rows, |front|, keyId);
      }
    }
  }

  lemma TallySays(rows: seq<Evidence>, keyId: string, u: string)
    ensures var t := TallyOf(rows, keyId, u);
      && (t.userExists <==> Known(rows, keyId, u)) && (t.membershipExists <==> Member(rows, keyId, u))
      && (t.activeMembership <==> Active(rows, keyId, u)) && (t.instanceAdmin <==> Admin(rows, keyId, u))
      && forall s :: s in t.sources <==> SourceSeen(rows, keyId, u, s)
  {
    forall r ensures Backs(r, keyId, u) <==> Names(r, keyId, u) { }
    var t := TallyOf(rows, keyId, u);
    forall s ensures s in t.sources <==> SourceSeen(rows, keyId, u, s) {
      if SourceSeen(rows, keyId, u, s) {
        var r :| r in rows && Names(r, keyId, u) && r.source == Some(s);
        assert Backs(r, keyId, u) && r.source.value == s;
      }
    }
  }

  lemma SortRises(texts: seq<string>)
    requires Distinct(texts)
    ensures Rising(Sort(texts, NoLater)) && forall t :: t in Sort(texts, NoLater) <==> t in texts
  {
    var sorted := Sort(texts, NoLater);
    TextOrder();
    SortPermutes(texts, NoLater);
    SortSorts(texts, NoLater);
    forall i, j | 0 <= i < j < |sorted| ensures Less(sorted[i], sorted[j]) {
      Trichotomy(sorted[i], sorted[j]);
      if sorted[i] == sorted[j] {
        TwiceCounted(sorted, i, j);
        DistinctCount(texts, sorted[i]);
      }
    }
  }

  lemma ReasonsSay(rows: seq<Evidence>, keyId: string, u: string)
    ensures var codes := EligibilityReasons(TallyOf(rows, keyId, u));
      Rising(codes) && forall code :: code in codes <==> CodeApplies(rows, keyId, u, code)
  {
    var t := TallyOf(rows, keyId, u);
    TallySays(rows, keyId, u);
    var member := if t.activeMembership then "active_company_membership"
      else if t.membershipExists then "company_membership_inactive" else "company_membership_missing";
    assert member[0] != "instance_admin"[0];
    var codes := if t.userExists then [member] + if t.instanceAdmin then ["instance_admin"] else []
      else ["user_not_found"];
    SortRises(codes);
    CodesDiffer();
    forall code ensures code in codes <==> CodeApplies(rows, keyId, u, code) { }
  }

  lemma CodesDiffer()
    ensures "active_company_membership" != "company_membership_inactive"
    ensures "active_company_membership" != "company_membership_missing"
    ensures "company_membership_inactive" != "company_membership_missing"
  {
    assert "company_membership_inactive"[19] != "company_membership_missing"[19];
    assert "active_company_membership"[0] != "company_membership_missing"[0];
  }

  lemma SourcesSay(rows: seq<Evidence>, keyId: string, u: string)
    ensures var texts := SourceTexts(TallyOf(rows, keyId, u).sources);
      Rising(texts) && forall text :: text in texts <==> SourceApplies(rows, keyId, u, text)
  {
    var sources := TallyOf(rows, keyId, u).sources;
    TallySays(rows, keyId, u);
    assert "direct_key_created"[0] != "join_claim"[0];
    SortRises((if DirectKeyCreated in sources then ["direct_key_created"] else [])
              + (if JoinClaim in sources then ["join_claim"] else []));
  }

  lemma BuiltCandidateSays(rows: seq<Evidence>, keyId: string, u: string)
    ensures CandidateSays(rows, keyId, CandidateFrom(u, TallyOf(rows, keyId, u)))
  {
    TallySays(rows, keyId, u);
    ReasonsSay(rows, keyId, u);
    SourcesSay(rows, keyId, u);
  }

  lemma BuiltCandidatesSay(rows: seq<Evidence>, keyId: string)
    ensures CandidatesSay(rows, keyId, Sort(Unsorted(rows, keyId), ByUser))
  {
    var list, cs := Unsorted(rows, keyId), Sort(Unsorted(rows, keyId), ByUser);
    UnsortedDistinct(rows, keyId);
    UsersMeaning(rows, keyId);
    SortPermutes(list, ByUser);
    CandidateOrder();
    SortSorts(list, ByUser);
    forall i, j | 0 <= i < j < |cs| ensures Less(cs[i].userId, cs[j].userId) {
      UsersApart(list, cs, i, j);
    }
    forall u ensures Named(rows, keyId, u) <==> exists c :: c in cs && c.userId == u {
      NamedIsCandidate(rows, keyId, u);
    }
    forall c | c in cs ensures CandidateSays(rows, keyId, c) {
      assert c in list;
      BuiltCandidateSays(rows, keyId, c.userId);
    }
  }

  lemma UsersApart(list: seq<Candidate>, cs: seq<Candidate>, i: nat, j: nat)
    requires Distinct(list) && NoTies(list, ByUser) && multiset(cs) == multiset(list) && Sorted(cs, ByUser)
    requires i < j < |cs|
    ensures Less(cs[i].userId, cs[j].userId)
  {
    SameElements(cs, list);
    assert cs[i] in list && cs[j] in list && ByUser(cs[i], cs[j]);
    Trichotomy(cs[i].userId, cs[j].userId);
    if cs[i] == cs[j] {
      TwiceCounted(cs, i, j);
      DistinctCount(list, cs[i]);
    } else {
      assert !ByUser(cs[j], cs[i]);
    }
  }

  lemma NamedIsCandidate(rows: seq<Evidence>, keyId: string, u: string)
    ensures Named(rows, keyId, u) <==> exists c :: c in Sort(Unsorted(rows, keyId), ByUser) && c.userId == u
  {
    UnsortedDistinct(rows, keyId);
    UsersMeaning(rows, keyId);
    SortPermutes(Unsorted(rows, keyId), ByUser);
    if Named(rows, keyId, u) {
      var r :| r in rows && Names(r, keyId, u);
      assert Backs(r, keyId, u);
      assert CandidateFrom(u, TallyOf(rows, keyId, u)) in Sort(Unsorted(rows, keyId), ByUser);
    }
    if c :| c in Sort(Unsorted(rows, keyId), ByUser) && c.userId == u {
      assert u in UsersOf(rows, keyId);
      var r :| r in rows && Backs(r, keyId, u);
      assert Names(r, keyId, u);
    }
  }

  /* ---- the decision ---- */

  lemma {:induction false} EligibleMembers(cs: seq<Candidate>)
    ensures forall c :: c in Eligible(cs) <==> c in cs && c.eligible
    ensures Distinct(cs) ==> Distinct(Eligible(cs))
  {
    if cs != [] {
      assert cs == [cs[0]] + cs[1..];
      EligibleMembers(cs[1..]);
    }
  }

  lemma EligibleUsers(rows: seq<Evidence>, keyId: string, cs: seq<Candidate>)
    requires CandidatesSay(rows, keyId, cs)
    ensures Distinct(Eligible(cs))
    ensures forall u :: MayAnswer(rows, keyId, u) <==> exists c :: c in Eligible(cs) && c.userId == u
    ensures forall c :: c in Eligible(cs) ==> MayAnswer(rows, keyId, c.userId)
    ensures forall c, d :: c in Eligible(cs) && d in Eligible(cs) && c.userId == d.userId ==> c == d
  {
    forall i, j | 0 <= i < j < |cs| ensures cs[i].userId != cs[j].userId {
      Trichotomy(cs[i].userId, cs[j].userId);
    }
    EligibleMembers(cs);
    forall u | MayAnswer(rows, keyId, u) ensures exists c :: c in Eligible(cs) && c.userId == u {
      assert Named(rows, keyId, u);
      var c :| c in cs && c.userId == u;
      assert c in Eligible(cs);
    }
    forall c, d | c in Eligible(cs) && d in Eligible(cs) && c.userId == d.userId ensures c == d {
      var i :| 0 <= i < |cs| && cs[i] == c;
      var j :| 0 <= j < |cs| && cs[j] == d;
      assert i == j;
    }
  }

  lemma OneEligible(rows: seq<Evidence>, keyId: string, cs: seq<Candidate>, u: string)
    requires CandidatesSay(rows, keyId, cs) && OnlyOne(rows, keyId, u)
    ensures |Eligible(cs)| == 1 && Eligible(cs)[0].userId == u
  {
    EligibleUsers(rows, keyId, cs);
    var c :| c in Eligible(cs) && c.userId == u;
    forall d | d in Eligible(cs) ensures d == c { assert MayAnswer(rows, keyId, d.userId); }
    Single(Eligible(cs), c);
  }

  lemma Single(es: seq<Candidate>, c: Candidate)
    requires Distinct(es) && c in es && forall d :: d in es ==> d == c
    ensures es == [c]
  {
    if |es| > 1 { TwoMembers(es); }
  }

  lemma TwoMembers(es: seq<Candidate>)
    requires Distinct(es) && |es| > 1
    ensures exists c, d :: c in es && d in es && c != d
  {
    assert es[0] in es && es[1] in es && es[0] != es[1];
  }

  lemma NoneEligible(rows: seq<Evidence>, keyId: string, cs: seq<Candidate>)
    requires CandidatesSay(rows, keyId, cs)
    ensures Eligible(cs) == [] <==> forall u :: !MayAnswer(rows, keyId, u)
    ensures cs == [] <==> forall u :: !Named(rows, keyId, u)
  {
    EligibleUsers(rows, keyId, cs);
    if Eligible(cs) != [] { assert Eligible(cs)[0] in Eligible(cs); }
    if cs != [] {
      assert cs[0] in cs;
      assert Named(rows, keyId, cs[0].userId);
    }
  }

  lemma SeveralEligible(rows: seq<Evidence>, keyId: string, cs: seq<Candidate>, u: string, v: string)
    requires CandidatesSay(rows, keyId, cs) && u != v
    requires MayAnswer(rows, keyId, u) && MayAnswer(rows, keyId, v)
    ensures |Eligible(cs)| > 1 && cs != []
  {
    EligibleUsers(rows, keyId, cs);
    EligibleMembers(cs);
    var c :| c in Eligible(cs) && c.userId == u;
    var d :| d in Eligible(cs) && d.userId == v;
    var i :| 0 <= i < |Eligible(cs)| && Eligible(cs)[i] == c;
    var j :| 0 <= j < |Eligible(cs)| && Eligible(cs)[j] == d;
    assert i != j;
  }

  lemma DecisionSays(rows: seq<Evidence>, keyId: string, g: Group)
    requires forall u :: u in g.users ==> u in g.candidates
    requires CandidatesSay(rows, keyId, CandidatesOf(g))
    ensures DecidedBy(rows, g.revoked, EntryFor(keyId, g))
  {
    var e, cs := EntryFor(keyId, g), CandidatesOf(g);
    NoneEligible(rows, keyId, cs);
    forall u | !g.revoked && OnlyOne(rows, keyId, u) ensures Resolved(e, u) {
      OneEligible(rows, keyId, cs, u);
    }
    forall u, v | !g.revoked && u != v && MayAnswer(rows, keyId, u) && MayAnswer(rows, keyId, v)
      ensures Unresolved(e, "conflicting_eligible_candidates")
    {
      SeveralEligible(rows, keyId, cs, u, v);
    }
  }

  lemma EntryMeans(rows: seq<Evidence>, keyId: string)
    requires HeaderOf(rows, keyId).Some?
    ensures EntrySays(rows, ReportOf(rows, keyId))
  {
    HeaderIsFirst(rows, keyId);
    var i :| First(rows, i, keyId) && HeaderOf(rows, keyId) == Some(rows[i]);
    BuiltCandidatesSay(rows, keyId);
    DecisionSays(rows, keyId, GroupOf(rows, keyId));
    var e := ReportOf(rows, keyId);
    assert First(rows, i, e.keyId) && DecidedBy(rows, rows[i].revoked, e);
  }

  /* ---- the whole report ---- */

  /** By company, then by agent, then by key. */
  ghost predicate Before(a: ReportKey, b: ReportKey) {
    || Less(a.companyId, b.companyId)
    || (a.companyId == b.companyId && Less(a.agentId, b.agentId))
    || (a.companyId == b.companyId && a.agentId == b.agentId && Less(a.keyId, b.keyId))
  }

  ghost predicate HasKey(rows: seq<Evidence>, keyId: string) {
    exists r :: r in rows && r.keyId == keyId
  }

  ghost predicate Listed(keys: seq<ReportKey>, keyId: string) {
    exists e :: e in keys && e.keyId == keyId
  }

  /** The report has one entry for each key of the evidence, in order, and each entry says what the rows do. */
  lemma ReportMeans(rows: seq<Evidence>)
    ensures var keys := ReportKeys(rows);
      && (forall e :: e in keys ==> EntrySays(rows, e))
      && (forall k :: Listed(keys, k) <==> HasKey(rows, k))
      && (forall i, j :: 0 <= i < j < |keys| ==> keys[i].keyId != keys[j].keyId && Before(keys[i], keys[j]))
  {
    var keys := ReportKeys(rows);
    ReportMembers(rows);
    KeyIdsMeaning(rows);
    forall e | e in keys ensures EntrySays(rows, e) {
      EntryMeans(rows, e.keyId);
    }
    forall k ensures Listed(keys, k) <==> HasKey(rows, k) {
      if HasKey(rows, k) {
        assert ReportOf(rows, k).keyId == k && ReportOf(rows, k) in keys;
      }
    }
    forall i, j | 0 <= i < j < |keys| ensures keys[i].keyId != keys[j].keyId && Before(keys[i], keys[j]) {
      InOrder(rows, i, j);
    }
  }

  lemma InOrder(rows: seq<Evidence>, i: nat, j: nat)
    requires i < j < |ReportKeys(rows)|
    ensures ReportKeys(rows)[i].keyId != ReportKeys(rows)[j].keyId
    ensures Before(ReportKeys(rows)[i], ReportKeys(rows)[j])
  {
    var keys := ReportKeys(rows);
    EntriesDistinct(rows);
    KeyOrder();
    var entries := Entries(rows, KeyIds(rows));
    SortSorts(entries, CompareTriple);
    SortPermutes(entries, CompareTriple);
    var a, b := keys[i], keys[j];
    assert a in keys && b in keys && a in entries && b in entries && CompareTriple(a, b);
    if a.keyId == b.keyId {
      assert a == b;
      TwiceCounted(keys, i, j);
      DistinctCount(entries, a);
    }
    Trichotomy(a.companyId, b.companyId);
    Trichotomy(a.agentId, b.agentId);
    Trichotomy(a.keyId, b.keyId);
  }

  /* ---- the summary ---- */

  ghost predicate RevokedFirst(rows: seq<Evidence>, keyId: string) {
    exists i :: First(rows, i, keyId) && rows[i].revoked
  }

  ghost predicate HasOnlyOne(rows: seq<Evidence>, keyId: string) {
    exists u :: OnlyOne(rows, keyId, u)
  }

  ghost function KeySet(rows: seq<Evidence>): (keys: set<string>)
    ensures forall k :: k in keys <==> HasKey(rows, k)
  {
    var keys := set r | r in rows :: r.keyId;
    assert forall k :: k in keys <==> HasKey(rows, k);
    keys
  }

  ghost predicate Picked(keys: seq<ReportKey>, p: ReportKey -> bool, keyId: string) {
    exists e :: e in keys && p(e) && e.keyId == keyId
  }

  lemma PickedStep(keys: seq<ReportKey>, p: ReportKey -> bool, k: string)
    requires keys != [] && forall i, j :: 0 <= i < j < |keys| ==> keys[i].keyId != keys[j].keyId
    ensures Picked(keys, p, k) <==> Picked(keys[1..], p, k) || (p(keys[0]) && keys[0].keyId == k)
    ensures !Picked(keys[1..], p, keys[0].keyId)
  {
    assert keys == [keys[0]] + keys[1..];
    forall e | e in keys[1..] ensures e.keyId != keys[0].keyId {
      var i :| 0 <= i < |keys[1..]| && keys[1..][i] == e;
      assert keys[i + 1].keyId != keys[0].keyId;
    }
  }

  lemma {:induction false} CountIsSize(keys: seq<ReportKey>, p: ReportKey -> bool, ids: set<string>)
    requires forall i, j :: 0 <= i < j < |keys| ==> keys[i].keyId != keys[j].keyId
    requires forall k :: k in ids <==> Picked(keys, p, k)
    ensures CountWhere(keys, p) == |ids|
  {
    if keys == [] {
      assert ids == {};
    } else {
      var rest := ids - if p(keys[0]) then {keys[0].keyId} else {};
      forall k ensures k in rest <==> Picked(keys[1..], p, k) { PickedStep(keys, p, k); }
      CountIsSize(keys[1..], p, rest);
      PickedStep(keys, p, keys[0].keyId);
      if p(keys[0]) { assert ids == rest + {keys[0].keyId}; }
    }
  }

  lemma WhichDecision(rows: seq<Evidence>, e: ReportKey)
    requires EntrySays(rows, e)
    ensures e.decision == PreserveRevoked <==> RevokedFirst(rows, e.keyId)
    ensures e.decision == Backfill <==> !RevokedFirst(rows, e.keyId) && HasOnlyOne(rows, e.keyId)
    ensures e.decision == Revoke <==> !RevokedFirst(rows, e.keyId) && !HasOnlyOne(rows, e.keyId)
    ensures e.requiresOperatorAction <==> e.decision == Revoke
  {
    var i :| First(rows, i, e.keyId) && DecidedBy(rows, rows[i].revoked, e);
    assert forall j :: First(rows, j, e.keyId) ==> j == i;
    if !rows[i].revoked && !HasOnlyOne(rows, e.keyId) {
      if u :| MayAnswer(rows, e.keyId, u) {
        assert !OnlyOne(rows, e.keyId, u);
        var v :| MayAnswer(rows, e.keyId, v) && v != u;
      }
    }
  }

  lemma CountsKeys(rows: seq<Evidence>, p: ReportKey -> bool, ids: set<string>)
    requires forall e :: e in ReportKeys(rows) ==> (p(e) <==> e.keyId in ids)
    requires forall k :: k in ids ==> HasKey(rows, k)
    ensures CountWhere(ReportKeys(rows), p) == |ids|
  {
    ReportMeans(rows);
    var keys := ReportKeys(rows);
    forall k ensures k in ids <==> Picked(keys, p, k) {
      if k in ids {
        assert Listed(keys, k);
        var e :| e in keys && e.keyId == k;
        assert p(e);
      }
    }
    CountIsSize(keys, p, ids);
  }

  /** The summary counts keys of the evidence: all of them, those with exactly one user who may answer for
      them, the others, and those revoked already. */
  lemma SummaryMeans(rows: seq<Evidence>)
    ensures var all, s := KeySet(rows), SummaryOf(ReportKeys(rows));
      && s.totalKeys == |all|
      && s.preserveRevokedCount == |set k | k in all && RevokedFirst(rows, k)|
      && s.backfillCount == |set k | k in all && !RevokedFirst(rows, k) && HasOnlyOne(rows, k)|
      && s.revokeCount == |set k | k in all && !RevokedFirst(rows, k) && !HasOnlyOne(rows, k)|
      && s.requiresOperatorActionCount == s.revokeCount
  {
    var all, keys := KeySet(rows), ReportKeys(rows);
    ReportMeans(rows);
    forall e | e in keys
      ensures e.keyId in all
      ensures e.decision == PreserveRevoked <==> RevokedFirst(rows, e.keyId)
      ensures e.decision == Backfill <==> !RevokedFirst(rows, e.keyId) && HasOnlyOne(rows, e.keyId)
      ensures e.decision == Revoke <==> !RevokedFirst(rows, e.keyId) && !HasOnlyOne(rows, e.keyId)
      ensures e.requiresOperatorAction <==> e.decision == Revoke
    {
      assert Listed(keys, e.keyId);
      WhichDecision(rows, e);
    }
    CountsKeys(rows, (k: ReportKey) => true, all);
    CountAll(keys);
    CountsKeys(rows, (k: ReportKey) => k.decision == PreserveRevoked, set k | k in all && RevokedFirst(rows, k));
    CountsKeys(rows, (k: ReportKey) => k.decision == Backfill,
      set k | k in all && !RevokedFirst(rows, k) && HasOnlyOne(rows, k));
    var revoked := set k | k in all && !RevokedFirst(rows, k) && !HasOnlyOne(rows, k);
    CountsKeys(rows, (k: ReportKey) => k.decision == Revoke, revoked);
    CountsKeys(rows, (k: ReportKey) => k.requiresOperatorAction, revoked);
  }

  lemma {:induction false} CountAll(keys: seq<ReportKey>)
    ensures CountWhere(keys, (k: ReportKey) => true) == |keys|
  {
    if keys != [] { CountAll(keys[1..]); }
  }
}
