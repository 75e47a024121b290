/** Building the API-key responsibility report (packages/db/src/agent-api-key-responsibility-report.ts). */
module KeyReport {
  import opened Basics
  import opened Text

  datatype SourceKind = DirectKeyCreated | JoinClaim

  function SourceText(s: SourceKind): string {
    match s case DirectKeyCreated => "direct_key_created" case JoinClaim => "join_claim"
  }

  /** A missing optional flag reads as false. */
  datatype Evidence = Evidence(
    keyId: string, companyId: string, agentId: string, keyName: string, revoked: bool,
    userId: Option<string>, source: Option<SourceKind>,
    userExists: bool, companyMembershipExists: bool, activeCompanyMembership: bool, instanceAdmin: bool)

  datatype Decision = Backfill | Revoke | PreserveRevoked

  datatype Candidate = Candidate(userId: string, sources: seq<string>, eligible: bool,
        eligibilityReasonCodes: seq<string>)

  datatype ReportKey = ReportKey(
    keyId: string, companyId: string, agentId: string, keyName: string, decision: Decision, reasonCodes: seq<string>,
    candidates: seq<Candidate>, resolvedUserId: Option<string>, requiresOperatorAction: bool)

  datatype Summary = Summary(totalKeys: nat, backfillCount: nat, revokeCount: nat, preserveRevokedCount: nat,
        requiresOperatorActionCount: nat)

  /* ---- the mutable records of the fold ---- */

  datatype Tally = Tally(sources: set<SourceKind>, userExists: bool, membershipExists: bool, activeMembership: bool,
        instanceAdmin: bool)

  /** `users` is the insertion order of `candidates`. */
  datatype Group = Group(companyId: string, agentId: string, keyName: string, revoked: bool,
        candidates: map<string, Tally>, users: seq<string>)

  /* ---- from a finished group to a report entry ---- */

  function EligibilityReasons(t: Tally): seq<string> {
    Sort(
      if t.userExists then
        [if t.activeMembership then "active_company_membership"
         else if t.membershipExists then "company_membership_inactive" else "company_membership_missing"]
        + if t.instanceAdmin then ["instance_admin"] else []
      else ["user_not_found"],
      NoLater)
  }

  function SourceTexts(sources: set<SourceKind>): seq<string> {
    Sort((if DirectKeyCreated in sources then [SourceText(DirectKeyCreated)] else [])
         + (if JoinClaim in sources then [SourceText(JoinClaim)] else []), NoLater)
  }

  function CandidateFrom(userId: string, t: Tally): Candidate {
    Candidate(userId, SourceTexts(t.sources), t.userExists && (t.activeMembership || t.instanceAdmin),
      EligibilityReasons(t))
  }

  predicate ByUser(a: Candidate, b: Candidate) {
    NoLater(a.userId, b.userId)
  }

  function Eligible(candidates: seq<Candidate>): seq<Candidate> {
    if candidates == [] then []
    else if candidates[0].eligible then [candidates[0]] + Eligible(candidates[1..])
    else Eligible(candidates[1..])
  }

  function Reason(revoked: bool, candidates: seq<Candidate>): string {
    if revoked then "already_revoked"
    else if |Eligible(candidates)| == 1 then "exactly_one_eligible_candidate"
    else if candidates == [] then "no_provenance"
    else if Eligible(candidates) == [] then "no_eligible_candidate"
    else "conflicting_eligible_candidates"
  }

  function Decide(revoked: bool, candidates: seq<Candidate>): Decision {
    if revoked then PreserveRevoked else if |Eligible(candidates)| == 1 then Backfill else Revoke
  }

  function CandidateList(users: seq<string>, tallies: map<string, Tally>): (cs: seq<Candidate>)
    requires forall u :: u in users ==> u in tallies
    ensures |cs| == |users| && forall k :: 0 <= k < |users| ==> cs[k] == CandidateFrom(users[k], tallies[users[k]])
  {
    seq(|users|, k requires 0 <= k < |users| => CandidateFrom(users[k], tallies[users[k]]))
  }

  function CandidatesOf(g: Group): seq<Candidate>
    requires forall u :: u in g.users ==> u in g.candidates
  {
    Sort(CandidateList(g.users, g.candidates), ByUser)
  }

  function EntryFor(keyId: string, g: Group): ReportKey
    requires forall u :: u in g.users ==> u in g.candidates
  {
    var candidates := CandidatesOf(g);
    var decision := Decide(g.revoked, candidates);
    ReportKey(keyId, g.companyId, g.agentId, g.keyName, decision, [Reason(g.revoked, candidates)], candidates,
      if decision == Backfill then Some(Eligible(candidates)[0].userId) else None, decision == Revoke)
  }

  predicate CompareTriple(a: ReportKey, b: ReportKey) {
    if a.companyId != b.companyId then NoLater(a.companyId, b.companyId)
    else if a.agentId != b.agentId then NoLater(a.agentId, b.agentId)
    else NoLater(a.keyId, b.keyId)
  }

  function CountWhere(keys: seq<ReportKey>, p: ReportKey -> bool): nat {
    if keys == [] then 0 else (if p(keys[0]) then 1 else 0) + CountWhere(keys[1..], p)
  }

  function SummaryOf(keys: seq<ReportKey>): Summary {
    Summary(|keys|,
      CountWhere(keys, (k: ReportKey) => k.decision == Backfill),
      CountWhere(keys, (k: ReportKey) => k.decision == Revoke),
      CountWhere(keys, (k: ReportKey) => k.decision == PreserveRevoked),
      CountWhere(keys, (k: ReportKey) => k.requiresOperatorAction))
  }

  /* ---- what the fold means, as a function of the rows ---- */

  predicate Backs(r: Evidence, keyId: string, userId: string) {
    r.keyId == keyId && r.userId == Some(userId) && userId != "" && r.source.Some?
  }

  function TallyOf(rows: seq<Evidence>, keyId: string, userId: string): Tally {
    Tally(set r | r in rows && Backs(r, keyId, userId) :: r.source.value,
      exists r | r in rows :: Backs(r, keyId, userId) && r.userExists,
      exists r | r in rows :: Backs(r, keyId, userId) && (r.companyMembershipExists || r.activeCompanyMembership),
      exists r | r in rows :: Backs(r, keyId, userId) && r.activeCompanyMembership,
      exists r | r in rows :: Backs(r, keyId, userId) && r.instanceAdmin)
  }

  function KeyIds(rows: seq<Evidence>): seq<string> {
    if rows == [] then []
    else
      var before, id := KeyIds(rows[..|rows| - 1]), rows[|rows| - 1].keyId;
      if id in before then before else before + [id]
  }

  function UsersOf(rows: seq<Evidence>, keyId: string): seq<string> {
    if rows == [] then []
    else
      var before, r := UsersOf(rows[..|rows| - 1], keyId), rows[|rows| - 1];
      if r.userId.Some? && Backs(r, keyId, r.userId.value) && r.userId.value !in before
      then before + [r.userId.value] else before
  }

  /** The first row of a key decides its company, agent, name and revocation. */
  function HeaderOf(rows: seq<Evidence>, keyId: string): Option<Evidence> {
    if rows == [] then None
    else
      var before := HeaderOf(rows[..|rows| - 1], keyId);
      if before.None? && rows[|rows| - 1].keyId == keyId then Some(rows[|rows| - 1]) else before
  }

  function GroupOf(rows: seq<Evidence>, keyId: string): Group
    requires HeaderOf(rows, keyId).Some?
  {
    var h := HeaderOf(rows, keyId).value;
    Group(h.companyId, h.agentId, h.keyName, h.revoked,
      Tallies(rows, keyId), UsersOf(rows, keyId))
  }

  lemma {:induction false} KeyIdsMeaning(rows: seq<Evidence>)
    ensures Distinct(KeyIds(rows))
    ensures forall k :: k in KeyIds(rows) <==> HeaderOf(rows, k).Some?
    ensures forall k :: k in KeyIds(rows) <==> exists r :: r in rows && r.keyId == k
    ensures forall k :: HeaderOf(rows, k).Some? ==>
      HeaderOf(rows, k).value in rows && HeaderOf(rows, k).value.keyId == k
  {
    if rows != [] {
      assert rows == rows[..|rows| - 1] + [rows[|rows| - 1]];
      KeyIdsMeaning(rows[..|rows| - 1]);
      assert rows[|rows| - 1] in rows;
    }
  }

  lemma {:induction false} UsersMeaning(rows: seq<Evidence>, keyId: string)
    ensures Distinct(UsersOf(rows, keyId))
    ensures forall u :: u in UsersOf(rows, keyId) <==> exists r :: r in rows && Backs(r, keyId, u)
  {
    if rows != [] {
      var last := rows[|rows| - 1];
      assert rows == rows[..|rows| - 1] + [last];
      UsersMeaning(rows[..|rows| - 1], keyId);
      forall u ensures u in UsersOf(rows, keyId) <==> exists r :: r in rows && Backs(r, keyId, u) {
        assert (exists r :: r in rows && Backs(r, keyId, u))
          <==> (exists r :: r in rows[..|rows| - 1] && Backs(r, keyId, u)) || Backs(last, keyId, u);
      }
    }
  }

  /* ---- the fold ---- */

  function Joined(t: Tally, r: Evidence): Tally
    requires r.source.Some?
  {
    Tally(t.sources + {r.source.value}, t.userExists || r.userExists,
      t.membershipExists || r.companyMembershipExists || r.activeCompanyMembership,
      t.activeMembership || r.activeCompanyMembership, t.instanceAdmin || r.instanceAdmin)
  }

  lemma TallyGrows(rows: seq<Evidence>, r: Evidence, keyId: string, userId: string)
    ensures TallyOf(rows + [r], keyId, userId)
         == if Backs(r, keyId, userId) then Joined(TallyOf(rows, keyId, userId), r) else TallyOf(rows, keyId, userId)
  {
    var all := rows + [r];
    assert forall x :: x in all <==> x in rows || x == r;
    var before, after := TallyOf(rows, keyId, userId), TallyOf(all, keyId, userId);
    assert after.sources == before.sources + if Backs(r, keyId, userId) then {r.source.value} else {};
    assert after.userExists <==> before.userExists || (Backs(r, keyId, userId) && r.userExists);
    var member := r.companyMembershipExists || r.activeCompanyMembership;
    assert after.membershipExists <==> before.membershipExists || (Backs(r, keyId, userId) && member);
    assert after.activeMembership
      <==> before.activeMembership || (Backs(r, keyId, userId) && r.activeCompanyMembership);
    assert after.instanceAdmin <==> before.instanceAdmin || (Backs(r, keyId, userId) && r.instanceAdmin);
  }

  lemma NoTally(rows: seq<Evidence>, keyId: string, userId: string)
    requires userId !in UsersOf(rows, keyId)
    ensures TallyOf(rows, keyId, userId) == Tally({}, false, false, false, false)
  {
    UsersMeaning(rows, keyId);
    assert forall r :: r in rows ==> !Backs(r, keyId, userId);
  }

  ghost predicate Folded(rows: seq<Evidence>, grouped: map<string, Group>, order: seq<string>) {
    && order == KeyIds(rows)
    && (forall k :: k in grouped <==> k in order)
    && (forall k :: k in grouped ==> HeaderOf(rows, k).Some? && grouped[k] == GroupOf(rows, k))
  }

  /** A row of another key, or one that backs nobody, leaves a key's users and tallies alone. */
  lemma GroupUntouched(rows: seq<Evidence>, r: Evidence, k: string)
    requires HeaderOf(rows, k).Some? && forall u :: !Backs(r, k, u)
    ensures HeaderOf(rows + [r], k).Some? && GroupOf(rows + [r], k) == GroupOf(rows, k)
  {
    AppendShift(rows, r, []);
    forall u | u in UsersOf(rows, k) ensures TallyOf(rows + [r], k, u) == TallyOf(rows, k, u) {
      TallyGrows(rows, r, k, u);
    }
  }

  lemma GroupOpened(rows: seq<Evidence>, r: Evidence)
    requires HeaderOf(rows, r.keyId).None?
    ensures HeaderOf(rows + [r], r.keyId) == Some(r) && UsersOf(rows, r.keyId) == []
  {
    AppendShift(rows, r, []);
    KeyIdsMeaning(rows);
    UsersMeaning(rows, r.keyId);
    assert r.keyId !in KeyIds(rows);
    assert forall x, u :: x in rows ==> !Backs(x, r.keyId, u);
    EmptyOrHasElement(UsersOf(rows, r.keyId));
  }

  /** A backing row joins its user's tally and touches nobody else's. */
  lemma GroupJoined(rows: seq<Evidence>, r: Evidence, u: string)
    requires Backs(r, r.keyId, u)
    ensures UsersOf(rows + [r], r.keyId) == UsersOf(rows, r.keyId) + if u in UsersOf(rows, r.keyId) then [] else [u]
    ensures TallyOf(rows + [r], r.keyId, u) == Joined(TallyOf(rows, r.keyId, u), r)
    ensures forall v :: v != u ==> TallyOf(rows + [r], r.keyId, v) == TallyOf(rows, r.keyId, v)
  {
    AppendShift(rows, r, []);
    forall v ensures v != u ==> TallyOf(rows + [r], r.keyId, v) == TallyOf(rows, r.keyId, v) {
      TallyGrows(rows, r, r.keyId, v);
    }
    TallyGrows(rows, r, r.keyId, u);
  }

  /** The record of `row`'s key: found, or opened with the row's header. */
  function Opened(grouped: map<string, Group>, row: Evidence): Group {
    if row.keyId in grouped then grouped[row.keyId]
    else Group(row.companyId, row.agentId, row.keyName, row.revoked, map[], [])
  }

  method AddRow(ghost rows: seq<Evidence>, grouped: map<string, Group>, order: seq<string>, row: Evidence)
    returns (grouped': map<string, Group>, order': seq<string>)
    requires Folded(rows, grouped, order)
    ensures Folded(rows + [row], grouped', order')
  {
    AppendShift(rows, row, []);
    KeyIdsMeaning(rows);
    var g := Opened(grouped, row);
    order' := if row.keyId in grouped then order else order + [row.keyId];
    if row.userId.Some? && row.userId.value != "" && row.source.Some? {
      var u := row.userId.value;
      var tally, users := Tally({}, row.userExists, row.companyMembershipExists || row.activeCompanyMembership,
                                row.activeCompanyMembership, row.instanceAdmin), g.users;
      if u in g.candidates { tally := g.candidates[u]; } else { users := users + [u]; }
      tally := Joined(tally, row);
      g := g.(candidates := g.candidates[u := tally], users := users);
      JoinedGroup(rows, grouped, order, row, u);
    } else {
      PlainGroup(rows, grouped, order, row);
    }
    grouped' := grouped[row.keyId := g];
    OthersUntouched(rows, grouped, order, row);
  }

  lemma PlainGroup(rows: seq<Evidence>, grouped: map<string, Group>, order: seq<string>, row: Evidence)
    requires Folded(rows, grouped, order) && forall u :: !Backs(row, row.keyId, u)
    ensures HeaderOf(rows + [row], row.keyId).Some? && Opened(grouped, row) == GroupOf(rows + [row], row.keyId)
  {
    AppendShift(rows, row, []);
    KeyIdsMeaning(rows);
    if row.keyId in grouped {
      GroupUntouched(rows, row, row.keyId);
    } else {
      GroupOpened(rows, row);
    }
  }

  lemma JoinedGroup(rows: seq<Evidence>, grouped: map<string, Group>, order: seq<string>, row: Evidence, u: string)
    requires Folded(rows, grouped, order) && Backs(row, row.keyId, u)
    ensures HeaderOf(rows + [row], row.keyId).Some?
    ensures var g := Opened(grouped, row);
      var tally := if u in g.candidates then g.candidates[u]
        else Tally({}, row.userExists, row.companyMembershipExists || row.activeCompanyMembership,
          row.activeCompanyMembership, row.instanceAdmin);
      GroupOf(rows + [row], row.keyId) == g.(
        candidates := g.candidates[u := Joined(tally, row)],
        users := if u in g.candidates then g.users else g.users + [u])
  {
    AppendShift(rows, row, []);
    KeyIdsMeaning(rows);
    var k := row.keyId;
    if k !in grouped { GroupOpened(rows, row); }
    if u !in UsersOf(rows, k) { NoTally(rows, k, u); }
    GroupJoined(rows, row, u);
    TalliesJoined(rows, row, u);
  }

  function Tallies(rows: seq<Evidence>, keyId: string): map<string, Tally> {
    map u | u in UsersOf(rows, keyId) :: TallyOf(rows, keyId, u)
  }

  lemma TalliesJoined(rows: seq<Evidence>, row: Evidence, u: string)
    requires Backs(row, row.keyId, u)
    ensures Tallies(rows + [row], row.keyId) == Tallies(rows, row.keyId)[u := Joined(TallyOf(rows, row.keyId, u), row)]
  {
    GroupJoined(rows, row, u);
    assert forall v :: v in UsersOf(rows + [row], row.keyId) <==> v in UsersOf(rows, row.keyId) || v == u;
  }

  lemma OthersUntouched(rows: seq<Evidence>, grouped: map<string, Group>, order: seq<string>, row: Evidence)
    requires Folded(rows, grouped, order)
    ensures forall k :: k in grouped && k != row.keyId ==>
      HeaderOf(rows + [row], k).Some? && GroupOf(rows + [row], k) == grouped[k]
  {
    forall k | k in grouped && k != row.keyId
      ensures HeaderOf(rows + [row], k).Some? && GroupOf(rows + [row], k) == grouped[k]
    {
      GroupUntouched(rows, row, k);
    }
  }

  /** The entry of each key, as a function of all rows. */
  function ReportOf(rows: seq<Evidence>, keyId: string): ReportKey
    requires HeaderOf(rows, keyId).Some?
  {
    EntryFor(keyId, GroupOf(rows, keyId))
  }

  function Entries(rows: seq<Evidence>, ids: seq<string>): (entries: seq<ReportKey>)
    requires forall k :: k in ids ==> HeaderOf(rows, k).Some?
    ensures |entries| == |ids| && forall i :: 0 <= i < |ids| ==> entries[i] == ReportOf(rows, ids[i])
  {
    seq(|ids|, i requires 0 <= i < |ids| => ReportOf(rows, ids[i]))
  }

  function ReportKeys(rows: seq<Evidence>): seq<ReportKey> {
    KeyIdsMeaning(rows);
    Sort(Entries(rows, KeyIds(rows)), CompareTriple)
  }

  /** `buildAgentApiKeyResponsibilityReport`. */
  method BuildReport(rows: seq<Evidence>) returns (keys: seq<ReportKey>, summary: Summary)
    ensures keys == ReportKeys(rows)
    ensures summary == SummaryOf(keys)
  {
    var grouped: map<string, Group> := map[];
    var order: seq<string> := [];
    for i := 0 to |rows|
      invariant Folded(rows[..i], grouped, order)
    {
      PrefixStep(rows, i);
      grouped, order := AddRow(rows[..i], grouped, order, rows[i]);
    }
    assert rows[..|rows|] == rows;
    KeyIdsMeaning(rows);
    var entries := seq(|order|, i
      requires 0 <= i < |order| && order[i] in grouped
      requires forall u :: u in grouped[order[i]].users ==> u in grouped[order[i]].candidates
      => EntryFor(order[i], grouped[order[i]]));
    assert entries == Entries(rows, KeyIds(rows));
    keys := Sort(entries, CompareTriple);
    summary := SummaryOf(keys);
  }
}
