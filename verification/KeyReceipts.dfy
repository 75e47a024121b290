/** Validating and reading back stored report entries (agent-api-key-responsibility-report.ts, lines 188-259). */
module KeyReceipts {
  import opened Basics
  import opened Text
  import opened KeyReport
  import opened KeyReportOrder

  /** Property names the reader knows, and any other. */
  datatype Field =
    | FUserId | FSources | FEligible | FEligibilityReasonCodes
    | FKeyId | FCompanyId | FAgentId | FKeyName | FDecision | FReasonCodes | FCandidates
    | FResolvedUserId | FRequiresOperatorAction
    | FSchemaVersion | FMigration | FGeneratedAt | FKey
    | FOther(name: string)

  datatype Json =
    | JNull | JBool(b: bool) | JNumber(n: int) | JString(s: string)
    | JArray(items: seq<Json>) | JObject(fields: map<Field, Json>)

  const MIGRATION := "0087_agent_api_keys_responsibility_scope"
  const DECISION_REASONS := {
    "exactly_one_eligible_candidate", "no_provenance", "no_eligible_candidate",
    "conflicting_eligible_candidates", "already_revoked"}
  const ELIGIBILITY_REASONS := {
    "active_company_membership", "instance_admin", "user_not_found",
    "company_membership_missing", "company_membership_inactive"}
  const SOURCES := {"direct_key_created", "join_claim"}
  const CANDIDATE_FIELDS := {FUserId, FSources, FEligible, FEligibilityReasonCodes}
  const KEY_FIELDS := {
    FKeyId, FCompanyId, FAgentId, FKeyName, FDecision, FReasonCodes, FCandidates,
    FResolvedUserId, FRequiresOperatorAction}
  const RECEIPT_FIELDS := {FSchemaVersion, FMigration, FGeneratedAt, FKey}

  /* ---- the validator ---- */

  predicate Has(v: Json, fields: set<Field>) {
    v.JObject? && v.fields.Keys == fields
  }

  predicate AllStrings(items: seq<Json>) {
    forall i :: 0 <= i < |items| ==> items[i].JString?
  }

  function Strings(items: seq<Json>): (texts: seq<string>)
    requires AllStrings(items)
    ensures |texts| == |items| && forall i :: 0 <= i < |items| ==> texts[i] == items[i].s
  {
    seq(|items|, i requires 0 <= i < |items| => items[i].s)
  }

  /** An array of distinct allowed strings, in order. */
  predicate StringArray(v: Json, allowed: set<string>) {
    && v.JArray? && AllStrings(v.items)
    && (forall i :: 0 <= i < |v.items| ==> v.items[i].s in allowed)
    && (forall i, j :: 0 <= i < j < |v.items| ==> v.items[i].s != v.items[j].s)
    && Strings(v.items) == Sort(Strings(v.items), NoLater)
  }

  predicate Positive(codes: seq<string>) {
    "active_company_membership" in codes || "instance_admin" in codes
  }

  predicate ValidCandidate(v: Json) {
    && Has(v, CANDIDATE_FIELDS) && v.fields[FUserId].JString?
    && StringArray(v.fields[FSources], SOURCES) && v.fields[FSources].items != []
    && v.fields[FEligible].JBool? && StringArray(v.fields[FEligibilityReasonCodes], ELIGIBILITY_REASONS)
    && var codes := Strings(v.fields[FEligibilityReasonCodes].items);
       if v.fields[FEligible].b then Positive(codes) else !Positive(codes) && |codes| == 1
  }

  function CandidateOfJson(v: Json): Candidate
    requires ValidCandidate(v)
  {
    Candidate(v.fields[FUserId].s, Strings(v.fields[FSources].items), v.fields[FEligible].b,
      Strings(v.fields[FEligibilityReasonCodes].items))
  }

  function DecisionText(d: Decision): string {
    match d case Backfill => "backfill" case Revoke => "revoke" case PreserveRevoked => "preserve_revoked"
  }

  function DecisionOf(text: string): Option<Decision> {
    if text == "backfill" then Some(Backfill) else if text == "revoke" then Some(Revoke)
    else if text == "preserve_revoked" then Some(PreserveRevoked) else None
  }

  predicate AllValidCandidates(items: seq<Json>) {
    forall i :: 0 <= i < |items| ==> ValidCandidate(items[i])
  }

  function CandidatesOfJson(items: seq<Json>): (cs: seq<Candidate>)
    requires AllValidCandidates(items)
    ensures |cs| == |items| && forall i :: 0 <= i < |items| ==> cs[i] == CandidateOfJson(items[i])
  {
    seq(|items|, i requires 0 <= i < |items| => CandidateOfJson(items[i]))
  }

  predicate RisingUsers(cs: seq<Candidate>) {
    forall i :: 0 < i < |cs| ==> Less(cs[i - 1].userId, cs[i].userId)
  }

  /** Fields of the right shape; what `validKey` checks before looking at how they fit together. */
  predicate KeyShape(v: Json) {
    && Has(v, KEY_FIELDS)
    && v.fields[FKeyId].JString? && v.fields[FCompanyId].JString? && v.fields[FAgentId].JString?
      && v.fields[FKeyName].JString?
    && v.fields[FDecision].JString? && DecisionOf(v.fields[FDecision].s).Some?
    && StringArray(v.fields[FReasonCodes], DECISION_REASONS) && |v.fields[FReasonCodes].items| == 1
    && v.fields[FCandidates].JArray? && AllValidCandidates(v.fields[FCandidates].items)
    && (v.fields[FResolvedUserId].JNull? || v.fields[FResolvedUserId].JString?)
    && v.fields[FRequiresOperatorAction].JBool?
  }

  function Decoded(v: Json): ReportKey
    requires KeyShape(v)
  {
    ReportKey(v.fields[FKeyId].s, v.fields[FCompanyId].s, v.fields[FAgentId].s, v.fields[FKeyName].s,
      DecisionOf(v.fields[FDecision].s).value, Strings(v.fields[FReasonCodes].items),
      CandidatesOfJson(v.fields[FCandidates].items),
      if v.fields[FResolvedUserId].JNull? then None else Some(v.fields[FResolvedUserId].s),
      v.fields[FRequiresOperatorAction].b)
  }

  /** How the parts of an entry must fit together. */
  predicate Coherent(k: ReportKey) {
    var eligible := Eligible(k.candidates);
    && RisingUsers(k.candidates)
    && k.reasonCodes == [Reason(k.decision == PreserveRevoked, k.candidates)]
    && (if k.decision == Backfill then
          |eligible| == 1 && k.resolvedUserId == Some(eligible[0].userId) && !k.requiresOperatorAction
        else k.resolvedUserId == None)
    && (if k.decision == Revoke then k.requiresOperatorAction && |eligible| != 1 else !k.requiresOperatorAction)
  }

  predicate ValidKey(v: Json) {
    KeyShape(v) && Coherent(Decoded(v))
  }

  /* ---- the stored form ---- */

  function TextArray(texts: seq<string>): (v: Json)
    ensures v.JArray? && AllStrings(v.items) && Strings(v.items) == texts
  {
    JArray(seq(|texts|, i requires 0 <= i < |texts| => JString(texts[i])))
  }

  function CandidateJson(c: Candidate): Json {
    JObject(map[FUserId := JString(c.userId), FSources := TextArray(c.sources), FEligible := JBool(c.eligible),
                FEligibilityReasonCodes := TextArray(c.eligibilityReasonCodes)])
  }

  function CandidatesJson(cs: seq<Candidate>): (items: seq<Json>)
    ensures |items| == |cs| && forall i :: 0 <= i < |cs| ==> items[i] == CandidateJson(cs[i])
  {
    seq(|cs|, i requires 0 <= i < |cs| => CandidateJson(cs[i]))
  }

  function KeyJson(k: ReportKey): Json {
    JObject(map[FKeyId := JString(k.keyId), FCompanyId := JString(k.companyId), FAgentId := JString(k.agentId),
                FKeyName := JString(k.keyName), FDecision := JString(DecisionText(k.decision)),
                FReasonCodes := TextArray(k.reasonCodes),
                FCandidates := JArray(CandidatesJson(k.candidates)),
                FResolvedUserId := if k.resolvedUserId.Some? then JString(k.resolvedUserId.value) else JNull,
                FRequiresOperatorAction := JBool(k.requiresOperatorAction)])
  }

  /* ---- builder and validator agree ---- */

  /** A list the validator's string-array test accepts. */
  ghost predicate OrderedTexts(texts: seq<string>, allowed: set<string>) {
    Distinct(texts) && Sort(texts, NoLater) == texts && forall t :: t in texts ==> t in allowed
  }

  lemma OrderedAccepted(texts: seq<string>, allowed: set<string>)
    requires OrderedTexts(texts, allowed)
    ensures StringArray(TextArray(texts), allowed)
  {
    var v := TextArray(texts);
    assert forall i :: 0 <= i < |texts| ==> texts[i] in texts && v.items[i].s == Strings(v.items)[i];
  }

  lemma SortOne(a: string)
    ensures Sort([a], NoLater) == [a]
  {
    assert [a][1..] == [];
  }

  lemma SortTwo(a: string, b: string)
    requires a != [] && b != [] && a[0] < b[0]
    ensures Sort([a, b], NoLater) == [a, b] && a != b
  {
    SortOne(b);
    assert [a, b][1..] == [b];
    assert !Less(b, a);
  }

  lemma SourcesOrdered(sources: set<SourceKind>)
    requires sources != {}
    ensures OrderedTexts(SourceTexts(sources), SOURCES) && SourceTexts(sources) != []
  {
    var d, j := SourceText(DirectKeyCreated), SourceText(JoinClaim);
    SortOne(d);
    SortOne(j);
    SortTwo(d, j);
    assert [d] + [] == [d] && [] + [j] == [j] && [d] + [j] == [d, j];
    var s :| s in sources;
    assert s == DirectKeyCreated || s == JoinClaim;
  }

  function Membership(t: Tally): string {
    if t.activeMembership then "active_company_membership"
    else if t.membershipExists then "company_membership_inactive" else "company_membership_missing"
  }

  /** A membership reason, and the administrator's after it, are in order. */
  lemma ReasonPair(first: string, admin: bool)
    requires first in ELIGIBILITY_REASONS && first != "" && first[0] < 'i'
    ensures var reasons := [first] + if admin then ["instance_admin"] else [];
      Sort(reasons, NoLater) == reasons && OrderedTexts(reasons, ELIGIBILITY_REASONS)
  {
    SortOne(first);
    assert "instance_admin"[0] == 'i';
    if admin {
      SortTwo(first, "instance_admin");
      assert [first] + ["instance_admin"] == [first, "instance_admin"];
    } else {
      assert [first] + [] == [first];
    }
  }

  lemma MembershipReason(t: Tally)
    ensures Membership(t) in ELIGIBILITY_REASONS && Membership(t) != "" && Membership(t)[0] < 'i'
    ensures Membership(t) != "instance_admin" && (Membership(t) == "active_company_membership" <==> t.activeMembership)
  {
    Different();
  }

  lemma MissingUser()
    ensures OrderedTexts(["user_not_found"], ELIGIBILITY_REASONS) && !Positive(["user_not_found"])
    ensures Sort(["user_not_found"], NoLater) == ["user_not_found"]
  {
    SortOne("user_not_found");
    Different();
  }

  lemma PositivePair(first: string, admin: bool)
    requires first != "instance_admin"
    ensures Positive([first] + if admin then ["instance_admin"] else [])
      <==> first == "active_company_membership" || admin
  {
    var reasons := [first] + if admin then ["instance_admin"] else [];
    assert reasons[0] == first && (admin ==> reasons[1] == "instance_admin");
  }

  lemma ReasonsOrdered(t: Tally)
    ensures OrderedTexts(EligibilityReasons(t), ELIGIBILITY_REASONS)
    ensures if t.userExists && (t.activeMembership || t.instanceAdmin) then Positive(EligibilityReasons(t))
            else !Positive(EligibilityReasons(t)) && |EligibilityReasons(t)| == 1
  {
    if t.userExists {
      var first := Membership(t);
      MembershipReason(t);
      ReasonPair(first, t.instanceAdmin);
      PositivePair(first, t.instanceAdmin);
      assert EligibilityReasons(t) == [first] + if t.instanceAdmin then ["instance_admin"] else [];
    } else {
      MissingUser();
    }
  }

  lemma Different()
    ensures "active_company_membership" != "user_not_found" && "instance_admin" != "user_not_found"
    ensures "active_company_membership" != "company_membership_inactive"
      && "active_company_membership" != "company_membership_missing"
    ensures "instance_admin" != "company_membership_inactive" && "instance_admin" != "company_membership_missing"
  {
    assert "active_company_membership"[0] == 'a' && "user_not_found"[0] == 'u' && "instance_admin"[0] == 'i';
    assert "company_membership_inactive"[0] == 'c' && "company_membership_missing"[0] == 'c';
  }

  lemma CandidateValid(userId: string, t: Tally)
    requires t.sources != {}
    ensures ValidCandidate(CandidateJson(CandidateFrom(userId, t)))
    ensures CandidateOfJson(CandidateJson(CandidateFrom(userId, t))) == CandidateFrom(userId, t)
  {
    var c := CandidateFrom(userId, t);
    SourcesOrdered(t.sources);
    ReasonsOrdered(t);
    OrderedAccepted(c.sources, SOURCES);
    OrderedAccepted(c.eligibilityReasonCodes, ELIGIBILITY_REASONS);
    assert CandidateJson(c).fields.Keys == CANDIDATE_FIELDS;
  }

  lemma BuiltCandidatesRise(rows: seq<Evidence>, keyId: string)
    ensures RisingUsers(Sort(Unsorted(rows, keyId), ByUser))
    ensures multiset(Sort(Unsorted(rows, keyId), ByUser)) == multiset(Unsorted(rows, keyId))
  {
    var list := Unsorted(rows, keyId);
    UnsortedDistinct(rows, keyId);
    CandidateOrder();
    SortSorts(list, ByUser);
    SortPermutes(list, ByUser);
    StrictlyRising(list, Sort(list, ByUser));
  }

  lemma StrictlyRising(list: seq<Candidate>, cs: seq<Candidate>)
    requires Distinct(list) && NoTies(list, ByUser) && Sorted(cs, ByUser) && multiset(cs) == multiset(list)
    ensures RisingUsers(cs)
  {
    SameElements(cs, list);
    forall i | 0 < i < |cs| ensures Less(cs[i - 1].userId, cs[i].userId) {
      assert cs[i - 1] in list && cs[i] in list && ByUser(cs[i - 1], cs[i]);
      if cs[i - 1] == cs[i] {
        DistinctCount(list, cs[i]);
        TwiceCounted(cs, i - 1, i);
      }
    }
  }

  lemma BuiltCandidateValid(rows: seq<Evidence>, keyId: string, c: Candidate)
    requires c in Unsorted(rows, keyId)
    ensures ValidCandidate(CandidateJson(c)) && CandidateOfJson(CandidateJson(c)) == c
  {
    UnsortedDistinct(rows, keyId);
    UsersMeaning(rows, keyId);
    var r :| r in rows && Backs(r, keyId, c.userId);
    assert r.source.value in TallyOf(rows, keyId, c.userId).sources;
    CandidateValid(c.userId, TallyOf(rows, keyId, c.userId));
  }

  /** Candidates that survive being stored. */
  ghost predicate Storable(cs: seq<Candidate>) {
    AllValidCandidates(CandidatesJson(cs)) && CandidatesOfJson(CandidatesJson(cs)) == cs
  }

  lemma BuiltCandidates(rows: seq<Evidence>, keyId: string)
    ensures Storable(Sort(Unsorted(rows, keyId), ByUser))
  {
    var cs := Sort(Unsorted(rows, keyId), ByUser);
    SortPermutes(Unsorted(rows, keyId), ByUser);
    forall i | 0 <= i < |cs|
      ensures ValidCandidate(CandidateJson(cs[i])) && CandidateOfJson(CandidateJson(cs[i])) == cs[i]
    {
      assert cs[i] in cs;
      BuiltCandidateValid(rows, keyId, cs[i]);
    }
  }

  lemma StoredShape(k: ReportKey)
    requires |k.reasonCodes| == 1 && k.reasonCodes[0] in DECISION_REASONS && Storable(k.candidates)
    ensures KeyShape(KeyJson(k)) && Decoded(KeyJson(k)) == k
  {
    SortOne(k.reasonCodes[0]);
    assert k.reasonCodes == [k.reasonCodes[0]];
    OrderedAccepted(k.reasonCodes, DECISION_REASONS);
    assert KeyJson(k).fields.Keys == KEY_FIELDS;
  }

  lemma BuiltCoherent(keyId: string, g: Group)
    requires forall u :: u in g.users ==> u in g.candidates
    requires RisingUsers(CandidatesOf(g))
    ensures Coherent(EntryFor(keyId, g))
  {
  }

  /** Every entry the builder can produce, from any evidence, passes the validator and decodes to itself. */
  lemma BuiltKeyValid(rows: seq<Evidence>, keyId: string)
    requires HeaderOf(rows, keyId).Some?
    ensures ValidKey(KeyJson(ReportOf(rows, keyId)))
    ensures Decoded(KeyJson(ReportOf(rows, keyId))) == ReportOf(rows, keyId)
  {
    BuiltCandidatesRise(rows, keyId);
    BuiltCandidates(rows, keyId);
    BuiltCoherent(keyId, GroupOf(rows, keyId));
    StoredShape(ReportOf(rows, keyId));
  }

  lemma TextArrayOf(v: Json, allowed: set<string>)
    requires StringArray(v, allowed)
    ensures TextArray(Strings(v.items)) == v
  {
    var w := TextArray(Strings(v.items));
    forall i | 0 <= i < |v.items| ensures w.items[i] == v.items[i] {
      assert Strings(w.items)[i] == Strings(v.items)[i];
    }
    assert w.items == v.items;
  }

  lemma CandidateRoundTrip(v: Json)
    requires ValidCandidate(v)
    ensures CandidateJson(CandidateOfJson(v)) == v
  {
    TextArrayOf(v.fields[FSources], SOURCES);
    TextArrayOf(v.fields[FEligibilityReasonCodes], ELIGIBILITY_REASONS);
    var w := CandidateJson(CandidateOfJson(v));
    assert w.fields.Keys == CANDIDATE_FIELDS == v.fields.Keys;
    forall f | f in CANDIDATE_FIELDS ensures w.fields[f] == v.fields[f] {
      CandidateField(v, f);
    }
  }

  lemma CandidateField(v: Json, f: Field)
    requires ValidCandidate(v) && f in CANDIDATE_FIELDS
    requires TextArray(Strings(v.fields[FSources].items)) == v.fields[FSources]
    requires TextArray(Strings(v.fields[FEligibilityReasonCodes].items)) == v.fields[FEligibilityReasonCodes]
    ensures f in CandidateJson(CandidateOfJson(v)).fields && CandidateJson(CandidateOfJson(v)).fields[f] == v.fields[f]
  {
  }

  /** The validator accepts nothing but stored forms: what it accepts is the encoding of what it decodes to. */
  lemma AcceptedIsStoredForm(v: Json)
    requires ValidKey(v)
    ensures KeyJson(Decoded(v)) == v
  {
    TextArrayOf(v.fields[FReasonCodes], DECISION_REASONS);
    var items := v.fields[FCandidates].items;
    forall i | 0 <= i < |items| ensures CandidateJson(CandidatesOfJson(items)[i]) == items[i] {
      CandidateRoundTrip(items[i]);
    }
    assert CandidatesJson(CandidatesOfJson(items)) == items;
    assert DecisionText(DecisionOf(v.fields[FDecision].s).value) == v.fields[FDecision].s;
    assert KeyJson(Decoded(v)).fields == v.fields;
  }

  /* ---- the reader ---- */

  datatype ReceiptRow = ReceiptRow(companyId: string, entityType: string, entityId: string, agentId: Option<string>,
        details: Json)

  datatype ReadResult = Report(generatedAt: string, summary: Summary, keys: seq<ReportKey>) | NotFound | Malformed

  datatype Receipt = Receipt(row: ReceiptRow, generatedAt: string, key: ReportKey)

  /** `dated` says which strings `Date.parse` reads. */
  predicate WellFormed(details: Json, dated: string -> bool) {
    && Has(details, RECEIPT_FIELDS) && details.fields[FSchemaVersion] == JNumber(1)
      && details.fields[FMigration] == JString(MIGRATION)
    && details.fields[FGeneratedAt].JString? && dated(details.fields[FGeneratedAt].s) && ValidKey(details.fields[FKey])
  }

  function ParseReceipt(row: ReceiptRow, dated: string -> bool): Option<Receipt> {
    if WellFormed(row.details, dated)
      then Some(Receipt(row, row.details.fields[FGeneratedAt].s, Decoded(row.details.fields[FKey])))
      else None
  }

  function Parser(dated: string -> bool): ReceiptRow -> Option<Receipt> {
    row => ParseReceipt(row, dated)
  }

  /** The receipts of all rows, unless one of them is malformed. */
  function ParsedAll(rows: seq<ReceiptRow>, dated: string -> bool): Option<seq<Receipt>> {
    AllSome(rows, Parser(dated))
  }

  /** The row's own columns repeat what its receipt says. */
  predicate Matches(r: Receipt) {
    r.row.entityType == "agent_api_key" && r.key.companyId == r.row.companyId && Some(r.key.agentId) == r.row.agentId
      && r.key.keyId == r.row.entityId
  }

  ghost predicate AllMatch(receipts: seq<Receipt>) {
    && (forall i :: 0 <= i < |receipts| ==> Matches(receipts[i]))
    && (forall i, j :: 0 <= i < j < |receipts| ==> receipts[i].key.keyId != receipts[j].key.keyId)
  }

  function SortedCandidate(c: Candidate): Candidate {
    c.(sources := Sort(c.sources, NoLater), eligibilityReasonCodes := Sort(c.eligibilityReasonCodes, NoLater))
  }

  function SortedCandidates(cs: seq<Candidate>): (r: seq<Candidate>)
    ensures |r| == |cs| && forall i :: 0 <= i < |cs| ==> r[i] == SortedCandidate(cs[i])
  {
    seq(|cs|, i requires 0 <= i < |cs| => SortedCandidate(cs[i]))
  }

  /** The reader sorts every list again. */
  function Normalised(k: ReportKey): ReportKey {
    k.(reasonCodes := Sort(k.reasonCodes, NoLater), candidates := Sort(SortedCandidates(k.candidates), ByUser))
  }

  function KeysOf(receipts: seq<Receipt>): (keys: seq<ReportKey>)
    ensures |keys| == |receipts| && forall i :: 0 <= i < |receipts| ==> keys[i] == receipts[i].key
  {
    seq(|receipts|, i requires 0 <= i < |receipts| => receipts[i].key)
  }

  function TimesOf(receipts: seq<Receipt>): (times: seq<string>)
    ensures |times| == |receipts| && forall i :: 0 <= i < |receipts| ==> times[i] == receipts[i].generatedAt
  {
    seq(|receipts|, i requires 0 <= i < |receipts| => receipts[i].generatedAt)
  }

  function NormalisedAll(keys: seq<ReportKey>): (r: seq<ReportKey>)
    ensures |r| == |keys| && forall i :: 0 <= i < |keys| ==> r[i] == Normalised(keys[i])
  {
    seq(|keys|, i requires 0 <= i < |keys| => Normalised(keys[i]))
  }

  method ParseAll(rows: seq<ReceiptRow>, parse: ReceiptRow -> Option<Receipt>) returns (parsed: Option<seq<Receipt>>)
    ensures parsed == AllSome(rows, parse)
  {
    var receipts: seq<Receipt> := [];
    for i := 0 to |rows|
      invariant AllSome(rows[..i], parse) == Some(receipts)
    {
      var receipt := parse(rows[i]);
      if receipt.None? {
        AllSomeFails(rows, parse, i);
        return None;
      }
      assert rows[..i + 1][..i] == rows[..i];
      receipts := receipts + [receipt.value];
    }
    assert rows[..|rows|] == rows;
    return Some(receipts);
  }

  /** Each receipt against its row's columns and against the keys already seen. */
  method CheckAll(receipts: seq<Receipt>) returns (ok: bool)
    ensures ok <==> AllMatch(receipts)
  {
    var seen: set<string> := {};
    for i := 0 to |receipts|
      invariant forall j :: 0 <= j < i ==> Matches(receipts[j])
      invariant forall j, k :: 0 <= j < k < i ==> receipts[j].key.keyId != receipts[k].key.keyId
      invariant forall e :: e in seen <==> exists j :: 0 <= j < i && receipts[j].key.keyId == e
    {
      if !Matches(receipts[i]) || receipts[i].key.keyId in seen { return false; }
      seen := seen + {receipts[i].key.keyId};
    }
    return true;
  }

  /** `readStoredAgentApiKeyResponsibilityReceipt` after its query. */
  method ReadStored(rows: seq<ReceiptRow>, dated: string -> bool) returns (r: ReadResult)
    ensures r.NotFound? <==> rows == []
    ensures r.Report? <==> rows != [] && ParsedAll(rows, dated).Some? && AllMatch(ParsedAll(rows, dated).value)
    ensures r.Report? ==> var receipts := ParsedAll(rows, dated).value;
      && r.keys == Sort(NormalisedAll(KeysOf(receipts)), CompareTriple) && r.summary == SummaryOf(r.keys)
      && r.generatedAt in TimesOf(receipts) && forall t :: t in TimesOf(receipts) ==> NoLater(t, r.generatedAt)
  {
    if |rows| == 0 { return NotFound; }
    var parsed := ParseAll(rows, Parser(dated));
    if parsed.None? { return Malformed; }
    var checked := CheckAll(parsed.value);
    if !checked { return Malformed; }
    AllSomeLength(rows, Parser(dated));
    r := Summarise(parsed.value);
  }

  method Summarise(receipts: seq<Receipt>) returns (r: ReadResult)
    requires receipts != []
    ensures r.Report? && r.keys == Sort(NormalisedAll(KeysOf(receipts)), CompareTriple)
      && r.summary == SummaryOf(r.keys)
    ensures r.generatedAt in TimesOf(receipts) && forall t :: t in TimesOf(receipts) ==> NoLater(t, r.generatedAt)
  {
    var keys := Sort(NormalisedAll(KeysOf(receipts)), CompareTriple);
    var sorted := Sort(TimesOf(receipts), NoLater);
    LastIsLatest(TimesOf(receipts));
    r := Report(sorted[|sorted| - 1], SummaryOf(keys), keys);
  }

  lemma LastIsLatest(times: seq<string>)
    requires times != []
    ensures var sorted := Sort(times, NoLater);
      && |sorted| == |times| && sorted[|sorted| - 1] in times
      && forall t :: t in times ==> NoLater(t, sorted[|sorted| - 1])
  {
    var sorted := Sort(times, NoLater);
    TextOrder();
    SortPermutes(times, NoLater);
    SortSorts(times, NoLater);
    assert sorted[|sorted| - 1] in sorted;
    forall t | t in times ensures NoLater(t, sorted[|sorted| - 1]) {
      assert t in sorted;
      var i :| 0 <= i < |sorted| && sorted[i] == t;
      Trichotomy(t, t);
    }
  }

  /* ---- reading back what was built ---- */

  function ReceiptFor(k: ReportKey, time: string): ReceiptRow {
    ReceiptRow(k.companyId, "agent_api_key", k.keyId, Some(k.agentId),
      JObject(map[FSchemaVersion := JNumber(1), FMigration := JString(MIGRATION), FGeneratedAt := JString(time),
        FKey := KeyJson(k)]))
  }

  lemma ReceiptParses(k: ReportKey, time: string, dated: string -> bool)
    requires ValidKey(KeyJson(k)) && Decoded(KeyJson(k)) == k && dated(time)
    ensures ParseReceipt(ReceiptFor(k, time), dated) == Some(Receipt(ReceiptFor(k, time), time, k))
  {
    assert ReceiptFor(k, time).details.fields.Keys == RECEIPT_FIELDS;
  }

  /** Re-sorting a valid entry changes nothing. */
  lemma NormalisedIsIdentity(k: ReportKey)
    requires ValidKey(KeyJson(k)) && Decoded(KeyJson(k)) == k
    ensures Normalised(k) == k
  {
    var v := KeyJson(k);
    assert k.reasonCodes == Strings(v.fields[FReasonCodes].items);
    forall i | 0 <= i < |k.candidates| ensures SortedCandidate(k.candidates[i]) == k.candidates[i] {
      var w := v.fields[FCandidates].items[i];
      assert ValidCandidate(w) && k.candidates[i] == CandidateOfJson(w);
    }
    assert SortedCandidates(k.candidates) == k.candidates;
    RisingIsSorted(k.candidates);
  }

  lemma {:induction false} RisingIsSorted(cs: seq<Candidate>)
    requires RisingUsers(cs)
    ensures Sort(cs, ByUser) == cs
  {
    if cs != [] {
      forall i | 0 < i < |cs[1..]| ensures Less(cs[1..][i - 1].userId, cs[1..][i].userId) {
        assert Less(cs[i].userId, cs[i + 1].userId);
      }
      RisingIsSorted(cs[1..]);
      if |cs| > 1 { Trichotomy(cs[0].userId, cs[1].userId); }
      assert cs == [cs[0]] + cs[1..];
    }
  }

  /** The stored receipts of a report, one per entry, in any order and each with its own time. */
  ghost predicate Stores(rows: seq<ReceiptRow>, entries: seq<ReportKey>, times: seq<string>, dated: string -> bool) {
    && |rows| == |entries| == |times|
    && forall i :: 0 <= i < |rows| ==> dated(times[i]) && rows[i] == ReceiptFor(entries[i], times[i])
  }

  function Receipts(rows: seq<ReceiptRow>, entries: seq<ReportKey>, times: seq<string>): (receipts: seq<Receipt>)
    requires |rows| == |entries| == |times|
    ensures |receipts| == |rows|
    ensures forall i :: 0 <= i < |rows| ==> receipts[i] == Receipt(rows[i], times[i], entries[i])
  {
    seq(|rows|, i requires 0 <= i < |rows| => Receipt(rows[i], times[i], entries[i]))
  }

  lemma BuiltEntry(evidence: seq<Evidence>, e: ReportKey, time: string, dated: string -> bool)
    requires e in ReportKeys(evidence) && dated(time)
    ensures ParseReceipt(ReceiptFor(e, time), dated) == Some(Receipt(ReceiptFor(e, time), time, e))
    ensures Normalised(e) == e
  {
    ReportMembers(evidence);
    BuiltKeyValid(evidence, e.keyId);
    ReceiptParses(e, time, dated);
    NormalisedIsIdentity(e);
  }

  lemma StoredParse(evidence: seq<Evidence>, rows: seq<ReceiptRow>, entries: seq<ReportKey>, times: seq<string>,
        dated: string -> bool)
    requires Stores(rows, entries, times, dated)
    requires forall i :: 0 <= i < |entries| ==> entries[i] in ReportKeys(evidence)
    ensures ParsedAll(rows, dated) == Some(Receipts(rows, entries, times))
  {
    var receipts := Receipts(rows, entries, times);
    forall i | 0 <= i < |rows| ensures Parser(dated)(rows[i]) == Some(receipts[i]) {
      BuiltEntry(evidence, entries[i], times[i], dated);
    }
    AllSomeIs(rows, Parser(dated), receipts);
  }

  lemma EntriesKeyed(evidence: seq<Evidence>, entries: seq<ReportKey>)
    requires multiset(entries) == multiset(ReportKeys(evidence))
    ensures forall i, j :: 0 <= i < j < |entries| ==> entries[i].keyId != entries[j].keyId
    ensures Sort(entries, CompareTriple) == ReportKeys(evidence)
  {
    EntriesDistinct(evidence);
    KeyOrder();
    var original := Entries(evidence, KeyIds(evidence));
    SortPermutes(original, CompareTriple);
    SameElements(entries, original);
    SortCanonical(original, entries, CompareTriple);
    forall i, j | 0 <= i < j < |entries| ensures entries[i].keyId != entries[j].keyId {
      assert entries[i] in original && entries[j] in original;
      if entries[i] == entries[j] {
        DistinctCount(original, entries[i]);
        TwiceCounted(entries, i, j);
      }
    }
  }

  /** Reading back the receipts of a built report, whatever order they come in, gives the same entries in
      the same order, and so the same summary. */
  lemma ReadBack(evidence: seq<Evidence>, rows: seq<ReceiptRow>, entries: seq<ReportKey>, times: seq<string>,
        dated: string -> bool)
    requires multiset(entries) == multiset(ReportKeys(evidence)) && Stores(rows, entries, times, dated)
    ensures ParsedAll(rows, dated).Some? && AllMatch(ParsedAll(rows, dated).value)
    ensures Sort(NormalisedAll(KeysOf(ParsedAll(rows, dated).value)), CompareTriple) == ReportKeys(evidence)
  {
    SameElements(entries, ReportKeys(evidence));
    forall i | 0 <= i < |entries| ensures entries[i] in ReportKeys(evidence) && Normalised(entries[i]) == entries[i] {
      assert entries[i] in entries;
      BuiltEntry(evidence, entries[i], times[i], dated);
    }
    StoredParse(evidence, rows, entries, times, dated);
    EntriesKeyed(evidence, entries);
    var receipts := Receipts(rows, entries, times);
    assert NormalisedAll(KeysOf(receipts)) == entries;
  }
}
