/** Which stored entries and receipts the reader accepts, told without the validator. */
module KeyReceiptMeaning {
  import opened Basics
  import opened Text
  import opened KeyReport
  import opened KeyReceipts
  import M = KeyReportMeaning

  /* ---- what fits ---- */

  /** The reason codes an eligible candidate may have, and those of any other. */
  ghost predicate CodesFit(codes: seq<string>, eligible: bool) {
    && M.Rising(codes)
    && (forall c :: c in codes ==>
          || c == "active_company_membership" || c == "instance_admin" || c == "user_not_found"
          || c == "company_membership_missing" || c == "company_membership_inactive")
    && (eligible <==> "active_company_membership" in codes || "instance_admin" in codes)
    && (!eligible ==> |codes| == 1)
  }

  ghost predicate CandidateFits(c: Candidate) {
    && c.sources != [] && M.Rising(c.sources) && CodesFit(c.eligibilityReasonCodes, c.eligible)
    && forall s :: s in c.sources ==> s == "direct_key_created" || s == "join_claim"
  }

  ghost predicate OnlyEligible(cs: seq<Candidate>, i: int) {
    0 <= i < |cs| && cs[i].eligible && forall j :: 0 <= j < |cs| && cs[j].eligible ==> j == i
  }

  ghost predicate NoneEligible(cs: seq<Candidate>) {
    forall c :: c in cs ==> !c.eligible
  }

  /** Decision, reason, resolved user and need for an operator go together as the candidates demand. */
  ghost predicate DecisionFits(e: ReportKey) {
    match e.decision
    case PreserveRevoked => M.Kept(e)
    case Backfill => exists i :: OnlyEligible(e.candidates, i) && M.Resolved(e, e.candidates[i].userId)
    case Revoke =>
      && (forall i :: !OnlyEligible(e.candidates, i))
      && M.Unresolved(e,
           if e.candidates == [] then "no_provenance"
           else if NoneEligible(e.candidates) then "no_eligible_candidate"
           else "conflicting_eligible_candidates")
  }

  ghost predicate EntryFits(e: ReportKey) {
    && (forall i :: 0 < i < |e.candidates| ==> Less(e.candidates[i - 1].userId, e.candidates[i].userId))
    && (forall i :: 0 <= i < |e.candidates| ==> CandidateFits(e.candidates[i]))
    && DecisionFits(e)
  }

  /* ---- the stored form ---- */

  ghost predicate TextsStored(v: Json, texts: seq<string>) {
    v.JArray? && |v.items| == |texts| && forall i :: 0 <= i < |texts| ==> v.items[i] == JString(texts[i])
  }

  ghost predicate CandidateStored(v: Json, c: Candidate) {
    && v.JObject? && v.fields.Keys == {FUserId, FSources, FEligible, FEligibilityReasonCodes}
    && v.fields[FUserId] == JString(c.userId) && v.fields[FEligible] == JBool(c.eligible)
    && TextsStored(v.fields[FSources], c.sources)
    && TextsStored(v.fields[FEligibilityReasonCodes], c.eligibilityReasonCodes)
  }

  ghost predicate CandidatesStored(v: Json, cs: seq<Candidate>) {
    v.JArray? && |v.items| == |cs| && forall i :: 0 <= i < |cs| ==> CandidateStored(v.items[i], cs[i])
  }

  /** The stored form of an entry, property by property. */
  ghost predicate EntryStored(v: Json, e: ReportKey) {
    && v.JObject?
    && v.fields.Keys == {FKeyId, FCompanyId, FAgentId, FKeyName, FDecision, FReasonCodes, FCandidates, FResolvedUserId,
                         FRequiresOperatorAction}
    && v.fields[FKeyId] == JString(e.keyId) && v.fields[FCompanyId] == JString(e.companyId)
    && v.fields[FAgentId] == JString(e.agentId) && v.fields[FKeyName] == JString(e.keyName)
    && v.fields[FDecision] == JString(match e.decision case Backfill => "backfill" case Revoke => "revoke"
                                      case PreserveRevoked => "preserve_revoked")
    && TextsStored(v.fields[FReasonCodes], e.reasonCodes)
    && CandidatesStored(v.fields[FCandidates], e.candidates)
    && v.fields[FResolvedUserId] == (match e.resolvedUserId case None => JNull case Some(u) => JString(u))
    && v.fields[FRequiresOperatorAction] == JBool(e.requiresOperatorAction)
  }

  lemma TextsStoredIff(v: Json, texts: seq<string>)
    ensures TextsStored(v, texts) <==> v == TextArray(texts)
  {
    var made := TextArray(texts);
    assert forall i :: 0 <= i < |texts| ==> made.items[i].s == Strings(made.items)[i];
    if TextsStored(v, texts) { assert v.items == made.items; }
  }

  lemma CandidateStoredIff(v: Json, c: Candidate)
    ensures CandidateStored(v, c) <==> v == CandidateJson(c)
  {
    var made := CandidateJson(c);
    TextsStoredIff(made.fields[FSources], c.sources);
    TextsStoredIff(made.fields[FEligibilityReasonCodes], c.eligibilityReasonCodes);
    if CandidateStored(v, c) {
      TextsStoredIff(v.fields[FSources], c.sources);
      TextsStoredIff(v.fields[FEligibilityReasonCodes], c.eligibilityReasonCodes);
      assert v.fields == made.fields;
    }
  }

  lemma CandidatesStoredIff(v: Json, cs: seq<Candidate>)
    ensures CandidatesStored(v, cs) <==> v == JArray(CandidatesJson(cs))
  {
    forall i | 0 <= i < |cs| ensures CandidateStored(CandidatesJson(cs)[i], cs[i]) {
      CandidateStoredIff(CandidatesJson(cs)[i], cs[i]);
    }
    if CandidatesStored(v, cs) {
      forall i | 0 <= i < |cs| ensures v.items[i] == CandidatesJson(cs)[i] { CandidateStoredIff(v.items[i], cs[i]); }
      assert v.items == CandidatesJson(cs);
    }
  }

  lemma KeyJsonStored(e: ReportKey)
    ensures EntryStored(KeyJson(e), e)
  {
    TextsStoredIff(TextArray(e.reasonCodes), e.reasonCodes);
    CandidatesStoredIff(JArray(CandidatesJson(e.candidates)), e.candidates);
    assert KeyJson(e).fields.Keys == KEY_FIELDS;
  }

  lemma StoredIsKeyJson(v: Json, e: ReportKey)
    requires EntryStored(v, e)
    ensures v == KeyJson(e)
  {
    TextsStoredIff(v.fields[FReasonCodes], e.reasonCodes);
    CandidatesStoredIff(v.fields[FCandidates], e.candidates);
    assert v.fields == KeyJson(e).fields;
  }

  /* ---- lists ---- */

  lemma {:induction false} RisingIsOrdered(texts: seq<string>)
    requires M.Rising(texts)
    ensures Distinct(texts) && Sort(texts, NoLater) == texts
  {
    forall i, j | 0 <= i < j < |texts| ensures texts[i] != texts[j] { Trichotomy(texts[i], texts[j]); }
    if texts != [] {
      assert forall i :: 0 <= i < |texts[1..]| ==> texts[1..][i] == texts[i + 1];
      RisingIsOrdered(texts[1..]);
      if |texts| > 1 { Trichotomy(texts[0], texts[1]); }
      assert texts == [texts[0]] + texts[1..];
    }
  }

  lemma OrderedIffRising(texts: seq<string>, allowed: set<string>)
    ensures OrderedTexts(texts, allowed) <==> M.Rising(texts) && forall t :: t in texts ==> t in allowed
  {
    if M.Rising(texts) { RisingIsOrdered(texts); }
    if OrderedTexts(texts, allowed) { M.SortRises(texts); }
  }

  lemma AcceptedRises(v: Json, allowed: set<string>)
    requires StringArray(v, allowed)
    ensures M.Rising(Strings(v.items)) && forall t :: t in Strings(v.items) ==> t in allowed
  {
    OrderedIffRising(Strings(v.items), allowed);
  }

  /* ---- candidates ---- */

  lemma CodesAccepted(codes: seq<string>, eligible: bool)
    requires M.Rising(codes) && forall t :: t in codes ==> t in ELIGIBILITY_REASONS
    requires if eligible then Positive(codes) else !Positive(codes) && |codes| == 1
    ensures CodesFit(codes, eligible)
  {
  }

  lemma CandidateAccepted(v: Json)
    requires ValidCandidate(v)
    ensures CandidateFits(CandidateOfJson(v))
  {
    var sources, codes := v.fields[FSources], v.fields[FEligibilityReasonCodes];
    AcceptedRises(sources, SOURCES);
    AcceptedRises(codes, ELIGIBILITY_REASONS);
    CodesAccepted(Strings(codes.items), v.fields[FEligible].b);
    SourcesAccepted(Strings(sources.items));
    assert |Strings(sources.items)| > 0;
  }

  lemma SourcesAccepted(texts: seq<string>)
    requires forall t :: t in texts ==> t in SOURCES
    ensures forall t :: t in texts ==> t == "direct_key_created" || t == "join_claim"
  {
  }

  lemma FittingCandidate(c: Candidate)
    requires CandidateFits(c)
    ensures ValidCandidate(CandidateJson(c)) && CandidateOfJson(CandidateJson(c)) == c
  {
    OrderedIffRising(c.sources, SOURCES);
    OrderedIffRising(c.eligibilityReasonCodes, ELIGIBILITY_REASONS);
    OrderedAccepted(c.sources, SOURCES);
    OrderedAccepted(c.eligibilityReasonCodes, ELIGIBILITY_REASONS);
    assert CandidateJson(c).fields.Keys == CANDIDATE_FIELDS;
  }

  /* ---- entries ---- */

  lemma {:induction false} EligibleIs(cs: seq<Candidate>)
    ensures Eligible(cs) == [] <==> NoneEligible(cs)
    ensures forall i :: OnlyEligible(cs, i) ==> Eligible(cs) == [cs[i]]
    ensures |Eligible(cs)| == 1 ==> exists i :: OnlyEligible(cs, i)
  {
    if cs != [] {
      var rest := cs[1..];
      assert cs == [cs[0]] + rest;
      EligibleIs(rest);
      if cs[0].eligible {
        forall i | OnlyEligible(cs, i) ensures Eligible(cs) == [cs[i]] { OnlyFirst(cs, i); }
        if |Eligible(cs)| == 1 { NoneThenFirst(cs); }
      } else {
        forall i | OnlyEligible(cs, i) ensures Eligible(cs) == [cs[i]] { OnlyLater(cs, i); }
        if |Eligible(rest)| == 1 {
          var i :| OnlyEligible(rest, i);
          LaterOnly(cs, i);
        }
      }
    }
  }

  lemma OnlyFirst(cs: seq<Candidate>, i: int)
    requires cs != [] && cs[0].eligible && OnlyEligible(cs, i)
    ensures i == 0 && NoneEligible(cs[1..])
  {
    forall c | c in cs[1..] ensures !c.eligible {
      var j :| 0 <= j < |cs[1..]| && cs[1..][j] == c;
      assert cs[j + 1] == c;
    }
  }

  lemma NoneThenFirst(cs: seq<Candidate>)
    requires cs != [] && cs[0].eligible && NoneEligible(cs[1..])
    ensures OnlyEligible(cs, 0)
  {
    forall j | 0 < j < |cs| ensures !cs[j].eligible {
      assert cs[1..][j - 1] == cs[j] && cs[1..][j - 1] in cs[1..];
    }
  }

  lemma OnlyLater(cs: seq<Candidate>, i: int)
    requires cs != [] && !cs[0].eligible && OnlyEligible(cs, i)
    ensures i > 0 && OnlyEligible(cs[1..], i - 1)
  {
    forall j | 0 <= j < |cs[1..]| && cs[1..][j].eligible ensures j == i - 1 { assert cs[j + 1] == cs[1..][j]; }
  }

  lemma LaterOnly(cs: seq<Candidate>, i: int)
    requires cs != [] && !cs[0].eligible && OnlyEligible(cs[1..], i)
    ensures OnlyEligible(cs, i + 1)
  {
    forall j | 0 <= j < |cs| && cs[j].eligible ensures j == i + 1 {
      if j > 0 { assert cs[1..][j - 1] == cs[j]; }
    }
  }

  lemma CoherentIff(e: ReportKey)
    ensures Coherent(e) <==> RisingUsers(e.candidates) && DecisionFits(e)
  {
    EligibleIs(e.candidates);
    if |Eligible(e.candidates)| == 1 {
      var i :| OnlyEligible(e.candidates, i);
      assert Eligible(e.candidates) == [e.candidates[i]];
      assert forall j :: OnlyEligible(e.candidates, j) ==> j == i;
    }
  }

  lemma AcceptedFits(v: Json)
    requires ValidKey(v)
    ensures v == KeyJson(Decoded(v)) && EntryFits(Decoded(v))
  {
    AcceptedIsStoredForm(v);
    CoherentIff(Decoded(v));
    var items := v.fields[FCandidates].items;
    forall i | 0 <= i < |items| ensures CandidateFits(Decoded(v).candidates[i]) {
      CandidateAccepted(items[i]);
    }
  }

  lemma FittingAccepted(e: ReportKey)
    requires EntryFits(e)
    ensures ValidKey(KeyJson(e)) && Decoded(KeyJson(e)) == e
  {
    forall i | 0 <= i < |e.candidates|
      ensures ValidCandidate(CandidateJson(e.candidates[i]))
      ensures CandidateOfJson(CandidateJson(e.candidates[i])) == e.candidates[i]
    {
      FittingCandidate(e.candidates[i]);
    }
    assert CandidatesOfJson(CandidatesJson(e.candidates)) == e.candidates;
    StoredShape(e);
    CoherentIff(e);
  }

  /** The validator accepts exactly the stored forms of entries that fit, and they decode to those entries. */
  lemma AcceptedIff(v: Json)
    ensures ValidKey(v) <==> exists e :: EntryFits(e) && EntryStored(v, e)
    ensures ValidKey(v) ==> EntryFits(Decoded(v)) && EntryStored(v, Decoded(v))
  {
    if ValidKey(v) {
      AcceptedFits(v);
      KeyJsonStored(Decoded(v));
    }
    if e :| EntryFits(e) && EntryStored(v, e) {
      StoredIsKeyJson(v, e);
      FittingAccepted(e);
    }
  }

  /* ---- receipts ---- */

  /** The row is the receipt of an entry that fits, made at some time. */
  ghost predicate ReceiptOf(row: ReceiptRow, e: ReportKey, time: string, dated: string -> bool) {
    && EntryFits(e) && dated(time)
    && row.companyId == e.companyId && row.entityType == "agent_api_key" && row.entityId == e.keyId
    && row.agentId == Some(e.agentId)
    && row.details.JObject? && row.details.fields.Keys == {FSchemaVersion, FMigration, FGeneratedAt, FKey}
    && row.details.fields[FSchemaVersion] == JNumber(1)
    && row.details.fields[FMigration] == JString("0087_agent_api_keys_responsibility_scope")
    && row.details.fields[FGeneratedAt] == JString(time) && EntryStored(row.details.fields[FKey], e)
  }

  function Details(e: ReportKey, time: string): Json {
    JObject(map[FSchemaVersion := JNumber(1), FMigration := JString(MIGRATION),
                FGeneratedAt := JString(time), FKey := KeyJson(e)])
  }

  lemma DetailsWellFormed(e: ReportKey, time: string, dated: string -> bool)
    requires ValidKey(KeyJson(e)) && dated(time)
    ensures WellFormed(Details(e, time), dated)
  {
    assert Details(e, time).fields.Keys == RECEIPT_FIELDS;
  }

  lemma WellFormedDetails(d: Json, dated: string -> bool)
    requires WellFormed(d, dated)
    ensures EntryFits(Decoded(d.fields[FKey]))
    ensures d == Details(Decoded(d.fields[FKey]), d.fields[FGeneratedAt].s)
  {
    AcceptedFits(d.fields[FKey]);
    SameFields(d, d.fields[FGeneratedAt].s, d.fields[FKey]);
  }

  lemma SameFields(d: Json, time: string, key: Json)
    requires Has(d, RECEIPT_FIELDS)
    requires d.fields[FSchemaVersion] == JNumber(1) && d.fields[FMigration] == JString(MIGRATION)
    requires d.fields[FGeneratedAt] == JString(time) && d.fields[FKey] == key
    ensures d == JObject(map[FSchemaVersion := JNumber(1), FMigration := JString(MIGRATION),
                             FGeneratedAt := JString(time), FKey := key])
  {
    var made := map[FSchemaVersion := JNumber(1), FMigration := JString(MIGRATION),
                    FGeneratedAt := JString(time), FKey := key];
    assert d.fields.Keys == made.Keys;
    assert d.fields == made;
  }

  lemma ParsedIsReceipt(row: ReceiptRow, dated: string -> bool)
    requires ParseReceipt(row, dated).Some? && Matches(ParseReceipt(row, dated).value)
    ensures var r := ParseReceipt(row, dated).value; ReceiptOf(row, r.key, r.generatedAt, dated)
  {
    WellFormedDetails(row.details, dated);
    KeyJsonStored(Decoded(row.details.fields[FKey]));
  }

  lemma ReceiptIsParsed(row: ReceiptRow, e: ReportKey, time: string, dated: string -> bool)
    requires ReceiptOf(row, e, time, dated)
    ensures ParseReceipt(row, dated) == Some(Receipt(row, time, e)) && Matches(Receipt(row, time, e))
  {
    FittingAccepted(e);
    DetailsWellFormed(e, time, dated);
    StoredIsKeyJson(row.details.fields[FKey], e);
    SameFields(row.details, time, KeyJson(e));
  }

  lemma {:induction false} AllSomeEach<A, B>(s: seq<A>, f: A -> Option<B>)
    ensures AllSome(s, f).Some? ==> |AllSome(s, f).value| == |s|
    ensures AllSome(s, f).Some? ==> forall i :: 0 <= i < |s| ==> f(s[i]) == Some(AllSome(s, f).value[i])
    ensures AllSome(s, f).None? ==> exists i :: 0 <= i < |s| && f(s[i]).None?
  {
    if s != [] {
      AllSomeEach(s[..|s| - 1], f);
      if AllSome(s[..|s| - 1], f).None? {
        var i :| 0 <= i < |s| - 1 && f(s[..|s| - 1][i]).None?;
        assert f(s[i]).None?;
      }
    }
  }

  ghost predicate ReceiptsOf(rows: seq<ReceiptRow>, entries: seq<ReportKey>, times: seq<string>, dated: string -> bool)
  {
    && |rows| == |entries| == |times|
    && (forall i :: 0 <= i < |rows| ==> ReceiptOf(rows[i], entries[i], times[i], dated))
    && forall i, j :: 0 <= i < j < |rows| ==> entries[i].keyId != entries[j].keyId
  }

  /** What the reader takes for a stored report: one receipt a row, of different keys, each of an entry that fits
      and with the row's own columns to match. */
  lemma StoredIff(rows: seq<ReceiptRow>, dated: string -> bool)
    ensures ParsedAll(rows, dated).Some? && AllMatch(ParsedAll(rows, dated).value)
       <==> exists entries, times :: ReceiptsOf(rows, entries, times, dated)
  {
    AllSomeEach(rows, Parser(dated));
    if ParsedAll(rows, dated).Some? && AllMatch(ParsedAll(rows, dated).value) {
      var receipts := ParsedAll(rows, dated).value;
      forall i | 0 <= i < |rows| ensures ReceiptOf(rows[i], KeysOf(receipts)[i], TimesOf(receipts)[i], dated) {
        assert Parser(dated)(rows[i]) == Some(receipts[i]);
        ParsedIsReceipt(rows[i], dated);
      }
      assert ReceiptsOf(rows, KeysOf(receipts), TimesOf(receipts), dated);
    }
    if entries, times :| ReceiptsOf(rows, entries, times, dated) {
      ReceiptsRead(rows, entries, times, dated);
    }
  }

  /** What it then reports: the entries themselves. */
  lemma ReceiptsRead(rows: seq<ReceiptRow>, entries: seq<ReportKey>, times: seq<string>, dated: string -> bool)
    requires ReceiptsOf(rows, entries, times, dated)
    ensures ParsedAll(rows, dated).Some? && AllMatch(ParsedAll(rows, dated).value)
    ensures NormalisedAll(KeysOf(ParsedAll(rows, dated).value)) == entries
    ensures TimesOf(ParsedAll(rows, dated).value) == times
  {
    var receipts := Receipts(rows, entries, times);
    forall i | 0 <= i < |rows|
      ensures Parser(dated)(rows[i]) == Some(receipts[i]) && Matches(receipts[i])
      ensures Normalised(entries[i]) == entries[i]
    {
      ReceiptIsParsed(rows[i], entries[i], times[i], dated);
      FittingAccepted(entries[i]);
      NormalisedIsIdentity(entries[i]);
    }
    AllSomeIs(rows, Parser(dated), receipts);
    assert NormalisedAll(KeysOf(receipts)) == entries;
    assert TimesOf(receipts) == times;
  }
}
