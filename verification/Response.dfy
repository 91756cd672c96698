/** The closed response contract: a response is taken whole or not at all (`src/llm/response.py`). */
module Response {
  import opened Text
  import opened Sorting
  import opened Hashing
  import opened Normalize
  import opened Request
  import opened Quality

  datatype Assessment = NoViolation | CatalogViolation | OtherViolation
  datatype Confidence = High | Medium | Low

  datatype Verdict = Verdict(
    alertId: string,
    assessment: Assessment,
    principleId: string,
    confidence: Confidence,
    justification: string)

  const MAX_JUSTIFICATION_LENGTH: nat := 1000

  const VERDICT_KEYS: seq<string> := ["alert_id", "assessment", "principle_id", "confidence", "justification"]

  const CITABLE_IDS: seq<string> := [
    "R1", "R2", "R3", "R4", "R5", "R6", "R7", "R8", "R9", "R10",
    "P1", "P2", "P3", "P4", "P5", "P6", "P7", "P8", "P9", "P10", "P11"]

  // ----- one verdict

  function AssessmentOf(s: string): Option<Assessment> {
    if s == "no_violation" then Some(NoViolation)
    else if s == "catalog_violation" then Some(CatalogViolation)
    else if s == "other" then Some(OtherViolation)
    else None
  }

  function ConfidenceOf(s: string): Option<Confidence> {
    if s == "high" then Some(High) else if s == "medium" then Some(Medium) else if s == "low" then Some(Low) else None
  }

  /** The string at a key of an object, if there is one. */
  function StringAt(raw: Json, key: string): Option<string> {
    if !raw.Obj? then None
    else match Lookup(raw.fields, key)
      case Some(Str(s)) => Some(s)
      case _ => None
  }

  /** Exactly these keys, no others. */
  predicate HasExactly(doc: Document, keys: seq<string>) {
    && (forall i :: 0 <= i < |doc| ==> doc[i].0 in keys)
    && (forall k :: 0 <= k < |keys| ==> HasKey(doc, keys[k]))
  }

  /** The assessment fixes what principle may be cited. */
  predicate PairingAllowed(a: Assessment, principle: string) {
    match a
    case NoViolation => principle == "NONE"
    case OtherViolation => principle == "OTHER"
    case CatalogViolation => principle in CITABLE_IDS
  }

  predicate JustificationAllowed(s: string) {
    !IsBlank(s) && |s| <= MAX_JUSTIFICATION_LENGTH
  }

  /** `raw` is a verdict object saying `v`: `Reads`, folded away. */
  ghost predicate Says(raw: Json, v: Verdict) {
    forall r: Json :: Look(r) && r == raw ==> Reads(r, v)
  }

  predicate Reads(raw: Json, v: Verdict) {
    && raw.Obj? && HasExactly(raw.fields, VERDICT_KEYS)
    && StringAt(raw, "alert_id") == Some(v.alertId) && v.alertId != ""
    && StringAt(raw, "assessment").Some? && AssessmentOf(StringAt(raw, "assessment").value) == Some(v.assessment)
    && StringAt(raw, "confidence").Some? && ConfidenceOf(StringAt(raw, "confidence").value) == Some(v.confidence)
    && StringAt(raw, "principle_id") == Some(v.principleId) && PairingAllowed(v.assessment, v.principleId)
    && StringAt(raw, "justification") == Some(v.justification) && JustificationAllowed(v.justification)
  }

  lemma {:induction false} SaysOneThing(raw: Json, v: Verdict, w: Verdict)
    requires Says(raw, v) && Says(raw, w)
    ensures v == w
  {
    assert Look(raw);
  }

  /** `_validate_verdict`: None where it raises. */
  method ValidateVerdict(raw: Json) returns (verdict: Option<Verdict>)
    ensures verdict.Some? ==> Says(raw, verdict.value)
    ensures verdict.None? ==> forall v :: !Says(raw, v)
  {
    assert Look(raw);
    if !raw.Obj? {
      return None;
    }
    var keysOk := CheckKeys(raw.fields, VERDICT_KEYS);
    if !keysOk {
      return None;
    }
    var alertId := StringAt(raw, "alert_id");
    var assessment := StringAt(raw, "assessment");
    var principle := StringAt(raw, "principle_id");
    var confidence := StringAt(raw, "confidence");
    var justification := StringAt(raw, "justification");
    if alertId.None? || alertId.value == "" {
      return None;
    }
    if assessment.None? || AssessmentOf(assessment.value).None? {
      return None;
    }
    if confidence.None? || ConfidenceOf(confidence.value).None? {
      return None;
    }
    if principle.None? || justification.None? || IsBlank(justification.value) {
      return None;
    }
    if |justification.value| > MAX_JUSTIFICATION_LENGTH {
      return None;
    }
    var a := AssessmentOf(assessment.value).value;
    if a == NoViolation && principle.value != "NONE" {
      return None;
    }
    if a == OtherViolation && principle.value != "OTHER" {
      return None;
    }
    if a == CatalogViolation && principle.value !in CITABLE_IDS {
      return None;
    }
    return Some(Verdict(alertId.value, a, principle.value, ConfidenceOf(confidence.value).value, justification.value));
  }

  /** The two key loops: nothing unexpected, nothing missing. */
  method CheckKeys(doc: Document, keys: seq<string>) returns (ok: bool)
    ensures ok <==> HasExactly(doc, keys)
  {
    for i := 0 to |doc|
      invariant forall j :: 0 <= j < i ==> doc[j].0 in keys
    {
      if doc[i].0 !in keys {
        return false;
      }
    }
    for k := 0 to |keys|
      invariant forall l :: 0 <= l < k ==> HasKey(doc, keys[l])
    {
      if Lookup(doc, keys[k]).None? {
        return false;
      }
    }
    return true;
  }

  // ----- applicability

  /** Lower-casing; only the letters of an ASCII name matter to the one comparison made with it. */
  function Lower(s: string): string {
    if s == [] then []
    else [if 'A' <= s[0] <= 'Z' then (s[0] as int + 32) as char else s[0]] + Lower(s[1..])
  }

  /** The scope errors that can be told without judging the evidence. */
  predicate Applicable(principle: string, row: Row) {
    && (principle in ["P7", "P8", "P9", "R8", "R9", "R10"] ==> row.schema == V2)
    && (principle == "P7" ==> row.severity == Some("critical"))
    && (principle == "R7" ==> row.schema == V1)
    && (principle == "R4" ==> Lower(TrimRight(TrimLeft(OrEmpty(row.provider)))) == "grafana")
  }

  // ----- the response

  /** The response's verdict objects, where it has the right shape and answers the right batch. */
  function Items(parsed: Json, batchId: string): Option<seq<Json>> {
    if parsed.Obj? && HasExactly(parsed.fields, ["batch_id", "verdicts"]) && StringAt(parsed, "batch_id") == Some(batchId) then
      match Lookup(parsed.fields, "verdicts")
      case Some(Arr(items)) => Some(items)
      case _ => None
    else None
  }

  /** The objects say `vs`, one each, about different alerts. */
  ghost predicate SayAll(items: seq<Json>, vs: seq<Verdict>) {
    && |vs| == |items|
    && (forall i :: 0 <= i < |items| ==> Says(items[i], vs[i]))
    && forall i, j :: 0 <= i < j < |vs| ==> vs[i].alertId != vs[j].alertId
  }

  ghost predicate About(vs: seq<Verdict>, id: string) {
    exists i :: 0 <= i < |vs| && vs[i].alertId == id
  }

  /** The verdicts cover exactly the requested ids. */
  ghost predicate CoversIds(vs: seq<Verdict>, ids: seq<string>) {
    forall id :: About(vs, id) <==> id in ids
  }

  /** `ordered` takes, for each requested id, the verdict about it. */
  ghost predicate Picks(vs: seq<Verdict>, ids: seq<string>, ordered: seq<Verdict>) {
    && |ordered| == |ids|
    && forall i :: 0 <= i < |ids| ==> ordered[i] in vs && ordered[i].alertId == ids[i]
  }

  /** The objects are verdicts about exactly the requested ids; in request order they are `ordered`. */
  ghost predicate Answers(items: seq<Json>, ids: seq<string>, ordered: seq<Verdict>) {
    exists vs :: SayAll(items, vs) && CoversIds(vs, ids) && Picks(vs, ids, ordered)
  }

  ghost predicate FitAll(ordered: seq<Verdict>, alerts: seq<Row>) {
    |alerts| == |ordered| && forall i :: 0 <= i < |ordered| ==> Fits(ordered[i], alerts[i])
  }

  /** The answer in request order, each verdict applying to its alert where the alerts are given. */
  ghost predicate IsAnswer(items: seq<Json>, ids: seq<string>, alerts: Option<seq<Row>>, ordered: seq<Verdict>) {
    Answers(items, ids, ordered) && (alerts.Some? ==> FitAll(ordered, alerts.value))
  }

  /** The verdict applies to the alert: `Applicable`, folded away. */
  ghost predicate Fits(v: Verdict, row: Row) {
    forall w: Verdict :: Look(w) && w == v ==> Applicable(w.principleId, row)
  }

  ghost predicate Acceptable(parsed: Json, batchId: string, ids: seq<string>, alerts: Option<seq<Row>>) {
    Items(parsed, batchId).Some? && exists ordered :: IsAnswer(Items(parsed, batchId).value, ids, alerts, ordered)
  }

  /** The LlmResponseError; or the ValueError for alerts that are not the request's. */
  datatype Validation = Valid(verdicts: seq<Verdict>) | Invalid | Mismatched

  /** The verdicts met so far, by alert id. */
  ghost predicate Collected(byId: map<string, Verdict>, items: seq<Json>, vs: seq<Verdict>) {
    && SayAll(items, vs)
    && (forall id :: id in byId <==> About(vs, id))
    && forall i :: 0 <= i < |vs| ==> vs[i].alertId in byId && byId[vs[i].alertId] == vs[i]
  }

  lemma {:induction false} AboutOneMore(vs: seq<Verdict>, v: Verdict)
    ensures forall id :: About(vs + [v], id) <==> About(vs, id) || id == v.alertId
  {
    var all := vs + [v];
    forall id ensures About(all, id) <==> About(vs, id) || id == v.alertId {
      if i :| 0 <= i < |vs| && vs[i].alertId == id {
        assert all[i].alertId == id;
      }
      if id == v.alertId {
        assert all[|vs|].alertId == id;
      }
    }
  }

  lemma {:induction false} CollectOne(byId: map<string, Verdict>, items: seq<Json>, vs: seq<Verdict>, raw: Json, v: Verdict)
    requires Collected(byId, items, vs) && Says(raw, v) && v.alertId !in byId
    ensures Collected(byId[v.alertId := v], items + [raw], vs + [v])
  {
    AboutOneMore(vs, v);
    forall i | 0 <= i < |vs| ensures vs[i].alertId != v.alertId {
      assert vs[i].alertId in byId;
    }
  }

  /** The first loop: every verdict valid, no id twice. */
  method CollectVerdicts(items: seq<Json>) returns (byId: Option<map<string, Verdict>>, ghost vs: seq<Verdict>)
    ensures byId.Some? ==> Collected(byId.value, items, vs)
    ensures byId.None? ==> forall ws :: !SayAll(items, ws)
  {
    var m: map<string, Verdict> := map[];
    vs := [];
    for i := 0 to |items|
      invariant Collected(m, items[..i], vs)
    {
      var v := ValidateVerdict(items[i]);
      if v.None? {
        return None, vs;
      }
      if v.value.alertId in m {
        Repeated(m, items, vs, i, v.value);
        return None, vs;
      }
      CollectOne(m, items[..i], vs, items[i], v.value);
      assert items[..i + 1] == items[..i] + [items[i]];
      m := m[v.value.alertId := v.value];
      vs := vs + [v.value];
    }
    assert items[..|items|] == items;
    return Some(m), vs;
  }

  lemma {:induction false} Repeated(byId: map<string, Verdict>, items: seq<Json>, vs: seq<Verdict>, i: nat, v: Verdict)
    requires i < |items| && Collected(byId, items[..i], vs) && Says(items[i], v) && v.alertId in byId
    ensures forall ws :: !SayAll(items, ws)
  {
    var k :| 0 <= k < |vs| && vs[k].alertId == v.alertId;
    forall ws ensures !SayAll(items, ws) {
      if |ws| == |items| && Says(items[k], ws[k]) && Says(items[i], ws[i]) {
        assert items[..i][k] == items[k];
        SaysOneThing(items[k], ws[k], vs[k]);
        SaysOneThing(items[i], ws[i], v);
      }
    }
  }

  lemma {:induction false} SayAllUnique(items: seq<Json>, vs: seq<Verdict>, ws: seq<Verdict>)
    requires SayAll(items, vs) && SayAll(items, ws)
    ensures vs == ws
  {
    forall i | 0 <= i < |items| ensures vs[i] == ws[i] {
      SaysOneThing(items[i], vs[i], ws[i]);
    }
  }

  lemma {:induction false} SameVerdict(vs: seq<Verdict>, v: Verdict, w: Verdict)
    requires v in vs && w in vs && v.alertId == w.alertId
    requires forall i, j :: 0 <= i < j < |vs| ==> vs[i].alertId != vs[j].alertId
    ensures v == w
  {
  }

  lemma {:induction false} PicksUnique(vs: seq<Verdict>, items: seq<Json>, ids: seq<string>, a: seq<Verdict>, b: seq<Verdict>)
    requires SayAll(items, vs) && Picks(vs, ids, a) && Picks(vs, ids, b)
    ensures a == b
  {
    forall i | 0 <= i < |ids| ensures a[i] == b[i] {
      assert a[i].alertId == ids[i] && b[i].alertId == ids[i];
      SameVerdict(vs, a[i], b[i]);
    }
  }

  /** One response admits at most one answer. */
  lemma {:induction false} AnswerUnique(items: seq<Json>, ids: seq<string>, a: seq<Verdict>, b: seq<Verdict>)
    requires Answers(items, ids, a) && Answers(items, ids, b)
    ensures a == b
  {
    var vs: seq<Verdict> :| SayAll(items, vs) && CoversIds(vs, ids) && Picks(vs, ids, a);
    var ws: seq<Verdict> :| SayAll(items, ws) && CoversIds(ws, ids) && Picks(ws, ids, b);
    SayAllUnique(items, vs, ws);
    PicksUnique(vs, items, ids, a, b);
  }

  /** `validate_response`: the verdicts in request order, or how it raises. */
  method ValidateResponse(parsed: Json, batchId: string, ids: seq<string>, alerts: Option<seq<Row>>) returns (result: Validation)
    ensures result.Valid? <==> Acceptable(parsed, batchId, ids, alerts)
    ensures result.Valid? ==> IsAnswer(Items(parsed, batchId).value, ids, alerts, result.verdicts)
    ensures result.Mismatched? <==>
      && alerts.Some? && |alerts.value| != |ids|
      && Items(parsed, batchId).Some? && exists ordered :: Answers(Items(parsed, batchId).value, ids, ordered)
  {
    var items := Items(parsed, batchId);
    if items.None? {
      return Invalid;
    }
    ghost var vs;
    var byId;
    byId, vs := CollectVerdicts(items.value);
    if byId.None? {
      return Invalid;
    }
    var covered := CheckCoverage(byId.value, ids, vs, items.value);
    if !covered {
      NotCovered(items.value, ids, vs);
      return Invalid;
    }
    var ordered := Order(byId.value, ids, vs, items.value);
    forall other | Answers(items.value, ids, other) ensures other == ordered {
      AnswerUnique(items.value, ids, other, ordered);
    }
    if alerts.Some? {
      if |alerts.value| != |ids| {
        return Mismatched;
      }
      var applicable := CheckApplicability(ordered, alerts.value);
      if !applicable {
        return Invalid;
      }
    }
    assert IsAnswer(items.value, ids, alerts, ordered);
    return Valid(ordered);
  }

  lemma {:induction false} NotCovered(items: seq<Json>, ids: seq<string>, vs: seq<Verdict>)
    requires SayAll(items, vs) && !CoversIds(vs, ids)
    ensures forall a :: !Answers(items, ids, a)
  {
    forall a ensures !Answers(items, ids, a) {
      if Answers(items, ids, a) {
        var ws: seq<Verdict> :| SayAll(items, ws) && CoversIds(ws, ids) && Picks(ws, ids, a);
        SayAllUnique(items, vs, ws);
      }
    }
  }

  /** No verdict for an unknown alert, none missing. */
  method CheckCoverage(byId: map<string, Verdict>, ids: seq<string>, ghost vs: seq<Verdict>, ghost items: seq<Json>)
      returns (ok: bool)
    requires Collected(byId, items, vs)
    ensures ok <==> CoversIds(vs, ids)
  {
    var expected := set i | 0 <= i < |ids| :: ids[i];
    var unknown := byId.Keys - expected;
    var missing := expected - byId.Keys;
    if unknown != {} {
      UnknownId(byId, ids, vs, items);
      return false;
    }
    if missing != {} {
      MissingId(byId, ids, vs, items);
      return false;
    }
    forall id ensures About(vs, id) <==> id in ids {
      assert id in byId.Keys <==> About(vs, id);
      assert id !in unknown && id !in missing;
      assert id in expected <==> id in ids;
    }
    return true;
  }

  lemma {:induction false} UnknownId(byId: map<string, Verdict>, ids: seq<string>, vs: seq<Verdict>, items: seq<Json>)
    requires Collected(byId, items, vs) && byId.Keys - (set i | 0 <= i < |ids| :: ids[i]) != {}
    ensures !CoversIds(vs, ids)
  {
    var id :| id in byId.Keys - set i | 0 <= i < |ids| :: ids[i];
    assert About(vs, id) && id !in ids;
  }

  lemma {:induction false} MissingId(byId: map<string, Verdict>, ids: seq<string>, vs: seq<Verdict>, items: seq<Json>)
    requires Collected(byId, items, vs) && (set i | 0 <= i < |ids| :: ids[i]) - byId.Keys != {}
    ensures !CoversIds(vs, ids)
  {
    var id :| id in (set i | 0 <= i < |ids| :: ids[i]) - byId.Keys;
    assert !About(vs, id) && id in ids;
  }

  /** Request order. */
  method Order(byId: map<string, Verdict>, ids: seq<string>, ghost vs: seq<Verdict>, ghost items: seq<Json>)
      returns (ordered: seq<Verdict>)
    requires Collected(byId, items, vs) && CoversIds(vs, ids)
    ensures Answers(items, ids, ordered) && |ordered| == |ids|
  {
    ordered := [];
    for i := 0 to |ids|
      invariant |ordered| == i
      invariant forall j :: 0 <= j < i ==> ordered[j] in vs && ordered[j].alertId == ids[j]
    {
      assert ids[i] in ids && About(vs, ids[i]);
      ordered := ordered + [byId[ids[i]]];
    }
    assert Picks(vs, ids, ordered);
  }

  /** Each verdict against its alert. */
  method CheckApplicability(ordered: seq<Verdict>, alerts: seq<Row>) returns (ok: bool)
    requires |alerts| == |ordered|
    ensures ok <==> FitAll(ordered, alerts)
  {
    for i := 0 to |ordered|
      invariant forall j :: 0 <= j < i ==> Fits(ordered[j], alerts[j])
    {
      assert Look(ordered[i]);
      if !Applicable(ordered[i].principleId, alerts[i]) {
        return false;
      }
    }
    return true;
  }

  // ----- the order of the verdicts does not matter

  ghost function Said(raw: Json): Verdict
    requires exists v :: Says(raw, v)
  {
    var v :| Says(raw, v);
    v
  }

  lemma {:induction false} SaidByMember(items: seq<Json>, vs: seq<Verdict>, raw: Json) returns (k: nat)
    requires SayAll(items, vs) && raw in items
    ensures k < |items| && items[k] == raw && Says(raw, vs[k])
  {
    k :| 0 <= k < |items| && items[k] == raw;
  }

  lemma {:induction false} ItemsDistinct(items: seq<Json>, vs: seq<Verdict>)
    requires SayAll(items, vs)
    ensures NoDuplicates(items)
  {
    forall i, j | 0 <= i < j < |items| ensures items[i] != items[j] {
      if items[i] == items[j] {
        SaysOneThing(items[i], vs[i], vs[j]);
      }
    }
  }

  /** The verdicts of a permuted response are a permutation of the verdicts. */
  lemma {:induction false} PermutedSayAll(items: seq<Json>, other: seq<Json>, vs: seq<Verdict>) returns (ws: seq<Verdict>)
    requires multiset(items) == multiset(other) && SayAll(items, vs)
    ensures SayAll(other, ws) && forall v :: v in ws <==> v in vs
  {
    SameElements(items, other);
    ItemsDistinct(items, vs);
    DistinctPermutation(items, other);
    forall i | 0 <= i < |other| ensures exists v :: Says(other[i], v) && v in vs {
      assert other[i] in items;
      var k := SaidByMember(items, vs, other[i]);
      assert vs[k] in vs;
    }
    ws := seq(|other|, i requires 0 <= i < |other| => Said(other[i]));
    forall i | 0 <= i < |other| ensures Says(other[i], ws[i]) && exists k :: 0 <= k < |items| && items[k] == other[i] && vs[k] == ws[i] {
      assert other[i] in items;
      var k := SaidByMember(items, vs, other[i]);
      SaysOneThing(other[i], ws[i], vs[k]);
    }
    forall i, j | 0 <= i < j < |ws| ensures ws[i].alertId != ws[j].alertId {
      var k :| 0 <= k < |items| && items[k] == other[i] && vs[k] == ws[i];
      var l :| 0 <= l < |items| && items[l] == other[j] && vs[l] == ws[j];
      assert k != l;
    }
    forall v | v in vs ensures v in ws {
      var k :| 0 <= k < |vs| && vs[k] == v;
      assert items[k] in other;
      var i :| 0 <= i < |other| && other[i] == items[k];
      SaysOneThing(items[k], ws[i], vs[k]);
      assert ws[i] == v;
    }
  }

  lemma {:induction false} SameAbout(vs: seq<Verdict>, ws: seq<Verdict>, id: string)
    requires forall v :: v in ws <==> v in vs
    ensures About(vs, id) ==> About(ws, id)
  {
    if k :| 0 <= k < |vs| && vs[k].alertId == id {
      assert vs[k] in ws;
    }
  }

  lemma {:induction false} PermutedAnswer(items: seq<Json>, other: seq<Json>, ids: seq<string>, a: seq<Verdict>)
    requires multiset(items) == multiset(other) && Answers(items, ids, a)
    ensures Answers(other, ids, a)
  {
    var vs: seq<Verdict> :| SayAll(items, vs) && CoversIds(vs, ids) && Picks(vs, ids, a);
    var ws: seq<Verdict> := PermutedSayAll(items, other, vs);
    forall id ensures About(ws, id) <==> About(vs, id) {
      SameAbout(vs, ws, id);
      SameAbout(ws, vs, id);
    }
    assert Picks(ws, ids, a);
  }

  /** Neither acceptance nor the answer depends on the order of the verdicts in the response. */
  lemma {:induction false} VerdictOrderIrrelevant(items: seq<Json>, other: seq<Json>, ids: seq<string>, alerts: Option<seq<Row>>, a: seq<Verdict>)
    requires multiset(items) == multiset(other)
    ensures IsAnswer(items, ids, alerts, a) <==> IsAnswer(other, ids, alerts, a)
  {
    if Answers(items, ids, a) {
      PermutedAnswer(items, other, ids, a);
    }
    if Answers(other, ids, a) {
      PermutedAnswer(other, items, ids, a);
    }
  }

  /** What an accepted answer says of every alert: a verdict about that very alert, and a closed pairing. */
  lemma {:induction false} AnswerBindsAlerts(items: seq<Json>, ids: seq<string>, alerts: Option<seq<Row>>, a: seq<Verdict>, i: nat)
    requires IsAnswer(items, ids, alerts, a) && i < |ids|
    ensures |a| == |ids| && a[i].alertId == ids[i]
    ensures exists k :: 0 <= k < |items| && Says(items[k], a[i])
    ensures PairingAllowed(a[i].assessment, a[i].principleId)
    ensures alerts.Some? ==> |alerts.value| == |ids| && Applicable(a[i].principleId, alerts.value[i])
  {
    assert Look(a[i]);
    var vs: seq<Verdict> :| SayAll(items, vs) && CoversIds(vs, ids) && Picks(vs, ids, a);
    var k :| 0 <= k < |vs| && vs[k] == a[i];
    assert Says(items[k], a[i]) && Look(items[k]);
  }

  /** `state_for_verdict`. */
  function StateFor(v: Verdict): Quality.State {
    match v.assessment
    case NoViolation => AssessedGood
    case OtherViolation => NeedsReview
    case CatalogViolation => if v.confidence == High then LlmFlagged else NeedsReview
  }
}
