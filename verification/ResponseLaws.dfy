/** Responses as the model writes them, and what becomes of them (`src/llm/response.py:50-162`). */
module ResponseLaws {
  import opened Text
  import opened Hashing
  import opened Normalize
  import opened Request
  import opened Response

  /** A verdict object as it stands in a response. */
  datatype Written = Written(alertId: string, assessment: string, principleId: string, confidence: string, justification: string)

  function Fields(w: Written): Document {
    [("alert_id", Str(w.alertId)), ("assessment", Str(w.assessment)), ("principle_id", Str(w.principleId)),
     ("confidence", Str(w.confidence)), ("justification", Str(w.justification))]
  }

  function ResponseTo(batchId: string, items: seq<Json>): Json {
    Obj([("batch_id", Str(batchId)), ("verdicts", Arr(items))])
  }

  // ----- the contract, in the words of the response

  predicate Assesses(text: string, a: Assessment) {
    match a
    case NoViolation => text == "no_violation"
    case CatalogViolation => text == "catalog_violation"
    case OtherViolation => text == "other"
  }

  predicate Trusts(text: string, c: Confidence) {
    match c
    case High => text == "high"
    case Medium => text == "medium"
    case Low => text == "low"
  }

  /** R1 to R10 and P1 to P11. */
  predicate InCatalogue(id: string) {
    id in {"R1", "R2", "R3", "R4", "R5", "R6", "R7", "R8", "R9", "R10",
           "P1", "P2", "P3", "P4", "P5", "P6", "P7", "P8", "P9", "P10", "P11"}
  }

  ghost predicate Proper(w: Written) {
    && w.alertId != ""
    && (exists a :: Assesses(w.assessment, a)) && (exists c :: Trusts(w.confidence, c))
    && (w.assessment == "no_violation" ==> w.principleId == "NONE")
    && (w.assessment == "other" ==> w.principleId == "OTHER")
    && (w.assessment == "catalog_violation" ==> InCatalogue(w.principleId))
    && (exists i :: 0 <= i < |w.justification| && !IsSpace(w.justification[i])) && |w.justification| <= 1000
  }

  predicate IsVerdictOf(v: Verdict, w: Written) {
    && v.alertId == w.alertId && Assesses(w.assessment, v.assessment) && v.principleId == w.principleId
    && Trusts(w.confidence, v.confidence) && v.justification == w.justification
  }

  /** Some principles apply to one schema, severity or provider only. */
  predicate Applies(principle: string, row: Row) {
    && (principle in {"P7", "P8", "P9", "R8", "R9", "R10"} ==> row.schema == V2)
    && (principle == "P7" ==> row.severity == Some("critical"))
    && (principle == "R7" ==> row.schema == V1)
    && (principle == "R4" ==> row.provider.Some? && IsGrafana(TrimRight(TrimLeft(row.provider.value))))
  }

  /** "grafana", in letters of either case. */
  predicate IsGrafana(s: string) {
    |s| == 7 && forall i :: 0 <= i < 7 ==> s[i] == "grafana"[i] || s[i] == "GRAFANA"[i]
  }

  // ----- one verdict

  lemma {:induction false} FieldKeys(w: Written)
    ensures DistinctKeys(Fields(w)) && HasExactly(Fields(w), VERDICT_KEYS)
  {
    var doc := Fields(w);
    assert doc[0].0 == VERDICT_KEYS[0] && doc[1].0 == VERDICT_KEYS[1] && doc[2].0 == VERDICT_KEYS[2] && doc[3].0 == VERDICT_KEYS[3]
      && doc[4].0 == VERDICT_KEYS[4];
    assert |"alert_id"| == 8 && |"assessment"| == 10 && |"principle_id"| == 12 && |"confidence"| == 10 && |"justification"| == 13;
    assert "assessment"[0] != "confidence"[0];
  }

  lemma {:induction false} StringRead(doc: Document, k: nat, key: string, s: string)
    requires DistinctKeys(doc) && k < |doc| && doc[k] == (key, Str(s))
    ensures StringAt(Obj(doc), key) == Some(s)
  {
    LookupIsUnique(doc, doc[k]);
  }

  lemma {:induction false} FieldsRead(w: Written)
    ensures HasExactly(Fields(w), VERDICT_KEYS)
    ensures StringAt(Obj(Fields(w)), "alert_id") == Some(w.alertId)
    ensures StringAt(Obj(Fields(w)), "assessment") == Some(w.assessment)
    ensures StringAt(Obj(Fields(w)), "principle_id") == Some(w.principleId)
    ensures StringAt(Obj(Fields(w)), "confidence") == Some(w.confidence)
    ensures StringAt(Obj(Fields(w)), "justification") == Some(w.justification)
  {
    var doc := Fields(w);
    FieldKeys(w);
    StringRead(doc, 0, "alert_id", w.alertId);
    StringRead(doc, 1, "assessment", w.assessment);
    StringRead(doc, 2, "principle_id", w.principleId);
    StringRead(doc, 3, "confidence", w.confidence);
    StringRead(doc, 4, "justification", w.justification);
  }

  lemma {:induction false} NamesRead(s: string)
    ensures forall a :: AssessmentOf(s) == Some(a) <==> Assesses(s, a)
    ensures forall c :: ConfidenceOf(s) == Some(c) <==> Trusts(s, c)
  {
  }

  lemma {:induction false} PairingRead(s: string, a: Assessment, principle: string)
    requires Assesses(s, a)
    ensures PairingAllowed(a, principle) <==>
      && (s == "no_violation" ==> principle == "NONE")
      && (s == "other" ==> principle == "OTHER")
      && (s == "catalog_violation" ==> InCatalogue(principle))
  {
  }

  /** A written verdict says exactly what is written, and only where it is proper. */
  lemma {:induction false} WrittenSays(w: Written, v: Verdict)
    ensures Says(Obj(Fields(w)), v) <==> Proper(w) && IsVerdictOf(v, w)
  {
    var raw := Obj(Fields(w));
    assert Look(raw);
    FieldsRead(w);
    NamesRead(w.assessment);
    NamesRead(w.confidence);
    if Assesses(w.assessment, v.assessment) {
      PairingRead(w.assessment, v.assessment, w.principleId);
    }
    assert Says(raw, v) <==> Reads(raw, v);
  }

  /** An object with any other key says nothing. */
  lemma {:induction false} OtherKeysRefused(raw: Json, key: string, v: Verdict)
    requires raw.Obj? && HasKey(raw.fields, key)
    requires key !in {"alert_id", "assessment", "principle_id", "confidence", "justification"}
    ensures !Says(raw, v)
  {
    assert Look(raw);
    var i :| 0 <= i < |raw.fields| && raw.fields[i].0 == key;
  }

  // ----- applicability

  lemma {:induction false} LowerAt(s: string)
    ensures |Lower(s)| == |s|
    ensures forall i :: 0 <= i < |s| ==> Lower(s)[i] == if 'A' <= s[i] <= 'Z' then (s[i] as int + 32) as char else s[i]
  {
    if s != [] {
      LowerAt(s[1..]);
      forall i | 0 <= i < |s| ensures Lower(s)[i] == if 'A' <= s[i] <= 'Z' then (s[i] as int + 32) as char else s[i] {
        if i > 0 {
          assert s[i] == s[1..][i - 1] && Lower(s)[i] == Lower(s[1..])[i - 1];
        }
      }
    }
  }

  lemma {:induction false} GrafanaMeans(s: string)
    ensures Lower(s) == "grafana" <==> IsGrafana(s)
  {
    LowerAt(s);
    if |s| == 7 {
      forall i | 0 <= i < 7 ensures Lower(s)[i] == "grafana"[i] <==> s[i] == "grafana"[i] || s[i] == "GRAFANA"[i] {
        assert "GRAFANA"[i] as int + 32 == "grafana"[i] as int;
      }
      assert Lower(s) == "grafana" <==> forall i :: 0 <= i < 7 ==> Lower(s)[i] == "grafana"[i];
    }
  }

  lemma {:induction false} ApplicableMeans(principle: string, row: Row)
    ensures Applicable(principle, row) <==> Applies(principle, row)
  {
    GrafanaMeans(TrimRight(TrimLeft(OrEmpty(row.provider))));
    assert "R4" != "P7" && "R7" != "R4";
  }

  // ----- the whole response

  /** The written verdicts are proper, one for each requested alert and for no other. */
  ghost predicate Complies(ws: seq<Written>, ids: seq<string>) {
    && (forall i :: 0 <= i < |ws| ==> Proper(ws[i]))
    && (forall i, j :: 0 <= i < j < |ws| ==> ws[i].alertId != ws[j].alertId)
    && (forall i :: 0 <= i < |ws| ==> ws[i].alertId in ids)
    && (forall id :: id in ids ==> exists i :: 0 <= i < |ws| && ws[i].alertId == id)
  }

  function Objects(ws: seq<Written>): (items: seq<Json>)
    ensures |items| == |ws| && forall i :: 0 <= i < |ws| ==> items[i] == Obj(Fields(ws[i]))
  {
    seq(|ws|, i requires 0 <= i < |ws| => Obj(Fields(ws[i])))
  }

  ghost predicate IsWritten(ws: seq<Written>, v: Verdict) {
    exists k :: 0 <= k < |ws| && IsVerdictOf(v, ws[k])
  }

  /** Each requested alert has the verdict written about it. */
  ghost predicate InRequestOrder(ws: seq<Written>, ids: seq<string>, ordered: seq<Verdict>) {
    && |ordered| == |ids|
    && forall i :: 0 <= i < |ids| ==> ordered[i].alertId == ids[i] && IsWritten(ws, ordered[i])
  }

  lemma {:induction false} ItemsRead(batchId: string, answered: string, items: seq<Json>)
    ensures Items(ResponseTo(answered, items), batchId) == if answered == batchId then Some(items) else None
  {
    var doc: Document := [("batch_id", Str(answered)), ("verdicts", Arr(items))];
    assert doc[0].0 == "batch_id" && doc[1].0 == "verdicts";
    assert |["batch_id", "verdicts"]| == 2 && "batch_id"[0] != "verdicts"[0];
    LookupIsUnique(doc, doc[0]);
    LookupIsUnique(doc, doc[1]);
  }

  /** A response with any other key has no verdicts. */
  lemma {:induction false} OtherTopLevelKeysRefused(parsed: Json, batchId: string, key: string)
    requires parsed.Obj? && HasKey(parsed.fields, key) && key !in {"batch_id", "verdicts"}
    ensures Items(parsed, batchId) == None
  {
    var i :| 0 <= i < |parsed.fields| && parsed.fields[i].0 == key;
    assert parsed.fields[i].0 !in ["batch_id", "verdicts"];
  }

  ghost function Meant(w: Written): (v: Verdict)
    requires Proper(w)
    ensures IsVerdictOf(v, w)
  {
    var a :| Assesses(w.assessment, a);
    var c :| Trusts(w.confidence, c);
    Verdict(w.alertId, a, w.principleId, c, w.justification)
  }

  lemma {:induction false} OneMeaning(w: Written, u: Verdict, v: Verdict)
    requires IsVerdictOf(u, w) && IsVerdictOf(v, w)
    ensures u == v
  {
  }

  lemma {:induction false} SaidWhatIsWritten(ws: seq<Written>, ids: seq<string>, vs: seq<Verdict>)
    requires SayAll(Objects(ws), vs) && CoversIds(vs, ids)
    ensures Complies(ws, ids) && forall i :: 0 <= i < |ws| ==> IsVerdictOf(vs[i], ws[i])
  {
    forall i | 0 <= i < |ws| ensures Proper(ws[i]) && IsVerdictOf(vs[i], ws[i]) {
      assert Says(Objects(ws)[i], vs[i]);
      WrittenSays(ws[i], vs[i]);
    }
    forall i | 0 <= i < |ws| ensures ws[i].alertId in ids {
      assert About(vs, ws[i].alertId);
    }
    forall id | id in ids ensures exists i :: 0 <= i < |ws| && ws[i].alertId == id {
      assert About(vs, id);
      var i :| 0 <= i < |vs| && vs[i].alertId == id;
      assert ws[i].alertId == id;
    }
  }

  lemma {:induction false} WrittenIsSaid(ws: seq<Written>, ids: seq<string>) returns (vs: seq<Verdict>)
    requires Complies(ws, ids)
    ensures SayAll(Objects(ws), vs) && CoversIds(vs, ids) && forall i :: 0 <= i < |ws| ==> IsVerdictOf(vs[i], ws[i])
  {
    vs := seq(|ws|, i requires 0 <= i < |ws| => Meant(ws[i]));
    forall i | 0 <= i < |ws| ensures Says(Objects(ws)[i], vs[i]) {
      WrittenSays(ws[i], vs[i]);
    }
    forall id ensures About(vs, id) <==> id in ids {
      if id in ids {
        var i :| 0 <= i < |ws| && ws[i].alertId == id;
        assert vs[i].alertId == id;
      }
    }
  }

  lemma {:induction false} AnswerSource(ws: seq<Written>, ids: seq<string>, ordered: seq<Verdict>) returns (vs: seq<Verdict>)
    requires Answers(Objects(ws), ids, ordered)
    ensures Complies(ws, ids) && Picks(vs, ids, ordered)
    ensures |vs| == |ws| && forall i :: 0 <= i < |ws| ==> IsVerdictOf(vs[i], ws[i])
  {
    vs :| SayAll(Objects(ws), vs) && CoversIds(vs, ids) && Picks(vs, ids, ordered);
    SaidWhatIsWritten(ws, ids, vs);
  }

  lemma {:induction false} PicksWritten(ws: seq<Written>, ids: seq<string>, vs: seq<Verdict>, ordered: seq<Verdict>)
    requires |vs| == |ws| && forall i :: 0 <= i < |ws| ==> IsVerdictOf(vs[i], ws[i])
    requires Picks(vs, ids, ordered)
    ensures InRequestOrder(ws, ids, ordered)
  {
    forall i | 0 <= i < |ids| ensures IsWritten(ws, ordered[i]) {
      assert ordered[i] in vs;
      var k :| 0 <= k < |vs| && vs[k] == ordered[i];
      assert IsVerdictOf(ordered[i], ws[k]);
    }
  }

  lemma {:induction false} WrittenPicks(ws: seq<Written>, ids: seq<string>, vs: seq<Verdict>, ordered: seq<Verdict>)
    requires |vs| == |ws| && forall i :: 0 <= i < |ws| ==> IsVerdictOf(vs[i], ws[i])
    requires InRequestOrder(ws, ids, ordered)
    ensures Picks(vs, ids, ordered)
  {
    forall i | 0 <= i < |ids| ensures ordered[i] in vs {
      var k :| 0 <= k < |ws| && IsVerdictOf(ordered[i], ws[k]);
      OneMeaning(ws[k], ordered[i], vs[k]);
    }
  }

  /** A response is an answer exactly when it complies, and the answer is what is written, in request order. */
  lemma {:induction false} AnswersWhatIsWritten(ws: seq<Written>, ids: seq<string>, ordered: seq<Verdict>)
    ensures Answers(Objects(ws), ids, ordered) <==> Complies(ws, ids) && InRequestOrder(ws, ids, ordered)
  {
    if Answers(Objects(ws), ids, ordered) {
      var vs := AnswerSource(ws, ids, ordered);
      PicksWritten(ws, ids, vs, ordered);
    }
    if Complies(ws, ids) && InRequestOrder(ws, ids, ordered) {
      var vs := WrittenIsSaid(ws, ids);
      WrittenPicks(ws, ids, vs, ordered);
    }
  }

  /**
   What a response with these verdicts to this batch is taken for: an answer exactly when the batch
   is the one asked about, the verdicts comply, and each applies to its alert where the alerts are
   given; the verdicts are then the written ones, in request order.
   */
  lemma {:induction false} ResponseMeans(batchId: string, answered: string, ws: seq<Written>, ids: seq<string>, alerts: Option<seq<Row>>)
    ensures Acceptable(ResponseTo(answered, Objects(ws)), batchId, ids, alerts) <==>
      && answered == batchId
      && exists ordered :: IsWrittenAnswer(ws, ids, alerts, ordered)
    ensures forall ordered :: IsAnswer(Objects(ws), ids, alerts, ordered) <==> IsWrittenAnswer(ws, ids, alerts, ordered)
  {
    ItemsRead(batchId, answered, Objects(ws));
    forall ordered ensures IsAnswer(Objects(ws), ids, alerts, ordered) <==> IsWrittenAnswer(ws, ids, alerts, ordered) {
      AnswersWhatIsWritten(ws, ids, ordered);
      if alerts.Some? {
        FitAllMeans(ordered, alerts.value);
      }
    }
  }

  ghost predicate IsWrittenAnswer(ws: seq<Written>, ids: seq<string>, alerts: Option<seq<Row>>, ordered: seq<Verdict>) {
    && Complies(ws, ids) && InRequestOrder(ws, ids, ordered)
    && (alerts.Some? ==>
          |alerts.value| == |ordered| && forall i :: 0 <= i < |ordered| ==> Applies(ordered[i].principleId, alerts.value[i]))
  }

  lemma {:induction false} FitAllMeans(ordered: seq<Verdict>, alerts: seq<Row>)
    ensures FitAll(ordered, alerts) <==>
      |alerts| == |ordered| && forall i :: 0 <= i < |ordered| ==> Applies(ordered[i].principleId, alerts[i])
  {
    if |alerts| == |ordered| {
      forall i | 0 <= i < |ordered| ensures Fits(ordered[i], alerts[i]) <==> Applies(ordered[i].principleId, alerts[i]) {
        assert Look(ordered[i]);
        ApplicableMeans(ordered[i].principleId, alerts[i]);
      }
    }
  }
}
