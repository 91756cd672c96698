/** The factored request: shared fields sent once, the rest per alert, nothing lost (`src/llm/request.py`). */
module Request {
  import opened Text
  import opened Sorting
  import opened Hashing
  import opened Normalize
  import opened Grouping
  import Batching

  /** A document is a mapping; its fields are kept in insertion order. */
  type Document = seq<Field>

  function Lookup(doc: Document, key: string): (v: Option<Json>)
    ensures v.Some? <==> HasKey(doc, key)
    ensures v.Some? ==> (key, v.value) in doc
  {
    if doc == [] then None
    else if doc[0].0 == key then assert doc[0] == (key, doc[0].1); Some(doc[0].1)
    else
      var rest := Lookup(doc[1..], key);
      assert HasKey(doc, key) <==> HasKey(doc[1..], key) by {
        if i :| 0 <= i < |doc| && doc[i].0 == key { assert doc[1..][i - 1].0 == key; }
        if i :| 0 <= i < |doc[1..]| && doc[1..][i].0 == key { assert doc[i + 1].0 == key; }
      }
      rest
  }

  lemma {:induction false} LookupIsUnique(doc: Document, f: Field)
    requires DistinctKeys(doc) && f in doc
    ensures Lookup(doc, f.0) == Some(f.1)
  {
    var i :| 0 <= i < |doc| && doc[i] == f;
    assert HasKey(doc, f.0);
    var v := Lookup(doc, f.0).value;
    var j :| 0 <= j < |doc| && doc[j] == (f.0, v);
    assert i == j;
  }

  /** The encoding of one field, if the document has it and it can be encoded. */
  function Encoded(doc: Document, key: string): Option<string> {
    match Lookup(doc, key) case None => None case Some(v) => CanonicalEncode(v)
  }

  /** Every document has the field, with one and the same encoding. */
  predicate SharedBy(docs: seq<Document>, key: string) {
    docs != [] && Encoded(docs[0], key).Some? && forall i :: 0 <= i < |docs| ==> Encoded(docs[i], key) == Encoded(docs[0], key)
  }

  predicate AllEncodable(docs: seq<Document>) {
    forall i :: 0 <= i < |docs| ==> Encodable(Obj(docs[i]))
  }

  lemma {:induction false} FieldEncodable(doc: Document, key: string)
    requires Encodable(Obj(doc)) && HasKey(doc, key)
    ensures Encoded(doc, key).Some?
  {
    var v := Lookup(doc, key).value;
    var i :| 0 <= i < |doc| && doc[i] == (key, v);
    assert Encodable(doc[i].1);
  }

  /** `shared_field_names`: None where an encoding raises TypeError on the way. */
  method SharedFieldNames(docs: seq<Document>) returns (shared: Option<set<string>>)
    ensures AllEncodable(docs) ==> shared.Some?
    ensures shared.Some? ==> forall key :: key in shared.value <==> SharedBy(docs, key)
  {
    if docs == [] {
      return Some({});
    }
    var names: set<string> := {};
    for i := 0 to |docs[0]|
      invariant forall key :: key in names <==> SharedBy(docs, key) && HasKey(docs[0][..i], key)
    {
      var key := docs[0][i].0;
      assert HasKey(docs[0], key);
      var same := IsShared(docs, key);
      if same.None? {
        return None;
      }
      if same.value {
        names := names + {key};
      }
      HasKeyNext(docs[0], i);
    }
    assert docs[0][..|docs[0]|] == docs[0];
    return Some(names);
  }

  lemma {:induction false} HasKeyNext(doc: Document, i: nat)
    requires i < |doc|
    ensures forall key :: HasKey(doc[..i + 1], key) <==> HasKey(doc[..i], key) || key == doc[i].0
  {
    forall key ensures HasKey(doc[..i + 1], key) <==> HasKey(doc[..i], key) || key == doc[i].0 {
      if HasKey(doc[..i], key) {
        var j :| 0 <= j < |doc[..i]| && doc[..i][j].0 == key;
        assert doc[..i + 1][j].0 == key;
      }
      if key == doc[i].0 {
        assert doc[..i + 1][i].0 == key;
      }
      if HasKey(doc[..i + 1], key) {
        var j :| 0 <= j < |doc[..i + 1]| && doc[..i + 1][j].0 == key;
        assert j < i ==> doc[..i][j].0 == key;
      }
    }
  }

  /** The inner test, stopping at the first document that differs. */
  method IsShared(docs: seq<Document>, key: string) returns (same: Option<bool>)
    requires docs != [] && HasKey(docs[0], key)
    ensures AllEncodable(docs) ==> same.Some?
    ensures same.Some? ==> (same.value <==> SharedBy(docs, key))
  {
    if Encodable(Obj(docs[0])) {
      FieldEncodable(docs[0], key);
    }
    var encoded := Encoded(docs[0], key);
    if encoded.None? {
      return None;
    }
    for i := 1 to |docs|
      invariant forall j :: 0 <= j < i ==> Encoded(docs[j], key) == encoded
    {
      if Lookup(docs[i], key).None? {
        return Some(false);
      }
      if Encodable(Obj(docs[i])) {
        FieldEncodable(docs[i], key);
      }
      if Encoded(docs[i], key).None? {
        return None;
      }
      if Encoded(docs[i], key) != encoded {
        return Some(false);
      }
    }
    return Some(true);
  }

  // ----- the request

  predicate FieldOrder(f: Field, g: Field) {
    !Less(g.0, f.0)
  }

  /** The fields of a document whose key is, or is not, in a set. */
  function Pick(doc: Document, keys: set<string>, kept: bool): Document {
    if doc == [] then []
    else
      var n := |doc| - 1;
      if (doc[n].0 in keys) == kept then Pick(doc[..n], keys, kept) + [doc[n]] else Pick(doc[..n], keys, kept)
  }

  lemma {:induction false} PickExact(doc: Document, keys: set<string>, kept: bool)
    ensures forall f :: f in Pick(doc, keys, kept) <==> f in doc && ((f.0 in keys) == kept)
    ensures DistinctKeys(doc) ==> DistinctKeys(Pick(doc, keys, kept))
  {
    if doc != [] {
      var n := |doc| - 1;
      PickExact(doc[..n], keys, kept);
      assert doc == doc[..n] + [doc[n]];
      var init, p := Pick(doc[..n], keys, kept), Pick(doc, keys, kept);
      if DistinctKeys(doc) {
        forall i | 0 <= i < |init| ensures init[i].0 != doc[n].0 {
          assert init[i] in init;
          assert init[i] in doc[..n];
        }
      }
    }
  }

  datatype RequestAlert = RequestAlert(alertId: string, schema: Schema, fields: Document)

  datatype LlmRequest = LlmRequest(
    batchId: string,
    group: Key,
    rulesetVersion: string,
    promptVersion: string,
    sharedFields: Document,
    alerts: seq<RequestAlert>)

  /** Every alert's source is a mapping, and has an id beside it. */
  ghost predicate HasDocuments(b: Batch) {
    && |b.alertIds| == |b.alerts|
    && forall i :: 0 <= i < |b.alerts| ==> b.alerts[i].source.Obj? && IsJson(b.alerts[i].source)
  }

  function Sources(b: Batch): (docs: seq<Document>)
    requires forall i :: 0 <= i < |b.alerts| ==> b.alerts[i].source.Obj?
    ensures |docs| == |b.alerts| && forall i :: 0 <= i < |docs| ==> docs[i] == b.alerts[i].source.fields
  {
    seq(|b.alerts|, i requires 0 <= i < |b.alerts| => b.alerts[i].source.fields)
  }

  /** The request for given shared keys: the header from the first document, the rows from their own. */
  function Factored(b: Batch, rulesetVersion: string, promptVersion: string, shared: set<string>): LlmRequest
    requires |b.alertIds| == |b.alerts| && forall i :: 0 <= i < |b.alerts| ==> b.alerts[i].source.Obj?
  {
    var docs := Sources(b);
    LlmRequest(b.batchId, b.group, rulesetVersion, promptVersion,
      if docs == [] then [] else Sort(Pick(docs[0], shared, true), FieldOrder),
      seq(|b.alerts|, i requires 0 <= i < |b.alerts| =>
        RequestAlert(b.alertIds[i], b.alerts[i].schema, Sort(Pick(docs[i], shared, false), FieldOrder))))
  }

  method BuildRequest(b: Batch, rulesetVersion: string, promptVersion: string) returns (request: Option<LlmRequest>)
    requires HasDocuments(b)
    ensures AllEncodable(Sources(b)) ==> request.Some?
    ensures request.Some? ==> exists shared :: IsSharedSet(Sources(b), shared)
                                && request.value == Factored(b, rulesetVersion, promptVersion, shared)
    ensures request.Some? ==> IsRequest(b, rulesetVersion, promptVersion, request.value)
    ensures AllEncodable(Sources(b)) ==> forall i :: 0 <= i < |b.alerts| ==> RebuildsAt(request.value, b, i)
  {
    var shared := SharedFieldNames(Sources(b));
    if shared.None? {
      return None;
    }
    assert IsSharedSet(Sources(b), shared.value);
    FactoredIsRequest(b, rulesetVersion, promptVersion, shared.value);
    if AllEncodable(Sources(b)) {
      forall i | 0 <= i < |b.alerts| ensures RebuildsAt(Factored(b, rulesetVersion, promptVersion, shared.value), b, i) {
        FactoringIsLossless(b, rulesetVersion, promptVersion, shared.value, i);
      }
    }
    return Some(Factored(b, rulesetVersion, promptVersion, shared.value));
  }

  /** Every document has the key, with one and the same encoding. */
  ghost predicate Everywhere(b: Batch, key: string)
    requires forall i :: 0 <= i < |b.alerts| ==> b.alerts[i].source.Obj?
  {
    && b.alerts != []
    && (forall i :: 0 <= i < |b.alerts| ==> HasKey(b.alerts[i].source.fields, key))
    && forall i, j :: 0 <= i < |b.alerts| && 0 <= j < |b.alerts| ==>
         var v, w := Lookup(b.alerts[i].source.fields, key).value, Lookup(b.alerts[j].source.fields, key).value;
         CanonicalEncode(v).Some? && CanonicalEncode(v) == CanonicalEncode(w)
  }

  ghost predicate KeysAscend(doc: Document) {
    forall i, j :: 0 <= i < j < |doc| ==> Less(doc[i].0, doc[j].0)
  }

  /** An entry for each alert, in order, under its own id and schema, with its own fields but those of the header. */
  ghost predicate IsRequest(b: Batch, rulesetVersion: string, promptVersion: string, r: LlmRequest)
    requires HasDocuments(b)
  {
    && r.batchId == b.batchId && r.group == b.group
    && r.rulesetVersion == rulesetVersion && r.promptVersion == promptVersion
    && KeysAscend(r.sharedFields)
    && (b.alerts == [] ==> r.sharedFields == [])
    && (forall f :: f in r.sharedFields <==> b.alerts != [] && f in b.alerts[0].source.fields && Everywhere(b, f.0))
    && |r.alerts| == |b.alerts|
    && forall i :: 0 <= i < |b.alerts| ==> IsEntry(b, i, r.alerts[i])
  }

  ghost predicate IsEntry(b: Batch, i: nat, e: RequestAlert)
    requires HasDocuments(b) && i < |b.alerts|
  {
    && e.alertId == b.alertIds[i] && e.schema == b.alerts[i].schema
    && KeysAscend(e.fields)
    && forall f :: f in e.fields <==> f in b.alerts[i].source.fields && !Everywhere(b, f.0)
  }

  lemma {:induction false} SharedIsEverywhere(b: Batch, key: string)
    requires HasDocuments(b)
    ensures SharedBy(Sources(b), key) <==> Everywhere(b, key)
  {
    var docs := Sources(b);
    if SharedBy(docs, key) {
      forall i | 0 <= i < |docs| ensures Encoded(docs[i], key) == Encoded(docs[0], key) && HasKey(docs[i], key) {}
    }
    if Everywhere(b, key) {
      forall i | 0 <= i < |docs| ensures Encoded(docs[i], key) == Encoded(docs[0], key) && Encoded(docs[0], key).Some? {
        var v, w := Lookup(b.alerts[i].source.fields, key).value, Lookup(b.alerts[0].source.fields, key).value;
        assert CanonicalEncode(v) == CanonicalEncode(w);
      }
    }
  }

  lemma {:induction false} FieldOrderTotal()
    ensures TotalPreorder(FieldOrder)
  {
    forall f: Field, g: Field ensures FieldOrder(f, g) || FieldOrder(g, f) {
      LessTrichotomy(f.0, g.0);
    }
    forall f: Field, g: Field, h: Field | FieldOrder(f, g) && FieldOrder(g, h) ensures FieldOrder(f, h) {
      LessTrichotomy(f.0, g.0);
      LessTrichotomy(g.0, h.0);
      LessTrichotomy(f.0, h.0);
      if Less(f.0, g.0) && Less(g.0, h.0) {
        LessTransitive(f.0, g.0, h.0);
      }
    }
  }

  lemma {:induction false} SortedAscend(doc: Document)
    requires DistinctKeys(doc)
    ensures KeysAscend(Sort(doc, FieldOrder))
  {
    FieldOrderTotal();
    SortSorts(doc, FieldOrder);
    SortedFields(doc);
    var s := Sort(doc, FieldOrder);
    forall i, j | 0 <= i < j < |s| ensures Less(s[i].0, s[j].0) {
      LessTrichotomy(s[i].0, s[j].0);
    }
  }

  lemma {:induction false} FactoredEntry(b: Batch, ruleset: string, prompt: string, shared: set<string>, i: nat)
    requires HasDocuments(b) && i < |b.alerts| && IsSharedSet(Sources(b), shared)
    ensures IsEntry(b, i, Factored(b, ruleset, prompt, shared).alerts[i])
  {
    assert IsJson(b.alerts[i].source);
    PickExact(Sources(b)[i], shared, false);
    SortedAscend(Pick(Sources(b)[i], shared, false));
    forall f ensures f in Factored(b, ruleset, prompt, shared).alerts[i].fields <==> f in b.alerts[i].source.fields && !Everywhere(b, f.0) {
      RowFields(b, ruleset, prompt, shared, i, f);
      SharedIsEverywhere(b, f.0);
    }
  }

  lemma {:induction false} FactoredIsRequest(b: Batch, ruleset: string, prompt: string, shared: set<string>)
    requires HasDocuments(b) && IsSharedSet(Sources(b), shared)
    ensures IsRequest(b, ruleset, prompt, Factored(b, ruleset, prompt, shared))
  {
    var r := Factored(b, ruleset, prompt, shared);
    if b.alerts != [] {
      assert IsJson(b.alerts[0].source);
      PickExact(Sources(b)[0], shared, true);
      SortedAscend(Pick(Sources(b)[0], shared, true));
      forall f ensures f in r.sharedFields <==> f in b.alerts[0].source.fields && Everywhere(b, f.0) {
        HeaderFields(b, ruleset, prompt, shared, f);
        SharedIsEverywhere(b, f.0);
      }
    }
    forall i | 0 <= i < |b.alerts| ensures IsEntry(b, i, r.alerts[i]) {
      FactoredEntry(b, ruleset, prompt, shared, i);
    }
  }

  ghost predicate IsSharedSet(docs: seq<Document>, shared: set<string>) {
    forall key :: key in shared <==> SharedBy(docs, key)
  }

  /** `{**a, **b}`. */
  function Merge(a: Document, b: Document): Document {
    if b == [] then a
    else
      var n := |b| - 1;
      Put(Merge(a, b[..n]), b[n])
  }

  /** One key assigned: in place, or at the end. */
  function Put(doc: Document, f: Field): Document {
    if doc == [] then [f]
    else if doc[0].0 == f.0 then [f] + doc[1..]
    else [doc[0]] + Put(doc[1..], f)
  }

  lemma {:induction false} PutExact(doc: Document, f: Field)
    requires DistinctKeys(doc)
    ensures DistinctKeys(Put(doc, f))
    ensures forall g :: g in Put(doc, f) <==> g == f || (g in doc && g.0 != f.0)
  {
    if doc == [] {
    } else if doc[0].0 == f.0 {
      forall g | g in doc[1..] ensures g.0 != f.0 {
        var i :| 0 <= i < |doc[1..]| && doc[1..][i] == g;
        assert doc[i + 1] == g;
      }
      assert doc == [doc[0]] + doc[1..];
      var p := Put(doc, f);
      forall i, j | 0 <= i < j < |p| ensures p[i].0 != p[j].0 {
        assert p[j] == doc[j];
        assert i > 0 ==> p[i] == doc[i];
      }
    } else {
      PutExact(doc[1..], f);
      var rest := Put(doc[1..], f);
      assert doc == [doc[0]] + doc[1..];
      forall j | 0 <= j < |rest| ensures rest[j].0 != doc[0].0 {
        assert rest[j] in rest;
        if rest[j] != f {
          var i :| 0 <= i < |doc[1..]| && doc[1..][i] == rest[j];
          assert doc[i + 1] == rest[j];
        }
      }
    }
  }

  ghost predicate InMerge(f: Field, a: Document, b: Document) {
    f in b || (f in a && !HasKey(b, f.0))
  }

  lemma {:induction false} InMergeLast(f: Field, a: Document, b: Document)
    requires b != [] && DistinctKeys(b)
    ensures var n := |b| - 1; InMerge(f, a, b) <==> f == b[n] || (InMerge(f, a, b[..n]) && f.0 != b[n].0)
  {
    var n := |b| - 1;
    assert b == b[..n] + [b[n]];
    HasKeyNext(b, n);
    assert b[..n + 1] == b;
    if f in b[..n] {
      var i :| 0 <= i < n && b[i] == f;
    }
  }

  lemma {:induction false} MergeExact(a: Document, b: Document)
    requires DistinctKeys(a) && DistinctKeys(b)
    ensures DistinctKeys(Merge(a, b))
    ensures forall f :: f in Merge(a, b) <==> InMerge(f, a, b)
  {
    if b != [] {
      var n := |b| - 1;
      MergeExact(a, b[..n]);
      PutExact(Merge(a, b[..n]), b[n]);
      forall f ensures f in Merge(a, b) <==> InMerge(f, a, b) {
        InMergeLast(f, a, b);
      }
    }
  }

  function ReconstructDocument(request: LlmRequest, alert: RequestAlert): Document {
    Merge(request.sharedFields, alert.fields)
  }

  method AssertLossless(request: LlmRequest, b: Batch) returns (ok: bool)
    requires HasDocuments(b) && |request.alerts| == |b.alerts|
    ensures ok <==> forall i :: 0 <= i < |b.alerts| ==> RebuildsAt(request, b, i)
  {
    for i := 0 to |request.alerts|
      invariant forall j :: 0 <= j < i ==> RebuildsAt(request, b, j)
    {
      var rebuilt := Obj(ReconstructDocument(request, request.alerts[i]));
      var original := b.alerts[i].source;
      if CanonicalEncode(rebuilt).None? || CanonicalEncode(rebuilt) != CanonicalEncode(original) {
        assert !RebuildsAt(request, b, i);
        return false;
      }
    }
    return true;
  }

  /** Header and row give back the document: same encoding, and no encoding raised. */
  predicate RebuildsAt(request: LlmRequest, b: Batch, i: nat)
    requires i < |b.alerts| && |request.alerts| == |b.alerts|
  {
    var rebuilt := CanonicalEncode(Obj(ReconstructDocument(request, request.alerts[i])));
    rebuilt.Some? && rebuilt == CanonicalEncode(b.alerts[i].source)
  }

  // ----- lossless

  lemma {:induction false} SortedFields(doc: Document)
    requires DistinctKeys(doc)
    ensures DistinctKeys(Sort(doc, FieldOrder))
    ensures forall f :: f in Sort(doc, FieldOrder) <==> f in doc
  {
    var s := Sort(doc, FieldOrder);
    forall f ensures f in s <==> f in doc {
      SortMember(doc, FieldOrder, f);
    }
    SortPermutes(doc, FieldOrder);
    KeysTellFields(doc);
    DistinctPermutation(doc, s);
    forall i, j | 0 <= i < j < |s| ensures s[i].0 != s[j].0 {
      assert s[i] in s && s[j] in s;
    }
  }

  lemma {:induction false} KeysTellFields(doc: Document)
    requires DistinctKeys(doc)
    ensures NoDuplicates(doc)
    ensures forall f, g :: f in doc && g in doc && f.0 == g.0 ==> f == g
  {
    forall f, g | f in doc && g in doc && f.0 == g.0 ensures f == g {
      var i :| 0 <= i < |doc| && doc[i] == f;
      var j :| 0 <= j < |doc| && doc[j] == g;
      assert i == j;
    }
  }

  /** A shared field of the first document is every document's, up to what the encoding forgets. */
  lemma {:induction false} SharedIsSame(docs: seq<Document>, i: nat, f: Field)
    requires i < |docs| && f in docs[0] && SharedBy(docs, f.0)
    requires forall k :: 0 <= k < |docs| ==> IsJson(Obj(docs[k]))
    ensures HasKey(docs[i], f.0) && (f.0, Lookup(docs[i], f.0).value) in docs[i] && Same(f.1, Lookup(docs[i], f.0).value)
  {
    LookupIsUnique(docs[0], f);
    assert Encoded(docs[i], f.0) == Encoded(docs[0], f.0);
    var v := Lookup(docs[i], f.0).value;
    ValueIsJson(docs[0], f);
    ValueIsJson(docs[i], (f.0, v));
    EncodingDecides(f.1, v);
  }

  lemma {:induction false} ValueIsJson(doc: Document, f: Field)
    requires IsJson(Obj(doc)) && f in doc
    ensures IsJson(f.1)
  {
    var i :| 0 <= i < |doc| && doc[i] == f;
    assert IsJson(doc[i].1);
  }

  lemma {:induction false} ValueEncodable(doc: Document, f: Field)
    requires Encodable(Obj(doc)) && f in doc
    ensures Encodable(f.1)
  {
    var i :| 0 <= i < |doc| && doc[i] == f;
    assert Encodable(doc[i].1);
  }

  /** What header and row of document `i` are merged from. */
  ghost predicate Rebuilt(doc: Document, docs: seq<Document>, i: nat, shared: set<string>)
    requires i < |docs|
  {
    && DistinctKeys(doc)
    && forall f :: f in doc <==> (f in docs[i] && f.0 !in shared) || (f in docs[0] && f.0 in shared)
  }

  lemma {:induction false} RebuiltFields(b: Batch, ruleset: string, prompt: string, shared: set<string>, i: nat)
    requires HasDocuments(b) && i < |b.alerts|
    ensures var r := Factored(b, ruleset, prompt, shared);
      Rebuilt(ReconstructDocument(r, r.alerts[i]), Sources(b), i, shared)
  {
    var docs := Sources(b);
    var r := Factored(b, ruleset, prompt, shared);
    var head, own := Pick(docs[0], shared, true), Pick(docs[i], shared, false);
    assert b.alerts[0].source.Obj? && IsJson(b.alerts[0].source) && IsJson(b.alerts[i].source);
    PickExact(docs[0], shared, true);
    PickExact(docs[i], shared, false);
    SortedFields(head);
    SortedFields(own);
    MergeExact(r.sharedFields, r.alerts[i].fields);
    forall k | 0 <= k < |r.alerts[i].fields| ensures r.alerts[i].fields[k].0 !in shared {
      assert r.alerts[i].fields[k] in r.alerts[i].fields;
    }
  }

  /** A document rebuilt from header and row is the original, up to what the encoding forgets. */
  lemma {:induction false} RebuiltIsSame(doc: Document, docs: seq<Document>, i: nat, shared: set<string>)
    requires i < |docs| && IsSharedSet(docs, shared) && Rebuilt(doc, docs, i, shared)
    requires AllEncodable(docs) && forall k :: 0 <= k < |docs| ==> IsJson(Obj(docs[k]))
    ensures IsJson(Obj(doc)) && Encodable(Obj(doc)) && Same(Obj(doc), Obj(docs[i]))
  {
    forall k | 0 <= k < |doc|
      ensures IsJson(doc[k].1) && Encodable(doc[k].1)
      ensures HasKey(docs[i], doc[k].0) && Same(doc[k].1, Lookup(docs[i], doc[k].0).value)
    {
      RebuiltField(doc, docs, i, shared, doc[k]);
    }
    SameSize(doc, docs, i, shared);
    forall k, l | 0 <= k < |doc| && 0 <= l < |docs[i]| && doc[k].0 == docs[i][l].0
      ensures Same(doc[k].1, docs[i][l].1)
    {
      LookupIsUnique(docs[i], docs[i][l]);
    }
  }

  lemma {:induction false} RebuiltField(doc: Document, docs: seq<Document>, i: nat, shared: set<string>, f: Field)
    requires i < |docs| && IsSharedSet(docs, shared) && Rebuilt(doc, docs, i, shared) && f in doc
    requires AllEncodable(docs) && forall k :: 0 <= k < |docs| ==> IsJson(Obj(docs[k]))
    ensures IsJson(f.1) && Encodable(f.1)
    ensures HasKey(docs[i], f.0) && Same(f.1, Lookup(docs[i], f.0).value)
  {
    if f.0 in shared {
      SharedIsSame(docs, i, f);
      ValueIsJson(docs[0], f);
      ValueEncodable(docs[0], f);
    } else {
      LookupIsUnique(docs[i], f);
      ValueIsJson(docs[i], f);
      ValueEncodable(docs[i], f);
      SameReflexive(f.1);
    }
  }

  function KeysIn(doc: Document): (keys: seq<string>)
    ensures |keys| == |doc| && forall i :: 0 <= i < |doc| ==> keys[i] == doc[i].0
  {
    seq(|doc|, i requires 0 <= i < |doc| => doc[i].0)
  }

  lemma {:induction false} SameSize(doc: Document, docs: seq<Document>, i: nat, shared: set<string>)
    requires i < |docs| && IsSharedSet(docs, shared) && Rebuilt(doc, docs, i, shared)
    requires forall k :: 0 <= k < |docs| ==> IsJson(Obj(docs[k]))
    ensures |doc| == |docs[i]|
  {
    var a, b := KeysIn(doc), KeysIn(docs[i]);
    forall key ensures key in a <==> key in b {
      if key in a {
        var k :| 0 <= k < |doc| && a[k] == key;
        assert doc[k] in doc;
        if key in shared {
          SharedIsSame(docs, i, doc[k]);
          var l :| 0 <= l < |docs[i]| && docs[i][l].0 == key;
          assert b[l] == key;
        } else {
          var l :| 0 <= l < |docs[i]| && docs[i][l] == doc[k];
          assert b[l] == key;
        }
      }
      if key in b {
        var l :| 0 <= l < |docs[i]| && b[l] == key;
        KeySurvives(doc, docs, i, shared, docs[i][l]);
        var k :| 0 <= k < |doc| && doc[k].0 == key;
        assert a[k] == key;
      }
    }
    Batching.DistinctSameSize(a, b);
  }

  lemma {:induction false} KeySurvives(doc: Document, docs: seq<Document>, i: nat, shared: set<string>, f: Field)
    requires i < |docs| && IsSharedSet(docs, shared) && Rebuilt(doc, docs, i, shared) && f in docs[i]
    ensures HasKey(doc, f.0)
  {
    if f.0 in shared {
      assert SharedBy(docs, f.0);
      var g := (f.0, Lookup(docs[0], f.0).value);
      assert g in doc;
      var k :| 0 <= k < |doc| && doc[k] == g;
    } else {
      var k :| 0 <= k < |doc| && doc[k] == f;
    }
  }

  /** Factoring never loses anything: for encodable documents `assert_lossless` never raises. */
  lemma {:induction false} FactoringIsLossless(b: Batch, ruleset: string, prompt: string, shared: set<string>, i: nat)
    requires HasDocuments(b) && i < |b.alerts| && AllEncodable(Sources(b)) && IsSharedSet(Sources(b), shared)
    ensures RebuildsAt(Factored(b, ruleset, prompt, shared), b, i)
  {
    var docs, r := Sources(b), Factored(b, ruleset, prompt, shared);
    var doc := ReconstructDocument(r, r.alerts[i]);
    forall k | 0 <= k < |docs| ensures IsJson(Obj(docs[k])) {
      assert IsJson(b.alerts[k].source) && b.alerts[k].source == Obj(docs[k]);
    }
    RebuiltFields(b, ruleset, prompt, shared, i);
    RebuiltIsSame(doc, docs, i, shared);
    assert b.alerts[i].source == Obj(docs[i]);
    EncodingDecides(Obj(doc), Obj(docs[i]));
  }

  /** The rebuilt document has exactly the original's keys. */
  lemma {:induction false} KeySetKept(b: Batch, ruleset: string, prompt: string, shared: set<string>, i: nat, key: string)
    requires HasDocuments(b) && i < |b.alerts| && IsSharedSet(Sources(b), shared)
    ensures var r := Factored(b, ruleset, prompt, shared);
      HasKey(ReconstructDocument(r, r.alerts[i]), key) <==> HasKey(Sources(b)[i], key)
  {
    var docs, r := Sources(b), Factored(b, ruleset, prompt, shared);
    var doc := ReconstructDocument(r, r.alerts[i]);
    forall k | 0 <= k < |docs| ensures IsJson(Obj(docs[k])) {
      assert IsJson(b.alerts[k].source) && b.alerts[k].source == Obj(docs[k]);
    }
    RebuiltFields(b, ruleset, prompt, shared, i);
    if HasKey(docs[i], key) {
      var l :| 0 <= l < |docs[i]| && docs[i][l].0 == key;
      KeySurvives(doc, docs, i, shared, docs[i][l]);
    }
    if HasKey(doc, key) {
      var k :| 0 <= k < |doc| && doc[k].0 == key;
      assert doc[k] in doc;
      if key in shared {
        SharedIsSame(docs, i, doc[k]);
      } else {
        var l :| 0 <= l < |docs[i]| && docs[i][l] == doc[k];
      }
    }
  }

  lemma {:induction false} HeaderFields(b: Batch, ruleset: string, prompt: string, shared: set<string>, f: Field)
    requires HasDocuments(b) && b.alerts != []
    ensures f in Factored(b, ruleset, prompt, shared).sharedFields <==> f in Sources(b)[0] && f.0 in shared
  {
    assert IsJson(b.alerts[0].source);
    PickExact(Sources(b)[0], shared, true);
    SortedFields(Pick(Sources(b)[0], shared, true));
  }

  lemma {:induction false} RowFields(b: Batch, ruleset: string, prompt: string, shared: set<string>, i: nat, f: Field)
    requires HasDocuments(b) && i < |b.alerts|
    ensures f in Factored(b, ruleset, prompt, shared).alerts[i].fields <==> f in Sources(b)[i] && f.0 !in shared
  {
    assert IsJson(b.alerts[i].source);
    PickExact(Sources(b)[i], shared, false);
    SortedFields(Pick(Sources(b)[i], shared, false));
  }

  lemma {:induction false} HasKeyIn(doc: Document, key: string)
    ensures HasKey(doc, key) <==> exists v :: (key, v) in doc
  {
    if HasKey(doc, key) {
      var i :| 0 <= i < |doc| && doc[i].0 == key;
      assert (key, doc[i].1) in doc;
    }
    if v :| (key, v) in doc {
      var i :| 0 <= i < |doc| && doc[i] == (key, v);
    }
  }

  /** The header holds a field exactly when every document has it with one encoding. */
  lemma {:induction false} HeaderIsMaximal(b: Batch, ruleset: string, prompt: string, shared: set<string>, key: string)
    requires HasDocuments(b) && IsSharedSet(Sources(b), shared)
    ensures HasKey(Factored(b, ruleset, prompt, shared).sharedFields, key) <==> SharedBy(Sources(b), key)
  {
    var header := Factored(b, ruleset, prompt, shared).sharedFields;
    if b.alerts != [] {
      HasKeyIn(header, key);
      HasKeyIn(Sources(b)[0], key);
      forall v ensures (key, v) in header <==> (key, v) in Sources(b)[0] && key in shared {
        HeaderFields(b, ruleset, prompt, shared, (key, v));
      }
    }
  }

  /** No row repeats a field of the header. */
  lemma {:induction false} RowsOmitTheHeader(b: Batch, ruleset: string, prompt: string, shared: set<string>, i: nat, key: string)
    requires HasDocuments(b) && IsSharedSet(Sources(b), shared) && i < |b.alerts|
    ensures HasKey(Factored(b, ruleset, prompt, shared).alerts[i].fields, key)
       <==> HasKey(Sources(b)[i], key) && !SharedBy(Sources(b), key)
  {
    var row := Factored(b, ruleset, prompt, shared).alerts[i].fields;
    HasKeyIn(row, key);
    HasKeyIn(Sources(b)[i], key);
    forall v ensures (key, v) in row <==> (key, v) in Sources(b)[i] && key !in shared {
      RowFields(b, ruleset, prompt, shared, i, (key, v));
    }
  }

  lemma {:induction false} SamePlace<T>(s: seq<T>, k: nat, i: nat)
    requires NoDuplicates(s) && k < |s| && i < |s| && s[k] == s[i]
    ensures k == i
  {
  }

  /**
   In a request of the batch that passes the lossless assertion, the document rebuilt from the entry
   with an alert's id is, encoded, that alert's document.
   */
  lemma {:induction false} RebuiltById(b: Batch, ruleset: string, prompt: string, r: LlmRequest, k: nat, i: nat)
    requires HasDocuments(b) && IsRequest(b, ruleset, prompt, r) && NoDuplicates(b.alertIds)
    requires k < |b.alerts| && i < |b.alerts| && RebuildsAt(r, b, k) && r.alerts[k].alertId == b.alertIds[i]
    ensures RebuildsAt(r, b, i) && k == i
  {
    assert IsEntry(b, k, r.alerts[k]);
    SamePlace(b.alertIds, k, i);
  }
}
