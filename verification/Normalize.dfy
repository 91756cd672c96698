/** The normalized alert record, its composite identity and its representative row (`src/domain/normalize.py`). */
module Normalize {
  import opened Text
  import opened Hashing

  datatype Schema = V1 | V2

  /** The fields of `AlertRecord` that the modelled code reads. Times are integer microseconds, dates day numbers. */
  datatype Row = Row(
    schema: Schema,
    application: string,
    keyField: string,
    identity: string,
    component: Option<string>,
    severity: Option<string>,
    status: Option<string>,
    nodeName: Option<string>,
    alertRuleUrl: Option<string>,
    provider: Option<string>,
    at: int,
    date: int,
    source: Json,
    docHash: string)

  // ----- length-prefixed keys

  /** One length-prefixed part, as `identity_of`, `verdict_key` and `_tuple_key` write it. */
  function KeyPart(s: string): string {
    Decimal(|s|) + ":" + s
  }

  function IdentityOf(application: string, keyField: string): string {
    KeyPart(application) + "|" + KeyPart(keyField)
  }

  /** `str.index(":")`: the first colon, or None where Python raises ValueError. */
  function IndexOfColon(s: string): (r: Option<nat>)
    ensures r.Some? ==> r.value < |s|
  {
    if s == [] then None
    else if s[0] == ':' then Some(0)
    else match IndexOfColon(s[1..]) case None => None case Some(k) => Some(k + 1)
  }

  /** A Python slice: out-of-range ends are clamped. */
  function Slice(s: string, lo: nat, hi: nat): string {
    if lo >= |s| || hi <= lo then "" else s[lo..if hi < |s| then hi else |s|]
  }

  /**
   `split_identity`, reading plain digits before each colon; None for anything else. Python's `int` also
   takes a sign, surrounding spaces, underscores and other scripts' digits, which `identity_of` never writes.
   */
  function SplitIdentity(identity: string): Option<(string, string)> {
    match IndexOfColon(identity)
    case None => None
    case Some(c) =>
      if c == 0 || !AllDigits(identity[..c]) then None
      else
        var n := NatOf(identity[..c]);
        var application := Slice(identity, c + 1, c + 1 + n);
        var rest := Slice(identity, c + 1 + n + 1, |identity|);
        match IndexOfColon(rest)
        case None => None
        case Some(k) => Some((application, rest[k + 1..]))
  }

  lemma {:induction false} FirstColon(digits: string, tail: string)
    requires AllDigits(digits)
    ensures IndexOfColon(digits + (":" + tail)) == Some(|digits|)
  {
    var s := digits + (":" + tail);
    if digits != [] {
      FirstColon(digits[1..], tail);
      assert s[1..] == digits[1..] + (":" + tail);
    }
  }

  lemma {:induction false} Cut(s: string, c: nat, a: string, b: string)
    requires c <= |s| && s[c..] == a + b
    ensures c + |a| <= |s| && s[c..c + |a|] == a && s[c + |a|..] == b
  {
    assert |s[c..]| == |a| + |b|;
    forall i | 0 <= i < |a| ensures s[c + i] == a[i] {
      assert s[c..][i] == (a + b)[i];
    }
    forall i | 0 <= i < |b| ensures s[c + |a| + i] == b[i] {
      assert s[c..][|a| + i] == (a + b)[|a| + i];
    }
  }

  /** Reading one part back: the colon ends the digits, and the digits count the part. */
  lemma {:induction false} PartReadsBack(s: string, part: string, tail: string)
    requires s == KeyPart(part) + tail
    ensures IndexOfColon(s) == Some(|Decimal(|part|)|)
    ensures var c := |Decimal(|part|)|;
      && c <= |s| && s[..c] == Decimal(|part|)
      && c + 1 + |part| <= |s| && s[c + 1..c + 1 + |part|] == part && s[c + 1 + |part|..] == tail
  {
    var digits := Decimal(|part|);
    Regroup(digits, ":", part, tail);
    FirstColon(digits, part + tail);
    assert s[0..] == s;
    Cut(s, 0, digits, ":" + (part + tail));
    Cut(s, |digits|, ":", part + tail);
    Cut(s, |digits| + 1, part, tail);
  }

  /** `split_identity` undoes `identity_of` for all strings, separators inside them included. */
  lemma {:induction false} SplitUndoesIdentity(application: string, keyField: string)
    ensures SplitIdentity(IdentityOf(application, keyField)) == Some((application, keyField))
  {
    var s := IdentityOf(application, keyField);
    HeadReadsBack(s, application, keyField);
    RestReadsBack(KeyPart(keyField), keyField);
  }

  lemma {:induction false} HeadReadsBack(s: string, application: string, keyField: string)
    requires s == IdentityOf(application, keyField)
    ensures IndexOfColon(s) == Some(|Decimal(|application|)|)
    ensures var c, n := |Decimal(|application|)|, |application|;
      && 0 < c <= |s| && AllDigits(s[..c]) && NatOf(s[..c]) == n
      && Slice(s, c + 1, c + 1 + n) == application
      && Slice(s, c + 1 + n + 1, |s|) == KeyPart(keyField)
  {
    var tail := "|" + KeyPart(keyField);
    var c, n := |Decimal(|application|)|, |application|;
    assert s == KeyPart(application) + tail;
    PartReadsBack(s, application, tail);
    DecimalRoundTrip(n);
    Cut(s, c + 1 + n, "|", KeyPart(keyField));
  }

  lemma {:induction false} RestReadsBack(rest: string, keyField: string)
    requires rest == KeyPart(keyField)
    ensures IndexOfColon(rest).Some? && rest[IndexOfColon(rest).value + 1..] == keyField
  {
    assert rest == KeyPart(keyField) + "";
    PartReadsBack(rest, keyField, "");
    Cut(rest, |Decimal(|keyField|)| + 1, keyField, "");
  }

  lemma {:induction false} IdentityInjective(a: string, k: string, b: string, l: string)
    requires IdentityOf(a, k) == IdentityOf(b, l)
    ensures a == b && k == l
  {
    SplitUndoesIdentity(a, k);
    SplitUndoesIdentity(b, l);
  }

  function OrEmpty(s: Option<string>): string {
    match s case None => "" case Some(t) => t
  }

  /** `_tuple_key`: the parts joined with bars. */
  function TupleKey(parts: seq<Option<string>>): string {
    if parts == [] then ""
    else if |parts| == 1 then KeyPart(OrEmpty(parts[0]))
    else KeyPart(OrEmpty(parts[0])) + "|" + TupleKey(parts[1..])
  }

  lemma {:induction false} KeyPartSplit(s: string, t: string, x: string, y: string)
    requires KeyPart(s) + x == KeyPart(t) + y
    ensures s == t && x == y
  {
    assert KeyPart(s) + x == Decimal(|s|) + ":" + (s + x);
    assert KeyPart(t) + y == Decimal(|t|) + ":" + (t + y);
    HeaderPrefixFree(|s|, |t|, s + x, t + y);
    assert s == (s + x)[..|s|] && t == (t + y)[..|t|];
    assert x == (s + x)[|s|..] && y == (t + y)[|t|..];
  }

  /** At a fixed arity a tuple key identifies its tuple, up to None against the empty string. */
  lemma {:induction false} TupleKeyInjective(p: seq<Option<string>>, q: seq<Option<string>>)
    requires |p| == |q|
    ensures TupleKey(p) == TupleKey(q) <==> forall i :: 0 <= i < |p| ==> OrEmpty(p[i]) == OrEmpty(q[i])
  {
    if |p| == 1 {
      if TupleKey(p) == TupleKey(q) {
        assert KeyPart(OrEmpty(p[0])) + "" == KeyPart(OrEmpty(q[0])) + "";
        KeyPartSplit(OrEmpty(p[0]), OrEmpty(q[0]), "", "");
      }
    } else if |p| > 1 {
      TupleKeyInjective(p[1..], q[1..]);
      var a, b := OrEmpty(p[0]), OrEmpty(q[0]);
      var x, y := "|" + TupleKey(p[1..]), "|" + TupleKey(q[1..]);
      assert TupleKey(p) == KeyPart(a) + x && TupleKey(q) == KeyPart(b) + y;
      if TupleKey(p) == TupleKey(q) {
        KeyPartSplit(a, b, x, y);
        assert x[1..] == TupleKey(p[1..]) && y[1..] == TupleKey(q[1..]);
        forall i | 0 <= i < |p| ensures OrEmpty(p[i]) == OrEmpty(q[i]) {
          if i > 0 { assert p[i] == p[1..][i - 1] && q[i] == q[1..][i - 1]; }
        }
      }
    }
  }

  /** Parts are written as length, colon and text, with bars between them; a missing part is empty text. */
  lemma {:induction false} KeysAreWritten(a: string, b: string)
    ensures IdentityOf(a, b) == Decimal(|a|) + ":" + a + "|" + (Decimal(|b|) + ":" + b)
    ensures TupleKey([Some(a), Some(b)]) == IdentityOf(a, b) && TupleKey([Some(a), None]) == IdentityOf(a, "")
    ensures TupleKey([Some(a), None, Some(b)]) == Decimal(|a|) + ":" + a + "|" + ("0:" + "|" + (Decimal(|b|) + ":" + b))
  {
    var p: seq<Option<string>> := [Some(a), None, Some(b)];
    assert p[1..] == [None, Some(b)] && p[1..][1..] == [Some(b)];
    assert [Some(a), Some(b)][1..] == [Some(b)] && [Some(a), None][1..] == [None];
    assert Decimal(0) == "0";
  }

  // ----- the representative row

  /** `row` displaces `best`: it is later, or equally late with the smaller document hash. */
  predicate Displaces(row: Row, best: Row) {
    row.at > best.at || (row.at == best.at && Less(row.docHash, best.docHash))
  }

  function Representative(rows: seq<Row>): (r: Row)
    requires rows != []
  {
    var n := |rows| - 1;
    if n == 0 then rows[0]
    else if Displaces(rows[n], Representative(rows[..n])) then rows[n]
    else Representative(rows[..n])
  }

  method SelectRepresentative(rows: seq<Row>) returns (best: Option<Row>)
    ensures best == if rows == [] then None else Some(Representative(rows))
  {
    if rows == [] {
      return None;
    }
    var b := rows[0];
    for i := 1 to |rows|
      invariant b == Representative(rows[..i])
    {
      assert rows[..i + 1][..i] == rows[..i];
      if rows[i].at > b.at || (rows[i].at == b.at && Less(rows[i].docHash, b.docHash)) {
        b := rows[i];
      }
    }
    assert rows[..|rows|] == rows;
    return Some(b);
  }

  ghost predicate IsRepresentativeAt(rows: seq<Row>, k: nat)
    requires k < |rows|
  {
    && (forall j :: 0 <= j < |rows| ==>
          rows[j].at < rows[k].at || (rows[j].at == rows[k].at && !Less(rows[j].docHash, rows[k].docHash)))
    && (forall j :: 0 <= j < k ==>
          rows[j].at < rows[k].at || (rows[j].at == rows[k].at && Less(rows[k].docHash, rows[j].docHash)))
  }

  lemma {:induction false} DisplacesIsStrictWeakOrder(a: Row, b: Row, c: Row)
    ensures !Displaces(a, a)
    ensures Displaces(a, b) ==> !Displaces(b, a)
    ensures Displaces(a, b) && !Displaces(c, b) ==> Displaces(a, c)
  {
    LessTrichotomy(a.docHash, a.docHash);
    LessTrichotomy(a.docHash, b.docHash);
    LessTrichotomy(c.docHash, b.docHash);
    LessTrichotomy(a.docHash, c.docHash);
    if Less(a.docHash, b.docHash) && Less(b.docHash, c.docHash) {
      LessTransitive(a.docHash, b.docHash, c.docHash);
    }
  }

  /** The representative is the first of the latest rows with the least document hash. */
  lemma {:induction false} RepresentativeIsLatest(rows: seq<Row>)
    requires rows != []
    ensures exists k :: 0 <= k < |rows| && IsRepresentativeAt(rows, k) && Representative(rows) == rows[k]
  {
    var n := |rows| - 1;
    DisplacesIsStrictWeakOrder(rows[n], rows[n], rows[n]);
    if n == 0 {
      assert IsRepresentativeAt(rows, 0);
    } else {
      RepresentativeIsLatest(rows[..n]);
      var k :| 0 <= k < n && IsRepresentativeAt(rows[..n], k) && Representative(rows[..n]) == rows[k];
      ExtendRepresentative(rows, k);
    }
  }

  lemma {:induction false} ExtendRepresentative(rows: seq<Row>, k: nat)
    requires |rows| >= 2 && k < |rows| - 1 && IsRepresentativeAt(rows[..|rows| - 1], k)
    ensures IsRepresentativeAt(rows, if Displaces(rows[|rows| - 1], rows[k]) then |rows| - 1 else k)
  {
    var n := |rows| - 1;
    DisplacesIsStrictWeakOrder(rows[n], rows[n], rows[n]);
    forall j | 0 <= j < n
      ensures !Displaces(rows[j], rows[k]) && (j < k ==> Displaces(rows[k], rows[j]))
      ensures Displaces(rows[n], rows[k]) ==> Displaces(rows[n], rows[j]) && !Displaces(rows[j], rows[n])
    {
      assert rows[j] == rows[..n][j];
      DisplacesIsStrictWeakOrder(rows[n], rows[k], rows[j]);
      DisplacesIsStrictWeakOrder(rows[n], rows[j], rows[k]);
    }
  }
}
