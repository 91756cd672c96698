/**
 The canonical encoding behind every identifier (`src/hashing.py`).

 A JSON object is kept as its sequence of fields in insertion order, so that "the order does
 not matter" is something to prove rather than something the representation hides.
 */
module Hashing {
  import opened Text
  import opened Sorting

  /** A Python number. A finite float with a fraction is given by its `repr`. */
  datatype Number =
    | Int(n: int)
    | Integral(n: int)          // a float with an integral value; -0.0 is Integral(0)
    | Fractional(repr: string)
    | NonFinite

  type Field = (string, Json)

  datatype Json =
    | Null
    | Bool(b: bool)
    | Num(v: Number)
    | Str(s: string)
    | Arr(items: seq<Json>)     // list or tuple
    | Obj(fields: seq<Field>)
    | Other                     // a value of any other type

  predicate DistinctKeys(fs: seq<Field>) {
    forall i, j :: 0 <= i < j < |fs| ==> fs[i].0 != fs[j].0
  }

  /** What Python guarantees of any value: a mapping has no repeated key, a fraction's repr is no integer's. */
  predicate IsJson(v: Json) {
    match v
    case Num(Fractional(t)) => exists i :: 0 <= i < |t| && !IsDigit(t[i]) && t[i] != '-'
    case Arr(xs) => forall i :: 0 <= i < |xs| ==> IsJson(xs[i])
    case Obj(fs) => DistinctKeys(fs) && forall i :: 0 <= i < |fs| ==> IsJson(fs[i].1)
    case _ => true
  }

  /** No non-finite number and no foreign type anywhere inside. */
  predicate Encodable(v: Json) {
    match v
    case Num(x) => !x.NonFinite?
    case Arr(xs) => forall i :: 0 <= i < |xs| ==> Encodable(xs[i])
    case Obj(fs) => forall i :: 0 <= i < |fs| ==> Encodable(fs[i].1)
    case Other => false
    case _ => true
  }

  function NumberText(x: Number): string
    requires !x.NonFinite?
  {
    match x
    case Int(n) => IntText(n)
    case Integral(n) => IntText(n)
    case Fractional(t) => t
  }

  function Utf8Width(c: char): nat {
    var n := c as int;
    if n < 0x80 then 1 else if n < 0x800 then 2 else if n < 0x1_0000 then 3 else 4
  }

  /** Length of the UTF-8 form, which is what a string's header counts. */
  function Utf8Length(s: string): nat {
    if s == [] then 0 else Utf8Width(s[0]) + Utf8Length(s[1..])
  }

  function EncodeText(s: string): string {
    "s" + (Decimal(Utf8Length(s)) + ":" + s)
  }

  /** A field already reduced to its key and the encoding of its value. */
  type Part = (string, string)

  predicate KeyOrder(p: Part, q: Part) {
    !Less(q.0, p.0)
  }

  function Join(ps: seq<Part>): string {
    if ps == [] then "" else EncodeText(ps[0].0) + (ps[0].1 + Join(ps[1..]))
  }

  function Encode(v: Json): string
    requires Encodable(v)
  {
    match v
    case Null => "n"
    case Bool(b) => if b then "b1" else "b0"
    case Num(x) => "d" + (Decimal(|NumberText(x)|) + ":" + NumberText(x))
    case Str(s) => EncodeText(s)
    case Arr(xs) => "a" + (Decimal(|xs|) + ":" + EncodeAll(xs))
    case Obj(fs) => "o" + (Decimal(|fs|) + ":" + Join(Sort(Parts(fs), KeyOrder)))
  }

  function EncodeAll(xs: seq<Json>): string
    requires forall i :: 0 <= i < |xs| ==> Encodable(xs[i])
  {
    if xs == [] then "" else Encode(xs[0]) + EncodeAll(xs[1..])
  }

  function Parts(fs: seq<Field>): (ps: seq<Part>)
    requires forall i :: 0 <= i < |fs| ==> Encodable(fs[i].1)
    ensures |ps| == |fs|
    ensures forall i :: 0 <= i < |fs| ==> assert fs[i].1 < fs[i]; ps[i] == (fs[i].0, Encode(fs[i].1))
  {
    if fs == [] then []
    else
      assert fs[0].1 < fs[0];
      [(fs[0].0, Encode(fs[0].1))] + Parts(fs[1..])
  }

  /** `canonical_encode`: None where it raises TypeError. */
  function CanonicalEncode(v: Json): Option<string> {
    if Encodable(v) then Some(Encode(v)) else None
  }

  predicate HasKey(fs: seq<Field>, key: string) {
    exists i :: 0 <= i < |fs| && fs[i].0 == key
  }

  /** Equal up to what the encoding is meant to forget: field order, 1 against 1.0, list against tuple. */
  ghost predicate Same(v: Json, w: Json) {
    match v
    case Null => w.Null?
    case Bool(b) => w == Bool(b)
    case Num(x) => w.Num? && SameNumber(x, w.v)
    case Str(s) => w == Str(s)
    case Arr(xs) => w.Arr? && |xs| == |w.items| && forall i :: 0 <= i < |xs| ==> Same(xs[i], w.items[i])
    case Obj(fs) =>
      && w.Obj?
      && |fs| == |w.fields|
      && (forall i :: 0 <= i < |fs| ==> HasKey(w.fields, fs[i].0))
      && (forall i, j :: 0 <= i < |fs| && 0 <= j < |w.fields| && fs[i].0 == w.fields[j].0 ==>
            Same(fs[i].1, w.fields[j].1))
    case Other => false
  }

  ghost predicate SameNumber(x: Number, y: Number) {
    match x
    case Fractional(t) => y == Fractional(t)
    case NonFinite => false
    case _ => (y.Int? || y.Integral?) && x.n == y.n
  }

  // ----- scalars

  lemma {:induction false} IntTextShape(n: int)
    ensures forall i :: 0 <= i < |IntText(n)| ==> IsDigit(IntText(n)[i]) || IntText(n)[i] == '-'
  {
  }

  lemma {:induction false} NumberTextInjective(x: Number, y: Number)
    requires !x.NonFinite? && !y.NonFinite? && IsJson(Num(x)) && IsJson(Num(y))
    ensures NumberText(x) == NumberText(y) <==> SameNumber(x, y)
  {
    if !x.Fractional? { IntTextShape(x.n); }
    if !y.Fractional? { IntTextShape(y.n); }
    if !x.Fractional? && !y.Fractional? && NumberText(x) == NumberText(y) {
      IntTextInjective(x.n, y.n);
    }
  }

  /** Two texts of one UTF-8 length that start the same string are one text. */
  lemma {:induction false} TextSplit(s: string, t: string, x: string, y: string)
    requires Utf8Length(s) == Utf8Length(t)
    requires s + x == t + y
    ensures s == t && x == y
  {
    if s == [] || t == [] {
      assert s == t == [];
      assert s + x == x && t + y == y;
    } else {
      assert s[0] == (s + x)[0] == (t + y)[0] == t[0];
      assert s[1..] + x == (s + x)[1..] == (t + y)[1..] == t[1..] + y;
      TextSplit(s[1..], t[1..], x, y);
      assert s == [s[0]] + s[1..] && t == [t[0]] + t[1..];
    }
  }

  lemma {:induction false} TagSplit(tag: char, a: string, b: string, x: string, y: string)
    requires [tag] + a + x == [tag] + b + y
    ensures a + x == b + y
  {
    assert ([tag] + a + x)[1..] == a + x;
    assert ([tag] + b + y)[1..] == b + y;
  }

  /** A tagged, counted block can be told apart from what follows: equal counts, equal remainders. */
  lemma {:induction false} BlockSplit(tag: char, m: nat, n: nat, p: string, q: string, x: string, y: string)
    requires [tag] + (Decimal(m) + ":" + p) + x == [tag] + (Decimal(n) + ":" + q) + y
    ensures m == n && p + x == q + y
  {
    TagSplit(tag, Decimal(m) + ":" + p, Decimal(n) + ":" + q, x, y);
    assert Decimal(m) + ":" + p + x == Decimal(m) + ":" + (p + x);
    assert Decimal(n) + ":" + q + y == Decimal(n) + ":" + (q + y);
    HeaderPrefixFree(m, n, p + x, q + y);
  }

  lemma {:induction false} EncodeTextSplit(s: string, t: string, x: string, y: string)
    requires EncodeText(s) + x == EncodeText(t) + y
    ensures s == t && x == y
  {
    BlockSplit('s', Utf8Length(s), Utf8Length(t), s, t, x, y);
    TextSplit(s, t, x, y);
  }

  // ----- prefix-freeness

  lemma {:induction false} PrefixFree(v: Json, w: Json, x: string, y: string)
    requires IsJson(v) && IsJson(w) && Encodable(v) && Encodable(w)
    requires Encode(v) + x == Encode(w) + y
    ensures Same(v, w) && x == y
    decreases v, 1
  {
    assert Encode(v)[0] == (Encode(v) + x)[0] == (Encode(w) + y)[0] == Encode(w)[0];
    match v
    case Null =>
      assert (Encode(v) + x)[1..] == x && (Encode(w) + y)[1..] == y;
    case Bool(b) =>
      assert (Encode(v) + x)[1] == (Encode(w) + y)[1];
      assert (Encode(v) + x)[2..] == x && (Encode(w) + y)[2..] == y;
    case Num(a) =>
      var s, t := NumberText(a), NumberText(w.v);
      BlockSplit('d', |s|, |t|, s, t, x, y);
      assert s == (s + x)[..|s|] && t == (t + y)[..|t|];
      assert x == (s + x)[|s|..] && y == (t + y)[|t|..];
      NumberTextInjective(a, w.v);
    case Str(s) =>
      EncodeTextSplit(s, w.s, x, y);
    case Arr(xs) =>
      BlockSplit('a', |xs|, |w.items|, EncodeAll(xs), EncodeAll(w.items), x, y);
      PrefixFreeAll(xs, w.items, x, y);
    case Obj(fs) =>
      var p, q := Sort(Parts(fs), KeyOrder), Sort(Parts(w.fields), KeyOrder);
      BlockSplit('o', |fs|, |w.fields|, Join(p), Join(q), x, y);
      SortPermutes(Parts(fs), KeyOrder);
      SortPermutes(Parts(w.fields), KeyOrder);
      SameElements(Parts(fs), p);
      SameElements(Parts(w.fields), q);
      PrefixFreeJoin(fs, w.fields, p, q, x, y);
      SameFields(fs, w.fields, p, q);
  }

  lemma {:induction false} PrefixFreeAll(xs: seq<Json>, ys: seq<Json>, x: string, y: string)
    requires |xs| == |ys|
    requires forall i :: 0 <= i < |xs| ==> IsJson(xs[i]) && Encodable(xs[i])
    requires forall i :: 0 <= i < |ys| ==> IsJson(ys[i]) && Encodable(ys[i])
    requires EncodeAll(xs) + x == EncodeAll(ys) + y
    ensures x == y && forall i :: 0 <= i < |xs| ==> Same(xs[i], ys[i])
    decreases xs, 0
  {
    if xs != [] {
      var a, b := EncodeAll(xs[1..]) + x, EncodeAll(ys[1..]) + y;
      assert Encode(xs[0]) + a == EncodeAll(xs) + x;
      assert Encode(ys[0]) + b == EncodeAll(ys) + y;
      PrefixFree(xs[0], ys[0], a, b);
      PrefixFreeAll(xs[1..], ys[1..], x, y);
    } else {
      assert EncodeAll(xs) + x == x && EncodeAll(ys) + y == y;
    }
  }

  /** Every part stands for a field of `fs`. */
  ghost predicate PartsOf(ps: seq<Part>, fs: seq<Field>)
    requires forall i :: 0 <= i < |fs| ==> Encodable(fs[i].1)
  {
    forall p :: p in ps ==> p in Parts(fs)
  }

  /** Field by field, equal keys carry equal values. */
  ghost predicate AlignedParts(fs: seq<Field>, gs: seq<Field>, p: seq<Part>, q: seq<Part>) {
    && |p| == |q|
    && forall a :: 0 <= a < |p| ==> p[a].0 == q[a].0 && SameAt(fs, gs, p[a].0)
  }

  ghost predicate SameAt(fs: seq<Field>, gs: seq<Field>, key: string) {
    forall i, j :: 0 <= i < |fs| && 0 <= j < |gs| && fs[i].0 == key && gs[j].0 == key ==> Same(fs[i].1, gs[j].1)
  }

  lemma {:induction false} PrefixFreeJoin(fs: seq<Field>, gs: seq<Field>, p: seq<Part>, q: seq<Part>,
                                          x: string, y: string)
    requires DistinctKeys(fs) && DistinctKeys(gs) && |p| == |q|
    requires forall i :: 0 <= i < |fs| ==> IsJson(fs[i].1) && Encodable(fs[i].1)
    requires forall i :: 0 <= i < |gs| ==> IsJson(gs[i].1) && Encodable(gs[i].1)
    requires PartsOf(p, fs) && PartsOf(q, gs)
    requires Join(p) + x == Join(q) + y
    ensures x == y && AlignedParts(fs, gs, p, q)
    decreases fs, |p|
  {
    if p != [] {
      var a, b := Join(p[1..]) + x, Join(q[1..]) + y;
      JoinHead(p, q, x, y);
      PartsTail(p, fs);
      PartsTail(q, gs);
      PrefixFreePart(fs, gs, p[0], q[0], a, b);
      PrefixFreeJoin(fs, gs, p[1..], q[1..], x, y);
      assert p == [p[0]] + p[1..] && q == [q[0]] + q[1..];
    } else {
      assert Join(p) + x == x && Join(q) + y == y;
    }
  }

  lemma {:induction false} JoinHead(p: seq<Part>, q: seq<Part>, x: string, y: string)
    requires p != [] && q != [] && Join(p) + x == Join(q) + y
    ensures p[0].0 == q[0].0
    ensures p[0].1 + (Join(p[1..]) + x) == q[0].1 + (Join(q[1..]) + y)
  {
    var k, l := EncodeText(p[0].0), EncodeText(q[0].0);
    Regroup(k, p[0].1, Join(p[1..]), x);
    Regroup(l, q[0].1, Join(q[1..]), y);
    EncodeTextSplit(p[0].0, q[0].0, p[0].1 + (Join(p[1..]) + x), q[0].1 + (Join(q[1..]) + y));
  }

  lemma {:induction false} PartsTail(p: seq<Part>, fs: seq<Field>)
    requires p != [] && forall i :: 0 <= i < |fs| ==> Encodable(fs[i].1)
    requires PartsOf(p, fs)
    ensures p[0] in Parts(fs) && PartsOf(p[1..], fs)
  {
    assert p[0] in p;
    assert forall r :: r in p[1..] ==> r in p;
  }

  lemma {:induction false} PrefixFreePart(fs: seq<Field>, gs: seq<Field>, p: Part, q: Part, x: string, y: string)
    requires DistinctKeys(fs) && DistinctKeys(gs)
    requires forall i :: 0 <= i < |fs| ==> IsJson(fs[i].1) && Encodable(fs[i].1)
    requires forall i :: 0 <= i < |gs| ==> IsJson(gs[i].1) && Encodable(gs[i].1)
    requires p in Parts(fs) && q in Parts(gs)
    requires p.0 == q.0 && p.1 + x == q.1 + y
    ensures x == y
    ensures SameAt(fs, gs, p.0)
    decreases fs, 0
  {
    var i :| 0 <= i < |fs| && Parts(fs)[i] == p;
    var j :| 0 <= j < |gs| && Parts(gs)[j] == q;
    assert fs[i].1 < fs[i];
    PrefixFree(fs[i].1, gs[j].1, x, y);
  }

  lemma {:induction false} SameFields(fs: seq<Field>, gs: seq<Field>, p: seq<Part>, q: seq<Part>)
    requires forall i :: 0 <= i < |fs| ==> Encodable(fs[i].1)
    requires forall i :: 0 <= i < |gs| ==> Encodable(gs[i].1)
    requires |fs| == |gs| && AlignedParts(fs, gs, p, q)
    requires forall r :: r in Parts(fs) ==> r in p
    requires forall r :: r in q ==> r in Parts(gs)
    ensures Same(Obj(fs), Obj(gs))
  {
    forall i | 0 <= i < |fs|
      ensures HasKey(gs, fs[i].0)
      ensures forall j :: 0 <= j < |gs| && fs[i].0 == gs[j].0 ==> Same(fs[i].1, gs[j].1)
    {
      assert Parts(fs)[i] in p;
      var a :| 0 <= a < |p| && p[a] == Parts(fs)[i];
      assert q[a] in Parts(gs);
      var j :| 0 <= j < |gs| && Parts(gs)[j] == q[a];
      assert gs[j].0 == fs[i].0 == p[a].0;
      assert SameAt(fs, gs, p[a].0);
    }
  }

  // ----- equal values have equal encodings

  lemma {:induction false} KeyOrderTotal()
    ensures TotalPreorder(KeyOrder)
  {
    forall p: Part, q: Part ensures KeyOrder(p, q) || KeyOrder(q, p) {
      LessTrichotomy(p.0, q.0);
    }
    forall p: Part, q: Part, r: Part | KeyOrder(p, q) && KeyOrder(q, r) ensures KeyOrder(p, r) {
      LessTrichotomy(p.0, q.0);
      LessTrichotomy(q.0, r.0);
      if Less(r.0, p.0) {
        if p.0 != q.0 { LessTransitive(r.0, p.0, q.0); }
      }
    }
  }

  lemma {:induction false} PartsDistinct(fs: seq<Field>)
    requires DistinctKeys(fs) && forall i :: 0 <= i < |fs| ==> Encodable(fs[i].1)
    ensures NoDuplicates(Parts(fs)) && Antisymmetric(Parts(fs), KeyOrder)
  {
    var ps := Parts(fs);
    forall i, j | 0 <= i < |ps| && 0 <= j < |ps| && KeyOrder(ps[i], ps[j]) && KeyOrder(ps[j], ps[i])
      ensures i == j
    {
      LessTrichotomy(fs[i].0, fs[j].0);
    }
    AntisymmetricByIndex(ps, KeyOrder);
  }

  lemma {:induction false} SameEncodesEqual(v: Json, w: Json)
    requires IsJson(v) && IsJson(w) && Encodable(v) && Encodable(w) && Same(v, w)
    ensures Encode(v) == Encode(w)
    decreases v, 1
  {
    match v
    case Num(x) => NumberTextInjective(x, w.v);
    case Arr(xs) => SameEncodesAll(xs, w.items);
    case Obj(fs) =>
      var gs := w.fields;
      forall p | p in Parts(fs) ensures p in Parts(gs) {
        var i :| 0 <= i < |fs| && Parts(fs)[i] == p;
        var j :| 0 <= j < |gs| && fs[i].0 == gs[j].0;
        assert fs[i].1 < fs[i];
        SameEncodesEqual(fs[i].1, gs[j].1);
        assert Parts(gs)[j] == p;
      }
      PartsDistinct(fs);
      PartsDistinct(gs);
      InclusionPermutes(Parts(fs), Parts(gs));
      KeyOrderTotal();
      SortOfPermutation(Parts(fs), Parts(gs), KeyOrder);
    case _ =>
  }

  lemma {:induction false} SameEncodesAll(xs: seq<Json>, ys: seq<Json>)
    requires |xs| == |ys|
    requires forall i :: 0 <= i < |xs| ==> IsJson(xs[i]) && Encodable(xs[i])
    requires forall i :: 0 <= i < |ys| ==> IsJson(ys[i]) && Encodable(ys[i])
    requires forall i :: 0 <= i < |xs| ==> Same(xs[i], ys[i])
    ensures EncodeAll(xs) == EncodeAll(ys)
    decreases xs, 0
  {
    if xs != [] {
      SameEncodesEqual(xs[0], ys[0]);
      SameEncodesAll(xs[1..], ys[1..]);
    }
  }

  // ----- main results

  /** The encoding is defined on, and tells apart, exactly what it should. */
  lemma {:induction false} EncodingDecides(v: Json, w: Json)
    requires IsJson(v) && IsJson(w)
    ensures CanonicalEncode(v).Some? && CanonicalEncode(v) == CanonicalEncode(w)
       <==> Encodable(v) && Encodable(w) && Same(v, w)
  {
    if Encodable(v) && Encodable(w) {
      if Encode(v) == Encode(w) {
        PrefixFree(v, w, "", "");
      }
      if Same(v, w) {
        SameEncodesEqual(v, w);
      }
    }
  }

  lemma {:induction false} SameReflexive(v: Json)
    requires IsJson(v) && Encodable(v)
    ensures Same(v, v)
  {
    match v
    case Arr(xs) =>
      forall i | 0 <= i < |xs| ensures Same(xs[i], xs[i]) {
        SameReflexive(xs[i]);
      }
    case Obj(fs) =>
      forall i | 0 <= i < |fs|
        ensures Same(fs[i].1, fs[i].1) && HasKey(fs, fs[i].0)
      {
        assert fs[i].1 < fs[i];
        SameReflexive(fs[i].1);
      }
    case _ =>
  }

  /** Permuting the fields of an object does not change its encoding. */
  lemma {:induction false} FieldOrderIrrelevant(fs: seq<Field>, gs: seq<Field>)
    requires IsJson(Obj(fs)) && multiset(fs) == multiset(gs) && DistinctKeys(gs)
    ensures IsJson(Obj(gs)) && CanonicalEncode(Obj(fs)) == CanonicalEncode(Obj(gs))
  {
    SameElements(fs, gs);
    forall j | 0 <= j < |gs| ensures gs[j] in fs {}
    forall i | 0 <= i < |fs| ensures fs[i] in gs {}
    if Encodable(Obj(fs)) {
      assert Encodable(Obj(gs));
      forall i | 0 <= i < |fs| ensures Same(fs[i].1, fs[i].1) {
        SameReflexive(fs[i].1);
      }
      assert forall i, j :: 0 <= i < |fs| && 0 <= j < |gs| && fs[i].0 == gs[j].0 ==> fs[i] == gs[j];
      SameEncodesEqual(Obj(fs), Obj(gs));
    }
  }
}
