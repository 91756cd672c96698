/** The encodings that two implementations agree on (`tests/unit/test_hashing.py:16-62`). */
module HashingVectors {
  import opened Text
  import opened Sorting
  import opened Hashing

  /** One byte below U+0080, two below U+0800, three below U+10000, else four. */
  lemma {:induction false} WidthsOfUtf8(c: char)
    ensures Utf8Width(c) == 1 <==> c as int <= 0x7F
    ensures Utf8Width(c) == 2 <==> 0x80 <= c as int <= 0x7FF
    ensures Utf8Width(c) == 3 <==> 0x800 <= c as int <= 0xFFFF
    ensures Utf8Width(c) == 4 <==> 0x1_0000 <= c as int
  {
  }

  lemma {:induction false} Utf8Joined(s: string, t: string)
    ensures Utf8Length(s + t) == Utf8Length(s) + Utf8Length(t)
  {
    if s == "" {
      assert s + t == t;
    } else {
      Utf8Joined(s[1..], t);
      assert (s + t)[1..] == s[1..] + t;
    }
  }

  lemma {:induction false} AsciiLength(s: string)
    requires forall i :: 0 <= i < |s| ==> s[i] as int < 0x80
    ensures Utf8Length(s) == |s|
  {
    if s != "" {
      AsciiLength(s[1..]);
    }
  }

  lemma {:induction false} Numerals()
    ensures Decimal(0) == "0" && Decimal(1) == "1" && Decimal(2) == "2" && Decimal(3) == "3" && Decimal(5) == "5"
    ensures Decimal(42) == "42" && IntText(42) == "42" && IntText(0) == "0" && IntText(1) == "1" && IntText(-1) == "-1"
  {
    assert Decimal(4) == "4" && Decimal(42) == Decimal(4) + "2" == "42";
    assert IntText(-1) == "-" + "1" == "-1";
  }

  /** Tag, length, colon, content. */
  lemma {:induction false} Headed(tag: string, n: string, body: string)
    ensures tag + (n + ":" + body) == tag + n + ":" + body
  {
  }

  lemma {:induction false} ScalarVectors()
    ensures CanonicalEncode(Null) == Some("n")
    ensures CanonicalEncode(Bool(true)) == Some("b1") && CanonicalEncode(Bool(false)) == Some("b0")
    ensures CanonicalEncode(Num(Int(42))) == Some("d2:42") && CanonicalEncode(Num(Integral(42))) == Some("d2:42")
    ensures CanonicalEncode(Num(Int(-1))) == Some("d2:-1")
    ensures CanonicalEncode(Num(Fractional("1.5"))) == Some("d3:1.5")
    ensures CanonicalEncode(Num(Integral(0))) == Some("d1:0")
    ensures CanonicalEncode(Num(NonFinite)) == None && CanonicalEncode(Other) == None
  {
    Numerals();
    assert "d" + ("2" + ":" + "42") == "d2:42";
    assert "d" + ("2" + ":" + "-1") == "d2:-1";
    assert "d" + ("3" + ":" + "1.5") == "d3:1.5";
    assert "d" + ("1" + ":" + "0") == "d1:0";
  }

  /** One letter below U+0080. */
  lemma {:induction false} LetterText(c: char)
    requires c as int < 0x80
    ensures EncodeText([c]) == Encode(Str([c])) == "s1:" + [c]
  {
    Numerals();
    AsciiLength([c]);
    assert "s" + ("1" + ":" + [c]) == "s1:" + [c];
  }

  lemma {:induction false} TextVectors()
    ensures CanonicalEncode(Str("")) == Some("s0:") && CanonicalEncode(Str("abc")) == Some("s3:abc")
    ensures CanonicalEncode(Str("\U{e9}\U{2014}")) == Some("s5:\U{e9}\U{2014}")
  {
    Numerals();
    AsciiLength("abc");
    assert "s" + ("0" + ":" + "") == "s0:";
    assert "s" + ("3" + ":" + "abc") == "s3:abc";
    assert Utf8Length("\U{e9}") == 2 && Utf8Length("\U{2014}") == 3;
    Utf8Joined("\U{e9}", "\U{2014}");
    assert "\U{e9}" + "\U{2014}" == "\U{e9}\U{2014}";
    assert "s" + ("5" + ":" + "\U{e9}\U{2014}") == "s5:\U{e9}\U{2014}";
  }

  lemma {:induction false} PairEncoded(x: Json, y: Json)
    requires Encodable(x) && Encodable(y)
    ensures CanonicalEncode(Arr([x, y])) == Some("a2:" + (Encode(x) + Encode(y)))
  {
    Numerals();
    assert [y][1..] == [] && [x, y][1..] == [y];
    assert EncodeAll([y]) == Encode(y) + EncodeAll([]) == Encode(y);
    assert EncodeAll([x, y]) == Encode(x) + EncodeAll([y]);
    Headed("a", "2", Encode(x) + Encode(y));
    assert "a" + "2" + ":" == "a2:";
  }

  lemma {:induction false} ArrayVectors()
    ensures CanonicalEncode(Arr([Str("a"), Str("b")])) == Some("a2:s1:as1:b")
    ensures CanonicalEncode(Arr([Bool(true), Null])) == Some("a2:b1n")
  {
    PairEncoded(Str("a"), Str("b"));
    PairEncoded(Bool(true), Null);
    LetterText('a');
    LetterText('b');
    assert Encode(Str("a")) == "s1:a" && Encode(Str("b")) == "s1:b";
    assert "a2:" + ("s1:a" + "s1:b") == "a2:s1:as1:b";
    assert "a2:" + ("b1" + "n") == "a2:b1n";
  }

  lemma {:induction false} SortThree(x: Part, y: Part, z: Part)
    requires Less(x.0, y.0) && Less(y.0, z.0)
    ensures Sort([y, x, z], KeyOrder) == [x, y, z]
  {
    LessTrichotomy(x.0, y.0);
    LessTrichotomy(y.0, z.0);
    LessTransitive(x.0, y.0, z.0);
    LessTrichotomy(x.0, z.0);
    assert [y, x, z][1..] == [x, z] && [x, z][1..] == [z] && [z][1..] == [];
    assert Sort([z], KeyOrder) == [z];
    assert Sort([x, z], KeyOrder) == [x, z];
    assert Insert(y, [z], KeyOrder) == [y, z];
  }

  lemma {:induction false} JoinThree(x: Part, y: Part, z: Part)
    ensures Join([x, y, z]) == EncodeText(x.0) + (x.1 + (EncodeText(y.0) + (y.1 + (EncodeText(z.0) + (z.1 + "")))))
  {
    assert [x, y, z][1..] == [y, z] && [y, z][1..] == [z] && [z][1..] == [];
    assert Join([z]) == EncodeText(z.0) + (z.1 + Join([]));
    assert Join([y, z]) == EncodeText(y.0) + (y.1 + Join([z]));
  }

  lemma {:induction false} PartsOfThree(x: Field, y: Field, z: Field)
    requires Encodable(x.1) && Encodable(y.1) && Encodable(z.1)
    ensures Parts([x, y, z]) == [(x.0, Encode(x.1)), (y.0, Encode(y.1)), (z.0, Encode(z.1))]
  {
  }

  lemma {:induction false} LetterOrder(c: char, d: char)
    requires c < d
    ensures Less([c], [d])
  {
  }

  /** The keys of a mapping are sorted. */
  lemma {:induction false} NestedVector()
    ensures CanonicalEncode(Obj([("b", Num(Int(1))), ("a", Str("x")), ("c", Arr([Bool(true), Null]))]))
         == Some("o3:s1:as1:xs1:bd1:1s1:ca2:b1n")
  {
    Numerals();
    ArrayVectors();
    LetterText('a');
    LetterText('b');
    LetterText('c');
    LetterText('x');
    assert "d" + ("1" + ":" + "1") == "d1:1";
    PartsOfThree(("b", Num(Int(1))), ("a", Str("x")), ("c", Arr([Bool(true), Null])));
    var x, y, z := ("a", "s1:x"), ("b", "d1:1"), ("c", "a2:b1n");
    assert EncodeText("a") == "s1:a" && EncodeText("b") == "s1:b" && EncodeText("c") == "s1:c" && Encode(Str("x")) == "s1:x";
    LetterOrder('a', 'b');
    LetterOrder('b', 'c');
    SortThree(x, y, z);
    JoinThree(x, y, z);
    Joined();
  }

  lemma {:induction false} JoinedTail()
    ensures "s1:b" + ("d1:1" + ("s1:c" + ("a2:b1n" + ""))) == "s1:bd1:1s1:ca2:b1n"
  {
    assert "s1:c" + ("a2:b1n" + "") == "s1:ca2:b1n";
  }

  lemma {:induction false} Joined()
    ensures "o" + ("3" + ":" + ("s1:a" + ("s1:x" + ("s1:b" + ("d1:1" + ("s1:c" + ("a2:b1n" + ""))))))) == "o3:s1:as1:xs1:bd1:1s1:ca2:b1n"
  {
    JoinedTail();
    assert "s1:a" + ("s1:x" + "s1:bd1:1s1:ca2:b1n") == "s1:as1:xs1:bd1:1s1:ca2:b1n";
  }
}
