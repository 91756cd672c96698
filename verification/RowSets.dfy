/** Sets of rows picked by a predicate, and the values a label takes over them. Rows are named by their index. */
module RowSets {
  import opened Normalize

  ghost function Where(rows: seq<Row>, p: Row -> bool): set<nat> {
    set i | 0 <= i < |rows| && p(rows[i])
  }

  ghost function Values<A>(rows: seq<Row>, p: Row -> bool, f: Row -> A): set<A> {
    set i | 0 <= i < |rows| && p(rows[i]) :: f(rows[i])
  }

  function IdentityOfRow(row: Row): string {
    row.identity
  }

  lemma {:induction false} WhereAppend(rows: seq<Row>, row: Row, p: Row -> bool)
    ensures Where(rows + [row], p) == if p(row) then Where(rows, p) + {|rows|} else Where(rows, p)
    ensures |Where(rows + [row], p)| == |Where(rows, p)| + if p(row) then 1 else 0
  {
    assert Where(rows + [row], p) == if p(row) then Where(rows, p) + {|rows|} else Where(rows, p);
  }

  lemma {:induction false} WhereNarrower(rows: seq<Row>, p: Row -> bool, q: Row -> bool)
    requires forall row :: p(row) ==> q(row)
    ensures Where(rows, p) <= Where(rows, q)
  {
  }

  lemma {:induction false} ValuesAppend<A>(rows: seq<Row>, row: Row, p: Row -> bool, f: Row -> A)
    ensures Values(rows + [row], p, f) == if p(row) then Values(rows, p, f) + {f(row)} else Values(rows, p, f)
  {
    var all := rows + [row];
    forall x | x in Values(rows, p, f) ensures x in Values(all, p, f) {
      var i :| 0 <= i < |rows| && p(rows[i]) && f(rows[i]) == x;
      assert all[i] == rows[i];
    }
    assert all[|rows|] == row;
  }

  lemma {:induction false} OneMoreElement<A>(s: set<A>, x: A)
    ensures |s + {x}| == |s| + if x in s then 0 else 1
  {
    if x in s {
      assert s + {x} == s;
    }
  }

  /** Two labels that tell the same rows apart take equally many values on any rows. */
  lemma {:induction false} EquallyMany<A, B>(rows: seq<Row>, p: Row -> bool, f: Row -> A, g: Row -> B)
    requires forall r, s :: f(r) == f(s) <==> g(r) == g(s)
    ensures |Values(rows, p, f)| == |Values(rows, p, g)|
  {
    if rows == [] {
      assert Values(rows, p, f) == {} && Values(rows, p, g) == {};
    } else {
      var n := |rows| - 1;
      var init, row := rows[..n], rows[n];
      EquallyMany(init, p, f, g);
      assert rows == init + [row];
      ValuesAppend(init, row, p, f);
      ValuesAppend(init, row, p, g);
      if p(row) {
        OneMoreElement(Values(init, p, f), f(row));
        OneMoreElement(Values(init, p, g), g(row));
        SameNovelty(init, row, p, f, g);
      }
    }
  }

  lemma {:induction false} SameNovelty<A, B>(rows: seq<Row>, row: Row, p: Row -> bool, f: Row -> A, g: Row -> B)
    requires forall r, s :: f(r) == f(s) <==> g(r) == g(s)
    ensures f(row) in Values(rows, p, f) <==> g(row) in Values(rows, p, g)
  {
    if f(row) in Values(rows, p, f) {
      var i :| 0 <= i < |rows| && p(rows[i]) && f(rows[i]) == f(row);
      assert g(rows[i]) == g(row);
    }
    if g(row) in Values(rows, p, g) {
      var i :| 0 <= i < |rows| && p(rows[i]) && g(rows[i]) == g(row);
      assert f(rows[i]) == f(row);
    }
  }

  /** The values depend on which rows satisfy the predicate, not on the others. */
  lemma {:induction false} ValuesOfSame<A>(own: seq<Row>, rows: seq<Row>, p: Row -> bool, f: Row -> A)
    requires forall r :: p(r) ==> (r in own <==> r in rows)
    ensures Values(own, p, f) == Values(rows, p, f)
  {
    ValuesWithin(own, rows, p, f);
    ValuesWithin(rows, own, p, f);
  }

  lemma {:induction false} ValuesWithin<A>(own: seq<Row>, rows: seq<Row>, p: Row -> bool, f: Row -> A)
    requires forall r :: p(r) && r in own ==> r in rows
    ensures Values(own, p, f) <= Values(rows, p, f)
  {
    forall x | x in Values(own, p, f) ensures x in Values(rows, p, f) {
      var j :| 0 <= j < |own| && p(own[j]) && f(own[j]) == x;
      assert own[j] in own;
      var i :| 0 <= i < |rows| && rows[i] == own[j];
    }
  }
}
