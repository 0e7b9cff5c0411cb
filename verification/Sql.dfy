/** What every module needs: optional values, and the meaning of `ORDER BY ... LIMIT n`
    over a finite set of rows.  Rows with equal sort keys may come back in any order, so
    the query is a relation and the method that answers it is nondeterministic. */
module Sql {

  datatype Option<+T> = None | Some(value: T)

  function Min(a: int, b: int): int {
    if a <= b then a else b
  }

  /** A two-column sort key, compared column by column. */
  datatype Key = Key(major: int, minor: int) {
    predicate AtMost(other: Key) {
      major < other.major || (major == other.major && minor <= other.minor)
    }
  }

  ghost predicate Distinct<T>(s: seq<T>) {
    forall i, j :: 0 <= i < j < |s| ==> s[i] != s[j]
  }

  function Elements<T>(s: seq<T>): set<T> {
    set x | x in s
  }

  /** `out` is an answer to `SELECT * FROM rows ORDER BY key LIMIT limit`. */
  ghost predicate IsTop<T(!new)>(rows: set<T>, key: T -> Key, limit: nat, out: seq<T>) {
    && Distinct(out)
    && Elements(out) <= rows
    && |out| == Min(limit, |rows|)
    && (forall i, j :: 0 <= i < j < |out| ==> key(out[i]).AtMost(key(out[j])))
    && (forall i, x :: 0 <= i < |out| && x in rows && x !in out ==> key(out[i]).AtMost(key(x)))
  }

  lemma {:induction false} LeastExists<T(!new)>(rows: set<T>, key: T -> Key)
    requires rows != {}
    ensures exists m :: m in rows && forall x :: x in rows ==> key(m).AtMost(key(x))
  {
    var a :| a in rows;
    var rest := rows - {a};
    if rest == {} {
      assert rows == {a};
    } else {
      LeastExists(rest, key);
      var m :| m in rest && forall x :: x in rest ==> key(m).AtMost(key(x));
      var least := if key(m).AtMost(key(a)) then m else a;
      assert forall x :: x in rows ==> x in rest || x == a;
      assert least in rows && forall x :: x in rows ==> key(least).AtMost(key(x));
    }
  }

  lemma {:induction false} DistinctCount<T>(s: seq<T>)
    requires Distinct(s)
    ensures |Elements(s)| == |s|
  {
    if s == [] {
      assert Elements(s) == {};
    } else {
      var last := |s| - 1;
      DistinctCount(s[..last]);
      assert Elements(s) == Elements(s[..last]) + {s[last]};
      assert s[last] !in s[..last];
    }
  }

  lemma SomeElement<T>(s: set<T>) returns (x: T)
    requires s != {}
    ensures x in s
  {
    x :| x in s;
  }

  lemma SubsetCount<T>(a: set<T>, b: set<T>)
    requires a <= b
    ensures |a| <= |b|
    ensures |a| == |b| ==> a == b
  {
    assert b == a + (b - a) && a !! (b - a);
    assert |b| == |a| + |b - a|;
    if a != b {
      assert exists x :: x in b - a;
    }
  }

  /** The first `n` numbers. */
  function Below(n: nat): (s: set<nat>)
    ensures forall i :: i in s <==> 0 <= i < n
    ensures |s| == n
  {
    if n == 0 then {} else Below(n - 1) + {n - 1}
  }

  /** `out` is sorted and no row of `rest` belongs before any of it. */
  ghost predicate SortedBefore<T(!new)>(out: seq<T>, rest: set<T>, key: T -> Key) {
    && (forall i, j :: 0 <= i < j < |out| ==> key(out[i]).AtMost(key(out[j])))
    && (forall i, x :: 0 <= i < |out| && x in rest ==> key(out[i]).AtMost(key(x)))
  }

  lemma AppendLeast<T(!new)>(out: seq<T>, rest: set<T>, key: T -> Key, m: T)
    requires SortedBefore(out, rest, key) && m in rest && forall x :: x in rest ==> key(m).AtMost(key(x))
    ensures SortedBefore(out + [m], rest - {m}, key)
  {
  }

  lemma ElementsAppend<T>(s: seq<T>, x: T)
    requires Distinct(s) && x !in Elements(s)
    ensures Elements(s + [x]) == Elements(s) + {x} && Distinct(s + [x])
  {
  }

  /** Answers the query; ties are broken arbitrarily. */
  method OrderByLimit<T(==, !new)>(rows: set<T>, key: T -> Key, limit: nat) returns (out: seq<T>)
    ensures IsTop(rows, key, limit, out)
  {
    out := [];
    var rest := rows;
    while |out| < limit && rest != {}
      invariant Distinct(out) && Elements(out) <= rows
      invariant rest == rows - Elements(out)
      invariant |out| <= limit
      invariant SortedBefore(out, rest, key)
      decreases rest
    {
      LeastExists(rest, key);
      var m :| m in rest && forall x :: x in rest ==> key(m).AtMost(key(x));
      AppendLeast(out, rest, key, m);
      ElementsAppend(out, m);
      out := out + [m];
      rest := rest - {m};
    }
    DistinctCount(out);
    SubsetCount(Elements(out), rows);
    assert rest == {} ==> Elements(out) == rows;
  }
}
