/** Counting over a finite relation given as a set of pairs.

    A relation `rel` between the elements of a sequence `xs` and those of a
    sequence `ys` is pictured as a 0/1 matrix: one row per element of `xs`,
    one column per element of `ys`, a 1 where the pair is in `rel`. The
    scheduler's 0/1 decision variables are such a matrix (teachers by active
    pairs, teachers by sessions), and every constraint it posts is a row or a
    column sum. The sequences fix the order in which rows and columns are
    read, as the source's loops over its lists do. */
module Counting {

  predicate Distinct<T(==)>(s: seq<T>) {
    forall i, j :: 0 <= i < j < |s| ==> s[i] != s[j]
  }

  /** `c` is obtained from `s` by deleting elements: it lists some of the
      elements of `s`, in the order in which `s` lists them. */
  predicate IsSubsequence<T(==)>(c: seq<T>, s: seq<T>)
    decreases |s|
  {
    c == [] ||
    (s != [] &&
     ((c[|c| - 1] == s[|s| - 1] && IsSubsequence(c[..|c| - 1], s[..|s| - 1])) ||
      IsSubsequence(c, s[..|s| - 1])))
  }

  /** The column of `y`: the elements of `xs` related to `y`, in the order of `xs`. */
  function Column<X(==, !new), Y(==)>(xs: seq<X>, y: Y, rel: set<(X, Y)>): (c: seq<X>)
    ensures |c| <= |xs|
    ensures forall x :: x in c <==> x in xs && (x, y) in rel
    ensures IsSubsequence(c, xs)
    ensures Distinct(xs) ==> Distinct(c)
  {
    if xs == [] then []
    else
      var init, last := xs[..|xs| - 1], xs[|xs| - 1];
      assert xs == init + [last];
      var c0 := Column(init, y, rel);
      var c := c0 + if (last, y) in rel then [last] else [];
      assert Distinct(xs) ==> last !in init;
      assert IsSubsequence(c0, init);
      assert (last, y) in rel ==> c[..|c| - 1] == c0 && c[|c| - 1] == last;
      assert (last, y) !in rel ==> c == c0;
      c
  }

  /** The row of `x`: how many elements of `ys` it is related to. */
  function RowCount<X(==), Y(==, !new)>(x: X, ys: seq<Y>, rel: set<(X, Y)>): (n: nat)
    ensures n <= |ys|
    ensures n == 0 <==> forall y :: y in ys ==> (x, y) !in rel
  {
    if ys == [] then 0
    else
      var init, last := ys[..|ys| - 1], ys[|ys| - 1];
      assert ys == init + [last];
      RowCount(x, init, rel) + if (x, last) in rel then 1 else 0
  }

  /** The number of ones in the matrix, read row by row. */
  function SumOfRows<X(==), Y(==, !new)>(xs: seq<X>, ys: seq<Y>, rel: set<(X, Y)>): nat
  {
    if xs == [] then 0
    else SumOfRows(xs[..|xs| - 1], ys, rel) + RowCount(xs[|xs| - 1], ys, rel)
  }

  /** The number of ones in the matrix, read column by column. */
  function SumOfColumns<X(==, !new), Y(==)>(xs: seq<X>, ys: seq<Y>, rel: set<(X, Y)>): nat
  {
    if ys == [] then 0
    else SumOfColumns(xs, ys[..|ys| - 1], rel) + |Column(xs, ys[|ys| - 1], rel)|
  }

  lemma {:induction false} NoRowsNoOnes<X(!new), Y>(ys: seq<Y>, rel: set<(X, Y)>)
    ensures SumOfColumns([], ys, rel) == 0
    decreases |ys|
  {
    if ys != [] {
      NoRowsNoOnes(ys[..|ys| - 1], rel);
    }
  }

  /** Adding one row to the matrix adds that row's ones to the column sums. */
  lemma {:induction false} ColumnsGainRow<X(!new), Y(!new)>(xs: seq<X>, ys: seq<Y>, rel: set<(X, Y)>)
    requires xs != []
    ensures SumOfColumns(xs, ys, rel)
            == SumOfColumns(xs[..|xs| - 1], ys, rel) + RowCount(xs[|xs| - 1], ys, rel)
    decreases |ys|
  {
    if ys != [] {
      ColumnsGainRow(xs, ys[..|ys| - 1], rel);
    }
  }

  /** Double counting: summing the rows and summing the columns count the same ones. */
  lemma {:induction false} DoubleCounting<X(!new), Y(!new)>(xs: seq<X>, ys: seq<Y>, rel: set<(X, Y)>)
    ensures SumOfRows(xs, ys, rel) == SumOfColumns(xs, ys, rel)
    decreases |xs|
  {
    if xs == [] {
      NoRowsNoOnes(ys, rel);
    } else {
      DoubleCounting(xs[..|xs| - 1], ys, rel);
      ColumnsGainRow(xs, ys, rel);
    }
  }

  /** When every column holds exactly `c` ones, the matrix holds `c` ones per column. */
  lemma {:induction false} UniformColumns<X(!new), Y>(xs: seq<X>, ys: seq<Y>, rel: set<(X, Y)>, c: nat)
    requires forall y :: y in ys ==> |Column(xs, y, rel)| == c
    ensures SumOfColumns(xs, ys, rel) == c * |ys|
    decreases |ys|
  {
    if ys != [] {
      var init, last := ys[..|ys| - 1], ys[|ys| - 1];
      assert forall y :: y in init ==> y in ys;
      UniformColumns(xs, init, rel, c);
      assert last in ys;
      assert SumOfColumns(xs, ys, rel) == SumOfColumns(xs, init, rel) + c;
      MulSucc(c, |init|);
    }
  }

  lemma MulSucc(c: nat, n: nat)
    ensures c * (n + 1) == c * n + c
  {
  }

  /** How many of the keys `ks` list `x` in the grouping `m`. */
  function Occurrences<X(==), K(==)>(m: map<K, seq<X>>, ks: seq<K>, x: X): nat
  {
    if ks == [] then 0
    else
      var last := ks[|ks| - 1];
      Occurrences(m, ks[..|ks| - 1], x) + if last in m && x in m[last] then 1 else 0
  }

  /** A grouping that lists `x` under exactly the keys `x` is related to has
      `x`'s row count as its number of occurrences of `x`. */
  lemma {:induction false} RowCountAsOccurrences<X, K(!new)>(x: X, ks: seq<K>, rel: set<(X, K)>, m: map<K, seq<X>>)
    requires forall k :: k in ks ==> ((x, k) in rel <==> k in m && x in m[k])
    ensures RowCount(x, ks, rel) == Occurrences(m, ks, x)
    decreases |ks|
  {
    if ks != [] {
      var init := ks[..|ks| - 1];
      assert forall k :: k in init ==> k in ks;
      RowCountAsOccurrences(x, init, rel, m);
      assert ks[|ks| - 1] in ks;
    }
  }
}
