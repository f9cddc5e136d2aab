/**
 * The hashable key under which a cluster subspace caches the orbit index
 * tables of a supercell: the rows of the supercell matrix, sorted in
 * Python's tuple order (lexicographic, a proper prefix first).
 */
module RowKeys {

  /** Python's `<=` on tuples of integers. */
  predicate LexLe(a: seq<int>, b: seq<int>)
    decreases |a|
  {
    a == [] || (b != [] && (a[0] < b[0] || (a[0] == b[0] && LexLe(a[1..], b[1..]))))
  }

  lemma {:induction false} LexReflexive(a: seq<int>)
    ensures LexLe(a, a)
    decreases |a|
  {
    if a != [] { LexReflexive(a[1..]); }
  }

  lemma {:induction false} LexTotal(a: seq<int>, b: seq<int>)
    ensures LexLe(a, b) || LexLe(b, a)
    decreases |a|
  {
    if a != [] && b != [] && a[0] == b[0] { LexTotal(a[1..], b[1..]); }
  }

  lemma {:induction false} LexAntisymmetric(a: seq<int>, b: seq<int>)
    requires LexLe(a, b) && LexLe(b, a)
    ensures a == b
    decreases |a|
  {
    if a != [] {
      LexAntisymmetric(a[1..], b[1..]);
      assert a == [a[0]] + a[1..] && b == [b[0]] + b[1..];
    }
  }

  lemma {:induction false} LexTransitive(a: seq<int>, b: seq<int>, c: seq<int>)
    requires LexLe(a, b) && LexLe(b, c)
    ensures LexLe(a, c)
    decreases |a|
  {
    if a != [] && a[0] == b[0] && b[0] == c[0] { LexTransitive(a[1..], b[1..], c[1..]); }
  }

  predicate SortedRows(s: seq<seq<int>>) {
    forall i, j :: 0 <= i < j < |s| ==> LexLe(s[i], s[j])
  }

  function Insert(x: seq<int>, s: seq<seq<int>>): (r: seq<seq<int>>)
    ensures |r| == |s| + 1 && multiset(r) == multiset(s) + multiset{x}
  {
    if s == [] then [x]
    else if LexLe(x, s[0]) then [x] + s
    else
      assert s == [s[0]] + s[1..];
      [s[0]] + Insert(x, s[1..])
  }

  lemma {:induction false} InsertSorted(x: seq<int>, s: seq<seq<int>>)
    requires SortedRows(s)
    ensures SortedRows(Insert(x, s))
  {
    if s == [] {
    } else if LexLe(x, s[0]) {
      var r := [x] + s;
      forall i, j | 0 <= i < j < |r| ensures LexLe(r[i], r[j]) {
        if i == 0 && j > 1 { LexTransitive(x, s[0], s[j - 1]); }
      }
    } else {
      LexTotal(x, s[0]);
      var tail := s[1..];
      InsertSorted(x, tail);
      var ins := Insert(x, tail);
      var r := [s[0]] + ins;
      forall i, j | 0 <= i < j < |r| ensures LexLe(r[i], r[j]) {
        if i == 0 {
          var y := r[j];
          assert y in multiset(ins);
          if y != x {
            assert y in tail;
            var k :| 0 <= k < |tail| && tail[k] == y;
            assert s[k + 1] == y;
          }
        }
      }
    }
  }

  /** The rows in ascending order (`sorted` in the source). */
  function SortRows(s: seq<seq<int>>): (r: seq<seq<int>>)
    ensures |r| == |s| && multiset(r) == multiset(s)
  {
    if s == [] then []
    else
      assert s == [s[0]] + s[1..];
      Insert(s[0], SortRows(s[1..]))
  }

  lemma {:induction false} SortRowsSorted(s: seq<seq<int>>)
    ensures SortedRows(SortRows(s))
  {
    if s != [] {
      SortRowsSorted(s[1..]);
      InsertSorted(s[0], SortRows(s[1..]));
    }
  }

  /** The first of a sorted sequence is below every element of it. */
  lemma HeadIsLeast(a: seq<seq<int>>, y: seq<int>)
    requires SortedRows(a) && y in a
    ensures LexLe(a[0], y)
  {
    var i :| 0 <= i < |a| && a[i] == y;
    if i == 0 { LexReflexive(y); }
  }

  lemma SortedTail(a: seq<seq<int>>)
    requires SortedRows(a) && a != []
    ensures SortedRows(a[1..]) && multiset(a[1..]) == multiset(a) - multiset{a[0]}
  {
    assert a == [a[0]] + a[1..];
    forall i, j | 0 <= i < j < |a| - 1 ensures LexLe(a[1..][i], a[1..][j]) {
      assert LexLe(a[i + 1], a[j + 1]);
    }
  }

  /** Two sorted arrangements of the same non-empty rows start alike and go on with the same rows. */
  lemma SameHeads(a: seq<seq<int>>, b: seq<seq<int>>)
    requires SortedRows(a) && SortedRows(b) && multiset(a) == multiset(b) && a != [] && b != []
    ensures a[0] == b[0] && SortedRows(a[1..]) && SortedRows(b[1..]) && multiset(a[1..]) == multiset(b[1..])
  {
    assert a[0] in multiset(b) && b[0] in multiset(a);
    HeadIsLeast(b, a[0]);
    HeadIsLeast(a, b[0]);
    LexAntisymmetric(a[0], b[0]);
    SortedTail(a);
    SortedTail(b);
  }

  /** Two sorted arrangements of the same rows are the same sequence. */
  lemma {:induction false} SortedUnique(a: seq<seq<int>>, b: seq<seq<int>>)
    requires SortedRows(a) && SortedRows(b) && multiset(a) == multiset(b)
    ensures a == b
    decreases |a|
  {
    if a != [] && b != [] {
      SameHeads(a, b);
      SortedUnique(a[1..], b[1..]);
      assert a == [a[0]] + a[1..] && b == [b[0]] + b[1..];
    } else {
      assert |multiset(a)| == |multiset(b)|;
    }
  }

  /** The cache key of a supercell matrix: its rows, sorted. */
  function CacheKey(scm: seq<seq<int>>): (key: seq<seq<int>>)
  {
    SortRows(scm)
  }

  /**
   * Two matrices share a cache key exactly when they hold the same rows,
   * whatever their order.
   */
  lemma CacheKeySameRows(a: seq<seq<int>>, b: seq<seq<int>>)
    ensures CacheKey(a) == CacheKey(b) <==> multiset(a) == multiset(b)
  {
    if multiset(a) == multiset(b) {
      SortRowsSorted(a);
      SortRowsSorted(b);
      SortedUnique(SortRows(a), SortRows(b));
    }
  }

  /** The key is sorted and holds exactly the matrix's rows. */
  lemma CacheKeyMeaning(scm: seq<seq<int>>)
    ensures SortedRows(CacheKey(scm)) && multiset(CacheKey(scm)) == multiset(scm)
  {
    SortRowsSorted(scm);
  }
}
