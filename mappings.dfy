/**
 * The two module-level helpers of the cluster subspace that turn a
 * one-level hierarchy table (entry `i` lists the indices that `i` maps to)
 * into its inverse and into its transitive closure.
 */
module HierarchyMappings {

  /** Every listed index is a valid row of the table, as the source's indexing needs. */
  predicate ValuesInRange(m: seq<seq<nat>>) {
    forall i, j :: 0 <= i < |m| && 0 <= j < |m[i]| ==> m[i][j] < |m|
  }

  predicate NoDup(s: seq<nat>) {
    forall a, b :: 0 <= a < b < |s| ==> s[a] != s[b]
  }

  predicate StrictlyDescending(s: seq<nat>) {
    forall a, b :: 0 <= a < b < |s| ==> s[a] > s[b]
  }

  // ---------------------------------------------------------------------
  // invert_mapping
  // ---------------------------------------------------------------------

  /** The rows at or above `lo` that list `v`, from the highest row down. */
  function InvRow(m: seq<seq<nat>>, v: nat, lo: nat): (r: seq<nat>)
    ensures forall x :: x in r ==> lo <= x < |m|
    decreases |m| - lo
  {
    if lo >= |m| then []
    else InvRow(m, v, lo + 1) + (if v in m[lo] then [lo] else [])
  }

  lemma {:induction false} InvRowMeaning(m: seq<seq<nat>>, v: nat, lo: nat)
    ensures forall i :: i in InvRow(m, v, lo) <==> lo <= i < |m| && v in m[i]
    ensures StrictlyDescending(InvRow(m, v, lo))
    decreases |m| - lo
  {
    if lo < |m| {
      InvRowMeaning(m, v, lo + 1);
      var r := InvRow(m, v, lo + 1);
      if v in m[lo] {
        var t := r + [lo];
        forall a, b | 0 <= a < b < |t| ensures t[a] > t[b] {
          if b == |t| - 1 { assert t[a] in r; }
        }
      }
    }
  }

  /**
   * The inverse table: row `v` lists every `i` whose row lists `v`, each
   * once, from the highest `i` down.
   */
  method InvertMapping(m: seq<seq<nat>>) returns (inv: seq<seq<nat>>)
    requires ValuesInRange(m)
    ensures |inv| == |m|
    ensures forall v, i :: 0 <= v < |m| && 0 <= i < |m| ==> (i in inv[v] <==> v in m[i])
    ensures forall v :: 0 <= v < |m| ==> NoDup(inv[v]) && StrictlyDescending(inv[v])
  {
    inv := seq(|m|, _ => []);
    var i := |m|;
    while i > 0
      invariant 0 <= i <= |m| && |inv| == |m|
      invariant forall v :: 0 <= v < |m| ==> inv[v] == InvRow(m, v, i)
    {
      i := i - 1;
      var values := m[i];
      var k := 0;
      while k < |values|
        invariant 0 <= k <= |values| && |inv| == |m|
        invariant forall v :: 0 <= v < |m| ==>
          inv[v] == if v in values[..k] then InvRow(m, v, i + 1) + [i] else InvRow(m, v, i + 1)
      {
        var value := values[k];
        assert values[..k + 1] == values[..k] + [value];
        if i !in inv[value] {
          inv := inv[value := inv[value] + [i]];
        }
        k := k + 1;
      }
      assert values[..k] == values;
    }
    forall v | 0 <= v < |m| ensures NoDup(inv[v]) && StrictlyDescending(inv[v]) {
      InvRowMeaning(m, v, 0);
    }
    forall v, i | 0 <= v < |m| && 0 <= i < |m| ensures i in inv[v] <==> v in m[i] {
      InvRowMeaning(m, v, 0);
    }
  }

  // ---------------------------------------------------------------------
  // get_complete_mapping
  // ---------------------------------------------------------------------

  function Elems(s: seq<nat>): set<nat> { set x | x in s }

  /** The indices one step away from `s`. */
  function Layer(m: seq<seq<nat>>, s: set<nat>): set<nat> {
    set x, y | x in s && x < |m| && y in m[x] :: y
  }

  /** The indices exactly `d` steps after `s`. */
  function LayerN(m: seq<seq<nat>>, s: set<nat>, d: nat): set<nat> {
    if d == 0 then s else Layer(m, LayerN(m, s, d - 1))
  }

  /** The indices at most `d - 1` steps after `s`: `s` and its first `d - 1` layers. */
  function Within(m: seq<seq<nat>>, s: set<nat>, d: nat): set<nat> {
    if d == 0 then {} else Within(m, s, d - 1) + LayerN(m, s, d - 1)
  }

  /** `x` is reachable from row `i` in one or more steps. */
  ghost predicate Reachable(m: seq<seq<nat>>, i: nat, x: nat)
    requires i < |m|
  {
    exists d: nat :: x in Within(m, Elems(m[i]), d)
  }

  /**
   * A ranking under which every step strictly descends: the table has no
   * cycle. (The source's inner loop never ends on a cyclic table.)
   */
  predicate Ranked(m: seq<seq<nat>>, rank: seq<nat>) {
    |rank| == |m|
    && ValuesInRange(m)
    && forall i, j :: 0 <= i < |m| && 0 <= j < |m[i]| ==> rank[m[i][j]] < rank[i]
  }

  lemma {:induction false} LayerRank(m: seq<seq<nat>>, rank: seq<nat>, s: set<nat>, bound: int)
    requires Ranked(m, rank)
    requires forall x :: x in s ==> x < |m| && rank[x] < bound
    ensures forall y :: y in Layer(m, s) ==> y < |m| && rank[y] < bound - 1
  {
    forall y | y in Layer(m, s) ensures y < |m| && rank[y] < bound - 1 {
      var x :| x in s && x < |m| && y in m[x];
      var j :| 0 <= j < |m[x]| && m[x][j] == y;
    }
  }

  lemma {:induction false} EmptyLayersStay(m: seq<seq<nat>>, s: set<nat>, d: nat, k: nat)
    requires LayerN(m, s, d) == {}
    ensures LayerN(m, s, d + k) == {}
    decreases k
  {
    if k > 0 { EmptyLayersStay(m, s, d, k - 1); }
  }

  lemma {:induction false} WithinStable(m: seq<seq<nat>>, s: set<nat>, d: nat, e: nat)
    requires LayerN(m, s, d) == {}
    ensures Within(m, s, e) <= Within(m, s, d)
    decreases e
  {
    if e > 0 {
      WithinStable(m, s, d, e - 1);
      if e - 1 >= d {
        EmptyLayersStay(m, s, d, e - 1 - d);
      } else {
        WithinGrows(m, s, e, d);
      }
    }
  }

  lemma {:induction false} WithinGrows(m: seq<seq<nat>>, s: set<nat>, d: nat, e: nat)
    requires d <= e
    ensures Within(m, s, d) <= Within(m, s, e)
    decreases e
  {
    if d < e { WithinGrows(m, s, d, e - 1); }
  }

  /**
   * One pass of the inner loop: append the values of `next` that the row
   * does not hold yet, in order.
   */
  method AppendNew(row: seq<nat>, next: seq<nat>) returns (out: seq<nat>)
    ensures |row| <= |out| && out[..|row|] == row
    ensures Elems(out) == Elems(row) + Elems(next)
    ensures forall a :: |row| <= a < |out| ==> out[a] !in row
    ensures forall a, b :: |row| <= a < b < |out| ==> out[a] != out[b]
  {
    out := row;
    var k := 0;
    while k < |next|
      invariant 0 <= k <= |next|
      invariant |row| <= |out| && out[..|row|] == row
      invariant Elems(out) == Elems(row) + Elems(next[..k])
      invariant forall a :: |row| <= a < |out| ==> out[a] !in row
      invariant forall a, b :: |row| <= a < b < |out| ==> out[a] != out[b]
    {
      assert next[..k + 1] == next[..k] + [next[k]];
      assert Elems(next[..k + 1]) == Elems(next[..k]) + {next[k]};
      if next[k] !in out {
        assert Elems(out + [next[k]]) == Elems(out) + {next[k]};
        out := out + [next[k]];
      }
      k := k + 1;
    }
    assert next[..k] == next;
  }

  /** The next layer, without repeats, in order of discovery. */
  method NextLayer(m: seq<seq<nat>>, next: seq<nat>) returns (layer: seq<nat>)
    requires forall x :: x in next ==> x < |m|
    ensures Elems(layer) == Layer(m, Elems(next))
    ensures NoDup(layer)
  {
    layer := [];
    var k := 0;
    while k < |next|
      invariant 0 <= k <= |next|
      invariant Elems(layer) == Layer(m, Elems(next[..k]))
      invariant NoDup(layer)
    {
      var x := next[k];
      assert x in next;
      var succ := m[x];
      var j := 0;
      while j < |succ|
        invariant 0 <= j <= |succ|
        invariant Elems(layer) == Layer(m, Elems(next[..k])) + Elems(succ[..j])
        invariant NoDup(layer)
      {
        assert succ[..j + 1] == succ[..j] + [succ[j]];
        assert Elems(succ[..j + 1]) == Elems(succ[..j]) + {succ[j]};
        if succ[j] !in layer {
          assert Elems(layer + [succ[j]]) == Elems(layer) + {succ[j]};
          layer := layer + [succ[j]];
        }
        j := j + 1;
      }
      assert succ[..j] == succ;
      assert next[..k + 1] == next[..k] + [x];
      assert Elems(next[..k + 1]) == Elems(next[..k]) + {x};
      LayerUnion(m, Elems(next[..k]), x);
      k := k + 1;
    }
    assert next[..k] == next;
  }

  lemma LayerUnion(m: seq<seq<nat>>, s: set<nat>, x: nat)
    requires x < |m|
    ensures Layer(m, s + {x}) == Layer(m, s) + Elems(m[x])
  {
  }

  /**
   * The completed table: row `i` starts with the original row and then
   * lists, once each, the further indices reachable from `i`; together it
   * holds exactly the indices reachable from `i` in one or more steps.
   * The ranking is ghost: it only states that the table is acyclic.
   */
  method CompleteMapping(m: seq<seq<nat>>, ghost rank: seq<nat>) returns (out: seq<seq<nat>>)
    requires Ranked(m, rank)
    ensures |out| == |m|
    ensures forall i :: 0 <= i < |m| ==> |m[i]| <= |out[i]| && out[i][..|m[i]|] == m[i]
    ensures forall i, a :: 0 <= i < |m| && |m[i]| <= a < |out[i]| ==> out[i][a] !in m[i]
    ensures forall i, a, b :: 0 <= i < |m| && |m[i]| <= a < b < |out[i]| ==> out[i][a] != out[i][b]
    ensures forall i, x :: 0 <= i < |m| ==> (x in out[i] <==> Reachable(m, i, x))
  {
    out := m;
    var i := |m|;
    while i > 0
      invariant 0 <= i <= |m| && |out| == |m|
      invariant forall j :: 0 <= j < i ==> out[j] == m[j]
      invariant forall j :: i <= j < |m| ==> |m[j]| <= |out[j]| && out[j][..|m[j]|] == m[j]
      invariant forall j, a :: i <= j < |m| && |m[j]| <= a < |out[j]| ==> out[j][a] !in m[j]
      invariant forall j, a, b :: i <= j < |m| && |m[j]| <= a < b < |out[j]| ==> out[j][a] != out[j][b]
      invariant forall j, x :: i <= j < |m| ==> (x in out[j] <==> Reachable(m, j, x))
    {
      i := i - 1;
      var row := CompleteRow(m, rank, i);
      out := out[i := row];
    }
  }

  lemma ReachAfterEmptyLayer(m: seq<seq<nat>>, i: nat, d: nat, row: seq<nat>)
    requires i < |m|
    requires LayerN(m, Elems(m[i]), d) == {}
    requires Elems(row) == Elems(m[i]) + Within(m, Elems(m[i]), d)
    ensures forall x :: x in row <==> Reachable(m, i, x)
  {
    var s := Elems(m[i]);
    forall x | x in row ensures Reachable(m, i, x) {
      assert x in Elems(row);
      if x in s {
        assert x in Within(m, s, 1);
      }
    }
    forall x | Reachable(m, i, x) ensures x in row {
      var e: nat :| x in Within(m, s, e);
      WithinStable(m, s, d, e);
      assert x in Elems(row);
    }
  }

  /**
   * `row` starts with `base` and continues with values that are not in
   * `base` and appear once each.
   */
  predicate ExtendsFresh(row: seq<nat>, base: seq<nat>) {
    |base| <= |row| && row[..|base|] == base
    && (forall a :: |base| <= a < |row| ==> row[a] !in base)
    && (forall a, b :: |base| <= a < b < |row| ==> row[a] != row[b])
  }

  lemma ExtendsFreshTrans(grown: seq<nat>, row: seq<nat>, base: seq<nat>)
    requires ExtendsFresh(row, base) && ExtendsFresh(grown, row)
    ensures ExtendsFresh(grown, base)
  {
    assert grown[..|base|] == row[..|base|];
    forall a | |base| <= a < |grown| ensures grown[a] !in base {
      if a >= |row| {
        assert grown[a] !in row;
        assert forall x :: x in base ==> x in row[..|base|];
      } else {
        assert grown[a] == row[a];
      }
    }
    forall a, b | |base| <= a < b < |grown| ensures grown[a] != grown[b] {
      if b >= |row| && a < |row| {
        assert grown[b] !in row;
        assert grown[a] == row[a];
      } else if b < |row| {
        assert grown[a] == row[a] && grown[b] == row[b];
      }
    }
  }

  /** The invariant of the inner loop of the completion of row `i`, after `d` passes. */
  ghost predicate RowPass(m: seq<seq<nat>>, rank: seq<nat>, i: nat, row: seq<nat>, next: seq<nat>, d: nat)
    requires Ranked(m, rank) && i < |m|
  {
    ExtendsFresh(row, m[i])
    && Elems(next) == LayerN(m, Elems(m[i]), d)
    && Elems(row) == Elems(m[i]) + Within(m, Elems(m[i]), d)
    && (forall x :: x in next ==> x < |m| && rank[x] + d < rank[i])
    && d <= rank[i]
  }

  /** The layers and ranks of one pass of the inner loop. */
  lemma LayersStep(m: seq<seq<nat>>, rank: seq<nat>, i: nat, row: set<nat>, next: set<nat>, d: nat, layer: set<nat>)
    requires Ranked(m, rank) && i < |m| && next != {}
    requires next == LayerN(m, Elems(m[i]), d) && row == Elems(m[i]) + Within(m, Elems(m[i]), d)
    requires forall x :: x in next ==> x < |m| && rank[x] + d < rank[i]
    requires layer == Layer(m, next)
    ensures layer == LayerN(m, Elems(m[i]), d + 1)
    ensures row + next == Elems(m[i]) + Within(m, Elems(m[i]), d + 1)
    ensures forall x :: x in layer ==> x < |m| && rank[x] + (d + 1) < rank[i]
    ensures d + 1 <= rank[i]
  {
    var x0 :| x0 in next;
    LayerRank(m, rank, next, rank[i] - d);
  }

  /** One pass of the inner loop keeps its invariant. */
  lemma RowPassStep(m: seq<seq<nat>>, rank: seq<nat>, i: nat, row: seq<nat>, next: seq<nat>, d: nat,
                    grown: seq<nat>, layer: seq<nat>)
    requires Ranked(m, rank) && i < |m| && RowPass(m, rank, i, row, next, d) && |next| > 0
    requires ExtendsFresh(grown, row) && Elems(grown) == Elems(row) + Elems(next)
    requires Elems(layer) == Layer(m, Elems(next))
    ensures RowPass(m, rank, i, grown, layer, d + 1)
  {
    ExtendsFreshTrans(grown, row, m[i]);
    assert next[0] in Elems(next);
    LayersStep(m, rank, i, Elems(row), Elems(next), d, Elems(layer));
    forall x | x in layer ensures x < |m| && rank[x] + (d + 1) < rank[i] {
      assert x in Elems(layer);
    }
  }

  /** The completion of one row: the body of the source's outer loop. */
  method CompleteRow(m: seq<seq<nat>>, ghost rank: seq<nat>, i: nat) returns (row: seq<nat>)
    requires Ranked(m, rank) && i < |m|
    ensures |m[i]| <= |row| && row[..|m[i]|] == m[i]
    ensures forall a :: |m[i]| <= a < |row| ==> row[a] !in m[i]
    ensures forall a, b :: |m[i]| <= a < b < |row| ==> row[a] != row[b]
    ensures forall x :: x in row <==> Reachable(m, i, x)
  {
    row := m[i];
    var next: seq<nat> := m[i];
    ghost var d: nat := 0;
    while |next| > 0
      invariant RowPass(m, rank, i, row, next, d)
      decreases rank[i] - d
    {
      var grown := AppendNew(row, next);
      var layer := NextLayer(m, next);
      RowPassStep(m, rank, i, row, next, d, grown, layer);
      row, next := grown, layer;
      d := d + 1;
    }
    ReachAfterEmptyLayer(m, i, d, row);
  }
}
