/** Ranking of the per-feature attributions for the explanation: rows are
    ordered by descending absolute contribution with a stable sort, so rows of
    equal magnitude keep their feature order, and the first five are shown as
    the top contributing factors. */
module Ranking {
  import opened RealMath

  /** One explanation row: the feature's name, its signed contribution and the
      raw value that was entered for it. */
  datatype FeatureImportance = FeatureImportance(name: string, importance: real, originalValue: real)

  /** Number of rows shown as top contributing factors. */
  const TopCount: nat := 5

  /** Builds one row per contribution by pairing it with the feature's name
      and raw value at the same index. */
  function Importances(names: seq<string>, shap: seq<real>, features: seq<real>): (rows: seq<FeatureImportance>)
    requires |shap| <= |names| && |shap| <= |features|
    ensures |rows| == |shap|
    ensures forall i :: 0 <= i < |rows| ==>
              rows[i] == FeatureImportance(names[i], shap[i], features[i])
  {
    seq(|shap|, i requires 0 <= i < |shap| => FeatureImportance(names[i], shap[i], features[i]))
  }

  /** Absolute contribution of row `i`; 0 for an index past the end. */
  function Magnitude(rows: seq<FeatureImportance>, i: nat): (m: real)
    ensures m >= 0.0
    ensures i < |rows| ==> m == Abs(rows[i].importance)
  {
    if i < |rows| then Abs(rows[i].importance) else 0.0
  }

  /** The order a stable descending sort by |importance| induces on row
      indices: larger magnitude first, and among equal magnitudes the earlier
      row first. It is a strict total order on distinct indices. */
  predicate Precedes(rows: seq<FeatureImportance>, i: nat, j: nat) {
    || Magnitude(rows, i) > Magnitude(rows, j)
    || (Magnitude(rows, i) == Magnitude(rows, j) && i < j)
  }

  predicate IndicesOf(rows: seq<FeatureImportance>, order: seq<nat>) {
    forall k :: 0 <= k < |order| ==> order[k] < |rows|
  }

  /** Every earlier index precedes every later one. This says at once that the
      magnitudes are non-increasing, that ties keep their original order and
      that no index repeats. */
  predicate StrictlyRanked(rows: seq<FeatureImportance>, order: seq<nat>) {
    forall p, q :: 0 <= p < q < |order| ==> Precedes(rows, order[p], order[q])
  }

  predicate Distinct(order: seq<nat>) {
    forall p, q :: 0 <= p < q < |order| ==> order[p] != order[q]
  }

  /** `order` lists every row index exactly once, in ranked order. */
  predicate IsRanking(rows: seq<FeatureImportance>, order: seq<nat>) {
    && |order| == |rows|
    && IndicesOf(rows, order)
    && StrictlyRanked(rows, order)
    && forall i :: 0 <= i < |rows| ==> i in order
  }

  /** Places index `x` into an order just before the first index it precedes. */
  function Insert(rows: seq<FeatureImportance>, x: nat, order: seq<nat>): (r: seq<nat>)
    ensures |r| == |order| + 1
    ensures forall i :: i in r <==> i in order || i == x
    ensures IndicesOf(rows, order) && x < |rows| ==> IndicesOf(rows, r)
  {
    if |order| == 0 || Precedes(rows, x, order[0]) then
      [x] + order
    else
      [order[0]] + Insert(rows, x, order[1..])
  }

  /** Insertion sort of the given indices into ranked order. */
  function SortIndices(rows: seq<FeatureImportance>, order: seq<nat>): (r: seq<nat>)
    ensures |r| == |order|
    ensures forall i :: i in r <==> i in order
    ensures IndicesOf(rows, order) ==> IndicesOf(rows, r)
  {
    if |order| == 0 then [] else Insert(rows, order[0], SortIndices(rows, order[1..]))
  }

  lemma PrecedesTransitive(rows: seq<FeatureImportance>, i: nat, j: nat, k: nat)
    requires Precedes(rows, i, j) && Precedes(rows, j, k)
    ensures Precedes(rows, i, k)
  {
  }

  /** Inserting an index that is not yet present keeps an order strictly ranked. */
  lemma {:induction false} InsertRanked(rows: seq<FeatureImportance>, x: nat, order: seq<nat>)
    requires StrictlyRanked(rows, order)
    requires x !in order
    ensures StrictlyRanked(rows, Insert(rows, x, order))
  {
    var r := Insert(rows, x, order);
    if |order| == 0 || Precedes(rows, x, order[0]) {
      forall p, q | 0 <= p < q < |r|
        ensures Precedes(rows, r[p], r[q])
      {
        if p == 0 && q > 1 {
          PrecedesTransitive(rows, x, order[0], order[q - 1]);
        }
      }
    } else {
      var rest := Insert(rows, x, order[1..]);
      InsertRanked(rows, x, order[1..]);
      assert order[0] != x;
      assert Precedes(rows, order[0], x);
      forall q | 0 <= q < |rest|
        ensures Precedes(rows, order[0], rest[q])
      {
        assert rest[q] in rest;
        if rest[q] != x {
          var k :| 0 <= k < |order[1..]| && order[1..][k] == rest[q];
          assert order[k + 1] == rest[q];
        }
      }
    }
  }

  /** Insertion sort of distinct indices yields a strictly ranked order. */
  lemma {:induction false} SortRanked(rows: seq<FeatureImportance>, order: seq<nat>)
    requires Distinct(order)
    ensures StrictlyRanked(rows, SortIndices(rows, order))
  {
    if |order| > 0 {
      SortRanked(rows, order[1..]);
      assert order[0] !in order[1..];
      InsertRanked(rows, order[0], SortIndices(rows, order[1..]));
    }
  }

  function Iota(n: nat): (r: seq<nat>)
    ensures |r| == n
    ensures forall i :: 0 <= i < n ==> r[i] == i
  {
    seq(n, i requires 0 <= i < n => i)
  }

  /** The row indices in ranked order. */
  function RankOrder(rows: seq<FeatureImportance>): (order: seq<nat>)
    ensures IsRanking(rows, order)
  {
    var all := Iota(|rows|);
    SortRanked(rows, all);
    var order := SortIndices(rows, all);
    forall i | 0 <= i < |rows|
      ensures i in order
    {
      assert all[i] in all;
    }
    order
  }

  /** The rows gathered in the given index order. */
  function Gather(rows: seq<FeatureImportance>, order: seq<nat>): (r: seq<FeatureImportance>)
    requires IndicesOf(rows, order)
    ensures |r| == |order|
    ensures forall k :: 0 <= k < |r| ==> r[k] == rows[order[k]]
  {
    seq(|order|, k requires 0 <= k < |order| => rows[order[k]])
  }

  /** The explanation list: every row, by descending |importance|, ties in
      feature order. */
  function Rank(rows: seq<FeatureImportance>): (ranked: seq<FeatureImportance>)
    ensures |ranked| == |rows|
    ensures multiset(ranked) == multiset(rows)
    ensures forall p, q :: 0 <= p < q < |ranked| ==>
              Abs(ranked[p].importance) >= Abs(ranked[q].importance)
    ensures forall k :: 0 <= k < |ranked| ==> ranked[k] == rows[RankOrder(rows)[k]]
  {
    var order := RankOrder(rows);
    GatherSorted(rows, Iota(|rows|));
    assert Gather(rows, Iota(|rows|)) == rows;
    Gather(rows, order)
  }

  /** Gathering distributes over a leading index. */
  lemma GatherCons(rows: seq<FeatureImportance>, i: nat, order: seq<nat>)
    requires i < |rows|
    requires IndicesOf(rows, order)
    ensures IndicesOf(rows, [i] + order)
    ensures Gather(rows, [i] + order) == [rows[i]] + Gather(rows, order)
  {
  }

  /** Gathering through an insertion adds exactly the inserted row. */
  lemma {:induction false} GatherInsert(rows: seq<FeatureImportance>, x: nat, order: seq<nat>)
    requires x < |rows|
    requires IndicesOf(rows, order)
    ensures multiset(Gather(rows, Insert(rows, x, order)))
            == multiset(Gather(rows, order)) + multiset{rows[x]}
    decreases |order|
  {
    if |order| == 0 || Precedes(rows, x, order[0]) {
      GatherCons(rows, x, order);
    } else {
      var tail := order[1..];
      assert order == [order[0]] + tail;
      var rest := Insert(rows, x, tail);
      GatherInsert(rows, x, tail);
      GatherCons(rows, order[0], rest);
      GatherCons(rows, order[0], tail);
    }
  }

  /** Sorting the indices permutes the gathered rows. */
  lemma {:induction false} GatherSorted(rows: seq<FeatureImportance>, order: seq<nat>)
    requires IndicesOf(rows, order)
    ensures multiset(Gather(rows, SortIndices(rows, order))) == multiset(Gather(rows, order))
  {
    if |order| > 0 {
      var tail := order[1..];
      assert order == [order[0]] + tail;
      var rest := SortIndices(rows, tail);
      GatherSorted(rows, tail);
      GatherInsert(rows, order[0], rest);
      GatherCons(rows, order[0], tail);
    }
  }

  /** Ranking is stable: rows of equal magnitude appear in their original
      index order. */
  lemma RankIsStable(rows: seq<FeatureImportance>, p: nat, q: nat)
    requires p < q < |rows|
    requires Abs(Rank(rows)[p].importance) == Abs(Rank(rows)[q].importance)
    ensures RankOrder(rows)[p] < RankOrder(rows)[q]
  {
    var order := RankOrder(rows);
    assert Precedes(rows, order[p], order[q]);
  }

  /** A non-empty order contains its first index. */
  lemma HeadIsMember(order: seq<nat>)
    requires |order| > 0
    ensures order[0] in order
  {
  }

  /** The head of a strictly ranked order precedes every other index in it. */
  lemma FirstPrecedesRest(rows: seq<FeatureImportance>, order: seq<nat>, i: nat)
    requires StrictlyRanked(rows, order)
    requires i in order && i != order[0]
    ensures Precedes(rows, order[0], i)
  {
    var k :| 0 <= k < |order| && order[k] == i;
  }

  /** Two strictly ranked orders over the same indices are equal. */
  lemma {:induction false} RankedOrdersEqual(rows: seq<FeatureImportance>, a: seq<nat>, b: seq<nat>)
    requires IndicesOf(rows, a) && StrictlyRanked(rows, a)
    requires IndicesOf(rows, b) && StrictlyRanked(rows, b)
    requires forall i :: i in a <==> i in b
    ensures a == b
    decreases |a|
  {
    if |a| > 0 {
      assert a[0] in a;
      assert b[0] in b;
      if a[0] != b[0] {
        FirstPrecedesRest(rows, b, a[0]);
        FirstPrecedesRest(rows, a, b[0]);
        assert false;
      }
      forall i
        ensures i in a[1..] <==> i in b[1..]
      {
        if i in a[1..] {
          var k :| 1 <= k < |a| && a[k] == i;
          assert Precedes(rows, a[0], a[k]);
          assert i in b;
        }
        if i in b[1..] {
          var k :| 1 <= k < |b| && b[k] == i;
          assert Precedes(rows, b[0], b[k]);
          assert i in a;
        }
      }
      RankedOrdersEqual(rows, a[1..], b[1..]);
    } else if |b| > 0 {
      HeadIsMember(b);
      assert false;
    }
  }

  /** The ranking is fully determined: the only order of all row indices that
      is non-increasing in magnitude with ties in index order is the one
      `RankOrder` computes, so ranking the same rows twice gives the same list. */
  lemma RankDeterministic(rows: seq<FeatureImportance>, order: seq<nat>)
    requires IsRanking(rows, order)
    ensures order == RankOrder(rows)
  {
    var r := RankOrder(rows);
    forall i
      ensures i in order <==> i in r
    {
      if i in order {
        var k :| 0 <= k < |order| && order[k] == i;
      }
      if i in r {
        var k :| 0 <= k < |r| && r[k] == i;
      }
    }
    RankedOrdersEqual(rows, order, r);
  }

  /** A row whose magnitude is strictly the largest is ranked first. */
  lemma LargestRankedFirst(rows: seq<FeatureImportance>, j: nat)
    requires j < |rows|
    requires forall i :: 0 <= i < |rows| && i != j ==>
               Abs(rows[i].importance) < Abs(rows[j].importance)
    ensures Rank(rows)[0] == rows[j]
  {
    var order := RankOrder(rows);
    if order[0] != j {
      FirstPrecedesRest(rows, order, j);
      assert false;
    }
  }

  /** The top contributing factors: the first `TopCount` ranked rows, or all of
      them when there are fewer. */
  function TopFactors(ranked: seq<FeatureImportance>): (top: seq<FeatureImportance>)
    ensures |top| == if |ranked| < TopCount then |ranked| else TopCount
    ensures top <= ranked
  {
    if |ranked| <= TopCount then ranked else ranked[..TopCount]
  }

  /** No row left out of the top factors outweighs a row shown in them. */
  lemma TopFactorsDominate(rows: seq<FeatureImportance>)
    ensures forall p, q :: 0 <= p < |TopFactors(Rank(rows))| <= q < |rows| ==>
              Abs(Rank(rows)[p].importance) >= Abs(Rank(rows)[q].importance)
  {
  }
}
