/**
 * Kahn's algorithm as both topological sorts run it (unittest.h:796-846 and
 * unittest.h:897-956): `mark[j]` holds the number of live incoming edges of
 * an unplaced node and -1 once the node is placed; each round places the
 * lowest-indexed node whose mark is 0, overwrites every edge it is the
 * source of with -1 and decrements the targets' marks. A round that finds
 * no node with mark 0 reports a cycle.
 */
module Kahn {
  import opened Base
  import opened Dag

  /** The element type of the `mark` vector, `int8_t`. */
  newtype Int8 = x: int | -128 <= x < 128

  /** Graphs the sort handles: in-degrees fit the `int8_t` marks. */
  predicate Schedulable(dag: seq<seq<int>>) {
    Graph(dag) && forall i :: 0 <= i < |dag| ==> |dag[i]| <= 127
  }

  /** `done` is a sequence of distinct nodes of `dag`. */
  predicate Placed(dag: seq<seq<int>>, done: seq<int>) {
    Distinct(done) && forall k :: 0 <= k < |done| ==> 0 <= done[k] < |dag|
  }

  /** Node `j` can be placed next: it is unplaced and all its sources are placed. */
  predicate Ready(dag: seq<seq<int>>, done: seq<int>, j: int)
    requires 0 <= j < |dag|
  {
    j !in done && forall k :: 0 <= k < |dag[j]| ==> dag[j][k] in done
  }

  /** The lowest node at or above `j` that is ready. */
  function FirstReady(dag: seq<seq<int>>, done: seq<int>, j: nat): (r: Option<int>)
    ensures r.Some? ==> j <= r.value < |dag| && Ready(dag, done, r.value)
    ensures r.Some? ==> forall y :: j <= y < r.value ==> !Ready(dag, done, y)
    ensures r.None? ==> forall y :: j <= y < |dag| ==> !Ready(dag, done, y)
    decreases |dag| - j
  {
    if j >= |dag| then None
    else if Ready(dag, done, j) then Some(j)
    else FirstReady(dag, done, j + 1)
  }

  /**
   * The order the sort completes from the placed prefix `done`: the lowest
   * ready node is placed next, and a step with no ready node fails.
   */
  function KahnFrom(dag: seq<seq<int>>, done: seq<int>): Option<seq<int>>
    requires Placed(dag, done)
    decreases |dag| - |done|
  {
    if |done| >= |dag| then Some(done)
    else match FirstReady(dag, done, 0)
      case None => None
      case Some(x) => KahnFrom(dag, done + [x])
  }

  /** `r` lists every node once, each after all of its sources. */
  predicate Topological(dag: seq<seq<int>>, r: seq<int>) {
    IsPermutationOfRange(r, |dag|)
    && forall q, k :: 0 <= q < |r| && 0 <= k < |dag[r[q]]| ==> dag[r[q]][k] in r[..q]
  }

  // ----- The state of the imperative sort -----

  /** An edge entry after the placed nodes' edges were overwritten with -1. */
  function Residual(dag: seq<seq<int>>, done: seq<int>): (r: seq<seq<int>>)
    ensures |r| == |dag|
    ensures forall j :: 0 <= j < |dag| ==> |r[j]| == |dag[j]|
    ensures forall j, k :: 0 <= j < |dag| && 0 <= k < |dag[j]| ==>
      r[j][k] == if dag[j][k] in done then -1 else dag[j][k]
  {
    seq(|dag|, j requires 0 <= j < |dag| =>
      seq(|dag[j]|, k requires 0 <= k < |dag[j]| => if dag[j][k] in done then -1 else dag[j][k]))
  }

  /** The number of entries of an edge list that are not -1. */
  function Live(row: seq<int>): (r: nat)
    ensures r <= |row|
  {
    if row == [] then 0 else Live(row[..|row| - 1]) + (if row[|row| - 1] != -1 then 1 else 0)
  }

  /** The number of entries equal to `x`. */
  function Occ(row: seq<int>, x: int): (r: nat)
    ensures r <= |row|
  {
    if row == [] then 0 else Occ(row[..|row| - 1], x) + (if row[|row| - 1] == x then 1 else 0)
  }

  /** The edge list with every entry equal to `x` overwritten with -1. */
  function Replace(row: seq<int>, x: int): (r: seq<int>)
    ensures |r| == |row| && forall k :: 0 <= k < |row| ==> r[k] == if row[k] == x then -1 else row[k]
  {
    seq(|row|, k requires 0 <= k < |row| => if row[k] == x then -1 else row[k])
  }

  /** The mark of node `j` with `done` placed. */
  function MarkOf(dag: seq<seq<int>>, done: seq<int>, j: int): int
    requires 0 <= j < |dag|
  {
    if j in done then -1 else Live(Residual(dag, done)[j])
  }

  /** The state `(dag, mark)` of the sort after placing `done`. */
  ghost predicate SortState(dag: seq<seq<int>>, done: seq<int>, cur: seq<seq<int>>, mark: seq<Int8>) {
    Placed(dag, done)
    && (forall q, k :: 0 <= q < |done| && 0 <= k < |dag[done[q]]| ==> dag[done[q]][k] in done[..q])
    && cur == Residual(dag, done)
    && |mark| == |dag|
    && forall j :: 0 <= j < |dag| ==> mark[j] as int == MarkOf(dag, done, j)
  }

  lemma {:induction false} LiveZeroIff(row: seq<int>)
    ensures Live(row) == 0 <==> forall k :: 0 <= k < |row| ==> row[k] == -1
  {
    if row != [] {
      var front := row[..|row| - 1];
      LiveZeroIff(front);
      if Live(row) == 0 {
        forall k | 0 <= k < |row| ensures row[k] == -1 {
          if k < |front| {
            assert row[k] == front[k];
          }
        }
      }
    }
  }

  lemma {:induction false} LiveReplace(row: seq<int>, x: int)
    requires x != -1
    ensures Live(Replace(row, x)) == Live(row) - Occ(row, x)
  {
    if row != [] {
      var front := row[..|row| - 1];
      LiveReplace(front, x);
      assert Replace(row, x)[..|row| - 1] == Replace(front, x);
    }
  }

  lemma {:induction false} OccAllGone(row: seq<int>, x: int)
    requires x != -1 && forall k :: 0 <= k < |row| ==> row[k] == -1
    ensures Occ(row, x) == 0
  {
    if row != [] {
      OccAllGone(row[..|row| - 1], x);
    }
  }

  /** Under the sort state, a mark is 0 exactly for a ready node. */
  lemma {:induction false} MarkZeroIffReady(dag: seq<seq<int>>, done: seq<int>, cur: seq<seq<int>>, mark: seq<Int8>, j: int)
    requires Graph(dag) && SortState(dag, done, cur, mark) && 0 <= j < |dag|
    ensures mark[j] == 0 <==> Ready(dag, done, j)
  {
    var row := Residual(dag, done)[j];
    LiveZeroIff(row);
    if j !in done && Live(row) == 0 {
      forall k | 0 <= k < |dag[j]| ensures dag[j][k] in done {
        assert row[k] == -1;
      }
    }
  }

  /** Placing a ready node: the overwrite of its outgoing edges gives the next residual graph. */
  lemma {:induction false} ResidualStep(dag: seq<seq<int>>, done: seq<int>, x: int)
    requires Graph(dag) && Placed(dag, done) && 0 <= x < |dag|
    ensures forall j :: 0 <= j < |dag| ==> Residual(dag, done + [x])[j] == Replace(Residual(dag, done)[j], x)
  {
    forall j | 0 <= j < |dag| ensures Residual(dag, done + [x])[j] == Replace(Residual(dag, done)[j], x) {
      var a, b := Residual(dag, done + [x])[j], Replace(Residual(dag, done)[j], x);
      assert |a| == |b|;
      forall k | 0 <= k < |a| ensures a[k] == b[k] {
        assert dag[j][k] in done + [x] <==> dag[j][k] in done || dag[j][k] == x;
      }
    }
  }

  /** The overwrite loops (unittest.h:829-840): every row but `x`'s loses its `x` entries. */
  function Deleted(cur: seq<seq<int>>, x: int): (r: seq<seq<int>>)
    ensures |r| == |cur|
    ensures forall j :: 0 <= j < |cur| ==> r[j] == if j == x then cur[j] else Replace(cur[j], x)
  {
    seq(|cur|, j requires 0 <= j < |cur| => if j == x then cur[j] else Replace(cur[j], x))
  }

  /** A placed node's residual row is all -1. */
  lemma {:induction false} PlacedRowGone(dag: seq<seq<int>>, done: seq<int>, q: nat)
    requires Placed(dag, done) && q < |done|
    requires forall k :: 0 <= k < |dag[done[q]]| ==> dag[done[q]][k] in done[..q]
    ensures forall k :: 0 <= k < |dag[done[q]]| ==> Residual(dag, done)[done[q]][k] == -1
  {
    forall k | 0 <= k < |dag[done[q]]| ensures Residual(dag, done)[done[q]][k] == -1 {
      var s := dag[done[q]][k];
      assert s in done[..q];
      var p :| 0 <= p < q && done[p] == s;
      assert done[p] == s;
    }
  }

  /** A node not placed yet, with `done` distinct. */
  lemma {:induction false} AppendPlaced(dag: seq<seq<int>>, done: seq<int>, x: int)
    requires Placed(dag, done) && 0 <= x < |dag| && x !in done
    ensures Placed(dag, done + [x])
  {
  }

  /** One round of the sort keeps the state for `done + [x]`, where `x` is the first ready node. */
  lemma {:induction false} SortStep(dag: seq<seq<int>>, done: seq<int>, cur: seq<seq<int>>, mark: seq<Int8>, x: int)
    requires Schedulable(dag) && SortState(dag, done, cur, mark)
    requires 0 <= x < |dag| && Ready(dag, done, x)
    ensures forall j :: 0 <= j < |dag| && j != x ==> -128 <= mark[j] as int - Occ(cur[j], x)
    ensures SortState(dag, done + [x], Deleted(cur, x), MarkedAfter(mark[x := -1], cur, x))
  {
    var done' := done + [x];
    AppendPlaced(dag, done, x);
    StepMarks(dag, done, cur, mark, x);
    StepResidual(dag, done, cur, x);
    var mark' := MarkedAfter(mark[x := -1], cur, x);
    forall j | 0 <= j < |dag| ensures mark'[j] as int == MarkOf(dag, done', j) {
    }
    StepEdgesBefore(dag, done, x);
  }

  /** Overwriting `x`'s edges takes each other node's mark to its count after `done + [x]`. */
  lemma {:induction false} StepMarks(dag: seq<seq<int>>, done: seq<int>, cur: seq<seq<int>>, mark: seq<Int8>, x: int)
    requires Schedulable(dag) && SortState(dag, done, cur, mark)
    requires 0 <= x < |dag| && Ready(dag, done, x)
    ensures forall j :: 0 <= j < |dag| && j != x ==> -128 <= mark[j] as int - Occ(cur[j], x)
    ensures forall j :: 0 <= j < |dag| && j != x ==> mark[j] as int - Occ(cur[j], x) == MarkOf(dag, done + [x], j)
  {
    var done' := done + [x];
    AppendPlaced(dag, done, x);
    ResidualStep(dag, done, x);
    forall j | 0 <= j < |dag| && j != x
      ensures -128 <= mark[j] as int - Occ(cur[j], x)
      ensures mark[j] as int - Occ(cur[j], x) == MarkOf(dag, done', j)
    {
      if j in done {
        var q :| 0 <= q < |done| && done[q] == j;
        PlacedRowGone(dag, done, q);
        OccAllGone(cur[j], x);
        LiveReplace(cur[j], x);
      } else {
        LiveReplace(cur[j], x);
      }
    }
  }

  /** Overwriting `x`'s edges leaves the residual graph of `done + [x]`. */
  lemma {:induction false} StepResidual(dag: seq<seq<int>>, done: seq<int>, cur: seq<seq<int>>, x: int)
    requires Schedulable(dag) && Placed(dag, done) && cur == Residual(dag, done)
    requires 0 <= x < |dag| && Ready(dag, done, x)
    ensures Deleted(cur, x) == Residual(dag, done + [x])
  {
    var done' := done + [x];
    AppendPlaced(dag, done, x);
    ResidualStep(dag, done, x);
    forall j | 0 <= j < |dag| ensures Deleted(cur, x)[j] == Residual(dag, done')[j] {
      if j == x {
        PlacedRowGone(dag, done', |done|);
        assert done'[..|done|] == done;
        assert Residual(dag, done)[x] == Replace(Residual(dag, done)[x], x);
      }
    }
  }

  /** Every node placed so far, and `x`, has its edges' sources placed before it. */
  lemma {:induction false} StepEdgesBefore(dag: seq<seq<int>>, done: seq<int>, x: int)
    requires Schedulable(dag) && Placed(dag, done)
    requires forall q, k :: 0 <= q < |done| && 0 <= k < |dag[done[q]]| ==> dag[done[q]][k] in done[..q]
    requires 0 <= x < |dag| && Ready(dag, done, x)
    ensures var done' := done + [x];
      forall q, k :: 0 <= q < |done'| && 0 <= k < |dag[done'[q]]| ==> dag[done'[q]][k] in done'[..q]
  {
    var done' := done + [x];
    assert done'[..|done|] == done;
    forall q, k | 0 <= q < |done'| && 0 <= k < |dag[done'[q]]| ensures dag[done'[q]][k] in done'[..q] {
      if q < |done| {
        assert done'[..q] == done[..q];
      }
    }
  }

  /** The marks after the overwrite loops: each target loses one per overwritten edge. */
  function MarkedAfter(mark: seq<Int8>, cur: seq<seq<int>>, x: int): (r: seq<Int8>)
    requires |mark| == |cur|
    requires forall j :: 0 <= j < |cur| && j != x ==> -128 <= mark[j] as int - Occ(cur[j], x)
    ensures |r| == |mark|
    ensures forall j :: 0 <= j < |mark| ==> r[j] as int == if j == x then mark[j] as int else mark[j] as int - Occ(cur[j], x)
  {
    seq(|mark|, j requires 0 <= j < |mark| => if j == x then mark[j] else (mark[j] as int - Occ(cur[j], x)) as Int8)
  }

  // ----- The sort -----

  lemma {:induction false} LiveAllPresent(row: seq<int>)
    requires forall k :: 0 <= k < |row| ==> row[k] != -1
    ensures Live(row) == |row|
  {
    if row != [] {
      LiveAllPresent(row[..|row| - 1]);
    }
  }

  lemma {:induction false} OccPrefix(row: seq<int>, x: int, k: nat)
    requires k <= |row|
    ensures Occ(row[..k], x) <= Occ(row, x)
    decreases |row|
  {
    if k < |row| {
      var front := row[..|row| - 1];
      assert row[..k] == front[..k];
      OccPrefix(front, x, k);
    } else {
      assert row[..k] == row;
    }
  }

  /** The initial state: nothing placed, every mark the in-degree. */
  lemma {:induction false} SortStart(dag: seq<seq<int>>, mark: seq<Int8>)
    requires Schedulable(dag)
    requires |mark| == |dag| && forall j :: 0 <= j < |dag| ==> mark[j] as int == |dag[j]|
    ensures SortState(dag, [], dag, mark)
  {
    assert Residual(dag, []) == dag by {
      forall j | 0 <= j < |dag| ensures Residual(dag, [])[j] == dag[j] {
      }
    }
    forall j | 0 <= j < |dag| ensures mark[j] as int == MarkOf(dag, [], j) {
      LiveAllPresent(dag[j]);
    }
  }

  /** The mark-building loop (unittest.h:796-802): push each in-degree as an `int8_t`. */
  method InitMarks(dag: seq<seq<int>>) returns (mark: seq<Int8>)
    requires Schedulable(dag)
    ensures |mark| == |dag| && forall j :: 0 <= j < |dag| ==> mark[j] as int == |dag[j]|
  {
    mark := [];
    for i := 0 to |dag|
      invariant |mark| == i && forall j :: 0 <= j < i ==> mark[j] as int == |dag[j]|
    {
      mark := mark + [|dag[i]| as Int8];
    }
  }

  /** The search for the first node whose mark is 0 (unittest.h:808-814); -1 when there is none. */
  method FindReady(mark: seq<Int8>) returns (node: int)
    ensures node == -1 || 0 <= node < |mark|
    ensures node == -1 ==> forall j :: 0 <= j < |mark| ==> mark[j] != 0
    ensures node != -1 ==> mark[node] == 0 && forall j :: 0 <= j < node ==> mark[j] != 0
  {
    node := -1;
    var j := 0;
    while j < |mark|
      invariant j <= |mark|
      invariant forall y :: 0 <= y < j ==> mark[y] != 0
    {
      if mark[j] == 0 {
        node := j;
        return;
      }
      j := j + 1;
    }
  }

  /** The overwrite loop over one row (unittest.h:832-839). */
  method DeleteRow(row: seq<int>, m: Int8, x: int) returns (res: seq<int>, m': Int8)
    requires -128 <= m as int - Occ(row, x)
    ensures res == Replace(row, x)
    ensures m' as int == m as int - Occ(row, x)
  {
    res := row;
    m' := m;
    var k := 0;
    while k < |res|
      invariant k <= |res| == |row|
      invariant forall t :: 0 <= t < k ==> res[t] == if row[t] == x then -1 else row[t]
      invariant forall t :: k <= t < |row| ==> res[t] == row[t]
      invariant m' as int == m as int - Occ(row[..k], x)
    {
      assert row[..k + 1][..k] == row[..k];
      if res[k] == x {
        OccPrefix(row, x, k + 1);
        res := res[k := -1];
        m' := m' - 1;
      }
      k := k + 1;
    }
    assert row[..k] == row;
  }

  /** The overwrite loops over all rows but the placed node's (unittest.h:829-840). */
  method DeleteEdges(cur: seq<seq<int>>, mark: seq<Int8>, x: int) returns (cur': seq<seq<int>>, mark': seq<Int8>)
    requires |mark| == |cur|
    requires forall j :: 0 <= j < |cur| && j != x ==> -128 <= mark[j] as int - Occ(cur[j], x)
    ensures cur' == Deleted(cur, x)
    ensures mark' == MarkedAfter(mark, cur, x)
  {
    cur', mark' := cur, mark;
    for j := 0 to |cur|
      invariant |cur'| == |cur| && |mark'| == |mark|
      invariant forall t :: 0 <= t < j ==> cur'[t] == Deleted(cur, x)[t] && mark'[t] == MarkedAfter(mark, cur, x)[t]
      invariant forall t :: j <= t < |cur| ==> cur'[t] == cur[t] && mark'[t] == mark[t]
    {
      if j != x {
        var row, m := DeleteRow(cur'[j], mark'[j], x);
        cur' := cur'[j := row];
        mark' := mark'[j := m];
      }
    }
  }

  /** One lap of the sort; the caller's loop keeps `SortState`. */
  lemma {:induction false} FirstReadyOfMarks(dag: seq<seq<int>>, done: seq<int>, cur: seq<seq<int>>, mark: seq<Int8>, node: int)
    requires Graph(dag) && SortState(dag, done, cur, mark)
    requires node == -1 || 0 <= node < |mark|
    requires node == -1 ==> forall j :: 0 <= j < |mark| ==> mark[j] != 0
    requires node != -1 ==> mark[node] == 0 && forall j :: 0 <= j < node ==> mark[j] != 0
    ensures node == -1 ==> FirstReady(dag, done, 0) == None
    ensures node != -1 ==> FirstReady(dag, done, 0) == Some(node)
  {
    forall j | 0 <= j < |dag| ensures mark[j] == 0 <==> Ready(dag, done, j) {
      MarkZeroIffReady(dag, done, cur, mark, j);
    }
  }

  /**
   * The sort loop shared by `unittest_toposort_by_tag` and
   * `unittest_toposort_by_group` (unittest.h:796-851, 897-964): the order
   * in which the nodes are placed, or `None` for the -1 a cycle returns.
   */
  method KahnSchedule(dag: seq<seq<int>>) returns (order: Option<seq<int>>)
    requires Schedulable(dag)
    ensures order == KahnFrom(dag, [])
  {
    var cur := dag;
    var mark := InitMarks(dag);
    SortStart(dag, mark);
    var res: seq<int> := [];
    for i := 0 to |dag|
      invariant |res| == i
      invariant SortState(dag, res, cur, mark)
      invariant KahnFrom(dag, res) == KahnFrom(dag, [])
    {
      var node := FindReady(mark);
      FirstReadyOfMarks(dag, res, cur, mark, node);
      if node == -1 {
        return None;
      }
      SortStep(dag, res, cur, mark, node);
      mark := mark[node := -1];
      cur, mark := DeleteEdges(cur, mark, node);
      res := res + [node];
    }
    return Some(res);
  }

  // ----- What the sort computes -----

  /** Every placed node comes after all of its sources. */
  predicate PrefixClosed(dag: seq<seq<int>>, done: seq<int>)
    requires Placed(dag, done)
  {
    forall q, k :: 0 <= q < |done| && 0 <= k < |dag[done[q]]| ==> dag[done[q]][k] in done[..q]
  }

  lemma {:induction false} PlaceReady(dag: seq<seq<int>>, done: seq<int>, x: int)
    requires Placed(dag, done) && PrefixClosed(dag, done) && 0 <= x < |dag| && Ready(dag, done, x)
    ensures Placed(dag, done + [x]) && PrefixClosed(dag, done + [x])
  {
    var d := done + [x];
    assert d[..|done|] == done;
    forall q, k | 0 <= q < |d| && 0 <= k < |dag[d[q]]| ensures dag[d[q]][k] in d[..q] {
      if q < |done| {
        assert d[..q] == done[..q];
      }
    }
  }

  /**
   * A completed sort is a topological order: it lists every node exactly
   * once, each after all of its sources, and extends the placed prefix.
   */
  lemma {:induction false} KahnIsTopological(dag: seq<seq<int>>, done: seq<int>)
    requires Placed(dag, done) && PrefixClosed(dag, done)
    ensures KahnFrom(dag, done).Some? ==>
      Topological(dag, KahnFrom(dag, done).value) && done <= KahnFrom(dag, done).value
    decreases |dag| - |done|
  {
    if |done| >= |dag| {
      DistinctBelow(done, |dag|);
    } else {
      match FirstReady(dag, done, 0)
      case None =>
      case Some(x) =>
        PlaceReady(dag, done, x);
        KahnIsTopological(dag, done + [x]);
    }
  }

  /** While some node is unplaced and a topological order exists, some node is ready. */
  lemma {:induction false} ReadyExists(dag: seq<seq<int>>, order: seq<int>, done: seq<int>)
    requires Topological(dag, order) && Placed(dag, done) && |done| < |dag|
    ensures exists x :: 0 <= x < |dag| && Ready(dag, done, x)
  {
    var q0 :| 0 <= q0 < |order| && order[q0] !in done by {
      if forall q :: 0 <= q < |order| ==> order[q] in done {
        DistinctSetSize(order);
        DistinctSetSize(done);
        SubsetSize(set v | v in order, set v | v in done);
      }
    }
    var q := FirstUnplaced(order, done, q0);
    var x := order[q];
    forall k | 0 <= k < |dag[x]| ensures dag[x][k] in done {
      var s := dag[x][k];
      assert s in order[..q];
      var p :| 0 <= p < q && order[p] == s;
    }
    assert Ready(dag, done, x);
  }

  /** The first position of `order` whose node is unplaced, at or before a known one. */
  lemma {:induction false} FirstUnplaced(order: seq<int>, done: seq<int>, q0: nat) returns (q: nat)
    requires q0 < |order| && order[q0] !in done
    ensures q <= q0 && order[q] !in done
    ensures forall p :: 0 <= p < q ==> order[p] in done
    decreases q0
  {
    if p :| 0 <= p < q0 && order[p] !in done {
      q := FirstUnplaced(order, done, p);
    } else {
      q := q0;
    }
  }

  lemma {:induction false} KahnCompletes(dag: seq<seq<int>>, order: seq<int>, done: seq<int>)
    requires Topological(dag, order) && Placed(dag, done)
    ensures KahnFrom(dag, done).Some?
    decreases |dag| - |done|
  {
    if |done| < |dag| {
      ReadyExists(dag, order, done);
      var x := FirstReady(dag, done, 0).value;
      KahnCompletes(dag, order, done + [x]);
    }
  }

  /**
   * The sort fails exactly when the graph has no topological order: its
   * result is one, and whenever one exists the sort finds a result.
   */
  lemma {:induction false} KahnSucceedsIff(dag: seq<seq<int>>)
    ensures KahnFrom(dag, []).Some? <==> exists r :: Topological(dag, r)
    ensures KahnFrom(dag, []).Some? ==> Topological(dag, KahnFrom(dag, []).value)
  {
    KahnIsTopological(dag, []);
    if r :| Topological(dag, r) {
      KahnCompletes(dag, r, []);
    }
  }

  /**
   * When every edge leads from a lower node to a higher one, the lowest
   * unplaced node is always ready and always wins: the order is unchanged.
   */
  lemma {:induction false} KahnForward(dag: seq<seq<int>>, m: nat)
    requires forall i, k :: 0 <= i < |dag| && 0 <= k < |dag[i]| ==> 0 <= dag[i][k] < i
    requires m <= |dag|
    ensures Placed(dag, Range(0, m))
    ensures KahnFrom(dag, Range(0, m)) == Some(Range(0, |dag|))
    decreases |dag| - m
  {
    var done := Range(0, m);
    if m < |dag| {
      assert m !in done;
      forall k | 0 <= k < |dag[m]| ensures dag[m][k] in done {
        assert done[dag[m][k]] == dag[m][k];
      }
      assert Ready(dag, done, m);
      forall y | 0 <= y < m ensures !Ready(dag, done, y) {
        assert done[y] == y;
      }
      assert FirstReady(dag, done, 0) == Some(m);
      assert done + [m] == Range(0, m + 1);
      KahnForward(dag, m + 1);
    } else {
      assert done == Range(0, |dag|);
    }
  }

  /** The node after position `t` of the cycle `c`, wrapping around. */
  function Succ(c: seq<int>, t: nat): int
    requires t < |c|
  {
    if t + 1 < |c| then c[t + 1] else c[0]
  }

  /** `c` is a cycle: each node is a source of the next, the last one of the first. */
  predicate Cycle(dag: seq<seq<int>>, c: seq<int>) {
    c != []
    && (forall t :: 0 <= t < |c| ==> 0 <= c[t] < |dag|)
    && (forall t :: 0 <= t < |c| ==> 0 <= Succ(c, t) < |dag| && c[t] in dag[Succ(c, t)])
  }

  /** The position of `v` in `r`. */
  function IndexOf(r: seq<int>, v: int): (p: nat)
    requires v in r
    ensures p < |r| && r[p] == v
  {
    if r[0] == v then 0 else 1 + IndexOf(r[1..], v)
  }

  lemma {:induction false} EdgeForward(dag: seq<seq<int>>, r: seq<int>, s: int, v: int)
    requires Topological(dag, r) && 0 <= v < |dag| && s in dag[v]
    ensures v in r && s in r && IndexOf(r, s) < IndexOf(r, v)
  {
    DistinctBelow(r, |dag|);
    var q := IndexOf(r, v);
    var k :| 0 <= k < |dag[v]| && dag[v][k] == s;
    assert s in r[..q];
    var p :| 0 <= p < q && r[p] == s;
    assert IndexOf(r, s) == p;
  }

  lemma {:induction false} CycleClimbs(dag: seq<seq<int>>, r: seq<int>, c: seq<int>, t: nat)
    requires Topological(dag, r) && Cycle(dag, c) && t < |c|
    ensures c[0] in r && c[t] in r && IndexOf(r, c[0]) + t <= IndexOf(r, c[t])
  {
    if t > 0 {
      CycleClimbs(dag, r, c, t - 1);
      assert Succ(c, t - 1) == c[t];
      EdgeForward(dag, r, c[t - 1], c[t]);
    } else {
      DistinctBelow(r, |dag|);
    }
  }

  /** No order of a graph with a cycle is topological. */
  lemma {:induction false} CycleHasNoOrder(dag: seq<seq<int>>, r: seq<int>, c: seq<int>)
    requires Cycle(dag, c)
    ensures !Topological(dag, r)
  {
    if Topological(dag, r) {
      CycleClimbs(dag, r, c, |c| - 1);
    }
  }

  /** A dependency cycle makes the sort fail. */
  lemma {:induction false} CycleFails(dag: seq<seq<int>>, c: seq<int>)
    requires Cycle(dag, c)
    ensures KahnFrom(dag, []) == None
  {
    KahnSucceedsIff(dag);
    if KahnFrom(dag, []).Some? {
      CycleHasNoOrder(dag, KahnFrom(dag, []).value, c);
    }
  }
}
