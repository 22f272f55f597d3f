/**
 * The two topological sorts of the scheduler. `unittest_toposort_by_tag`
 * (unittest.h:766-862) orders the tests of one group, a slice of the test
 * array, by their `depends_on` names; `unittest_toposort_by_group`
 * (unittest.h:864-976) orders the groups by their configs' `depends_on`
 * names and moves each group's block of tests along with its config. Both
 * write back in place only when the whole order was found.
 */
module Toposort {
  import opened Base
  import opened Records
  import opened Dag
  import opened Kahn

  function TestNames(s: seq<Test>): (r: seq<Option<string>>)
    ensures |r| == |s| && forall k :: 0 <= k < |s| ==> r[k] == s[k].name
  {
    seq(|s|, k requires 0 <= k < |s| => s[k].name)
  }

  function TestDeps(s: seq<Test>): (r: seq<seq<Option<string>>>)
    ensures |r| == |s| && forall k :: 0 <= k < |s| ==> r[k] == s[k].dependsOn
  {
    seq(|s|, k requires 0 <= k < |s| => s[k].dependsOn)
  }

  function ConfigNames(s: seq<Config>): (r: seq<Option<string>>)
    ensures |r| == |s| && forall k :: 0 <= k < |s| ==> r[k] == s[k].name
  {
    seq(|s|, k requires 0 <= k < |s| => s[k].name)
  }

  function ConfigDeps(s: seq<Config>): (r: seq<seq<Option<string>>>)
    ensures |r| == |s| && forall k :: 0 <= k < |s| ==> r[k] == s[k].dependsOn
  {
    seq(|s|, k requires 0 <= k < |s| => s[k].dependsOn)
  }

  /** The graph of a group's tests. */
  function TestDag(s: seq<Test>): seq<seq<int>> {
    DagOf(TestNames(s), TestDeps(s))
  }

  /** The graph of the groups, one node per config. */
  function ConfigDag(s: seq<Config>): seq<seq<int>> {
    DagOf(ConfigNames(s), ConfigDeps(s))
  }

  /** What the sort needs of its input: terminated `depends_on` lists and in-degrees that fit `int8_t`. */
  predicate TagSortable(s: seq<Test>) {
    (forall k :: 0 <= k < |s| ==> DepsTerminated(s[k].dependsOn)) && Schedulable(TestDag(s))
  }

  predicate GroupSortable(s: seq<Config>) {
    (forall k :: 0 <= k < |s| ==> DepsTerminated(s[k].dependsOn)) && Schedulable(ConfigDag(s))
  }

  /** The order the sort places the nodes of `dag` in. */
  function Order(dag: seq<seq<int>>): (r: Option<seq<int>>)
    ensures r.Some? ==> IsPermutationOfRange(r.value, |dag|)
  {
    KahnSucceedsIff(dag);
    KahnFrom(dag, [])
  }

  lemma {:induction false} OrderIsTopological(dag: seq<seq<int>>)
    ensures Order(dag).Some? ==> Topological(dag, Order(dag).value)
  {
    KahnSucceedsIff(dag);
  }

  /** The slice after `unittest_toposort_by_tag`, or `None` when it reports a cycle. */
  function SortByTag(s: seq<Test>): (r: Option<seq<Test>>)
    ensures r.Some? ==> |r.value| == |s|
  {
    match Order(TestDag(s))
    case None => None
    case Some(o) => OrderIndices(TestDag(s), o); Some(Pick(s, o))
  }

  /** A boundary array for `m` groups over `n` tests: starts at 0, increases, reaches `n` at `m`. */
  predicate Boundaries(idx: seq<int>, m: nat, n: nat) {
    |idx| == m + 2 && idx[0] == 0 && idx[m] == n && Increasing(idx, m)
  }

  /** The first `m + 1` entries of `idx` increase strictly. */
  predicate Increasing(idx: seq<int>, m: nat)
    requires m < |idx|
  {
    forall a, b :: 0 <= a < b <= m ==> idx[a] < idx[b]
  }

  lemma {:induction false} BoundaryBounds(idx: seq<int>, m: nat, n: nat, g: int)
    requires Boundaries(idx, m, n) && 0 <= g < m
    ensures 0 <= idx[g] < idx[g + 1] <= n
  {
    if g > 0 {
      assert idx[0] < idx[g];
    }
    if g + 1 < m {
      assert idx[g + 1] < idx[m];
    }
  }

  /** The test indices of the groups `o`, block after block. */
  function BlockIndices(idx: seq<int>, m: nat, n: nat, o: seq<int>): (r: seq<int>)
    requires Boundaries(idx, m, n) && forall k :: 0 <= k < |o| ==> 0 <= o[k] < m
    ensures forall k :: 0 <= k < |r| ==> 0 <= r[k] < n
  {
    if o == [] then []
    else
      var g := o[|o| - 1];
      BoundaryBounds(idx, m, n, g);
      BlockIndices(idx, m, n, o[..|o| - 1]) + Range(idx[g], idx[g + 1])
  }

  /** The tests and configs after `unittest_toposort_by_group`, or `None` when it reports a cycle. */
  function SortByGroup(ts: seq<Test>, cs: seq<Config>, idx: seq<int>): Option<(seq<Test>, seq<Config>)>
    requires Boundaries(idx, |cs|, |ts|)
  {
    match Order(ConfigDag(cs))
    case None => None
    case Some(o) =>
      OrderIndices(ConfigDag(cs), o);
      Some((Pick(ts, BlockIndices(idx, |cs|, |ts|, o)), Pick(cs, o)))
  }

  // ----- The sorts -----

  /** `unittest_toposort_by_tag` on the `cnt` tests starting at `lo`; 0 on success, -1 on a cycle. */
  method ToposortByTag(a: array<Test>, lo: int, cnt: int) returns (rc: int)
    requires 0 <= lo && 0 <= cnt && lo + cnt <= a.Length
    requires TagSortable(a[lo..lo + cnt])
    modifies a
    ensures SortByTag(old(a[lo..lo + cnt])).None? ==> rc == -1 && a[..] == old(a[..])
    ensures SortByTag(old(a[lo..lo + cnt])).Some? ==>
      rc == 0 && a[..] == old(a[..lo]) + SortByTag(old(a[lo..lo + cnt])).value + old(a[lo + cnt..])
  {
    var s := a[lo..lo + cnt];
    var dag := BuildDag(TestNames(s), TestDeps(s));
    var order := KahnSchedule(dag);
    if order.None? {
      return -1;
    }
    OrderIndices(dag, order.value);
    var res := Pick(s, order.value);
    WriteBack(a, lo, res);
    return 0;
  }

  /** The order found by the sort indexes the nodes of its graph. */
  lemma {:induction false} OrderIndices(dag: seq<seq<int>>, o: seq<int>)
    requires KahnFrom(dag, []) == Some(o)
    ensures IsPermutationOfRange(o, |dag|)
  {
    KahnSucceedsIff(dag);
  }

  /** The write-back loops: `res` is copied over the array from `lo` on. */
  method WriteBack<T>(a: array<T>, lo: int, res: seq<T>)
    requires 0 <= lo && lo + |res| <= a.Length
    modifies a
    ensures a[..] == old(a[..lo]) + res + old(a[lo + |res|..])
  {
    ghost var before := a[..];
    for i := 0 to |res|
      invariant forall k :: lo <= k < lo + i ==> a[k] == res[k - lo]
      invariant forall k :: 0 <= k < a.Length && !(lo <= k < lo + i) ==> a[k] == before[k]
    {
      a[lo + i] := res[i];
    }
    Splice(a[..], before, lo, res);
  }

  /** An array written at `[lo, lo + |res|)` with `res` and left alone elsewhere. */
  lemma {:induction false} Splice<T>(x: seq<T>, before: seq<T>, lo: nat, res: seq<T>)
    requires |x| == |before| && lo + |res| <= |before|
    requires forall k :: lo <= k < lo + |res| ==> x[k] == res[k - lo]
    requires forall k :: 0 <= k < |x| && !(lo <= k < lo + |res|) ==> x[k] == before[k]
    ensures x == before[..lo] + res + before[lo + |res|..]
  {
    var y := before[..lo] + res + before[lo + |res|..];
    forall k | 0 <= k < |x| ensures x[k] == y[k] {
      if lo <= k < lo + |res| {
        assert y[k] == res[k - lo];
      }
    }
  }

  /**
   * `unittest_toposort_by_group` over the first `testCnt` tests and the first
   * `fileCnt` configs, with the boundary array `fileIdx`; 0 on success, -1 on a cycle.
   */
  method ToposortByGroup(a: array<Test>, testCnt: int, cs: array<Config>, fileIdx: seq<int>, fileCnt: int)
      returns (rc: int)
    requires 0 <= testCnt <= a.Length && 0 <= fileCnt <= cs.Length
    requires Boundaries(fileIdx, fileCnt, testCnt)
    requires GroupSortable(cs[..fileCnt])
    modifies a, cs
    ensures SortByGroup(old(a[..testCnt]), old(cs[..fileCnt]), fileIdx).None? ==>
      rc == -1 && a[..] == old(a[..]) && cs[..] == old(cs[..])
    ensures SortByGroup(old(a[..testCnt]), old(cs[..fileCnt]), fileIdx).Some? ==>
      var r := SortByGroup(old(a[..testCnt]), old(cs[..fileCnt]), fileIdx).value;
      rc == 0 && a[..] == r.0 + old(a[testCnt..]) && cs[..] == r.1 + old(cs[fileCnt..])
  {
    var ts, gs := a[..testCnt], cs[..fileCnt];
    var order := GroupOrder(gs);
    if order.None? {
      return -1;
    }
    OrderIndices(ConfigDag(gs), order.value);
    var testBuf, configBuf := GroupBuffers(ts, gs, fileIdx, order.value);
    WriteBackGroups(a, cs, testBuf, configBuf);
    return 0;
  }

  /** The two write-back loops of the group sort (unittest.h:958-964). */
  method WriteBackGroups(a: array<Test>, cs: array<Config>, testBuf: seq<Test>, configBuf: seq<Config>)
    requires |testBuf| <= a.Length && |configBuf| <= cs.Length
    modifies a, cs
    ensures a[..] == testBuf + old(a[|testBuf|..])
    ensures cs[..] == configBuf + old(cs[|configBuf|..])
  {
    WriteBack(a, 0, testBuf);
    ghost var afterA := a[..];
    WriteBack(cs, 0, configBuf);
    assert a[..] == afterA;
  }

  /** The dag and sort loops of the group sort (unittest.h:880-951). */
  method GroupOrder(gs: seq<Config>) returns (order: Option<seq<int>>)
    requires GroupSortable(gs)
    ensures order == KahnFrom(ConfigDag(gs), [])
  {
    var dag := BuildDag(ConfigNames(gs), ConfigDeps(gs));
    order := KahnSchedule(dag);
  }

  /**
   * The buffers the group sort fills (unittest.h:930-933): for each group in
   * the found order, its config, and its block of tests in original order.
   */
  method GroupBuffers(ts: seq<Test>, gs: seq<Config>, fileIdx: seq<int>, o: seq<int>)
      returns (testBuf: seq<Test>, configBuf: seq<Config>)
    requires Boundaries(fileIdx, |gs|, |ts|)
    requires IsPermutationOfRange(o, |gs|)
    ensures testBuf == Pick(ts, BlockIndices(fileIdx, |gs|, |ts|, o))
    ensures configBuf == Pick(gs, o)
    ensures |testBuf| == |ts|
  {
    testBuf, configBuf := [], [];
    for k := 0 to |o|
      invariant testBuf == Pick(ts, BlockIndices(fileIdx, |gs|, |ts|, o[..k]))
      invariant configBuf == Pick(gs, o[..k])
    {
      var g := o[k];
      BoundaryBounds(fileIdx, |gs|, |ts|, g);
      configBuf := configBuf + [gs[g]];
      testBuf := AppendBlock(ts, fileIdx[g], fileIdx[g + 1], testBuf);
      BufferStep(ts, gs, fileIdx, o, k);
    }
    assert o[..|o|] == o;
    BlockIndicesPermutation(fileIdx, |gs|, |ts|, o);
  }

  /** Group `o[k]` adds its config to the config buffer and its block to the test buffer. */
  lemma {:induction false} BufferStep(ts: seq<Test>, gs: seq<Config>, idx: seq<int>, o: seq<int>, k: nat)
    requires Boundaries(idx, |gs|, |ts|) && IsPermutationOfRange(o, |gs|) && k < |o|
    requires 0 <= idx[o[k]] <= idx[o[k] + 1] <= |ts|
    ensures Pick(ts, BlockIndices(idx, |gs|, |ts|, o[..k + 1]))
      == Pick(ts, BlockIndices(idx, |gs|, |ts|, o[..k])) + Pick(ts, Range(idx[o[k]], idx[o[k] + 1]))
    ensures Pick(gs, o[..k + 1]) == Pick(gs, o[..k]) + [gs[o[k]]]
  {
    assert o[..k + 1][..k] == o[..k];
    PickConcat(ts, BlockIndices(idx, |gs|, |ts|, o[..k]), Range(idx[o[k]], idx[o[k] + 1]));
  }

  /** The copy of one group's block (unittest.h:931-933). */
  method AppendBlock(ts: seq<Test>, lo: int, hi: int, buf: seq<Test>) returns (res: seq<Test>)
    requires 0 <= lo <= hi <= |ts|
    ensures res == buf + Pick(ts, Range(lo, hi))
  {
    res := buf;
    var j := lo;
    while j < hi
      invariant lo <= j <= hi
      invariant res == buf + Pick(ts, Range(lo, j))
    {
      RangeSnoc(lo, j);
      res := res + [ts[j]];
      j := j + 1;
    }
  }

  lemma {:induction false} RangeSnoc(lo: int, j: int)
    requires lo <= j
    ensures Range(lo, j + 1) == Range(lo, j) + [j]
  {
  }

  lemma {:induction false} PickConcat<T>(s: seq<T>, a: seq<int>, b: seq<int>)
    requires forall k :: 0 <= k < |a| ==> 0 <= a[k] < |s|
    requires forall k :: 0 <= k < |b| ==> 0 <= b[k] < |s|
    ensures Pick(s, a + b) == Pick(s, a) + Pick(s, b)
  {
  }

  // ----- What the sorts guarantee -----

  /**
   * In a topological order of a dependency graph a node comes after every
   * other node named in its `depends_on` list.
   */
  lemma {:induction false} OrderRespectsDeps(names: seq<Option<string>>, deps: seq<seq<Option<string>>>, o: seq<int>, p: int, q: int)
    requires |deps| == |names| && Topological(DagOf(names, deps), o)
    requires 0 <= p < |o| && 0 <= q < |o| && p != q
    requires names[o[p]].Some? && names[o[p]].value in DepNames(deps[o[q]])
    ensures p < q
  {
    var dag := DagOf(names, deps);
    assert o[p] != o[q];
    EdgeIff(names, deps, o[q], o[p]);
    var k :| 0 <= k < |dag[o[q]]| && dag[o[q]][k] == o[p];
    assert o[p] in o[..q];
    var p' :| 0 <= p' < q && o[p'] == o[p];
  }

  /**
   * A successful tag sort permutes the slice, and every test comes after
   * each other test whose name is in its `depends_on` list.
   */
  lemma {:induction false} SortByTagIsTopological(s: seq<Test>)
    ensures SortByTag(s).Some? ==> multiset(SortByTag(s).value) == multiset(s)
    ensures SortByTag(s).Some? ==> forall p, q ::
      0 <= p < |s| && 0 <= q < |s| && p != q
      && SortByTag(s).value[p].name.Some? && SortByTag(s).value[p].name.value in DepNames(SortByTag(s).value[q].dependsOn)
      ==> p < q
  {
    if SortByTag(s).Some? {
      var o := Order(TestDag(s)).value;
      OrderIndices(TestDag(s), o);
      var r := Pick(s, o);
      OrderIsTopological(TestDag(s));
      PickPermutation(s, o);
      forall p, q | 0 <= p < |s| && 0 <= q < |s| && p != q
          && r[p].name.Some? && r[p].name.value in DepNames(r[q].dependsOn)
        ensures p < q
      {
        OrderRespectsDeps(TestNames(s), TestDeps(s), o, p, q);
      }
    }
  }

  /** A test cycle (each test depends on the next's name, the last on the first's) makes the tag sort fail. */
  lemma {:induction false} TagCycleFails(s: seq<Test>, c: seq<int>)
    requires Cycle(TestDag(s), c)
    ensures SortByTag(s) == None
  {
    CycleFails(TestDag(s), c);
  }

  /**
   * When every test's dependencies name only tests before it, the tag sort
   * keeps the slice as it is; in particular it does when no test depends on
   * another test's name.
   */
  lemma {:induction false} SortByTagKeepsOrder(s: seq<Test>)
    requires forall i, j ::
      (0 <= i < |s| && 0 <= j < |s| && i != j && s[j].name.Some? && s[j].name.value in DepNames(s[i].dependsOn))
      ==> j < i
    ensures SortByTag(s) == Some(s)
  {
    var dag := TestDag(s);
    forall i, k | 0 <= i < |dag| && 0 <= k < |dag[i]| ensures 0 <= dag[i][k] < i {
      EdgeIff(TestNames(s), TestDeps(s), i, dag[i][k]);
    }
    KahnForward(dag, 0);
    assert Pick(s, Range(0, |s|)) == s;
  }

  /** The block order covers every test exactly once. */
  lemma {:induction false} BlockIndicesPermutation(idx: seq<int>, m: nat, n: nat, o: seq<int>)
    requires Boundaries(idx, m, n) && IsPermutationOfRange(o, m)
    ensures IsPermutationOfRange(BlockIndices(idx, m, n, o), n)
  {
    var b := BlockIndices(idx, m, n, o);
    BlockIndicesDistinct(idx, m, n, o);
    DistinctBelow(b, n);
    DistinctBelow(o, m);
    forall v | 0 <= v < n ensures v in b {
      var g := GroupOf(idx, m, n, v, 0);
      assert g in o;
      var k :| 0 <= k < |o| && o[k] == g;
      assert InBlock(idx, o[k], v);
      BlockIndicesMembers(idx, m, n, o, v);
    }
    var r := Range(0, n);
    assert Distinct(r);
    DistinctSetSize(b);
    DistinctSetSize(r);
    assert (set v | v in r) <= (set v | v in b) by {
      forall v | v in r ensures v in b {
        var k :| 0 <= k < |r| && r[k] == v;
      }
    }
    SubsetSize(set v | v in r, set v | v in b);
  }

  /** The group whose block holds test index `v`, searching from group `g`. */
  lemma {:induction false} GroupOf(idx: seq<int>, m: nat, n: nat, v: int, g: nat) returns (h: int)
    requires Boundaries(idx, m, n) && g < m && idx[g] <= v < n
    ensures g <= h < m && idx[h] <= v < idx[h + 1]
    decreases m - g
  {
    BoundaryBounds(idx, m, n, g);
    if v < idx[g + 1] {
      h := g;
    } else {
      h := GroupOf(idx, m, n, v, g + 1);
    }
  }

  /** Test index `v` is in the block order exactly when it lies in the block of one of the groups `o`. */
  lemma {:induction false} BlockIndicesMembers(idx: seq<int>, m: nat, n: nat, o: seq<int>, v: int)
    requires Boundaries(idx, m, n) && forall k :: 0 <= k < |o| ==> 0 <= o[k] < m
    ensures v in BlockIndices(idx, m, n, o) <==> exists k :: 0 <= k < |o| && InBlock(idx, o[k], v)
  {
    if o != [] {
      var front, g := o[..|o| - 1], o[|o| - 1];
      BlockIndicesMembers(idx, m, n, front, v);
      BoundaryBounds(idx, m, n, g);
      BlockStep(idx, m, n, o, v);
    }
  }

  /** `v` lies in the block of group `g`. */
  predicate InBlock(idx: seq<int>, g: int, v: int)
    requires 0 <= g && g + 1 < |idx|
  {
    idx[g] <= v < idx[g + 1]
  }

  lemma {:induction false} BlockStep(idx: seq<int>, m: nat, n: nat, o: seq<int>, v: int)
    requires Boundaries(idx, m, n) && o != [] && forall k :: 0 <= k < |o| ==> 0 <= o[k] < m
    requires var front := o[..|o| - 1];
      v in BlockIndices(idx, m, n, front) <==> exists k :: 0 <= k < |front| && InBlock(idx, front[k], v)
    ensures v in BlockIndices(idx, m, n, o) <==> exists k :: 0 <= k < |o| && InBlock(idx, o[k], v)
  {
    var front, g := o[..|o| - 1], o[|o| - 1];
    BoundaryBounds(idx, m, n, g);
    var block := Range(idx[g], idx[g + 1]);
    assert BlockIndices(idx, m, n, o) == BlockIndices(idx, m, n, front) + block;
    assert v in block <==> InBlock(idx, g, v) by {
      if InBlock(idx, g, v) {
        assert block[v - idx[g]] == v;
      }
    }
    BlockStepFront(idx, o, front, v);
  }

  /** A witness among the first `|o| - 1` groups or the last one is a witness in `o`, and back. */
  lemma {:induction false} BlockStepFront(idx: seq<int>, o: seq<int>, front: seq<int>, v: int)
    requires o != [] && front == o[..|o| - 1] && forall k :: 0 <= k < |o| ==> 0 <= o[k] && o[k] + 1 < |idx|
    ensures (exists k :: 0 <= k < |o| && InBlock(idx, o[k], v))
      <==> (exists k :: 0 <= k < |front| && InBlock(idx, front[k], v)) || InBlock(idx, o[|o| - 1], v)
  {
    if k :| 0 <= k < |o| && InBlock(idx, o[k], v) {
      if k < |front| {
        assert front[k] == o[k];
      }
    }
    if k :| 0 <= k < |front| && InBlock(idx, front[k], v) {
      assert o[k] == front[k];
    }
  }

  /** Different groups have disjoint blocks. */
  lemma {:induction false} BlocksDisjoint(idx: seq<int>, m: nat, n: nat, g: int, h: int, v: int)
    requires Boundaries(idx, m, n) && 0 <= g < m && 0 <= h < m && g != h
    requires idx[g] <= v < idx[g + 1]
    ensures !(idx[h] <= v < idx[h + 1])
  {
    if g < h {
      if g + 1 < h {
        assert idx[g + 1] < idx[h];
      }
    } else {
      if h + 1 < g {
        assert idx[h + 1] < idx[g];
      }
    }
  }

  lemma {:induction false} BlockIndicesDistinct(idx: seq<int>, m: nat, n: nat, o: seq<int>)
    requires Boundaries(idx, m, n) && Distinct(o) && forall k :: 0 <= k < |o| ==> 0 <= o[k] < m
    ensures Distinct(BlockIndices(idx, m, n, o))
  {
    if o != [] {
      var front, g := o[..|o| - 1], o[|o| - 1];
      assert Distinct(front);
      BlockIndicesDistinct(idx, m, n, front);
      BoundaryBounds(idx, m, n, g);
      var block := Range(idx[g], idx[g + 1]);
      forall v | v in BlockIndices(idx, m, n, front) ensures v !in block {
        BlockIndicesMembers(idx, m, n, front, v);
        var k :| 0 <= k < |front| && InBlock(idx, front[k], v);
        assert front[k] != g by {
          assert o[k] == front[k];
        }
        BlocksDisjoint(idx, m, n, front[k], g, v);
      }
      DistinctConcat(BlockIndices(idx, m, n, front), block);
    }
  }

  /**
   * A successful group sort permutes the tests and the configs, and a
   * group's config comes after the config of every other group named in
   * its `depends_on` list.
   */
  lemma {:induction false} SortByGroupIsTopological(ts: seq<Test>, cs: seq<Config>, idx: seq<int>)
    requires Boundaries(idx, |cs|, |ts|)
    ensures SortByGroup(ts, cs, idx).Some? ==>
      multiset(SortByGroup(ts, cs, idx).value.0) == multiset(ts)
      && multiset(SortByGroup(ts, cs, idx).value.1) == multiset(cs)
    ensures SortByGroup(ts, cs, idx).Some? ==>
      var r := SortByGroup(ts, cs, idx).value.1;
      forall p, q ::
        0 <= p < |r| && 0 <= q < |r| && p != q
        && r[p].name.Some? && r[p].name.value in DepNames(r[q].dependsOn)
        ==> p < q
  {
    if SortByGroup(ts, cs, idx).Some? {
      var o := Order(ConfigDag(cs)).value;
      OrderIndices(ConfigDag(cs), o);
      var r := Pick(cs, o);
      OrderIsTopological(ConfigDag(cs));
      PickPermutation(cs, o);
      BlockIndicesPermutation(idx, |cs|, |ts|, o);
      PickPermutation(ts, BlockIndices(idx, |cs|, |ts|, o));
      forall p, q | 0 <= p < |cs| && 0 <= q < |cs| && p != q
          && r[p].name.Some? && r[p].name.value in DepNames(r[q].dependsOn)
        ensures p < q
      {
        OrderRespectsDeps(ConfigNames(cs), ConfigDeps(cs), o, p, q);
      }
    }
  }

  /** A successful group sort keeps one entry per test and one per config. */
  lemma {:induction false} SortByGroupLengths(ts: seq<Test>, cs: seq<Config>, idx: seq<int>)
    requires Boundaries(idx, |cs|, |ts|)
    ensures SortByGroup(ts, cs, idx).Some? ==>
      |SortByGroup(ts, cs, idx).value.0| == |ts| && |SortByGroup(ts, cs, idx).value.1| == |cs|
  {
    if SortByGroup(ts, cs, idx).Some? {
      var o := Order(ConfigDag(cs)).value;
      OrderIndices(ConfigDag(cs), o);
      BlockIndicesPermutation(idx, |cs|, |ts|, o);
    }
  }

  /** A group cycle makes the group sort fail. */
  lemma {:induction false} GroupCycleFails(ts: seq<Test>, cs: seq<Config>, idx: seq<int>, c: seq<int>)
    requires Boundaries(idx, |cs|, |ts|) && Cycle(ConfigDag(cs), c)
    ensures SortByGroup(ts, cs, idx) == None
  {
    CycleFails(ConfigDag(cs), c);
  }
}
