/**
 * `unittest_main` after discovery and sorting (unittest.h:1018-1079):
 * compensate the configs, build the boundary array, sort each group's
 * tests by tag, sort the groups, then run them with the boundary array
 * built before the group sort and report the totals. A failing sort ends
 * the program with status 1 before any test runs; otherwise the status is
 * 0 whatever the checks report.
 */
module Scheduler {
  import opened Base
  import opened Records
  import opened Grouping
  import opened Kahn
  import opened Toposort
  import opened Runner

  /** `UNITTEST_KV_INIT`: the slots a growable array is first `calloc`'d with (unittest.h:43). */
  const KvInit: nat := 64

  /** The boundary array of a terminated test array is a boundary array over its live tests. */
  lemma {:induction false} FileIndexBounds(ts: seq<Test>)
    requires TestsTerminated(ts)
    ensures TestCount(ts) < |ts|
    ensures Boundaries(FileIndex(ts), FileCount(ts), TestCount(ts))
  {
    FileIndexShape(ts);
  }

  /** The compensated configs: one per group at most. */
  function CompdConfigs(ts: seq<Test>, cs: seq<Config>): (r: seq<Config>)
    requires Walks(GroupKeys(ts), ConfigKeys(LiveConfigs(cs)))
    ensures |r| <= FileCount(ts)
  {
    CompensateShape(GroupKeys(ts), LiveConfigs(cs));
    Compensate(GroupKeys(ts), LiveConfigs(cs))
  }

  /** `compd_config` as the later loops read it: the compensated configs, then zeroed slots. */
  function Padded(compd: seq<Config>, m: nat): (r: seq<Config>)
    requires |compd| <= m
    ensures |r| == m && r[..|compd|] == compd
    ensures forall k :: |compd| <= k < m ==> r[k] == ZeroConfig
  {
    compd + seq(m - |compd|, _ => ZeroConfig)
  }

  /**
   * The slots past the compensated configs hold zeroes only while the vector
   * has not grown past its first `calloc`'d block: `realloc`'d memory is not
   * cleared.
   */
  predicate PaddingDefined(compd: seq<Config>, m: nat) {
    |compd| == m || m <= KvInit
  }

  /** A boundary entry lies inside the test range. */
  lemma {:induction false} IndexBounds(idx: seq<int>, m: nat, n: nat, i: nat)
    requires Boundaries(idx, m, n) && i <= m
    ensures 0 <= idx[i] <= n
  {
    if i < m {
      BoundaryBounds(idx, m, n, i);
    }
  }

  /** Group `i`'s range of `cur` by the boundary array `idx` of `m` groups over `n` tests. */
  function Slice(idx: seq<int>, m: nat, n: nat, i: nat, cur: seq<Test>): (r: seq<Test>)
    requires Boundaries(idx, m, n) && i < m && n <= |cur|
    ensures |r| == idx[i + 1] - idx[i]
  {
    BoundaryBounds(idx, m, n, i);
    cur[idx[i]..idx[i + 1]]
  }

  /** `cur` with group `i`'s range replaced by `b`. */
  function WithBlock(idx: seq<int>, m: nat, n: nat, i: nat, cur: seq<Test>, b: seq<Test>): (r: seq<Test>)
    requires Boundaries(idx, m, n) && i < m && n <= |cur|
    requires |b| == idx[i + 1] - idx[i]
    ensures |r| == |cur|
  {
    BoundaryBounds(idx, m, n, i);
    cur[..idx[i]] + b + cur[idx[i + 1]..]
  }

  /** The tests of group `g` of a terminated test array. */
  function TestBlock(ts: seq<Test>, g: nat): seq<Test>
    requires TestsTerminated(ts) && g < FileCount(ts)
  {
    FileIndexBounds(ts);
    Slice(FileIndex(ts), FileCount(ts), TestCount(ts), g, ts)
  }

  /** What `unittest_main` needs of the sorted arrays it is handed. */
  predicate MainInput(ts: seq<Test>, cs: seq<Config>) {
    TestsTerminated(ts) && ConfigsTerminated(cs)
    && Walks(GroupKeys(ts), ConfigKeys(LiveConfigs(cs)))
    && PaddingDefined(CompdConfigs(ts, cs), FileCount(ts))
    && (forall g :: 0 <= g < FileCount(ts) ==> TagSortable(TestBlock(ts, g)))
    && GroupSortable(Padded(CompdConfigs(ts, cs), FileCount(ts)))
  }

  /** A sort of one group's block: its result, or `None` when it reports a cycle. */
  type BlockSort = seq<Test> -> Option<seq<Test>>

  /** A successful sort returns as many tests as it was given. */
  ghost predicate KeepsLength(sort: BlockSort) {
    forall s :: sort(s).Some? ==> |sort(s).value| == |s|
  }

  /** A successful sort rearranges the tests it was given. */
  ghost predicate Permutes(sort: BlockSort) {
    forall s :: sort(s).Some? ==> multiset(sort(s).value) == multiset(s)
  }

  lemma SortByTagKeepsLength()
    ensures KeepsLength(SortByTag)
  {
  }

  lemma SortByTagPermutes()
    ensures Permutes(SortByTag)
  {
    forall s | SortByTag(s).Some?
      ensures multiset(SortByTag(s).value) == multiset(s)
    {
      SortByTagIsTopological(s);
    }
  }

  /** The tests after `sort` has been applied to groups `0..g-1` by `idx`, or `None` once it reports a cycle. */
  function TagSorted(ts: seq<Test>, idx: seq<int>, m: nat, n: nat, g: nat, sort: BlockSort): (r: Option<seq<Test>>)
    requires Boundaries(idx, m, n) && n <= |ts| && KeepsLength(sort) && g <= m
    ensures r.Some? ==> |r.value| == |ts|
  {
    if g == 0 then Some(ts)
    else
      match TagSorted(ts, idx, m, n, g - 1, sort)
      case None => None
      case Some(u) =>
        match sort(Slice(idx, m, n, g - 1, ts))
        case None => None
        case Some(b) => Some(WithBlock(idx, m, n, g - 1, u, b))
  }

  /** The tests after the tag sorts of all `m` groups by `idx`, or `None` at the first cycle. */
  function TagSortedByTag(ts: seq<Test>, idx: seq<int>, m: nat, n: nat): Option<seq<Test>>
    requires Boundaries(idx, m, n) && n <= |ts|
  {
    SortByTagKeepsLength();
    TagSorted(ts, idx, m, n, m, SortByTag)
  }

  /** The tests after the tag sorts of all groups of `ts`, or `None` at the first cycle. */
  function Tagged(ts: seq<Test>): Option<seq<Test>>
    requires TestsTerminated(ts)
  {
    FileIndexBounds(ts);
    TagSortedByTag(ts, FileIndex(ts), FileCount(ts), TestCount(ts))
  }

  /** The tests and configs the run loop works on, or `None` when a sort reports a cycle. */
  function Schedule(ts: seq<Test>, cs: seq<Config>): (r: Option<(seq<Test>, seq<Config>)>)
    requires MainInput(ts, cs)
  {
    match Tagged(ts)
    case None => None
    case Some(u) =>
      FileIndexBounds(ts);
      match SortByGroup(u[..TestCount(ts)], Padded(CompdConfigs(ts, cs), FileCount(ts)), FileIndex(ts))
      case None => None
      case Some(s) => Some((s.0 + u[TestCount(ts)..], s.1))
  }

  // ----- The tag-sort loop -----

  /** Groups `0..i-1` are tag sorted into `cur`; the rest of the array is as it was. */
  ghost predicate TagLoop(ts: seq<Test>, idx: seq<int>, m: nat, n: nat, i: nat, cur: seq<Test>, sort: BlockSort)
    requires Boundaries(idx, m, n) && n <= |ts| && KeepsLength(sort) && i <= m
  {
    IndexBounds(idx, m, n, i);
    TagSorted(ts, idx, m, n, i, sort) == Some(cur) && |cur| == |ts| && cur[idx[i]..] == ts[idx[i]..]
  }

  lemma {:induction false} TagLoopStart(ts: seq<Test>, idx: seq<int>, m: nat, n: nat, sort: BlockSort)
    requires Boundaries(idx, m, n) && n <= |ts| && KeepsLength(sort)
    ensures TagLoop(ts, idx, m, n, 0, ts, sort)
  {
  }

  /** The block under the loop's cursor is still the group's original block. */
  lemma {:induction false} TagLoopSlice(ts: seq<Test>, idx: seq<int>, m: nat, n: nat, i: nat, cur: seq<Test>, sort: BlockSort)
    requires Boundaries(idx, m, n) && n <= |ts| && KeepsLength(sort) && i < m && TagLoop(ts, idx, m, n, i, cur, sort)
    ensures Slice(idx, m, n, i, cur) == Slice(idx, m, n, i, ts)
  {
    BoundaryBounds(idx, m, n, i);
    SameTailSlice(cur, ts, idx[i], idx[i + 1]);
  }

  lemma {:induction false} SameTailSlice<T>(a: seq<T>, b: seq<T>, lo: nat, hi: nat)
    requires lo <= hi <= |a| == |b| && a[lo..] == b[lo..]
    ensures a[lo..hi] == b[lo..hi]
  {
    assert a[lo..hi] == a[lo..][..hi - lo];
    assert b[lo..hi] == b[lo..][..hi - lo];
  }

  lemma {:induction false} TagLoopStep(ts: seq<Test>, idx: seq<int>, m: nat, n: nat, i: nat, cur: seq<Test>, sort: BlockSort)
    requires Boundaries(idx, m, n) && n <= |ts| && KeepsLength(sort) && i < m && TagLoop(ts, idx, m, n, i, cur, sort)
    requires sort(Slice(idx, m, n, i, cur)).Some?
    ensures TagLoop(ts, idx, m, n, i + 1, WithBlock(idx, m, n, i, cur, sort(Slice(idx, m, n, i, cur)).value), sort)
  {
    TagLoopSlice(ts, idx, m, n, i, cur, sort);
    BoundaryBounds(idx, m, n, i);
    var lo, hi := idx[i], idx[i + 1];
    var next := WithBlock(idx, m, n, i, cur, sort(Slice(idx, m, n, i, cur)).value);
    assert next[hi..] == cur[hi..];
    assert cur[hi..] == cur[lo..][hi - lo..];
    assert ts[hi..] == ts[lo..][hi - lo..];
  }

  lemma {:induction false} TagSortedStaysNone(ts: seq<Test>, idx: seq<int>, m: nat, n: nat, g: nat, h: nat, sort: BlockSort)
    requires Boundaries(idx, m, n) && n <= |ts| && KeepsLength(sort) && g <= h <= m && TagSorted(ts, idx, m, n, g, sort).None?
    ensures TagSorted(ts, idx, m, n, h, sort).None?
    decreases h - g
  {
    if g < h {
      TagSortedStaysNone(ts, idx, m, n, g, h - 1, sort);
    }
  }

  /** Group `g`'s block of `ts` meets what the tag sort needs. */
  predicate BlockSortable(ts: seq<Test>, idx: seq<int>, m: nat, n: nat, g: nat)
    requires Boundaries(idx, m, n) && n <= |ts| && g < m
  {
    TagSortable(Slice(idx, m, n, g, ts))
  }

  /** The tag-sort loop of `unittest_main` (unittest.h:1026-1033): 0 when every group sorts, 1 at the first cycle. */
  method TagSortGroups(a: array<Test>, ghost ts: seq<Test>, fileIdx: seq<int>, fileCnt: nat, ghost testCnt: nat) returns (rc: int)
    requires a[..] == ts && Boundaries(fileIdx, fileCnt, testCnt) && testCnt <= |ts|
    requires forall g :: 0 <= g < fileCnt ==> BlockSortable(ts, fileIdx, fileCnt, testCnt, g)
    modifies a
    ensures TagSortedByTag(ts, fileIdx, fileCnt, testCnt).None? ==> rc == 1
    ensures TagSortedByTag(ts, fileIdx, fileCnt, testCnt).Some? ==>
      rc == 0 && a[..] == TagSortedByTag(ts, fileIdx, fileCnt, testCnt).value
  {
    SortByTagKeepsLength();
    TagLoopStart(ts, fileIdx, fileCnt, testCnt, SortByTag);
    for i := 0 to fileCnt
      invariant TagLoop(ts, fileIdx, fileCnt, testCnt, i, a[..], SortByTag)
    {
      ghost var cur := a[..];
      TagLoopSlice(ts, fileIdx, fileCnt, testCnt, i, cur, SortByTag);
      var r := SortBlock(a, ts, fileIdx, fileCnt, testCnt, i);
      if r != 0 {
        TagSortedStaysNone(ts, fileIdx, fileCnt, testCnt, i + 1, fileCnt, SortByTag);
        return 1;
      }
      TagLoopStep(ts, fileIdx, fileCnt, testCnt, i, cur, SortByTag);
    }
    return 0;
  }

  /** One round of the tag-sort loop: group `i`'s range, still holding its original block, is sorted in place. */
  method SortBlock(a: array<Test>, ghost ts: seq<Test>, fileIdx: seq<int>, fileCnt: nat, ghost testCnt: nat, i: nat) returns (r: int)
    requires Boundaries(fileIdx, fileCnt, testCnt) && testCnt <= |ts| == a.Length && i < fileCnt
    requires Slice(fileIdx, fileCnt, testCnt, i, a[..]) == Slice(fileIdx, fileCnt, testCnt, i, ts)
    requires BlockSortable(ts, fileIdx, fileCnt, testCnt, i)
    modifies a
    ensures SortByTag(Slice(fileIdx, fileCnt, testCnt, i, ts)).None? ==> r != 0
    ensures SortByTag(Slice(fileIdx, fileCnt, testCnt, i, ts)).Some? ==>
      r == 0 && a[..] == WithBlock(fileIdx, fileCnt, testCnt, i, old(a[..]), SortByTag(Slice(fileIdx, fileCnt, testCnt, i, ts)).value)
  {
    BoundaryBounds(fileIdx, fileCnt, testCnt, i);
    var lo, hi := fileIdx[i], fileIdx[i + 1];
    assert a[lo..lo + (hi - lo)] == Slice(fileIdx, fileCnt, testCnt, i, ts);
    r := ToposortByTag(a, lo, hi - lo);
  }

  // ----- What the tag sorts leave behind -----

  lemma {:induction false} SpliceFront<T>(u: seq<T>, b: seq<T>, lo: nat, hi: nat, x: nat, y: nat)
    requires x <= y <= lo <= hi <= |u|
    ensures (u[..lo] + b + u[hi..])[x..y] == u[x..y]
  {
    assert (u[..lo] + b + u[hi..])[x..y] == u[..lo][x..y];
  }

  lemma {:induction false} SpliceMiddle<T>(u: seq<T>, b: seq<T>, lo: nat, hi: nat)
    requires lo <= hi <= |u|
    ensures (u[..lo] + b + u[hi..])[lo..lo + |b|] == b
  {
  }

  lemma {:induction false} SpliceMultiset<T>(u: seq<T>, b: seq<T>, lo: nat, hi: nat)
    requires lo <= hi <= |u| && multiset(b) == multiset(u[lo..hi])
    ensures multiset(u[..lo] + b + u[hi..]) == multiset(u)
  {
    assert u == u[..lo] + u[lo..hi] + u[hi..];
  }

  /** One more tag sort: the array is the previous one with the group's range replaced by its sorted block. */
  lemma {:induction false} TagSortedStep(ts: seq<Test>, idx: seq<int>, m: nat, n: nat, g: nat, sort: BlockSort)
    requires Boundaries(idx, m, n) && n <= |ts| && KeepsLength(sort) && 0 < g <= m && TagSorted(ts, idx, m, n, g, sort).Some?
    ensures TagSorted(ts, idx, m, n, g - 1, sort).Some? && sort(Slice(idx, m, n, g - 1, ts)).Some?
    ensures TagSorted(ts, idx, m, n, g, sort).value
      == WithBlock(idx, m, n, g - 1, TagSorted(ts, idx, m, n, g - 1, sort).value, sort(Slice(idx, m, n, g - 1, ts)).value)
  {
  }

  /** After the first `g` tag sorts the rest of the array is untouched. */
  lemma {:induction false} TagSortedTail(ts: seq<Test>, idx: seq<int>, m: nat, n: nat, g: nat, sort: BlockSort)
    requires Boundaries(idx, m, n) && n <= |ts| && KeepsLength(sort) && g <= m && TagSorted(ts, idx, m, n, g, sort).Some?
    ensures TagLoop(ts, idx, m, n, g, TagSorted(ts, idx, m, n, g, sort).value, sort)
  {
    if g > 0 {
      TagSortedStep(ts, idx, m, n, g, sort);
      var u := TagSorted(ts, idx, m, n, g - 1, sort).value;
      TagSortedTail(ts, idx, m, n, g - 1, sort);
      TagLoopSlice(ts, idx, m, n, g - 1, u, sort);
      TagLoopStep(ts, idx, m, n, g - 1, u, sort);
    }
  }

  /** The tag sorts permute the test array. */
  lemma {:induction false} TagSortedPermutes(ts: seq<Test>, idx: seq<int>, m: nat, n: nat, g: nat, sort: BlockSort)
    requires Boundaries(idx, m, n) && n <= |ts| && KeepsLength(sort) && g <= m && TagSorted(ts, idx, m, n, g, sort).Some?
    requires Permutes(sort)
    ensures multiset(TagSorted(ts, idx, m, n, g, sort).value) == multiset(ts)
  {
    if g > 0 {
      TagSortedStep(ts, idx, m, n, g, sort);
      TagSortedPermutes(ts, idx, m, n, g - 1, sort);
      TagSortedTail(ts, idx, m, n, g - 1, sort);
      var u := TagSorted(ts, idx, m, n, g - 1, sort).value;
      var s := Slice(idx, m, n, g - 1, ts);
      TagLoopSlice(ts, idx, m, n, g - 1, u, sort);
      BoundaryBounds(idx, m, n, g - 1);
      SpliceMultiset(u, sort(s).value, idx[g - 1], idx[g]);
    }
  }

  /** After the first `g` tag sorts, group `h < g`'s range holds the tag sort of its original block. */
  lemma {:induction false} TagSortedBlock(ts: seq<Test>, idx: seq<int>, m: nat, n: nat, g: nat, h: nat, sort: BlockSort)
    requires Boundaries(idx, m, n) && n <= |ts| && KeepsLength(sort) && h < g <= m && TagSorted(ts, idx, m, n, g, sort).Some?
    ensures sort(Slice(idx, m, n, h, ts)).Some?
    ensures Slice(idx, m, n, h, TagSorted(ts, idx, m, n, g, sort).value) == sort(Slice(idx, m, n, h, ts)).value
  {
    TagSortedStep(ts, idx, m, n, g, sort);
    var u := TagSorted(ts, idx, m, n, g - 1, sort).value;
    var b := sort(Slice(idx, m, n, g - 1, ts)).value;
    BoundaryBounds(idx, m, n, g - 1);
    if h < g - 1 {
      TagSortedBlock(ts, idx, m, n, g - 1, h, sort);
      BoundaryBounds(idx, m, n, h);
      assert idx[h + 1] <= idx[g - 1];
      SpliceFront(u, b, idx[g - 1], idx[g], idx[h], idx[h + 1]);
    } else {
      SpliceMiddle(u, b, idx[g - 1], idx[g]);
    }
  }

  /** A dependency cycle among the tests of any one group makes the schedule fail. */
  lemma {:induction false} ScheduleFailsOnTestCycle(ts: seq<Test>, cs: seq<Config>, g: nat, c: seq<int>)
    requires MainInput(ts, cs) && g < FileCount(ts) && Cycle(TestDag(TestBlock(ts, g)), c)
    ensures Schedule(ts, cs) == None
  {
    FileIndexBounds(ts);
    var idx, m, n := FileIndex(ts), FileCount(ts), TestCount(ts);
    TagCycleFails(TestBlock(ts, g), c);
    SortByTagKeepsLength();
    assert TagSorted(ts, idx, m, n, g + 1, SortByTag).None?;
    TagSortedStaysNone(ts, idx, m, n, g + 1, m, SortByTag);
  }

  /** A dependency cycle among the groups' configs makes the schedule fail. */
  lemma {:induction false} ScheduleFailsOnGroupCycle(ts: seq<Test>, cs: seq<Config>, c: seq<int>)
    requires MainInput(ts, cs) && Cycle(ConfigDag(Padded(CompdConfigs(ts, cs), FileCount(ts))), c)
    ensures Schedule(ts, cs) == None
  {
    if Tagged(ts).Some? {
      FileIndexBounds(ts);
      var u := Tagged(ts).value;
      GroupCycleFails(u[..TestCount(ts)], Padded(CompdConfigs(ts, cs), FileCount(ts)), FileIndex(ts), c);
    }
  }

  /** A successful schedule is the group sort of the tag-sorted live tests, with the terminator kept behind them. */
  lemma {:induction false} ScheduleParts(ts: seq<Test>, cs: seq<Config>)
    requires MainInput(ts, cs) && Schedule(ts, cs).Some?
    ensures Tagged(ts).Some?
    ensures Boundaries(FileIndex(ts), FileCount(ts), TestCount(ts)) && TestCount(ts) < |ts|
    ensures var u := Tagged(ts).value;
      var sg := SortByGroup(u[..TestCount(ts)], Padded(CompdConfigs(ts, cs), FileCount(ts)), FileIndex(ts));
      sg.Some? && Schedule(ts, cs).value == (sg.value.0 + u[TestCount(ts)..], sg.value.1)
  {
    FileIndexBounds(ts);
  }

  /** A successful schedule permutes the test array and the padded configs. */
  lemma {:induction false} SchedulePermutes(ts: seq<Test>, cs: seq<Config>)
    requires MainInput(ts, cs) && Schedule(ts, cs).Some?
    ensures multiset(Schedule(ts, cs).value.0) == multiset(ts)
    ensures multiset(Schedule(ts, cs).value.1) == multiset(Padded(CompdConfigs(ts, cs), FileCount(ts)))
  {
    ScheduleParts(ts, cs);
    var n, m := TestCount(ts), FileCount(ts);
    var u := Tagged(ts).value;
    SortByTagKeepsLength();
    SortByTagPermutes();
    TagSortedPermutes(ts, FileIndex(ts), m, n, m, SortByTag);
    var gs := Padded(CompdConfigs(ts, cs), m);
    SortByGroupIsTopological(u[..n], gs, FileIndex(ts));
    var sg := SortByGroup(u[..n], gs, FileIndex(ts)).value;
    AppendMultiset(sg.0, u, n);
  }

  lemma {:induction false} AppendMultiset<T>(a: seq<T>, u: seq<T>, n: nat)
    requires n <= |u| && multiset(a) == multiset(u[..n])
    ensures multiset(a + u[n..]) == multiset(u)
  {
    assert u == u[..n] + u[n..];
  }

  /**
   * A successful schedule keeps the array length and leaves one config per
   * group, and the boundary array built before it still bounds the
   * rearranged tests.
   */
  lemma {:induction false} ScheduleShape(ts: seq<Test>, cs: seq<Config>)
    requires MainInput(ts, cs) && Schedule(ts, cs).Some?
    ensures |Schedule(ts, cs).value.0| == |ts| && |Schedule(ts, cs).value.1| == FileCount(ts)
    ensures RunBounds(Schedule(ts, cs).value.0, FileIndex(ts), FileCount(ts))
  {
    ScheduleParts(ts, cs);
    var n, m := TestCount(ts), FileCount(ts);
    var u := Tagged(ts).value;
    var gs := Padded(CompdConfigs(ts, cs), m);
    SortByGroupLengths(u[..n], gs, FileIndex(ts));
  }

  /** The trace of a successful run: the scheduled arrays run by the boundary array of the input. */
  function MainTrace(ts: seq<Test>, cs: seq<Config>): seq<Event>
    requires MainInput(ts, cs) && Schedule(ts, cs).Some?
  {
    ScheduleShape(ts, cs);
    var s := Schedule(ts, cs).value;
    RunTrace(s.0, s.1, FileIndex(ts), FileCount(ts), FileCount(ts))
  }

  /** The per-group counters of a successful run. */
  function MainResults(ts: seq<Test>, cs: seq<Config>, outcomes: Outcomes): seq<Result>
    requires MainInput(ts, cs) && Schedule(ts, cs).Some?
  {
    ScheduleShape(ts, cs);
    var s := Schedule(ts, cs).value;
    RunResults(s.0, FileIndex(ts), FileCount(ts), FileCount(ts), outcomes)
  }

  /**
   * The group sort stage (unittest.h:1037-1041): `compd_config` padded with
   * zeroed slots to one per group, then the group sort of the `testCnt` live
   * tests of `u` and of those configs; 0 on success, 1 on a cycle.
   */
  method SortGroupStage(a: array<Test>, ghost u: seq<Test>, compd: seq<Config>, testCnt: nat, fileIdx: seq<int>, fileCnt: nat)
      returns (rc: int, c: array<Config>)
    requires a[..] == u && testCnt <= |u| && |compd| <= fileCnt
    requires Boundaries(fileIdx, fileCnt, testCnt) && GroupSortable(Padded(compd, fileCnt))
    modifies a
    ensures fresh(c)
    ensures rc == 0 || rc == 1
    ensures rc == 1 <==> SortByGroup(u[..testCnt], Padded(compd, fileCnt), fileIdx).None?
    ensures rc == 0 ==>
      var s := SortByGroup(u[..testCnt], Padded(compd, fileCnt), fileIdx).value;
      a[..] == s.0 + u[testCnt..] && c[..] == s.1
  {
    c := new Config[fileCnt](k requires 0 <= k < fileCnt => if k < |compd| then compd[k] else ZeroConfig);
    assert c[..fileCnt] == c[..] == Padded(compd, fileCnt);
    assert c[fileCnt..] == [];
    var r := ToposortByGroup(a, testCnt, c, fileIdx, fileCnt);
    if r != 0 {
      return 1, c;
    }
    rc := 0;
  }

  /** Once the tag sorts succeed, the schedule is the group sort of their result. */
  lemma {:induction false} ScheduleOfTagged(ts: seq<Test>, cs: seq<Config>)
    requires MainInput(ts, cs) && Tagged(ts).Some?
    ensures Boundaries(FileIndex(ts), FileCount(ts), TestCount(ts)) && TestCount(ts) < |ts|
    ensures GroupSortable(Padded(CompdConfigs(ts, cs), FileCount(ts)))
    ensures var u := Tagged(ts).value;
      var sg := SortByGroup(u[..TestCount(ts)], Padded(CompdConfigs(ts, cs), FileCount(ts)), FileIndex(ts));
      (sg.None? <==> Schedule(ts, cs).None?)
      && (sg.Some? ==> Schedule(ts, cs).value == (sg.value.0 + u[TestCount(ts)..], sg.value.1))
  {
    FileIndexBounds(ts);
  }

  /**
   * `unittest_main` from the sorted arrays on (unittest.h:1018-1079): 1 when
   * a sort reports a cycle, before any test runs; otherwise 0, with one
   * result per group and the totals summed over them.
   */
  method UnittestMain(tests: seq<Test>, configs: seq<Config>, outcomes: Outcomes)
      returns (rc: int, results: seq<Result>, trace: seq<Event>, succ: int, fail: int)
    requires MainInput(tests, configs)
    ensures rc == 0 || rc == 1
    ensures rc == 1 <==> Schedule(tests, configs).None?
    ensures rc == 1 ==> results == [] && trace == []
    ensures rc == 0 ==>
      Schedule(tests, configs).Some?
      && results == MainResults(tests, configs, outcomes) && trace == MainTrace(tests, configs)
      && |results| == FileCount(tests) && succ == SumSucc(results) && fail == SumFail(results)
  {
    var compd := CompensateConfig(tests, configs);
    var testCnt := GetTotalTestCount(tests);
    var fileIdx := BuildFileIndex(tests);
    var fileCnt := GetTotalFileCount(tests);
    var r, a, c := SortStages(tests, configs, compd, testCnt, fileIdx, fileCnt);
    if r != 0 {
      return 1, [], [], 0, 0;
    }
    results, trace, succ, fail := RunStage(tests, configs, a[..], c[..], fileIdx, fileCnt, outcomes);
    rc := 0;
  }

  /** The run stage of `unittest_main` (unittest.h:1043-1079), on the scheduled arrays. */
  method RunStage(tests: seq<Test>, configs: seq<Config>, ts: seq<Test>, cs: seq<Config>, fileIdx: seq<int>, fileCnt: nat, outcomes: Outcomes)
      returns (results: seq<Result>, trace: seq<Event>, succ: int, fail: int)
    requires MainInput(tests, configs) && Schedule(tests, configs).Some?
    requires ts == Schedule(tests, configs).value.0 && cs == Schedule(tests, configs).value.1
    requires fileIdx == FileIndex(tests) && fileCnt == FileCount(tests)
    ensures results == MainResults(tests, configs, outcomes) && trace == MainTrace(tests, configs)
    ensures |results| == FileCount(tests) && succ == SumSucc(results) && fail == SumFail(results)
  {
    ScheduleShape(tests, configs);
    results, trace := RunGroups(ts, cs, fileIdx, fileCnt, outcomes);
    succ, fail := PrintResults(results, fileCnt);
    assert results[..fileCnt] == results;
  }

  /** The two sorts of `unittest_main` (unittest.h:1026-1041), on the test array held as an `array`: 1 at the first cycle. */
  method SortStages(tests: seq<Test>, configs: seq<Config>, compd: seq<Config>, testCnt: nat, fileIdx: seq<int>, fileCnt: nat)
      returns (rc: int, a: array<Test>, c: array<Config>)
    requires MainInput(tests, configs) && compd == CompdConfigs(tests, configs)
    requires testCnt == TestCount(tests) && fileIdx == FileIndex(tests) && fileCnt == FileCount(tests)
    ensures rc == 0 || rc == 1
    ensures rc == 1 <==> Schedule(tests, configs).None?
    ensures rc == 0 ==> Schedule(tests, configs).Some? && a[..] == Schedule(tests, configs).value.0 && c[..] == Schedule(tests, configs).value.1
  {
    a := new Test[|tests|](k requires 0 <= k < |tests| => tests[k]);
    assert a[..] == tests;
    FileIndexBounds(tests);
    forall g | 0 <= g < fileCnt
      ensures BlockSortable(tests, fileIdx, fileCnt, testCnt, g)
    {
      assert TagSortable(TestBlock(tests, g));
    }
    var r := TagSortGroups(a, tests, fileIdx, fileCnt, testCnt);
    if r != 0 {
      c := new Config[0];
      return 1, a, c;
    }
    ScheduleOfTagged(tests, configs);
    r, c := SortGroupStage(a, a[..], compd, testCnt, fileIdx, fileCnt);
    rc := r;
  }

  // ----- What a run does -----

  /** Every live test runs exactly once, in array order. */
  lemma {:induction false} MainRunsEveryTestOnce(ts: seq<Test>, cs: seq<Config>)
    requires MainInput(ts, cs) && Schedule(ts, cs).Some?
    ensures Runs(MainTrace(ts, cs)) == Range(0, TestCount(ts))
  {
    ScheduleShape(ts, cs);
    FileIndexBounds(ts);
    var s := Schedule(ts, cs).value;
    EveryTestRunsOnce(s.0, s.1, FileIndex(ts), FileCount(ts), FileCount(ts));
  }

  /**
   * The test run as part of group `g` is one of the positions the input's
   * boundary array gives group `g`, whichever group the schedule moved there.
   */
  lemma {:induction false} MainRunsByStaleIndex(ts: seq<Test>, cs: seq<Config>)
    requires MainInput(ts, cs) && Schedule(ts, cs).Some?
    ensures RunsWhereIndexed(Schedule(ts, cs).value.0, FileIndex(ts), MainTrace(ts, cs))
  {
    ScheduleShape(ts, cs);
    var s := Schedule(ts, cs).value;
    TraceRunsWhereIndexed(s.0, s.1, FileIndex(ts), FileCount(ts), FileCount(ts));
  }

  /** The checks of all live tests of a successful run, in run order. */
  function MainChecks(ts: seq<Test>, cs: seq<Config>, outcomes: Outcomes): seq<bool>
    requires MainInput(ts, cs) && Schedule(ts, cs).Some?
  {
    ScheduleShape(ts, cs);
    FileIndexBounds(ts);
    TestsOutcomes(Schedule(ts, cs).value.0, 0, TestCount(ts), outcomes)
  }

  /** The reported totals count the passed and the failed checks of all live tests. */
  lemma {:induction false} MainTotals(ts: seq<Test>, cs: seq<Config>, outcomes: Outcomes)
    requires MainInput(ts, cs) && Schedule(ts, cs).Some?
    ensures SumSucc(MainResults(ts, cs, outcomes)) == Passed(MainChecks(ts, cs, outcomes))
    ensures SumFail(MainResults(ts, cs, outcomes)) == |MainChecks(ts, cs, outcomes)| - Passed(MainChecks(ts, cs, outcomes))
  {
    ScheduleShape(ts, cs);
    FileIndexBounds(ts);
    var s := Schedule(ts, cs).value;
    TotalsCountAllChecks(s.0, FileIndex(ts), FileCount(ts), FileCount(ts), outcomes);
  }
}
