/**
 * The run loop of `unittest_main` (unittest.h:1043-1070), the counters of
 * `unittest_assert` (unittest.h:279-287) and the totals of
 * `unittest_print_results` (unittest.h:984-999). Test bodies and the
 * `init`/`clean` callbacks are user code: a body is represented by the
 * outcomes of the checks it performs (`outcomes(fn)`), and every callback
 * invocation is an event of the trace the run produces.
 */
module Runner {
  import opened Base
  import opened Records
  import opened Strings
  import opened Dag
  import opened Kahn
  import opened Toposort

  /** `struct unittest_result_s`: the counters of one group. */
  datatype Result = Result(succ: int, fail: int)

  /** The outcomes of the checks a test body performs. */
  type Outcomes = FnRef -> seq<bool>

  /** A callback invocation of the run loop. */
  datatype Event =
    | GroupInit(gi: FnRef)
    | TestInit(ti: FnRef)
    | TestRun(fn: FnRef, test: nat, group: nat, withCtx: bool)
    | TestClean(tc: FnRef)
    | GroupClean(gc: FnRef)

  /** `unittest_assert`: a check bumps exactly one counter, `succ` when it holds. */
  function Assert(r: Result, ok: bool): (r': Result)
    ensures ok ==> r' == Result(r.succ + 1, r.fail)
    ensures !ok ==> r' == Result(r.succ, r.fail + 1)
  {
    if ok then r.(succ := r.succ + 1) else r.(fail := r.fail + 1)
  }

  /** The counters after a sequence of checks. */
  function Tally(r: Result, oks: seq<bool>): Result {
    if oks == [] then r else Assert(Tally(r, oks[..|oks| - 1]), oks[|oks| - 1])
  }

  /** The number of checks that hold. */
  function Passed(oks: seq<bool>): (p: nat)
    ensures p <= |oks|
  {
    if oks == [] then 0 else Passed(oks[..|oks| - 1]) + (if oks[|oks| - 1] then 1 else 0)
  }

  /** Every check is counted once: as a success if it holds, as a failure otherwise. */
  lemma {:induction false} TallyCounts(r: Result, oks: seq<bool>)
    ensures Tally(r, oks) == Result(r.succ + Passed(oks), r.fail + |oks| - Passed(oks))
  {
    if oks != [] {
      TallyCounts(r, oks[..|oks| - 1]);
    }
  }

  lemma {:induction false} PassedConcat(a: seq<bool>, b: seq<bool>)
    ensures Passed(a + b) == Passed(a) + Passed(b)
    decreases |b|
  {
    if b != [] {
      assert (a + b)[..|a + b| - 1] == a + b[..|b| - 1];
      assert (a + b)[|a + b| - 1] == b[|b| - 1];
      PassedConcat(a, b[..|b| - 1]);
    } else {
      assert a + b == a;
    }
  }

  /** Both callbacks are set: the loop calls `init` and `clean` only then. */
  predicate HasSetup(init: Option<FnRef>, clean: Option<FnRef>) {
    init.Some? && clean.Some?
  }

  /** The events of running test `j` of `ts` as part of group `g` (unittest.h:1054-1060). */
  function TestEvents(t: Test, j: nat, g: nat): seq<Event> {
    if HasSetup(t.init, t.clean) then [TestInit(t.init.value), TestRun(t.fn, j, g, true), TestClean(t.clean.value)]
    else [TestRun(t.fn, j, g, false)]
  }

  /** The events of the tests `lo..hi-1` in group `g`. */
  function TestsEvents(ts: seq<Test>, g: nat, lo: nat, hi: nat): seq<Event>
    requires lo <= hi <= |ts|
    decreases hi - lo
  {
    if lo == hi then [] else TestsEvents(ts, g, lo, hi - 1) + TestEvents(ts[hi - 1], hi - 1, g)
  }

  /** The checks of the tests `lo..hi-1`, in order. */
  function TestsOutcomes(ts: seq<Test>, lo: nat, hi: nat, outcomes: Outcomes): seq<bool>
    requires lo <= hi <= |ts|
    decreases hi - lo
  {
    if lo == hi then [] else TestsOutcomes(ts, lo, hi - 1, outcomes) + outcomes(ts[hi - 1].fn)
  }

  /** The events of group `g` with config `c` over the tests `lo..hi-1` (unittest.h:1046-1068). */
  function GroupEvents(ts: seq<Test>, c: Config, g: nat, lo: nat, hi: nat): seq<Event>
    requires lo <= hi <= |ts|
  {
    (if HasSetup(c.init, c.clean) then [GroupInit(c.init.value)] else [])
    + TestsEvents(ts, g, lo, hi)
    + (if HasSetup(c.init, c.clean) then [GroupClean(c.clean.value)] else [])
  }

  /** Boundaries `idx` for `m` groups over the tests of `ts`. */
  predicate RunBounds(ts: seq<Test>, idx: seq<int>, m: nat) {
    |idx| == m + 2 && 0 <= idx[m] <= |ts| && Boundaries(idx, m, idx[m])
  }

  /** The trace of the first `g` groups. */
  function RunTrace(ts: seq<Test>, cs: seq<Config>, idx: seq<int>, m: nat, g: nat): seq<Event>
    requires RunBounds(ts, idx, m) && m <= |cs| && g <= m
  {
    if g == 0 then []
    else
      BoundaryBounds(idx, m, idx[m], g - 1);
      RunTrace(ts, cs, idx, m, g - 1) + GroupEvents(ts, cs[g - 1], g - 1, idx[g - 1], idx[g])
  }

  /** The counters of the first `g` groups: each starts at zero and counts its tests' checks. */
  function RunResults(ts: seq<Test>, idx: seq<int>, m: nat, g: nat, outcomes: Outcomes): (r: seq<Result>)
    requires RunBounds(ts, idx, m) && g <= m
    ensures |r| == g
  {
    if g == 0 then []
    else
      BoundaryBounds(idx, m, idx[m], g - 1);
      RunResults(ts, idx, m, g - 1, outcomes) + [Counters(ts, idx[g - 1], idx[g], outcomes)]
  }

  /** The run loop over `m` groups; `cs` holds at least one config per group. */
  method RunGroups(ts: seq<Test>, cs: seq<Config>, idx: seq<int>, m: nat, outcomes: Outcomes)
      returns (results: seq<Result>, trace: seq<Event>)
    requires RunBounds(ts, idx, m) && m <= |cs|
    ensures results == RunResults(ts, idx, m, m, outcomes)
    ensures trace == RunTrace(ts, cs, idx, m, m)
  {
    results, trace := [], [];
    for i := 0 to m
      invariant GroupsRan(ts, cs, idx, m, i, outcomes, results, trace)
    {
      BoundaryBounds(idx, m, idx[m], i);
      var r, ev := RunGroup(ts, cs[i], i, idx[i], idx[i + 1], outcomes);
      GroupStep(ts, cs, idx, m, i, outcomes, results, trace);
      results := results + [r];
      trace := trace + ev;
    }
  }

  /** The groups `0..i-1` have run: their counters and the events so far. */
  ghost predicate GroupsRan(ts: seq<Test>, cs: seq<Config>, idx: seq<int>, m: nat, i: nat, outcomes: Outcomes,
                            results: seq<Result>, trace: seq<Event>)
    requires RunBounds(ts, idx, m) && m <= |cs| && i <= m
  {
    results == RunResults(ts, idx, m, i, outcomes) && trace == RunTrace(ts, cs, idx, m, i)
  }

  lemma {:induction false} GroupStep(ts: seq<Test>, cs: seq<Config>, idx: seq<int>, m: nat, i: nat, outcomes: Outcomes,
                  results: seq<Result>, trace: seq<Event>)
    requires RunBounds(ts, idx, m) && m <= |cs| && i < m && 0 <= idx[i] <= idx[i + 1] <= |ts|
    requires GroupsRan(ts, cs, idx, m, i, outcomes, results, trace)
    ensures GroupsRan(ts, cs, idx, m, i + 1, outcomes,
                      results + [Counters(ts, idx[i], idx[i + 1], outcomes)],
                      trace + GroupEvents(ts, cs[i], i, idx[i], idx[i + 1]))
  {
  }

  /** One group: `init` before its tests and `clean` after, when the config has both (unittest.h:1046-1068). */
  method RunGroup(ts: seq<Test>, c: Config, g: nat, lo: nat, hi: nat, outcomes: Outcomes) returns (r: Result, ev: seq<Event>)
    requires lo <= hi <= |ts|
    ensures r == Counters(ts, lo, hi, outcomes)
    ensures ev == GroupEvents(ts, c, g, lo, hi)
  {
    ev := [];
    if c.init.Some? && c.clean.Some? {
      ev := ev + [GroupInit(c.init.value)];
    }
    var tev;
    r, tev := RunTests(ts, g, lo, hi, outcomes);
    ev := ev + tev;
    if c.init.Some? && c.clean.Some? {
      ev := ev + [GroupClean(c.clean.value)];
    }
  }

  /** The inner loop: the tests `lo..hi-1` of group `g`. */
  method RunTests(ts: seq<Test>, g: nat, lo: nat, hi: nat, outcomes: Outcomes) returns (r: Result, ev: seq<Event>)
    requires lo <= hi <= |ts|
    ensures r == Counters(ts, lo, hi, outcomes)
    ensures ev == TestsEvents(ts, g, lo, hi)
  {
    r, ev := Result(0, 0), [];
    var j := lo;
    while j < hi
      invariant lo <= j <= hi
      invariant r == Counters(ts, lo, j, outcomes)
      invariant ev == TestsEvents(ts, g, lo, j)
    {
      var e := RunTest(ts[j], j, g);
      r, ev, j := Tally(r, outcomes(ts[j].fn)), ev + e, j + 1;
    }
  }

  /** The counters after the tests `lo..hi-1`, one test body at a time. */
  function Counters(ts: seq<Test>, lo: nat, hi: nat, outcomes: Outcomes): Result
    requires lo <= hi <= |ts|
    decreases hi - lo
  {
    if lo == hi then Result(0, 0) else Tally(Counters(ts, lo, hi - 1, outcomes), outcomes(ts[hi - 1].fn))
  }

  lemma {:induction false} CountersTally(ts: seq<Test>, lo: nat, hi: nat, outcomes: Outcomes)
    requires lo <= hi <= |ts|
    ensures Counters(ts, lo, hi, outcomes) == Tally(Result(0, 0), TestsOutcomes(ts, lo, hi, outcomes))
    decreases hi - lo
  {
    if lo < hi {
      CountersTally(ts, lo, hi - 1, outcomes);
      TallyConcat(Result(0, 0), TestsOutcomes(ts, lo, hi - 1, outcomes), outcomes(ts[hi - 1].fn));
    }
  }

  /** One test: with its own context when it has both callbacks, with none otherwise. */
  method RunTest(t: Test, j: nat, g: nat) returns (ev: seq<Event>)
    ensures ev == TestEvents(t, j, g)
  {
    if t.init.Some? && t.clean.Some? {
      ev := [TestInit(t.init.value), TestRun(t.fn, j, g, true), TestClean(t.clean.value)];
    } else {
      ev := [TestRun(t.fn, j, g, false)];
    }
  }

  lemma {:induction false} TallyConcat(r: Result, a: seq<bool>, b: seq<bool>)
    ensures Tally(r, a + b) == Tally(Tally(r, a), b)
    decreases |b|
  {
    if b != [] {
      assert (a + b)[..|a + b| - 1] == a + b[..|b| - 1];
      assert (a + b)[|a + b| - 1] == b[|b| - 1];
      TallyConcat(r, a, b[..|b| - 1]);
    } else {
      assert a + b == a;
    }
  }

  // ----- Totals -----

  function SumSucc(rs: seq<Result>): int {
    if rs == [] then 0 else SumSucc(rs[..|rs| - 1]) + rs[|rs| - 1].succ
  }

  function SumFail(rs: seq<Result>): int {
    if rs == [] then 0 else SumFail(rs[..|rs| - 1]) + rs[|rs| - 1].fail
  }

  /** The sums of `unittest_print_results` over the first `m` groups. */
  method PrintResults(results: seq<Result>, m: nat) returns (succ: int, fail: int)
    requires m <= |results|
    ensures succ == SumSucc(results[..m]) && fail == SumFail(results[..m])
  {
    succ, fail := 0, 0;
    for i := 0 to m
      invariant succ == SumSucc(results[..i]) && fail == SumFail(results[..i])
    {
      assert results[..i + 1][..i] == results[..i];
      succ := succ + results[i].succ;
      fail := fail + results[i].fail;
    }
  }

  lemma {:induction false} TestsOutcomesSplit(ts: seq<Test>, lo: nat, mid: nat, hi: nat, outcomes: Outcomes)
    requires lo <= mid <= hi <= |ts|
    ensures TestsOutcomes(ts, lo, hi, outcomes) == TestsOutcomes(ts, lo, mid, outcomes) + TestsOutcomes(ts, mid, hi, outcomes)
    decreases hi - mid
  {
    if hi > mid {
      TestsOutcomesSplit(ts, lo, mid, hi - 1, outcomes);
    }
  }

  /**
   * The reported totals are the checks of every test the groups cover: the
   * successes are the checks that held, the failures the others.
   */
  lemma {:induction false} TotalsCountAllChecks(ts: seq<Test>, idx: seq<int>, m: nat, g: nat, outcomes: Outcomes)
    requires RunBounds(ts, idx, m) && g <= m
    ensures var all := TestsOutcomes(ts, 0, idx[g], outcomes);
      SumSucc(RunResults(ts, idx, m, g, outcomes)) == Passed(all)
      && SumFail(RunResults(ts, idx, m, g, outcomes)) == |all| - Passed(all)
  {
    if g > 0 {
      TotalsCountAllChecks(ts, idx, m, g - 1, outcomes);
      BoundaryBounds(idx, m, idx[m], g - 1);
      var rs := RunResults(ts, idx, m, g, outcomes);
      assert rs[..g - 1] == RunResults(ts, idx, m, g - 1, outcomes);
      var block := TestsOutcomes(ts, idx[g - 1], idx[g], outcomes);
      CountersTally(ts, idx[g - 1], idx[g], outcomes);
      TallyCounts(Result(0, 0), block);
      TestsOutcomesSplit(ts, 0, idx[g - 1], idx[g], outcomes);
      PassedConcat(TestsOutcomes(ts, 0, idx[g - 1], outcomes), block);
    } else {
      assert idx[0] == 0;
    }
  }

  // ----- What the trace shows -----

  /** The test indices of the `TestRun` events, in order. */
  function Runs(ev: seq<Event>): seq<int> {
    if ev == [] then [] else Runs(ev[..|ev| - 1]) + (if ev[|ev| - 1].TestRun? then [ev[|ev| - 1].test] else [])
  }

  lemma {:induction false} RunsConcat(a: seq<Event>, b: seq<Event>)
    ensures Runs(a + b) == Runs(a) + Runs(b)
    decreases |b|
  {
    if b != [] {
      assert (a + b)[..|a + b| - 1] == a + b[..|b| - 1];
      assert (a + b)[|a + b| - 1] == b[|b| - 1];
      RunsConcat(a, b[..|b| - 1]);
    } else {
      assert a + b == a;
    }
  }

  lemma {:induction false} TestsRunInOrder(ts: seq<Test>, g: nat, lo: nat, hi: nat)
    requires lo <= hi <= |ts|
    ensures Runs(TestsEvents(ts, g, lo, hi)) == Range(lo, hi)
    decreases hi - lo
  {
    if lo < hi {
      TestsRunInOrder(ts, g, lo, hi - 1);
      var t := ts[hi - 1];
      assert TestsEvents(ts, g, lo, hi) == TestsEvents(ts, g, lo, hi - 1) + TestEvents(t, hi - 1, g);
      RunsConcat(TestsEvents(ts, g, lo, hi - 1), TestEvents(t, hi - 1, g));
      RunsOfTest(t, hi - 1, g);
      RangeSnoc(lo, hi - 1);
    } else {
      assert Range(lo, hi) == [];
    }
  }

  lemma {:induction false} RunsOfTest(t: Test, j: nat, g: nat)
    ensures Runs(TestEvents(t, j, g)) == [j]
  {
    var e := TestEvents(t, j, g);
    if HasSetup(t.init, t.clean) {
      assert e[..2][..1] == [e[0]] && e[..2][1] == e[1];
      assert e[..1][..0] == [];
      assert Runs(e[..1]) == [];
      assert Runs(e[..2]) == [j];
      assert e[..|e| - 1] == e[..2];
    } else {
      assert e[..0] == [];
    }
  }

  lemma {:induction false} RunsOfSetup(e: Event)
    requires !e.TestRun?
    ensures Runs([e]) == []
  {
    assert [e][..0] == [];
  }

  /** A group runs its tests `lo..hi-1` once each, in order. */
  lemma {:induction false} RunsOfGroup(ts: seq<Test>, c: Config, g: nat, lo: nat, hi: nat)
    requires lo <= hi <= |ts|
    ensures Runs(GroupEvents(ts, c, g, lo, hi)) == Range(lo, hi)
  {
    var pre := if HasSetup(c.init, c.clean) then [GroupInit(c.init.value)] else [];
    var post := if HasSetup(c.init, c.clean) then [GroupClean(c.clean.value)] else [];
    var mid := TestsEvents(ts, g, lo, hi);
    if HasSetup(c.init, c.clean) {
      RunsOfSetup(GroupInit(c.init.value));
      RunsOfSetup(GroupClean(c.clean.value));
    }
    TestsRunInOrder(ts, g, lo, hi);
    RunsConcat(pre, mid);
    RunsConcat(pre + mid, post);
    assert pre + mid + post == GroupEvents(ts, c, g, lo, hi);
  }

  /** Every test before `idx[g]` runs exactly once, in array order, whatever the configs. */
  lemma {:induction false} EveryTestRunsOnce(ts: seq<Test>, cs: seq<Config>, idx: seq<int>, m: nat, g: nat)
    requires RunBounds(ts, idx, m) && m <= |cs| && g <= m
    ensures Runs(RunTrace(ts, cs, idx, m, g)) == Range(0, idx[g])
  {
    if g > 0 {
      EveryTestRunsOnce(ts, cs, idx, m, g - 1);
      RunsOfGroupStep(ts, cs, idx, m, g);
    } else {
      assert idx[0] == 0;
    }
  }

  lemma {:induction false} RunsOfGroupStep(ts: seq<Test>, cs: seq<Config>, idx: seq<int>, m: nat, g: nat)
    requires RunBounds(ts, idx, m) && m <= |cs| && 0 < g <= m
    requires Runs(RunTrace(ts, cs, idx, m, g - 1)) == Range(0, idx[g - 1])
    ensures Runs(RunTrace(ts, cs, idx, m, g)) == Range(0, idx[g])
  {
    RunTraceSnoc(ts, cs, idx, m, g);
    var lo, hi := idx[g - 1], idx[g];
    var front, block := RunTrace(ts, cs, idx, m, g - 1), GroupEvents(ts, cs[g - 1], g - 1, lo, hi);
    RunsOfGroup(ts, cs[g - 1], g - 1, lo, hi);
    RunsJoin(front, block, 0, lo, hi);
  }

  lemma {:induction false} RunsJoin(a: seq<Event>, b: seq<Event>, lo: int, mid: int, hi: int)
    requires lo <= mid <= hi && Runs(a) == Range(lo, mid) && Runs(b) == Range(mid, hi)
    ensures Runs(a + b) == Range(lo, hi)
  {
    RunsConcat(a, b);
    RangeConcat(lo, mid, hi);
  }

  lemma {:induction false} RunTraceSnoc(ts: seq<Test>, cs: seq<Config>, idx: seq<int>, m: nat, g: nat)
    requires RunBounds(ts, idx, m) && m <= |cs| && 0 < g <= m
    ensures 0 <= idx[g - 1] <= idx[g] <= |ts|
    ensures RunTrace(ts, cs, idx, m, g)
         == RunTrace(ts, cs, idx, m, g - 1) + GroupEvents(ts, cs[g - 1], g - 1, idx[g - 1], idx[g])
  {
    BoundaryBounds(idx, m, idx[m], g - 1);
  }

  lemma {:induction false} RangeConcat(lo: int, mid: int, hi: int)
    requires lo <= mid <= hi
    ensures Range(lo, hi) == Range(lo, mid) + Range(mid, hi)
  {
  }

  /**
   * A test runs in the group whose range holds it, and with a context of
   * its own exactly when it has both an `init` and a `clean`.
   */
  ghost predicate RunsWhereIndexed(ts: seq<Test>, idx: seq<int>, ev: seq<Event>) {
    forall k :: 0 <= k < |ev| && ev[k].TestRun? ==>
      var e := ev[k];
      e.group + 1 < |idx| && idx[e.group] <= e.test < idx[e.group + 1] && e.test < |ts|
      && e.fn == ts[e.test].fn && (e.withCtx <==> HasSetup(ts[e.test].init, ts[e.test].clean))
  }

  lemma {:induction false} TestsRunWhereIndexed(ts: seq<Test>, idx: seq<int>, g: nat, lo: nat, hi: nat)
    requires lo <= hi <= |ts| && g + 1 < |idx| && idx[g] == lo && idx[g + 1] == hi
    ensures forall j :: lo <= j <= hi ==> RunsWhereIndexed(ts, idx, TestsEvents(ts, g, lo, j))
  {
    forall j | lo <= j <= hi
      ensures RunsWhereIndexed(ts, idx, TestsEvents(ts, g, lo, j))
    {
      TestsPrefixWhereIndexed(ts, idx, g, lo, hi, j);
    }
  }

  lemma {:induction false} TestsPrefixWhereIndexed(ts: seq<Test>, idx: seq<int>, g: nat, lo: nat, hi: nat, j: nat)
    requires lo <= j <= hi <= |ts| && g + 1 < |idx| && idx[g] == lo && idx[g + 1] == hi
    ensures RunsWhereIndexed(ts, idx, TestsEvents(ts, g, lo, j))
    decreases j - lo
  {
    if lo < j {
      TestsPrefixWhereIndexed(ts, idx, g, lo, hi, j - 1);
    }
  }

  lemma {:induction false} WhereIndexedConcat(ts: seq<Test>, idx: seq<int>, a: seq<Event>, b: seq<Event>)
    requires RunsWhereIndexed(ts, idx, a) && RunsWhereIndexed(ts, idx, b)
    ensures RunsWhereIndexed(ts, idx, a + b)
  {
    forall k | 0 <= k < |a + b| && (a + b)[k].TestRun?
      ensures var e := (a + b)[k];
        e.group + 1 < |idx| && idx[e.group] <= e.test < idx[e.group + 1] && e.test < |ts|
        && e.fn == ts[e.test].fn && (e.withCtx <==> HasSetup(ts[e.test].init, ts[e.test].clean))
    {
      if k < |a| {
        assert (a + b)[k] == a[k];
      } else {
        assert (a + b)[k] == b[k - |a|];
      }
    }
  }

  /** The whole trace places every test by the boundary array it was given. */
  lemma {:induction false} TraceRunsWhereIndexed(ts: seq<Test>, cs: seq<Config>, idx: seq<int>, m: nat, g: nat)
    requires RunBounds(ts, idx, m) && m <= |cs| && g <= m
    ensures RunsWhereIndexed(ts, idx, RunTrace(ts, cs, idx, m, g))
  {
    if g > 0 {
      TraceRunsWhereIndexed(ts, cs, idx, m, g - 1);
      BoundaryBounds(idx, m, idx[m], g - 1);
      var c, lo, hi := cs[g - 1], idx[g - 1], idx[g];
      var pre := if HasSetup(c.init, c.clean) then [GroupInit(c.init.value)] else [];
      var post := if HasSetup(c.init, c.clean) then [GroupClean(c.clean.value)] else [];
      TestsPrefixWhereIndexed(ts, idx, g - 1, lo, hi, hi);
      WhereIndexedConcat(ts, idx, pre, TestsEvents(ts, g - 1, lo, hi));
      WhereIndexedConcat(ts, idx, pre + TestsEvents(ts, g - 1, lo, hi), post);
      WhereIndexedConcat(ts, idx, RunTrace(ts, cs, idx, m, g - 1), GroupEvents(ts, c, g - 1, lo, hi));
    }
  }

  /**
   * A group's `init` opens and its `clean` closes its events when the config
   * has both; otherwise the group has no setup events at all.
   */
  lemma {:induction false} GroupBracketed(ts: seq<Test>, c: Config, g: nat, lo: nat, hi: nat)
    requires lo <= hi <= |ts|
    ensures var ev := GroupEvents(ts, c, g, lo, hi);
      if HasSetup(c.init, c.clean) then
        |ev| >= 2 && ev[0] == GroupInit(c.init.value) && ev[|ev| - 1] == GroupClean(c.clean.value)
      else
        forall k :: 0 <= k < |ev| ==> !ev[k].GroupInit? && !ev[k].GroupClean?
  {
    TestsHaveNoSetup(ts, g, lo, hi);
  }

  lemma {:induction false} TestsHaveNoSetup(ts: seq<Test>, g: nat, lo: nat, hi: nat)
    requires lo <= hi <= |ts|
    ensures forall k :: 0 <= k < |TestsEvents(ts, g, lo, hi)| ==>
      !TestsEvents(ts, g, lo, hi)[k].GroupInit? && !TestsEvents(ts, g, lo, hi)[k].GroupClean?
    decreases hi - lo
  {
    if lo < hi {
      TestsHaveNoSetup(ts, g, lo, hi - 1);
    }
  }

  // ----- The boundary array after the group sort -----

  /** The blocks `bs`, one after another. */
  function Flatten(bs: seq<seq<int>>): seq<int> {
    if bs == [] then [] else Flatten(bs[..|bs| - 1]) + bs[|bs| - 1]
  }

  /** Where each block of `bs` starts in `Flatten(bs)`, and where the last one ends. */
  function Offsets(bs: seq<seq<int>>): (r: seq<int>)
    ensures |r| == |bs| + 1 && r[0] == 0 && r[|bs|] == |Flatten(bs)|
  {
    if bs == [] then [0] else var front := Offsets(bs[..|bs| - 1]); front + [front[|bs| - 1] + |bs[|bs| - 1]|]
  }

  lemma {:induction false} FlattenSlice(bs: seq<seq<int>>, k: nat)
    requires k < |bs|
    ensures var off := Offsets(bs);
      off[k + 1] - off[k] == |bs[k]| && 0 <= off[k] <= off[k + 1] <= |Flatten(bs)|
      && Flatten(bs)[off[k]..off[k + 1]] == bs[k]
  {
    var front := bs[..|bs| - 1];
    var off, foff := Offsets(bs), Offsets(front);
    assert off == foff + [foff[|front|] + |bs[|bs| - 1]|];
    assert Flatten(bs) == Flatten(front) + bs[|bs| - 1];
    if k < |front| {
      FlattenSlice(front, k);
      assert front[k] == bs[k];
      SliceOfFront(Flatten(front), bs[|bs| - 1], foff[k], foff[k + 1]);
    } else {
      SliceOfBack(Flatten(front), bs[|bs| - 1]);
    }
  }

  lemma {:induction false} SliceOfFront<T>(a: seq<T>, b: seq<T>, i: nat, j: nat)
    requires i <= j <= |a|
    ensures (a + b)[i..j] == a[i..j]
  {
  }

  lemma {:induction false} SliceOfBack<T>(a: seq<T>, b: seq<T>)
    ensures (a + b)[|a|..|a| + |b|] == b
  {
  }

  /** The test indices of the groups `o`, one block per group. */
  function Blocks(idx: seq<int>, o: seq<int>): (r: seq<seq<int>>)
    requires forall k :: 0 <= k < |o| ==> 0 <= o[k] && o[k] + 1 < |idx|
    ensures |r| == |o| && forall k :: 0 <= k < |o| ==> r[k] == Range(idx[o[k]], idx[o[k] + 1])
  {
    seq(|o|, k requires 0 <= k < |o| => Range(idx[o[k]], idx[o[k] + 1]))
  }

  lemma {:induction false} BlockIndicesFlatten(idx: seq<int>, m: nat, n: nat, o: seq<int>)
    requires Boundaries(idx, m, n) && forall k :: 0 <= k < |o| ==> 0 <= o[k] < m
    ensures BlockIndices(idx, m, n, o) == Flatten(Blocks(idx, o))
  {
    if o != [] {
      var front := o[..|o| - 1];
      var g := o[|o| - 1];
      BlockIndicesFlatten(idx, m, n, front);
      var bs := Blocks(idx, o);
      BlocksPrefix(idx, o);
      BlockAt(idx, o, |o| - 1);
      FlattenSnoc(bs);
      BlockIndicesSnoc(idx, m, n, o);
    }
  }

  lemma {:induction false} FlattenSnoc(bs: seq<seq<int>>)
    requires bs != []
    ensures Flatten(bs) == Flatten(bs[..|bs| - 1]) + bs[|bs| - 1]
  {
  }

  lemma {:induction false} BlockIndicesSnoc(idx: seq<int>, m: nat, n: nat, o: seq<int>)
    requires Boundaries(idx, m, n) && forall k :: 0 <= k < |o| ==> 0 <= o[k] < m
    requires o != []
    ensures o[|o| - 1] + 1 < |idx|
    ensures BlockIndices(idx, m, n, o) == BlockIndices(idx, m, n, o[..|o| - 1]) + Range(idx[o[|o| - 1]], idx[o[|o| - 1] + 1])
  {
  }

  lemma {:induction false} BlockAt(idx: seq<int>, o: seq<int>, k: nat)
    requires k < |o| && forall j :: 0 <= j < |o| ==> 0 <= o[j] && o[j] + 1 < |idx|
    ensures Blocks(idx, o)[k] == Range(idx[o[k]], idx[o[k] + 1])
  {
  }

  lemma {:induction false} BlocksPrefix(idx: seq<int>, o: seq<int>)
    requires o != [] && forall k :: 0 <= k < |o| ==> 0 <= o[k] && o[k] + 1 < |idx|
    ensures Blocks(idx, o)[..|o| - 1] == Blocks(idx, o[..|o| - 1])
  {
    var a, b := Blocks(idx, o)[..|o| - 1], Blocks(idx, o[..|o| - 1]);
    forall k | 0 <= k < |a|
      ensures a[k] == b[k]
    {
      assert o[..|o| - 1][k] == o[k];
    }
  }

  /** The boundary array of the tests once the groups stand in the order `o`, with its -1 terminator. */
  function RegroupedIndex(idx: seq<int>, o: seq<int>): seq<int>
    requires forall k :: 0 <= k < |o| ==> 0 <= o[k] && o[k] + 1 < |idx|
  {
    Offsets(Blocks(idx, o)) + [-1]
  }

  lemma {:induction false} PickSlice<T>(s: seq<T>, x: seq<int>, a: nat, b: nat)
    requires forall k :: 0 <= k < |x| ==> 0 <= x[k] < |s|
    requires a <= b <= |x|
    ensures Pick(s, x)[a..b] == Pick(s, x[a..b])
  {
  }

  lemma {:induction false} PickRange<T>(s: seq<T>, lo: int, hi: int)
    requires 0 <= lo <= hi <= |s|
    ensures Pick(s, Range(lo, hi)) == s[lo..hi]
  {
  }

  /** Config `k` of `sorted` is config `o[k]` of `cs`, and block `k` of `sorted` by `r` is block `o[k]` of `ts` by `idx`. */
  ghost predicate PairsBlock(ts: seq<Test>, cs: seq<Config>, idx: seq<int>, o: seq<int>, r: seq<int>,
                             sorted: (seq<Test>, seq<Config>), k: int) {
    0 <= k < |cs| && |o| == |cs| && |r| == |cs| + 2 && |idx| == |cs| + 2 && |sorted.1| == |cs|
    && 0 <= o[k] < |cs| && sorted.1[k] == cs[o[k]] && 0 <= r[k] <= r[k + 1] <= |sorted.0|
    && 0 <= idx[o[k]] <= idx[o[k] + 1] <= |ts|
    && sorted.0[r[k]..r[k + 1]] == ts[idx[o[k]]..idx[o[k] + 1]]
  }

  /**
   * After a successful group sort, the boundary array rebuilt for the new
   * order pairs each config with its own tests: block `k` of the sorted
   * tests is exactly the block of the group whose config now stands at `k`.
   */
  lemma {:induction false} RegroupedPairsConfigs(ts: seq<Test>, cs: seq<Config>, idx: seq<int>)
    requires Boundaries(idx, |cs|, |ts|) && SortByGroup(ts, cs, idx).Some?
    ensures Boundaries(RegroupedIndex(idx, Order(ConfigDag(cs)).value), |cs|, |ts|)
    ensures forall k :: 0 <= k < |cs| ==>
      PairsBlock(ts, cs, idx, Order(ConfigDag(cs)).value,
                 RegroupedIndex(idx, Order(ConfigDag(cs)).value), SortByGroup(ts, cs, idx).value, k)
  {
    var o := Order(ConfigDag(cs)).value;
    OrderIndices(ConfigDag(cs), o);
    assert SortByGroup(ts, cs, idx).value == (Pick(ts, BlockIndices(idx, |cs|, |ts|, o)), Pick(cs, o));
    RegroupedOrder(ts, cs, idx, o);
  }

  /** The same for any order `o` of the groups. */
  lemma {:induction false} RegroupedOrder(ts: seq<Test>, cs: seq<Config>, idx: seq<int>, o: seq<int>)
    requires Boundaries(idx, |cs|, |ts|) && IsPermutationOfRange(o, |cs|)
    ensures Boundaries(RegroupedIndex(idx, o), |cs|, |ts|)
    ensures forall k :: 0 <= k < |cs| ==>
      PairsBlock(ts, cs, idx, o, RegroupedIndex(idx, o), (Pick(ts, BlockIndices(idx, |cs|, |ts|, o)), Pick(cs, o)), k)
  {
    BlockIndicesPermutation(idx, |cs|, |ts|, o);
    BlockIndicesFlatten(idx, |cs|, |ts|, o);
    BoundariesSteps(idx, |cs|, |ts|);
    RegroupedSteps(ts, cs, idx, o);
    RegroupedBlocks(ts, cs, idx, o);
  }

  lemma {:induction false} RegroupedSteps(ts: seq<Test>, cs: seq<Config>, idx: seq<int>, o: seq<int>)
    requires Steps(idx, |cs|, |ts|) && IsPermutationOfRange(o, |cs|)
    requires |Flatten(Blocks(idx, o))| == |ts|
    ensures Boundaries(RegroupedIndex(idx, o), |cs|, |ts|)
  {
    var st := Offsets(Blocks(idx, o));
    forall k | 0 <= k < |cs|
      ensures st[k] < st[k + 1]
    {
      assert o[k] in o;
      assert StepAt(idx, o[k], |ts|);
      FlattenSlice(Blocks(idx, o), k);
    }
    StartsIncreasing(st, |cs|);
  }

  /** Every group's range lies inside `0..n` and is not empty. */
  predicate Steps(idx: seq<int>, m: nat, n: nat) {
    |idx| == m + 2 && forall g :: 0 <= g < m ==> StepAt(idx, g, n)
  }

  predicate StepAt(idx: seq<int>, g: int, n: nat) {
    0 <= g && g + 1 < |idx| && 0 <= idx[g] < idx[g + 1] <= n
  }

  lemma {:induction false} BoundariesSteps(idx: seq<int>, m: nat, n: nat)
    requires Boundaries(idx, m, n)
    ensures Steps(idx, m, n)
  {
    forall g | 0 <= g < m
      ensures StepAt(idx, g, n)
    {
      BoundaryBounds(idx, m, n, g);
    }
  }

  lemma {:induction false} RegroupedBlocks(ts: seq<Test>, cs: seq<Config>, idx: seq<int>, o: seq<int>)
    requires Steps(idx, |cs|, |ts|) && IsPermutationOfRange(o, |cs|)
    requires |Flatten(Blocks(idx, o))| == |ts| && forall q :: 0 <= q < |ts| ==> 0 <= Flatten(Blocks(idx, o))[q] < |ts|
    ensures forall k :: 0 <= k < |cs| ==>
      PairsBlock(ts, cs, idx, o, RegroupedIndex(idx, o), (Pick(ts, Flatten(Blocks(idx, o))), Pick(cs, o)), k)
  {
    forall k | 0 <= k < |cs|
      ensures PairsBlock(ts, cs, idx, o, RegroupedIndex(idx, o), (Pick(ts, Flatten(Blocks(idx, o))), Pick(cs, o)), k)
    {
      assert o[k] in o;
      assert StepAt(idx, o[k], |ts|);
      RegroupedBlock(ts, cs, idx, o, k);
    }
  }

  lemma {:induction false} RegroupedBlock(ts: seq<Test>, cs: seq<Config>, idx: seq<int>, o: seq<int>, k: nat)
    requires |o| == |cs| && |idx| == |cs| + 2 && k < |cs|
    requires forall q :: 0 <= q < |o| ==> 0 <= o[q] < |cs|
    requires 0 <= idx[o[k]] <= idx[o[k] + 1] <= |ts|
    requires |Flatten(Blocks(idx, o))| == |ts| && forall q :: 0 <= q < |ts| ==> 0 <= Flatten(Blocks(idx, o))[q] < |ts|
    ensures PairsBlock(ts, cs, idx, o, RegroupedIndex(idx, o), (Pick(ts, Flatten(Blocks(idx, o))), Pick(cs, o)), k)
  {
    var bs := Blocks(idx, o);
    var st := Offsets(bs);
    FlattenSlice(bs, k);
    PickSlice(ts, Flatten(bs), st[k], st[k + 1]);
    PickRange(ts, idx[o[k]], idx[o[k] + 1]);
  }

  lemma {:induction false} StartsIncreasing(st: seq<int>, m: nat)
    requires |st| == m + 1 && forall k :: 0 <= k < m ==> st[k] < st[k + 1]
    ensures forall a, b :: 0 <= a < b <= m ==> st[a] < st[b]
  {
    forall a, b | 0 <= a < b <= m
      ensures st[a] < st[b]
    {
      var c := a;
      while c < b
        invariant a <= c <= b && st[a] <= st[c] && (c > a ==> st[a] < st[c])
      {
        c := c + 1;
      }
    }
  }

  // ----- A concrete run with the stale boundary array -----

  /** Group "a" has one test and a config that depends on group "b", which has two tests. */
  const SampleTests: seq<Test> := [
    Test(Some("a"), 0, 1, 10, None, [], None, None),
    Test(Some("b"), 0, 1, 11, None, [], None, None),
    Test(Some("b"), 0, 2, 12, None, [], None, None)]
  const SampleConfigs: seq<Config> := [
    Config(Some("a"), 0, None, [Some("B")], Some(1), Some(2)),
    Config(Some("b"), 0, Some("B"), [], None, None)]
  const SampleIndex: seq<int> := [0, 1, 3, -1]

  /** The sample's group graph: config "a" has an edge from config "b". */
  lemma SampleDag()
    ensures ConfigDag(SampleConfigs) == [[1], []]
  {
    var names := ConfigNames(SampleConfigs);
    var deps := ConfigDeps(SampleConfigs);
    assert names == [None, Some("B")];
    assert DepNames(deps[0]) == ["B"] by {
      assert deps[0] == [Some("B")];
      assert deps[0][1..] == [];
    }
    assert DepNames(deps[1]) == [];
    NullStrCmpIsThreeWay(names[1], Some("B"));
    SampleRow(names);
    var dag := ConfigDag(SampleConfigs);
    assert dag[0] == Row(names, 0, ["B"]) == [1];
    assert dag[1] == Row(names, 1, []) == [];
  }

  lemma {:induction false} SampleRow(names: seq<Option<string>>)
    requires names == [None, Some("B")] && NullStrCmp(names[1], Some("B")) == 0
    ensures Row(names, 0, ["B"]) == [1]
  {
    assert SourcesBelow(names, 0, "B", 1) == [];
    assert SourcesBelow(names, 0, "B", 2) == [1];
    assert ["B"][..0] == [];
  }

  /** Kahn's algorithm on it places "b" first. */
  lemma SampleKahn()
    ensures KahnFrom([[1], []], []) == Some([1, 0])
  {
    var dag: seq<seq<int>> := [[1], []];
    assert !Ready(dag, [], 0) by {
      assert dag[0][0] == 1;
    }
    assert FirstReady(dag, [], 0) == Some(1) by {
      assert Ready(dag, [], 1);
    }
    assert FirstReady(dag, [1], 0) == Some(0) by {
      assert Ready(dag, [1], 0);
    }
    assert KahnFrom(dag, [1, 0]) == Some([1, 0]);
    assert [1] + [0] == [1, 0];
    assert KahnFrom(dag, [1]) == Some([1, 0]);
    assert [] + [1] == [1];
  }

  lemma SampleOrder()
    ensures Order(ConfigDag(SampleConfigs)) == Some([1, 0])
  {
    SampleDag();
    SampleKahn();
  }

  /** The tests and configs after the group sort of the sample. */
  const SortedTests: seq<Test> := [SampleTests[1], SampleTests[2], SampleTests[0]]
  const SortedConfigs: seq<Config> := [SampleConfigs[1], SampleConfigs[0]]

  lemma SampleGroupSort()
    ensures Boundaries(SampleIndex, |SampleConfigs|, |SampleTests|)
    ensures SortByGroup(SampleTests, SampleConfigs, SampleIndex) == Some((SortedTests, SortedConfigs))
  {
    SampleOrder();
    SampleBlocks();
    SamplePicks();
  }

  lemma SamplePicks()
    ensures Pick(SampleTests, [1, 2, 0]) == SortedTests
    ensures Pick(SampleConfigs, [1, 0]) == SortedConfigs
  {
    var p := Pick(SampleTests, [1, 2, 0]);
    assert |p| == |SortedTests| && p[0] == SortedTests[0] && p[1] == SortedTests[1] && p[2] == SortedTests[2];
    var q := Pick(SampleConfigs, [1, 0]);
    assert |q| == |SortedConfigs| && q[0] == SortedConfigs[0] && q[1] == SortedConfigs[1];
  }

  lemma SampleBlocks()
    ensures Boundaries(SampleIndex, 2, 3)
    ensures BlockIndices(SampleIndex, 2, 3, [1, 0]) == [1, 2, 0]
  {
    var idx := SampleIndex;
    assert Boundaries(idx, 2, 3);
    assert Range(1, 3) == [1, 2];
    assert Range(0, 1) == [0];
    assert BlockIndices(idx, 2, 3, [1]) == [1, 2] by {
      assert [1][..0] == [];
    }
    assert [1, 0][..1] == [1];
  }

  lemma SampleTrace()
    ensures RunBounds(SortedTests, SampleIndex, 2)
    ensures RunTrace(SortedTests, SortedConfigs, SampleIndex, 2, 2)
         == [TestRun(11, 0, 0, false), GroupInit(1), TestRun(12, 1, 1, false), TestRun(10, 2, 1, false), GroupClean(2)]
  {
    var ts, cs, idx := SortedTests, SortedConfigs, SampleIndex;
    assert Boundaries(idx, 2, 3);
    assert TestsEvents(ts, 0, 0, 1) == [TestRun(11, 0, 0, false)];
    assert TestsEvents(ts, 1, 1, 2) == [TestRun(12, 1, 1, false)];
    assert TestsEvents(ts, 1, 1, 3) == [TestRun(12, 1, 1, false), TestRun(10, 2, 1, false)];
    assert GroupEvents(ts, cs[0], 0, 0, 1) == [TestRun(11, 0, 0, false)];
    assert GroupEvents(ts, cs[1], 1, 1, 3) == [GroupInit(1), TestRun(12, 1, 1, false), TestRun(10, 2, 1, false), GroupClean(2)];
    assert RunTrace(ts, cs, idx, 2, 1) == [TestRun(11, 0, 0, false)];
  }

  /**
   * The group sort moves group "b" first and its two tests to the front,
   * but the run loop still cuts the tests at the boundaries of the old
   * order: the second test of "b" then runs in the group of config "a",
   * between that config's `init` and `clean`.
   */
  lemma StaleIndexMisgroups()
    ensures SortByGroup(SampleTests, SampleConfigs, SampleIndex) == Some((SortedTests, SortedConfigs))
    ensures RunBounds(SortedTests, SampleIndex, 2)
    ensures TestRun(12, 1, 1, false) in RunTrace(SortedTests, SortedConfigs, SampleIndex, 2, 2)
    ensures SortedTests[1].file != SortedConfigs[1].file
  {
    SampleGroupSort();
    SampleTrace();
    var tr := RunTrace(SortedTests, SortedConfigs, SampleIndex, 2, 2);
    assert tr[2] == TestRun(12, 1, 1, false);
  }

  /** With the boundary array rebuilt for the new order, both tests of "b" run in its group. */
  lemma RegroupedSample()
    ensures RegroupedIndex(SampleIndex, [1, 0]) == [0, 2, 3, -1]
  {
    var bs := Blocks(SampleIndex, [1, 0]);
    assert bs == [Range(1, 3), Range(0, 1)];
    assert bs[..1] == [Range(1, 3)];
    assert bs[..1][..0] == [];
    assert Offsets(bs[..1]) == [0, 2];
    assert Offsets(bs) == [0, 2, 3];
  }
}
