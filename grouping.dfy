/**
 * Grouping of the sorted tests (unittest.h:640-764): the sentinel-terminated
 * counts, the boundary array `file_idx` that splits the sorted tests into
 * runs of one group each, and the walk that pairs every group with its
 * configuration, synthesising a default one where a group has none.
 *
 * Test and config arrays are sequences that end with (at least) one entry
 * whose `file` is NULL; the counts stop at the first such entry.
 */
module Grouping {
  import opened Base
  import opened Strings
  import opened Records

  /** Position of the first NULL file name. */
  function FirstNullFile(files: seq<Option<string>>): (n: nat)
    ensures n <= |files|
    ensures forall k :: 0 <= k < n ==> files[k].Some?
    ensures n < |files| ==> files[n] == None
    ensures None in files ==> n < |files|
  {
    if files == [] || files[0] == None then 0 else 1 + FirstNullFile(files[1..])
  }

  function TestFiles(ts: seq<Test>): (r: seq<Option<string>>)
    ensures |r| == |ts| && forall k :: 0 <= k < |ts| ==> r[k] == ts[k].file
  {
    seq(|ts|, k requires 0 <= k < |ts| => ts[k].file)
  }

  function ConfigFiles(cs: seq<Config>): (r: seq<Option<string>>)
    ensures |r| == |cs| && forall k :: 0 <= k < |cs| ==> r[k] == cs[k].file
  {
    seq(|cs|, k requires 0 <= k < |cs| => cs[k].file)
  }

  /** The array carries its terminator: some entry has a NULL file. */
  predicate TestsTerminated(ts: seq<Test>) {
    None in TestFiles(ts)
  }

  predicate ConfigsTerminated(cs: seq<Config>) {
    None in ConfigFiles(cs)
  }

  function TestCount(ts: seq<Test>): nat {
    FirstNullFile(TestFiles(ts))
  }

  function ConfigCount(cs: seq<Config>): nat {
    FirstNullFile(ConfigFiles(cs))
  }

  /** Walk to the first NULL file (the shared loop of the two count functions). */
  method CountToNull(files: seq<Option<string>>) returns (cnt: nat)
    requires None in files
    ensures cnt < |files| && files[cnt] == None
    ensures forall k :: 0 <= k < cnt ==> files[k].Some?
  {
    cnt := 0;
    var n := FirstNullFile(files);
    while files[cnt] != None
      invariant cnt <= n
      decreases n - cnt
    {
      cnt := cnt + 1;
    }
  }

  /** `unittest_get_total_test_count` (unittest.h:640-648). */
  method GetTotalTestCount(ts: seq<Test>) returns (cnt: nat)
    requires TestsTerminated(ts)
    ensures cnt < |ts| && ts[cnt].file == None
    ensures forall k :: 0 <= k < cnt ==> ts[k].file.Some?
    ensures cnt == TestCount(ts)
  {
    cnt := CountToNull(TestFiles(ts));
    FirstNullIsFirst(TestFiles(ts), cnt);
  }

  /** `unittest_get_total_config_count` (unittest.h:650-658). */
  method GetTotalConfigCount(cs: seq<Config>) returns (cnt: nat)
    requires ConfigsTerminated(cs)
    ensures cnt < |cs| && cs[cnt].file == None
    ensures forall k :: 0 <= k < cnt ==> cs[k].file.Some?
    ensures cnt == ConfigCount(cs)
  {
    cnt := CountToNull(ConfigFiles(cs));
    FirstNullIsFirst(ConfigFiles(cs), cnt);
  }

  /** A position holding NULL with no NULL before it is the first NULL. */
  lemma {:induction false} FirstNullIsFirst(files: seq<Option<string>>, n: nat)
    requires n < |files| && files[n] == None
    requires forall k :: 0 <= k < n ==> files[k].Some?
    ensures FirstNullFile(files) == n
  {
    if n > 0 {
      FirstNullIsFirst(files[1..], n - 1);
    }
  }

  /** The group keys of the tests before the terminator. */
  function Keys(ts: seq<Test>): (r: seq<Key>)
    ensures |r| == TestCount(ts) <= |ts|
    ensures forall k :: 0 <= k < |r| ==> r[k] == TestKey(ts[k])
  {
    seq(TestCount(ts), k requires 0 <= k < TestCount(ts) => TestKey(ts[k]))
  }

  /** The positions `k` where the key changes from test `k - 1` to test `k`, in increasing order. */
  function Cuts(keys: seq<Key>): (r: seq<int>)
    ensures forall k :: 0 <= k < |r| ==> 0 < r[k] < |keys|
    decreases |keys|
  {
    if |keys| <= 1 then []
    else Cuts(keys[..|keys| - 1]) + (if keys[|keys| - 2] != keys[|keys| - 1] then [|keys| - 1] else [])
  }

  /** The number of key changes, counted from the front as `unittest_get_total_file_count` does. */
  function Changes(keys: seq<Key>): nat {
    if |keys| <= 1 then 0 else (if keys[0] != keys[1] then 1 else 0) + Changes(keys[1..])
  }

  /** The number of groups: runs of equal keys. */
  function FileCount(ts: seq<Test>): nat {
    if TestCount(ts) == 0 then 0 else 1 + Changes(Keys(ts))
  }

  /** The boundary array: 0, the cut positions, the test count, then -1; `[0, -1]` without tests. */
  function FileIndex(ts: seq<Test>): (r: seq<int>)
    ensures |r| == FileCount(ts) + 2
  {
    CutsCount(Keys(ts));
    if TestCount(ts) == 0 then [0, -1] else [0] + Cuts(Keys(ts)) + [TestCount(ts) as int, -1]
  }

  /** `unittest_get_total_file_count` (unittest.h:660-679). */
  method GetTotalFileCount(ts: seq<Test>) returns (cnt: nat)
    requires TestsTerminated(ts)
    ensures cnt == FileCount(ts)
  {
    if ts[0].file == None {
      FirstNullIsFirst(TestFiles(ts), 0);
      return 0;
    }
    cnt := 1;
    var t := 1;
    var n := TestCount(ts);
    ghost var keys := Keys(ts);
    while ts[t].file != None
      invariant 1 <= t <= n
      invariant cnt == 1 + Changes(keys) - Changes(keys[t - 1..])
      decreases n - t
    {
      ChangesStep(keys, t - 1);
      if Match(TestKey(ts[t - 1]), TestKey(ts[t])) != 0 {
        cnt := cnt + 1;
      }
      t := t + 1;
    }
    assert keys[t - 1..] == [keys[t - 1]];
  }

  /** Counting from position `j` on: the change at `j + 1`, then the rest. */
  lemma {:induction false} ChangesStep(keys: seq<Key>, j: nat)
    requires j + 1 < |keys|
    ensures Changes(keys[j..]) == (if keys[j] != keys[j + 1] then 1 else 0) + Changes(keys[j + 1..])
  {
    assert keys[j..][1..] == keys[j + 1..];
  }

  /** `unittest_build_file_index` (unittest.h:700-728). */
  method BuildFileIndex(ts: seq<Test>) returns (idx: seq<int>)
    requires TestsTerminated(ts)
    ensures idx == FileIndex(ts)
  {
    if ts[0].file == None {
      FirstNullIsFirst(TestFiles(ts), 0);
      return [0, -1];
    }
    var cnt := 1;
    var t := 1;
    var n := TestCount(ts);
    ghost var keys := Keys(ts);
    idx := [0];
    while ts[t].file != None
      invariant 1 <= t <= n && cnt == t
      invariant idx == [0] + Cuts(keys[..t])
      decreases n - t
    {
      CutsStep(keys, t);
      if Match(TestKey(ts[t - 1]), TestKey(ts[t])) != 0 {
        idx := idx + [cnt];
      }
      cnt := cnt + 1;
      t := t + 1;
    }
    assert keys[..t] == keys;
    idx := idx + [cnt] + [-1];
  }

  lemma {:induction false} CutsStep(keys: seq<Key>, t: nat)
    requires 1 <= t < |keys|
    ensures Cuts(keys[..t + 1]) == Cuts(keys[..t]) + (if keys[t - 1] != keys[t] then [t] else [])
  {
    assert keys[..t + 1][..t] == keys[..t];
  }

  /** The cut positions are exactly the positions where the key changes. */
  lemma {:induction false} CutsMembers(keys: seq<Key>)
    ensures forall k :: k in Cuts(keys) <==> 0 < k < |keys| && keys[k - 1] != keys[k]
    decreases |keys|
  {
    if |keys| > 1 {
      var init := keys[..|keys| - 1];
      CutsMembers(init);
      var extra := if keys[|keys| - 2] != keys[|keys| - 1] then [|keys| - 1] else [];
      assert Cuts(keys) == Cuts(init) + extra;
      forall k ensures k in Cuts(keys) <==> 0 < k < |keys| && keys[k - 1] != keys[k] {
        assert k in Cuts(keys) <==> k in Cuts(init) || k in extra;
        if 0 < k < |init| {
          assert init[k - 1] == keys[k - 1] && init[k] == keys[k];
        }
      }
    } else {
      assert Cuts(keys) == [];
    }
  }

  /** The cut positions increase strictly. */
  lemma {:induction false} CutsIncreasing(keys: seq<Key>)
    ensures forall a, b :: 0 <= a < b < |Cuts(keys)| ==> Cuts(keys)[a] < Cuts(keys)[b]
    decreases |keys|
  {
    if |keys| > 1 {
      var init := keys[..|keys| - 1];
      CutsIncreasing(init);
      var c, extra := Cuts(init), (if keys[|keys| - 2] != keys[|keys| - 1] then [|keys| - 1] else []);
      assert Cuts(keys) == c + extra;
      forall a, b | 0 <= a < b < |c + extra| ensures (c + extra)[a] < (c + extra)[b] {
        assert (c + extra)[a] == c[a];
        if b >= |c| {
          assert (c + extra)[b] == |keys| - 1;
          assert c[a] < |init|;
        } else {
          assert (c + extra)[b] == c[b];
          assert c[a] < c[b];
        }
      }
    }
  }

  /** Counting the changes from the front or collecting them from the back gives the same number. */
  lemma {:induction false} CutsCount(keys: seq<Key>)
    ensures |Cuts(keys)| == Changes(keys)
    decreases |keys|
  {
    if |keys| > 1 {
      var init := keys[..|keys| - 1];
      CutsCount(init);
      ChangesSnoc(keys);
    }
  }

  lemma {:induction false} ChangesSnoc(keys: seq<Key>)
    requires |keys| > 1
    ensures Changes(keys) == Changes(keys[..|keys| - 1]) + (if keys[|keys| - 2] != keys[|keys| - 1] then 1 else 0)
    decreases |keys|
  {
    if |keys| > 2 {
      ChangesSnoc(keys[1..]);
      assert keys[1..][..|keys| - 2] == keys[..|keys| - 1][1..];
    }
  }

  /**
   * The boundary array: `[0, -1]` without tests; otherwise it starts at 0,
   * increases strictly up to the test count, has an interior boundary exactly
   * where two neighbouring tests differ in (file, unique id), ends with -1,
   * and has two more entries than there are groups.
   */
  lemma {:induction false} FileIndexShape(ts: seq<Test>)
    ensures var idx, n := FileIndex(ts), TestCount(ts);
      |idx| == FileCount(ts) + 2
      && idx[0] == 0 && idx[|idx| - 2] == n && idx[|idx| - 1] == -1
      && (n == 0 ==> idx == [0, -1])
      && (forall a, b :: 0 <= a < b < |idx| - 1 ==> idx[a] < idx[b] || n == 0)
      && (forall k :: 0 < k < n ==> (k in idx <==> TestKey(ts[k - 1]) != TestKey(ts[k])))
  {
    var keys := Keys(ts);
    CutsMembers(keys);
    CutsIncreasing(keys);
    CutsCount(keys);
    var idx := FileIndex(ts);
    if TestCount(ts) > 0 {
      var c := Cuts(keys);
      assert idx == [0] + c + [|keys|, -1];
      forall k | 0 < k < |keys| ensures k in idx <==> k in c {
      }
    }
  }

  /** Within one run of the boundary array every test has the key of the run's first test. */
  lemma {:induction false} RunsHomogeneous(ts: seq<Test>, g: nat, j: nat)
    requires g < FileCount(ts)
    requires FileIndex(ts)[g] <= j < FileIndex(ts)[g + 1]
    ensures 0 <= FileIndex(ts)[g] && j < TestCount(ts)
    ensures TestKey(ts[j]) == TestKey(ts[FileIndex(ts)[g]])
  {
    FileIndexShape(ts);
    var keys, idx := Keys(ts), FileIndex(ts);
    var c := Cuts(keys);
    CutsMembers(keys);
    CutsIncreasing(keys);
    assert idx == [0] + c + [|keys|, -1];
    var lo := idx[g];
    // no cut lies strictly inside the run
    forall k | lo < k < idx[g + 1] ensures keys[k - 1] == keys[k] {
      forall h | 0 <= h < |c| ensures c[h] != k {
        assert idx[h + 1] == c[h];
        if h + 1 <= g {
          assert idx[h + 1] <= idx[g];
        } else {
          assert idx[g + 1] <= idx[h + 1];
        }
      }
    }
    SameKeyRun(keys, lo, j);
  }

  lemma {:induction false} SameKeyRun(keys: seq<Key>, lo: nat, j: nat)
    requires lo <= j < |keys|
    requires forall k :: lo < k <= j ==> keys[k - 1] == keys[k]
    ensures keys[j] == keys[lo]
    decreases j - lo
  {
    if j > lo {
      SameKeyRun(keys, lo, j - 1);
    }
  }

  /** The group keys, one per run: the key of each run's first test. */
  function GroupKeys(ts: seq<Test>): (r: seq<Key>)
    ensures |r| == FileCount(ts)
  {
    var keys := Keys(ts);
    CutsCount(keys);
    if keys == [] then [] else Pick(keys, [0] + Cuts(keys))
  }

  /** Run `g` starts at `file_idx[g]`, a test with the group's key; past the last run the index is the terminator. */
  lemma {:induction false} GroupFirst(ts: seq<Test>, g: nat)
    requires g <= FileCount(ts)
    ensures 0 <= FileIndex(ts)[g] <= TestCount(ts)
    ensures g < FileCount(ts) ==> FileIndex(ts)[g] < TestCount(ts) && TestKey(ts[FileIndex(ts)[g]]) == GroupKeys(ts)[g]
    ensures g == FileCount(ts) ==> FileIndex(ts)[g] == TestCount(ts)
  {
    FileIndexShape(ts);
    var keys := Keys(ts);
    if keys != [] {
      assert FileIndex(ts) == ([0] + Cuts(keys)) + [|keys| as int, -1];
    }
  }

  function ConfigKeys(cs: seq<Config>): (r: seq<Key>)
    ensures |r| == |cs| && forall k :: 0 <= k < |cs| ==> r[k] == ConfigKey(cs[k])
  {
    seq(|cs|, k requires 0 <= k < |cs| => ConfigKey(cs[k]))
  }

  /** The configs before the terminator. */
  function LiveConfigs(cs: seq<Config>): seq<Config> {
    cs[..ConfigCount(cs)]
  }

  /**
   * The walk over the group keys `groups` and the config keys `ks` stays
   * inside the boundary array: between configs it may stop because either
   * side has run out, but once it looks for a config's key the key must turn
   * up before the groups run out. Past the last group the walk would compare
   * against the terminator, never match, and read the `-1` that ends the
   * boundary array as an index.
   */
  predicate Walks(groups: seq<Key>, ks: seq<Key>)
    decreases |groups|, 1
  {
    ks == [] || groups == [] || Finds(groups, ks)
  }

  /** The scan from `groups[0]` for the key `ks[0]` finds it, and the walk goes on from the group after it. */
  predicate Finds(groups: seq<Key>, ks: seq<Key>)
    decreases |groups|, 0
  {
    ks != [] && groups != []
    && if groups[0] == ks[0] then Walks(groups[1..], ks[1..]) else Finds(groups[1..], ks)
  }

  /**
   * The greedy pairing `unittest_compensate_config` performs, on the group keys
   * in run order and the sorted configs: a group whose key is not the next
   * config's gets a default config naming the group's file; the walk stops as
   * soon as either side runs out.
   */
  function Compensate(groups: seq<Key>, cs: seq<Config>): seq<Config>
    requires Walks(groups, ConfigKeys(cs))
    decreases |groups|
  {
    if cs == [] || groups == [] then []
    else if groups[0] == ConfigKey(cs[0]) then
      CompensateTake(groups, cs);
      [cs[0]] + Compensate(groups[1..], cs[1..])
    else
      CompensateSkip(groups, cs);
      [DefaultConfig(groups[0].file)] + Compensate(groups[1..], cs)
  }

  lemma {:induction false} CompensateTake(groups: seq<Key>, cs: seq<Config>)
    requires Finds(groups, ConfigKeys(cs)) && groups[0] == ConfigKey(cs[0])
    ensures Walks(groups[1..], ConfigKeys(cs[1..]))
  {
    assert ConfigKeys(cs[1..]) == ConfigKeys(cs)[1..];
  }

  /** A group the scan passes leaves a further group to look at. */
  lemma {:induction false} CompensateSkip(groups: seq<Key>, cs: seq<Config>)
    requires Finds(groups, ConfigKeys(cs)) && groups[0] != ConfigKey(cs[0])
    ensures |groups| > 1 && Finds(groups[1..], ConfigKeys(cs))
  {
  }

  /** The walk has emitted `out` for the first `i` groups, having consumed the first `c` configs. */
  ghost predicate WalkInv(groups: seq<Key>, live: seq<Config>, i: nat, c: nat, out: seq<Config>) {
    i <= |groups| && c <= |live|
    && Walks(groups, ConfigKeys(live))
    && Walks(groups[i..], ConfigKeys(live[c..]))
    && out + Compensate(groups[i..], live[c..]) == Compensate(groups, live)
  }

  /** Inside the inner loop: the walk is looking for the key of config `c` from group `i` on. */
  ghost predicate ScanInv(groups: seq<Key>, live: seq<Config>, i: nat, c: nat, out: seq<Config>) {
    WalkInv(groups, live, i, c, out) && c < |live| && Finds(groups[i..], ConfigKeys(live[c..]))
  }

  lemma {:induction false} WalkStart(groups: seq<Key>, live: seq<Config>)
    requires Walks(groups, ConfigKeys(live))
    ensures WalkInv(groups, live, 0, 0, [])
  {
    assert groups[0..] == groups && live[0..] == live;
  }

  /** With a config and a group both left, the walk starts looking for the config's key. */
  lemma {:induction false} ScanStart(groups: seq<Key>, live: seq<Config>, i: nat, c: nat, out: seq<Config>)
    requires WalkInv(groups, live, i, c, out) && c < |live| && i < |groups|
    ensures ScanInv(groups, live, i, c, out)
  {
  }

  /** The inner loop's step: the group at `i` is not the next config's, it gets a default config. */
  lemma {:induction false} SkipStep(groups: seq<Key>, live: seq<Config>, i: nat, c: nat, out: seq<Config>)
    requires ScanInv(groups, live, i, c, out)
    requires i < |groups| ==> groups[i] != ConfigKey(live[c])
    ensures i + 1 < |groups|
    ensures ScanInv(groups, live, i + 1, c, out + [DefaultConfig(groups[i].file)])
  {
    assert groups[i..][1..] == groups[i + 1..];
    CompensateSkip(groups[i..], live[c..]);
  }

  /** The outer loop's step: the group at `i` takes the config at `c`. */
  lemma {:induction false} TakeStep(groups: seq<Key>, live: seq<Config>, i: nat, c: nat, out: seq<Config>)
    requires ScanInv(groups, live, i, c, out) && i < |groups|
    requires groups[i] == ConfigKey(live[c])
    ensures WalkInv(groups, live, i + 1, c + 1, out + [live[c]])
  {
    assert groups[i..][1..] == groups[i + 1..];
    assert live[c..][1..] == live[c + 1..];
    CompensateTake(groups[i..], live[c..]);
  }

  /** The walk ends when either side runs out. */
  lemma {:induction false} WalkDone(groups: seq<Key>, live: seq<Config>, i: nat, c: nat, out: seq<Config>)
    requires WalkInv(groups, live, i, c, out)
    requires c == |live| || i == |groups|
    ensures out == Compensate(groups, live)
  {
    if i == |groups| {
      assert groups[i..] == [];
    } else {
      assert live[c..] == [];
    }
  }

  /** The boundary entry `i` points at the first test of group `i`, or at the terminator past the last group. */
  lemma {:induction false} AtGroup(ts: seq<Test>, i: nat)
    requires TestsTerminated(ts) && i <= FileCount(ts)
    ensures 0 <= FileIndex(ts)[i] < |ts|
    ensures ts[FileIndex(ts)[i]].file != None <==> i < FileCount(ts)
    ensures i < FileCount(ts) ==> TestKey(ts[FileIndex(ts)[i]]) == GroupKeys(ts)[i]
  {
    GroupFirst(ts, i);
  }

  /** Config slot `c` is live exactly before the terminator. */
  lemma {:induction false} AtConfig(cs: seq<Config>, c: nat)
    requires ConfigsTerminated(cs) && c <= ConfigCount(cs)
    ensures c < |cs|
    ensures cs[c].file != None <==> c < ConfigCount(cs)
    ensures c < ConfigCount(cs) ==> cs[c] == LiveConfigs(cs)[c]
  {
  }

  /**
   * `unittest_compensate_config` (unittest.h:730-764): walk the runs of the
   * sorted tests and the sorted configs together, until either runs out.
   * The walk is defined when each config it looks for turns up before the
   * groups run out (`Walks`); otherwise it reads the `-1` that ends the
   * boundary array as an index. The file count the source computes there is
   * never used and is not modelled.
   */
  method CompensateConfig(ts: seq<Test>, cs: seq<Config>) returns (out: seq<Config>)
    requires TestsTerminated(ts) && ConfigsTerminated(cs)
    requires Walks(GroupKeys(ts), ConfigKeys(LiveConfigs(cs)))
    ensures out == Compensate(GroupKeys(ts), LiveConfigs(cs))
  {
    var fileIdx := BuildFileIndex(ts);
    ghost var groups := GroupKeys(ts);
    ghost var live := LiveConfigs(cs);
    var i := 0;
    AtGroup(ts, 0);
    var t := fileIdx[0];
    var c := 0;
    AtConfig(cs, 0);
    out := [];
    WalkStart(groups, live);
    while cs[c].file != None && ts[t].file != None
      invariant WalkInv(groups, live, i, c, out)
      invariant t == fileIdx[i] && 0 <= t < |ts| && c < |cs|
      invariant ts[t].file != None <==> i < |groups|
      invariant i < |groups| ==> TestKey(ts[t]) == groups[i]
      invariant cs[c].file != None <==> c < |live|
      invariant c < |live| ==> cs[c] == live[c]
      decreases |groups| - i
    {
      ScanStart(groups, live, i, c, out);
      while Match(TestKey(ts[t]), ConfigKey(cs[c])) != 0
        invariant ScanInv(groups, live, i, c, out) && i < |groups|
        invariant t == fileIdx[i] && 0 <= t < |ts|
        invariant TestKey(ts[t]) == groups[i]
        decreases |groups| - i
      {
        SkipStep(groups, live, i, c, out);
        out := out + [DefaultConfig(ts[t].file)];
        i := i + 1;
        AtGroup(ts, i);
        t := fileIdx[i];
      }
      TakeStep(groups, live, i, c, out);
      out := out + [cs[c]];
      c := c + 1;
      AtConfig(cs, c);
      i := i + 1;
      AtGroup(ts, i);
      t := fileIdx[i];
    }
    WalkDone(groups, live, i, c, out);
  }

  function Shift(s: seq<int>): (r: seq<int>)
    ensures |r| == |s| && forall k :: 0 <= k < |s| ==> r[k] == s[k] + 1
  {
    seq(|s|, k requires 0 <= k < |s| => s[k] + 1)
  }

  /** The positions of `Compensate(groups, cs)` that hold the configs the walk consumes, in order. */
  function Taken(groups: seq<Key>, cs: seq<Config>): seq<int>
    requires Walks(groups, ConfigKeys(cs))
    decreases |groups|
  {
    if cs == [] || groups == [] then []
    else if groups[0] == ConfigKey(cs[0]) then
      CompensateTake(groups, cs);
      [0] + Shift(Taken(groups[1..], cs[1..]))
    else
      CompensateSkip(groups, cs);
      Shift(Taken(groups[1..], cs))
  }

  /** Entry `g` of `r` belongs to group `g`. */
  ghost predicate FilesAligned(groups: seq<Key>, r: seq<Config>) {
    |r| <= |groups| && forall g :: 0 <= g < |r| ==> r[g].file == groups[g].file
  }

  /** Config `j` of the first `|pos|` sits at position `pos[j]` of `r`, a group with its key; positions increase. */
  ghost predicate ConfigsPlaced(groups: seq<Key>, cs: seq<Config>, r: seq<Config>, pos: seq<int>) {
    |pos| <= |cs| && |r| <= |groups|
    && (forall j :: 0 <= j < |pos| ==> 0 <= pos[j] < |r| && r[pos[j]] == cs[j] && groups[pos[j]] == ConfigKey(cs[j]))
    && (forall j, k :: 0 <= j < k < |pos| ==> pos[j] < pos[k])
  }

  /** Every entry of `r` not in `pos` is its group's default config. */
  ghost predicate DefaultsElsewhere(groups: seq<Key>, r: seq<Config>, pos: seq<int>) {
    |r| <= |groups| && forall g :: 0 <= g < |r| && g !in pos ==> r[g] == DefaultConfig(groups[g].file)
  }

  /** `r` ends right after the last placed config. */
  ghost predicate EndsAtLast(r: seq<Config>, pos: seq<int>) {
    |r| == (if pos == [] then 0 else pos[|pos| - 1] + 1)
  }

  /** The walk has run out of configs or of groups: configs left over are dropped only once every group has its entry. */
  ghost predicate RunsOut(groups: seq<Key>, cs: seq<Config>, r: seq<Config>, pos: seq<int>) {
    |pos| == |cs| || |r| == |groups|
  }

  lemma {:induction false} AlignedTake(groups: seq<Key>, c: Config, r: seq<Config>)
    requires groups != [] && groups[0] == ConfigKey(c) && FilesAligned(groups[1..], r)
    ensures FilesAligned(groups, [c] + r)
  {
  }

  lemma {:induction false} AlignedSkip(groups: seq<Key>, r: seq<Config>)
    requires groups != [] && FilesAligned(groups[1..], r)
    ensures FilesAligned(groups, [DefaultConfig(groups[0].file)] + r)
  {
  }

  lemma {:induction false} PlacedTake(groups: seq<Key>, cs: seq<Config>, r: seq<Config>, pos: seq<int>)
    requires groups != [] && cs != [] && groups[0] == ConfigKey(cs[0])
    requires ConfigsPlaced(groups[1..], cs[1..], r, pos)
    ensures ConfigsPlaced(groups, cs, [cs[0]] + r, [0] + Shift(pos))
  {
    var r2, pos2 := [cs[0]] + r, [0] + Shift(pos);
    forall j | 0 <= j < |pos2|
      ensures 0 <= pos2[j] < |r2| && r2[pos2[j]] == cs[j] && groups[pos2[j]] == ConfigKey(cs[j])
    {
      if j > 0 {
        assert pos2[j] == pos[j - 1] + 1;
      }
    }
  }

  lemma {:induction false} PlacedSkip(groups: seq<Key>, cs: seq<Config>, r: seq<Config>, pos: seq<int>)
    requires groups != [] && ConfigsPlaced(groups[1..], cs, r, pos)
    ensures ConfigsPlaced(groups, cs, [DefaultConfig(groups[0].file)] + r, Shift(pos))
  {
  }

  lemma {:induction false} DefaultsTake(groups: seq<Key>, c: Config, r: seq<Config>, pos: seq<int>)
    requires groups != [] && DefaultsElsewhere(groups[1..], r, pos)
    ensures DefaultsElsewhere(groups, [c] + r, [0] + Shift(pos))
  {
    var r2, pos2 := [c] + r, [0] + Shift(pos);
    forall g | 0 <= g < |r2| && g !in pos2
      ensures r2[g] == DefaultConfig(groups[g].file)
    {
      assert g != 0;
      forall j | 0 <= j < |pos| ensures pos[j] != g - 1 {
        assert pos2[j + 1] == pos[j] + 1;
      }
    }
  }

  lemma {:induction false} DefaultsSkip(groups: seq<Key>, r: seq<Config>, pos: seq<int>)
    requires groups != [] && DefaultsElsewhere(groups[1..], r, pos)
    ensures DefaultsElsewhere(groups, [DefaultConfig(groups[0].file)] + r, Shift(pos))
  {
    var r2, pos2 := [DefaultConfig(groups[0].file)] + r, Shift(pos);
    forall g | 0 <= g < |r2| && g !in pos2
      ensures r2[g] == DefaultConfig(groups[g].file)
    {
      forall j | 0 <= j < |pos| ensures pos[j] != g - 1 {
        assert pos2[j] == pos[j] + 1;
      }
    }
  }

  lemma {:induction false} EndsTake(c: Config, r: seq<Config>, pos: seq<int>)
    requires EndsAtLast(r, pos)
    ensures EndsAtLast([c] + r, [0] + Shift(pos))
  {
  }

  lemma {:induction false} EndsSkip(d: Config, r: seq<Config>, pos: seq<int>)
    requires EndsAtLast(r, pos) && pos != []
    ensures EndsAtLast([d] + r, Shift(pos))
  {
  }

  /**
   * What compensation produces: entry `g` belongs to group `g` (same file);
   * the configs the walk consumes, a prefix of `cs`, are placed once each, in
   * order, at a group with their key; every other entry is the default config
   * of its group; the result ends right after the last placed config, so
   * groups past it get no entry; and the walk consumes every config or
   * reaches the last group, dropping the configs past it.
   */
  lemma {:induction false} CompensateShape(groups: seq<Key>, cs: seq<Config>)
    requires Walks(groups, ConfigKeys(cs))
    ensures FilesAligned(groups, Compensate(groups, cs))
    ensures ConfigsPlaced(groups, cs, Compensate(groups, cs), Taken(groups, cs))
    ensures DefaultsElsewhere(groups, Compensate(groups, cs), Taken(groups, cs))
    ensures EndsAtLast(Compensate(groups, cs), Taken(groups, cs))
    ensures RunsOut(groups, cs, Compensate(groups, cs), Taken(groups, cs))
    decreases |groups|
  {
    if cs == [] || groups == [] {
    } else if groups[0] == ConfigKey(cs[0]) {
      CompensateTake(groups, cs);
      CompensateShape(groups[1..], cs[1..]);
      var r, pos := Compensate(groups[1..], cs[1..]), Taken(groups[1..], cs[1..]);
      AlignedTake(groups, cs[0], r);
      PlacedTake(groups, cs, r, pos);
      DefaultsTake(groups, cs[0], r, pos);
      EndsTake(cs[0], r, pos);
    } else {
      CompensateSkip(groups, cs);
      CompensateShape(groups[1..], cs);
      var r, pos := Compensate(groups[1..], cs), Taken(groups[1..], cs);
      AlignedSkip(groups, r);
      PlacedSkip(groups, cs, r, pos);
      DefaultsSkip(groups, r, pos);
      EndsSkip(DefaultConfig(groups[0].file), r, pos);
    }
  }

  /** Keys that are exactly the groups are all found, each at its own group. */
  lemma {:induction false} WalksRefl(a: seq<Key>)
    ensures Walks(a, a)
  {
    if a != [] {
      WalksRefl(a[1..]);
    }
  }

  /** When every group has its config, compensation returns the configs unchanged. */
  lemma {:induction false} CompensateComplete(groups: seq<Key>, cs: seq<Config>)
    requires ConfigKeys(cs) == groups
    ensures Walks(groups, ConfigKeys(cs))
    ensures Compensate(groups, cs) == cs
    decreases |groups|
  {
    WalksRefl(groups);
    if cs != [] {
      assert ConfigKeys(cs[1..]) == groups[1..];
      CompensateComplete(groups[1..], cs[1..]);
    }
  }
}
