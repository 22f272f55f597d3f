/**
 * The end-to-end scenario of example2.c: one source file declares a group
 * config "foo" that depends on a group "bar" no file declares, and three
 * tests, "first test", "second test" depending on "first test", and
 * "third test" depending on "second test". The descriptors below are the
 * ones the registry hands to `unittest_main`, already in comparator order,
 * each array followed by its terminator; the test bodies are the callbacks
 * 1, 2 and 3. The unique id of the file is taken to be 0.
 */
module Scenario {
  import opened Base
  import opened Strings
  import opened Records
  import opened Grouping
  import opened Dag
  import opened Kahn
  import opened Toposort
  import opened Runner
  import opened Scheduler

  const File: Option<string> := Some("example2.c")
  const Group: Key := Key(File, 0)

  const First: Test := Test(File, 0, 15, 1, Some("first test"), [], None, None)
  const Second: Test := Test(File, 0, 25, 2, Some("second test"), [Some("first test")], None, None)
  const Third: Test := Test(File, 0, 37, 3, Some("third test"), [Some("second test")], None, None)
  const Block: seq<Test> := [First, Second, Third]
  const Tests: seq<Test> := Block + [ZeroTest]

  const Foo: Config := Config(File, 0, Some("foo"), [Some("bar")], None, None)
  const Configs: seq<Config> := [Foo, ZeroConfig]

  /** All three tests share one file, so they form one group, bounded by `[0, 3, -1]`. */
  lemma OneGroup()
    ensures TestsTerminated(Tests) && TestCount(Tests) == 3
    ensures FileCount(Tests) == 1 && FileIndex(Tests) == [0, 3, -1]
    ensures GroupKeys(Tests) == [Group]
  {
    assert TestFiles(Tests)[3] == None;
    FirstNullIsFirst(TestFiles(Tests), 3);
    var keys := Keys(Tests);
    assert keys == [Group, Group, Group];
    assert keys[1..] == [Group, Group];
    assert Changes(keys) == 0 by {
      assert Changes([Group, Group]) == 0 by {
        assert [Group, Group][1..] == [Group];
      }
    }
    assert Cuts(keys) == [] by {
      assert keys[..2] == [Group, Group];
      assert Cuts([Group, Group]) == [] by {
        assert [Group, Group][..1] == [Group];
      }
    }
    assert Pick(keys, [0]) == [Group];
  }

  /** The config of "foo" belongs to the one group and is kept as it is. */
  lemma FooCompensated()
    ensures ConfigsTerminated(Configs) && LiveConfigs(Configs) == [Foo]
    ensures Walks(GroupKeys(Tests), ConfigKeys(LiveConfigs(Configs)))
    ensures CompdConfigs(Tests, Configs) == [Foo]
    ensures Padded(CompdConfigs(Tests, Configs), FileCount(Tests)) == [Foo]
  {
    OneGroup();
    assert ConfigFiles(Configs)[1] == None;
    FirstNullIsFirst(ConfigFiles(Configs), 1);
    assert LiveConfigs(Configs) == [Foo];
    assert ConfigKeys([Foo]) == [Group];
    assert Walks([Group], [Group]) by {
      assert Walks([Group][1..], [Group][1..]);
    }
    assert Compensate([Group], [Foo]) == [Foo] by {
      assert Compensate([Group][1..], [Foo][1..]) == [];
    }
  }

  /** A config of a file that declares no test, sorted after the group's own. */
  const Stray: Config := Config(Some("extra.c"), 0, Some("baz"), [], None, None)
  const StrayConfigs: seq<Config> := [Foo, Stray, ZeroConfig]

  /**
   * With a config left over after the last group has taken its own, the walk
   * stops at the end of the groups and drops the leftover.
   */
  lemma StrayDropped()
    ensures MainInput(Tests, StrayConfigs)
    ensures CompdConfigs(Tests, StrayConfigs) == [Foo]
  {
    BlockOfGroup();
    StrayCompensated();
    TagsSortable();
    GroupsSortable();
    assert PaddingDefined(CompdConfigs(Tests, StrayConfigs), FileCount(Tests));
  }

  lemma StrayCompensated()
    ensures ConfigsTerminated(StrayConfigs) && LiveConfigs(StrayConfigs) == [Foo, Stray]
    ensures Walks(GroupKeys(Tests), ConfigKeys(LiveConfigs(StrayConfigs)))
    ensures CompdConfigs(Tests, StrayConfigs) == [Foo]
    ensures Padded(CompdConfigs(Tests, StrayConfigs), FileCount(Tests)) == [Foo]
  {
    OneGroup();
    assert ConfigFiles(StrayConfigs)[2] == None;
    FirstNullIsFirst(ConfigFiles(StrayConfigs), 2);
    assert LiveConfigs(StrayConfigs) == [Foo, Stray];
    var k := ConfigKey(Stray);
    assert ConfigKeys([Foo, Stray]) == [Group, k];
    assert Walks([Group], [Group, k]) by {
      assert Walks([Group][1..], [Group, k][1..]);
    }
    assert Compensate([Group], [Foo, Stray]) == [Foo] by {
      assert Compensate([Group][1..], [Foo, Stray][1..]) == [];
    }
  }

  /** Without any test there is no group: nothing is compensated and every config is dropped. */
  lemma NoTests()
    ensures MainInput([ZeroTest], Configs)
    ensures FileCount([ZeroTest]) == 0 && CompdConfigs([ZeroTest], Configs) == []
  {
    assert TestFiles([ZeroTest])[0] == None;
    FirstNullIsFirst(TestFiles([ZeroTest]), 0);
    assert ConfigFiles(Configs)[1] == None;
    FirstNullIsFirst(ConfigFiles(Configs), 1);
    assert GroupKeys([ZeroTest]) == [];
    assert ConfigDag([]) == [];
    assert Graph(ConfigDag([]));
  }

  lemma BlockOfGroup()
    ensures TestsTerminated(Tests) && FileCount(Tests) == 1
    ensures TestBlock(Tests, 0) == Block
  {
    OneGroup();
    FileIndexBounds(Tests);
    assert Tests[0..3] == Block;
  }

  const Names: seq<Option<string>> := [Some("first test"), Some("second test"), Some("third test")]

  lemma DepsOfBlock()
    ensures TestNames(Block) == Names
    ensures DepNames(Block[0].dependsOn) == []
    ensures DepNames(Block[1].dependsOn) == ["first test"]
    ensures DepNames(Block[2].dependsOn) == ["second test"]
  {
    assert Block[1].dependsOn[1..] == [];
    assert Block[2].dependsOn[1..] == [];
  }

  /** The test graph: "second test" has an edge from "first test", "third test" one from "second test". */
  lemma TestEdges()
    ensures TestDag(Block) == [[], [0], [1]]
  {
    DepsOfBlock();
    SingleRow(Names, 1, "first test", 0);
    SingleRow(Names, 2, "second test", 1);
    var dag := TestDag(Block);
    assert dag[0] == Row(Names, 0, []) == [];
    assert dag[1] == Row(Names, 1, ["first test"]);
    assert dag[2] == Row(Names, 2, ["second test"]);
    Three(dag, [], [0], [1]);
  }

  lemma {:induction false} Three<T>(s: seq<T>, a: T, b: T, c: T)
    requires |s| == 3 && s[0] == a && s[1] == b && s[2] == c
    ensures s == [a, b, c]
  {
  }

  /** Node `i`'s row for the one name `d`, which only node `j` has. */
  lemma {:induction false} SingleRow(names: seq<Option<string>>, i: nat, d: string, j: nat)
    requires j < |names| && i != j
    requires forall k :: 0 <= k < |names| ==> (names[k] == Some(d) <==> k == j)
    ensures Row(names, i, [d]) == [j]
  {
    forall k | 0 <= k < |names| ensures (NullStrCmp(names[k], Some(d)) == 0 <==> k == j) {
      NullStrCmpIsThreeWay(names[k], Some(d));
    }
    SourcesBelowNone(names, i, d, 0, j);
    assert SourcesBelow(names, i, d, j + 1) == [j];
    SourcesBelowNone(names, i, d, j + 1, |names|);
    assert [d][..0] == [];
  }

  /** Node `i`'s row for the one name `d`, which no other node has. */
  lemma {:induction false} EmptyRow(names: seq<Option<string>>, i: nat, d: string)
    requires forall k :: 0 <= k < |names| && k != i ==> names[k] != Some(d)
    ensures Row(names, i, [d]) == []
  {
    forall k | 0 <= k < |names| && k != i ensures NullStrCmp(names[k], Some(d)) != 0 {
      NullStrCmpIsThreeWay(names[k], Some(d));
    }
    SourcesBelowNone(names, i, d, 0, |names|);
    assert [d][..0] == [];
  }

  lemma {:induction false} SourcesBelowNone(names: seq<Option<string>>, i: nat, d: string, lo: nat, m: nat)
    requires lo <= m <= |names|
    requires forall k :: lo <= k < m && k != i ==> NullStrCmp(names[k], Some(d)) != 0
    ensures SourcesBelow(names, i, d, m) == SourcesBelow(names, i, d, lo)
    decreases m
  {
    if m > lo {
      SourcesBelowNone(names, i, d, lo, m - 1);
    }
  }

  /** "bar" names no group and "foo" is never its own source: the group graph has no edge. */
  lemma MissingGroupAddsNoEdge()
    ensures ConfigDag([Foo]) == [[]]
  {
    assert ConfigNames([Foo]) == [Some("foo")];
    assert DepNames(Foo.dependsOn) == ["bar"] by {
      assert Foo.dependsOn[1..] == [];
    }
    EmptyRow([Some("foo")], 0, "bar");
    assert ConfigDag([Foo])[0] == Row([Some("foo")], 0, ["bar"]);
  }

  lemma Sortable()
    ensures MainInput(Tests, Configs)
  {
    BlockOfGroup();
    FooCompensated();
    TagsSortable();
    GroupsSortable();
    assert PaddingDefined(CompdConfigs(Tests, Configs), FileCount(Tests));
  }

  lemma TagsSortable()
    ensures TagSortable(Block)
  {
    TestEdges();
    var dag := TestDag(Block);
    assert Graph(dag);
    assert forall i :: 0 <= i < |dag| ==> |dag[i]| <= 127;
  }

  lemma GroupsSortable()
    ensures GroupSortable([Foo])
  {
    MissingGroupAddsNoEdge();
  }

  /** With one group whose block the tag sort keeps, the tag-sort loop leaves the array as it is. */
  lemma {:induction false} OneGroupKept(ts: seq<Test>)
    requires TestsTerminated(ts) && FileCount(ts) == 1
    requires SortByTag(ts[..TestCount(ts)]) == Some(ts[..TestCount(ts)])
    ensures Tagged(ts) == Some(ts)
  {
    FileIndexBounds(ts);
    SortByTagKeepsLength();
    OneBlockKept(ts, FileIndex(ts), TestCount(ts), SortByTag);
  }

  /** A single block that `sort` keeps as it is leaves the whole array as it is. */
  lemma {:induction false} OneBlockKept(ts: seq<Test>, idx: seq<int>, n: nat, sort: BlockSort)
    requires Boundaries(idx, 1, n) && n <= |ts| && KeepsLength(sort)
    requires sort(ts[..n]) == Some(ts[..n])
    ensures TagSorted(ts, idx, 1, n, 1, sort) == Some(ts)
  {
    assert Slice(idx, 1, n, 0, ts) == ts[..n];
    Recombine(ts, n);
    assert WithBlock(idx, 1, n, 0, ts, ts[..n]) == ts;
    assert TagSorted(ts, idx, 1, n, 0, sort) == Some(ts);
  }

  lemma {:induction false} Recombine<T>(s: seq<T>, n: nat)
    requires n <= |s|
    ensures s[..0] + s[..n] + s[n..] == s
  {
    assert s[..0] == [];
  }

  /** The three tests are already in dependency order, so the tag sort keeps them. */
  lemma TagStage()
    ensures TestsTerminated(Tests) && FileCount(Tests) == 1
    ensures Tagged(Tests) == Some(Tests)
  {
    OneGroup();
    DepsOfBlock();
    SortByTagKeepsOrder(Block);
    assert Tests[..3] == Block;
    OneGroupKept(Tests);
  }

  /** Kahn's algorithm places the lone group. */
  lemma GroupOrdered()
    ensures Order(ConfigDag([Foo])) == Some([0])
  {
    MissingGroupAddsNoEdge();
    var dag := ConfigDag([Foo]);
    KahnForward(dag, 0);
    assert Range(0, 0) == [] && Range(0, 1) == [0];
  }

  /** The lone group stays where it is, and so do its tests. */
  lemma GroupStage()
    ensures Boundaries([0, 3, -1], 1, 3)
    ensures SortByGroup(Block, [Foo], [0, 3, -1]) == Some((Block, [Foo]))
  {
    GroupOrdered();
    assert BlockIndices([0, 3, -1], 1, 3, [0]) == [0, 1, 2] by {
      assert [0][..0] == [];
    }
    Three(Pick(Block, [0, 1, 2]), First, Second, Third);
    assert Pick([Foo], [0]) == [Foo];
  }

  /** The schedule of example2.c keeps both arrays as they are. */
  lemma Scheduled()
    ensures MainInput(Tests, Configs)
    ensures Schedule(Tests, Configs) == Some((Tests, [Foo]))
  {
    Sortable();
    FooCompensated();
    OneGroup();
    TagStage();
    GroupStage();
    assert Tests[..TestCount(Tests)] == Block;
    assert SortByGroup(Block, Padded(CompdConfigs(Tests, Configs), FileCount(Tests)), FileIndex(Tests)) == Some((Block, [Foo]));
    assert Block + Tests[3..] == Tests;
  }

  /**
   * Run end to end, example2.c calls "first test", "second test" and
   * "third test" in that order, each without a context, and "foo" brings no
   * group setup.
   */
  lemma RunsInDeclaredOrder()
    ensures MainInput(Tests, Configs) && Schedule(Tests, Configs).Some?
    ensures MainTrace(Tests, Configs) == [TestRun(1, 0, 0, false), TestRun(2, 1, 0, false), TestRun(3, 2, 0, false)]
  {
    Scheduled();
    OneGroup();
    GroupTrace();
  }

  lemma GroupTrace()
    ensures RunBounds(Tests, [0, 3, -1], 1)
    ensures RunTrace(Tests, [Foo], [0, 3, -1], 1, 1) == [TestRun(1, 0, 0, false), TestRun(2, 1, 0, false), TestRun(3, 2, 0, false)]
  {
    assert RunBounds(Tests, [0, 3, -1], 1);
    TestsTrace();
    assert RunTrace(Tests, [Foo], [0, 3, -1], 1, 1) == [] + GroupEvents(Tests, Foo, 0, 0, 3);
    NoGroupSetup(Tests, Foo, 0, 0, 3);
  }

  lemma TestsTrace()
    ensures TestsEvents(Tests, 0, 0, 3) == [TestRun(1, 0, 0, false), TestRun(2, 1, 0, false), TestRun(3, 2, 0, false)]
  {
    assert TestsEvents(Tests, 0, 0, 1) == [TestRun(1, 0, 0, false)];
    assert TestsEvents(Tests, 0, 0, 2) == [TestRun(1, 0, 0, false), TestRun(2, 1, 0, false)];
  }

  lemma {:induction false} NoGroupSetup(ts: seq<Test>, c: Config, g: nat, lo: nat, hi: nat)
    requires lo <= hi <= |ts| && c.init.None?
    ensures GroupEvents(ts, c, g, lo, hi) == TestsEvents(ts, g, lo, hi)
  {
    assert [] + TestsEvents(ts, g, lo, hi) + [] == TestsEvents(ts, g, lo, hi);
  }
}
