/**
 * Discovery of the registered tests and group configurations
 * (`unittest_get_unittest` and `unittest_get_unittest_config`,
 * unittest.h:480-558). Both walk the parsed symbol table up to its
 * terminator record: a first pass finds the load offset from the symbol
 * `main`, a second collects the accessor symbols with a given name prefix
 * and calls each at its relocated address. The call is an opaque function
 * from an address to the descriptor it returns.
 */
module Registry {
  import opened Base
  import opened Strings
  import opened Records
  import opened NmParse

  const InfoPrefix := "unittest_get_info_"
  const ConfigPrefix := "unittest_get_config_"

  /** The sentinel `(uint64_t)-1` that marks "no offset found". */
  const NoOffset: nat := TWO_64 - 1

  /** The symbol table holds a record of type 0, where both walks stop. */
  predicate HasTerminator(rs: seq<NmRecord>) {
    exists k :: 0 <= k < |rs| && rs[k].kind == '\0'
  }

  /** Index of the first record of type 0. */
  function FirstZero(rs: seq<NmRecord>): (n: nat)
    ensures n <= |rs|
    ensures forall k :: 0 <= k < n ==> rs[k].kind != '\0'
    ensures n < |rs| ==> rs[n].kind == '\0'
    ensures HasTerminator(rs) ==> n < |rs|
  {
    if rs == [] then 0
    else if rs[0].kind == '\0' then 0
    else 1 + FirstZero(rs[1..])
  }

  /** The records the walks visit: those before the terminator. */
  function Live(rs: seq<NmRecord>): seq<NmRecord> {
    rs[..FirstZero(rs)]
  }

  /** The address of the last record named `main`, if any. */
  function LastMain(rs: seq<NmRecord>): Option<nat> {
    if rs == [] then None
    else if rs[|rs| - 1].name == "main" then Some(rs[|rs| - 1].addr)
    else LastMain(rs[..|rs| - 1])
  }

  /** `(void *)main - r->ptr` as a `uint64_t`. */
  function Offset(mainAddr: nat, ptr: nat): (o: nat)
    ensures o < TWO_64
  {
    (mainAddr - ptr) % TWO_64
  }

  /** The offset the first walk leaves behind: from the last `main` record, else the sentinel. */
  function MainOffset(rs: seq<NmRecord>, mainAddr: nat): nat {
    match LastMain(Live(rs))
    case None => NoOffset
    case Some(a) => Offset(mainAddr, a)
  }

  /** `LastMain` finds the last `main` record: none exists after it, and `None` means there is none. */
  lemma {:induction false} LastMainIsLast(rs: seq<NmRecord>)
    ensures LastMain(rs).None? <==> forall k :: 0 <= k < |rs| ==> rs[k].name != "main"
    ensures LastMain(rs).Some? ==>
      exists k :: (0 <= k < |rs| && rs[k].name == "main" && rs[k].addr == LastMain(rs).value
        && forall j :: k < j < |rs| ==> rs[j].name != "main")
  {
    if rs != [] {
      var t := rs[..|rs| - 1];
      LastMainIsLast(t);
      if rs[|rs| - 1].name != "main" {
        assert forall k :: 0 <= k < |t| ==> t[k] == rs[k];
        if LastMain(t).Some? {
          var k :| 0 <= k < |t| && t[k].name == "main" && t[k].addr == LastMain(t).value
            && forall j :: k < j < |t| ==> t[j].name != "main";
          assert rs[k] == t[k];
        }
      }
    }
  }

  /**
   * The first walk of both discovery functions: the offset from the last
   * record named `main` before the terminator, or `(uint64_t)-1`.
   */
  method FindMainOffset(rs: seq<NmRecord>, mainAddr: nat) returns (offset: nat)
    requires HasTerminator(rs)
    ensures offset == MainOffset(rs, mainAddr)
  {
    offset := NoOffset;
    var i := 0;
    var n := FirstZero(rs);
    while rs[i].kind != '\0'
      invariant i <= n
      invariant offset == (match LastMain(rs[..i]) case None => NoOffset case Some(a) => Offset(mainAddr, a))
      decreases n - i
    {
      NullStrCmpIsThreeWay(Some("main"), Some(rs[i].name));
      assert rs[..i + 1][..i] == rs[..i];
      if NullStrCmp(Some("main"), Some(rs[i].name)) == 0 {
        offset := Offset(mainAddr, rs[i].addr);
      }
      i := i + 1;
    }
    assert i == n;
  }

  /** The records before the terminator whose names start with `prefix`, in table order. */
  function Selected(rs: seq<NmRecord>, prefix: string): (r: seq<NmRecord>)
    ensures |r| <= |rs|
  {
    if rs == [] then []
    else (if prefix <= rs[0].name then [rs[0]] else []) + Selected(rs[1..], prefix)
  }

  /** The selection keeps exactly the records with the prefix. */
  lemma {:induction false} SelectedMembers(rs: seq<NmRecord>, prefix: string)
    ensures forall r :: r in Selected(rs, prefix) <==> r in rs && prefix <= r.name
  {
    if rs != [] {
      SelectedMembers(rs[1..], prefix);
      assert forall r :: r in rs <==> r == rs[0] || r in rs[1..] by {
        assert rs == [rs[0]] + rs[1..];
      }
    }
  }

  /** The selection of a concatenation is the concatenation of the selections: table order is kept. */
  lemma {:induction false} SelectedConcat(a: seq<NmRecord>, b: seq<NmRecord>, prefix: string)
    ensures Selected(a + b, prefix) == Selected(a, prefix) + Selected(b, prefix)
  {
    if a == [] {
      assert a + b == b;
    } else {
      assert (a + b)[1..] == a[1..] + b;
      SelectedConcat(a[1..], b, prefix);
    }
  }

  /** The descriptors obtained by calling each selected accessor at its relocated address. */
  function CallAll<T>(rs: seq<NmRecord>, offset: nat, call: nat -> T): (r: seq<T>)
    ensures |r| == |rs|
    ensures forall k :: 0 <= k < |rs| ==> r[k] == call((rs[k].addr + offset) % TWO_64)
  {
    if rs == [] then [] else [call((rs[0].addr + offset) % TWO_64)] + CallAll(rs[1..], offset, call)
  }

  /**
   * The second walk: call every accessor whose name starts with `prefix`,
   * in table order, and push the zero terminator after the results.
   */
  method CollectByPrefix<T>(rs: seq<NmRecord>, prefix: string, offset: nat, call: nat -> T, zero: T)
    returns (buf: seq<T>)
    requires HasTerminator(rs)
    ensures buf == CallAll(Selected(Live(rs), prefix), offset, call) + [zero]
  {
    buf := [];
    var i := 0;
    var n := FirstZero(rs);
    ghost var sel: seq<NmRecord> := [];
    while rs[i].kind != '\0'
      invariant i <= n
      invariant sel == Selected(rs[..i], prefix)
      invariant buf == CallAll(sel, offset, call)
      decreases n - i
    {
      var hit := StartsWith(rs[i].name, prefix);
      SelectedSnoc(rs, i, prefix);
      if hit == 0 {
        CallAllSnoc(sel, rs[i], offset, call);
        buf := buf + [call((rs[i].addr + offset) % TWO_64)];
        sel := sel + [rs[i]];
      }
      i := i + 1;
    }
    assert i == n;
    buf := buf + [zero];
  }

  /** One more record visited: the selection grows by it exactly when it has the prefix. */
  lemma {:induction false} SelectedSnoc(rs: seq<NmRecord>, i: nat, prefix: string)
    requires i < |rs|
    ensures Selected(rs[..i + 1], prefix)
         == Selected(rs[..i], prefix) + (if prefix <= rs[i].name then [rs[i]] else [])
  {
    assert rs[..i + 1] == rs[..i] + [rs[i]];
    SelectedConcat(rs[..i], [rs[i]], prefix);
    assert Selected([rs[i]], prefix) == (if prefix <= rs[i].name then [rs[i]] else []) by {
      assert [rs[i]][1..] == [];
    }
  }

  lemma {:induction false} CallAllSnoc<T>(a: seq<NmRecord>, r: NmRecord, offset: nat, call: nat -> T)
    ensures CallAll(a + [r], offset, call) == CallAll(a, offset, call) + [call((r.addr + offset) % TWO_64)]
  {
    if a != [] {
      assert (a + [r])[1..] == a[1..] + [r];
      CallAllSnoc(a[1..], r, offset, call);
    }
  }

  /** What `unittest_get_unittest` returns: `None` (NULL) without an offset, else the discovered tests and a zero test. */
  function Unittests(rs: seq<NmRecord>, mainAddr: nat, call: nat -> Test): Option<seq<Test>> {
    var offset := MainOffset(rs, mainAddr);
    if offset == NoOffset then None
    else Some(CallAll(Selected(Live(rs), InfoPrefix), offset, call) + [ZeroTest])
  }

  /** What `unittest_get_unittest_config` returns, in the same way. */
  function UnittestConfigs(rs: seq<NmRecord>, mainAddr: nat, call: nat -> Config): Option<seq<Config>> {
    var offset := MainOffset(rs, mainAddr);
    if offset == NoOffset then None
    else Some(CallAll(Selected(Live(rs), ConfigPrefix), offset, call) + [ZeroConfig])
  }

  /** `unittest_get_unittest` (unittest.h:480-518). */
  method GetUnittest(rs: seq<NmRecord>, mainAddr: nat, call: nat -> Test) returns (res: Option<seq<Test>>)
    requires HasTerminator(rs)
    ensures res == Unittests(rs, mainAddr, call)
  {
    var offset := FindMainOffset(rs, mainAddr);
    if offset == NoOffset {
      return None;
    }
    var buf := CollectByPrefix(rs, InfoPrefix, offset, call, ZeroTest);
    res := Some(buf);
  }

  /** `unittest_get_unittest_config` (unittest.h:520-558). */
  method GetUnittestConfig(rs: seq<NmRecord>, mainAddr: nat, call: nat -> Config) returns (res: Option<seq<Config>>)
    requires HasTerminator(rs)
    ensures res == UnittestConfigs(rs, mainAddr, call)
  {
    var offset := FindMainOffset(rs, mainAddr);
    if offset == NoOffset {
      return None;
    }
    var buf := CollectByPrefix(rs, ConfigPrefix, offset, call, ZeroConfig);
    res := Some(buf);
  }

  /** Without a record named `main` before the terminator, discovery returns NULL. */
  lemma {:induction false} NoMainNoTests(rs: seq<NmRecord>, mainAddr: nat, call: nat -> Test)
    requires forall k :: 0 <= k < |Live(rs)| ==> Live(rs)[k].name != "main"
    ensures Unittests(rs, mainAddr, call) == None
  {
    LastMainIsLast(Live(rs));
  }

  /**
   * With a `main` record, discovery succeeds unless the computed offset is
   * itself `(uint64_t)-1`; the tests are the relocated accessor results of
   * exactly the matching records, one each, in order, then the zero test.
   */
  lemma {:induction false} DiscoveredTests(rs: seq<NmRecord>, mainAddr: nat, call: nat -> Test)
    requires MainOffset(rs, mainAddr) != NoOffset
    ensures var r := Unittests(rs, mainAddr, call);
      r.Some? && |r.value| == |Selected(Live(rs), InfoPrefix)| + 1
      && r.value[|r.value| - 1] == ZeroTest
      && forall k :: 0 <= k < |r.value| - 1 ==>
           r.value[k] == call((Selected(Live(rs), InfoPrefix)[k].addr + MainOffset(rs, mainAddr)) % TWO_64)
  {
  }

  /** Every symbol the walk calls carries the accessor prefix and lies before the terminator, and every such symbol is called. */
  lemma {:induction false} CalledSymbols(rs: seq<NmRecord>, prefix: string)
    ensures forall r :: r in Selected(Live(rs), prefix) <==> r in Live(rs) && prefix <= r.name
  {
    SelectedMembers(Live(rs), prefix);
  }
}
