/**
 * The two descriptors the scheduler works on (unittest.h:107-150): a test
 * (`struct unittest_s`) and a group configuration (`struct unittest_config_s`),
 * with the comparators that order them and the node identity that groups
 * them. Function pointers are opaque callback identities; a NULL callback
 * is `None`. The fixed 16-slot `depends_on` array is the sequence of its
 * slots; slots past the end of the sequence are NULL.
 */
module Records {
  import opened Base
  import opened Strings

  /** Identity of a callback (a test body, an `init` or a `clean` function). */
  type FnRef = nat

  /** Capacity of the `depends_on` arrays. */
  const DependsOnSlots: nat := 16

  datatype Test = Test(
    file: Option<string>,
    uniqueId: int,
    line: nat,
    fn: FnRef,
    name: Option<string>,
    dependsOn: seq<Option<string>>,
    init: Option<FnRef>,
    clean: Option<FnRef>)

  datatype Config = Config(
    file: Option<string>,
    uniqueId: int,
    name: Option<string>,
    dependsOn: seq<Option<string>>,
    init: Option<FnRef>,
    clean: Option<FnRef>)

  /** The all-zero `struct unittest_s` that terminates a test array. */
  const ZeroTest := Test(None, 0, 0, 0, None, [], None, None)

  /** The all-zero `struct unittest_config_s`. */
  const ZeroConfig := Config(None, 0, None, [], None, None)

  /** The config synthesised for a group without one: only `file` is set (unittest.h:753). */
  function DefaultConfig(file: Option<string>): Config {
    Config(file, 0, None, [], None, None)
  }

  /** Group identity of a node: `(file, unique_id)`. */
  datatype Key = Key(file: Option<string>, uniqueId: int)

  function TestKey(t: Test): Key { Key(t.file, t.uniqueId) }
  function ConfigKey(c: Config): Key { Key(c.file, c.uniqueId) }

  /**
   * `unittest_match` (unittest.h:630-638): 0 when the two nodes have the same
   * file and unique id, 1 otherwise. It is applied to two tests and, through a
   * cast whose first two fields coincide, to a test and a config.
   */
  function Match(a: Key, b: Key): (r: int)
    ensures r == 0 || r == 1
    ensures r == 0 <==> a == b
  {
    NullStrCmpIsThreeWay(a.file, b.file);
    if NullStrCmp(a.file, b.file) == 0 && a.uniqueId == b.uniqueId then 0 else 1
  }

  /** The `depends_on` slot `k`; slots not spelled out are NULL. */
  function Slot(ds: seq<Option<string>>, k: nat): Option<string> {
    if k < |ds| then ds[k] else None
  }

  /**
   * The scan `while(*d != NULL)` stays inside the 16-slot array only if one
   * of its slots is NULL.
   */
  predicate DepsTerminated(ds: seq<Option<string>>) {
    |ds| <= DependsOnSlots && (|ds| < DependsOnSlots || None in ds)
  }

  /** The names the scan visits: the slots before the first NULL one. */
  function DepNames(ds: seq<Option<string>>): (r: seq<string>)
    ensures |r| <= |ds|
    ensures forall k :: 0 <= k < |r| ==> ds[k] == Some(r[k])
    ensures |r| < |ds| ==> ds[|r|] == None
  {
    if ds == [] || ds[0].None? then [] else [ds[0].value] + DepNames(ds[1..])
  }

  /** The C conversion of an integer to a 32-bit `int`: keep the low 32 bits, read them as two's complement. */
  function ToInt32(x: int): (r: int)
    ensures -TWO_31 <= r < TWO_31
  {
    var m := x % TWO_32;
    if m >= TWO_31 then m - TWO_32 else m
  }

  /** `(int)(a->line - b->line)` for two `uint64_t` line numbers (unittest.h:617). */
  function LineDiff(a: nat, b: nat): int {
    ToInt32((a - b) % TWO_64)
  }

  /** Line numbers below 2^31: the wrapped difference is the true signed difference. */
  lemma {:induction false} LineDiffIsDifference(a: nat, b: nat)
    requires a < TWO_31 && b < TWO_31
    ensures LineDiff(a, b) == a - b
  {
    if a >= b {
      assert (a - b) % TWO_64 == a - b;
      assert (a - b) % TWO_32 == a - b;
    } else {
      var d := b - a;
      assert 0 < d < TWO_31;
      assert (a - b) % TWO_64 == TWO_64 - d;
      assert TWO_64 - d == (TWO_32 - 1) * TWO_32 + (TWO_32 - d);
      assert (TWO_64 - d) % TWO_32 == TWO_32 - d;
    }
  }

  /** With line numbers 2^32 apart the comparator reports a tie. */
  lemma LineDiffWrapsAtTwo32()
    ensures LineDiff(0, TWO_32) == 0
  {
    assert (0 - TWO_32) % TWO_64 == TWO_64 - TWO_32;
    assert TWO_64 - TWO_32 == (TWO_32 - 1) * TWO_32;
  }

  /** `unittest_compare` (unittest.h:597-618): by file, then by name, then by line. */
  function TestCompare(a: Test, b: Test): int {
    var byFile := NullStrCmp(a.file, b.file);
    if byFile != 0 then byFile
    else
      var byName := NullStrCmp(a.name, b.name);
      if byName != 0 then byName
      else LineDiff(a.line, b.line)
  }

  /** `unittest_config_compare` (unittest.h:620-628): by file alone. */
  function ConfigCompare(a: Config, b: Config): int {
    NullStrCmp(a.file, b.file)
  }

  /** Line numbers for which the comparator's line difference does not wrap. */
  predicate LineBounded(t: Test) {
    t.line < TWO_31
  }

  /** The lexicographic order on (file, name, line), stated through `OptLess` only. */
  ghost predicate TestKeyLess(a: Test, b: Test) {
    OptLess(a.file, b.file)
    || (a.file == b.file && OptLess(a.name, b.name))
    || (a.file == b.file && a.name == b.name && a.line < b.line)
  }

  /**
   * For bounded line numbers `unittest_compare` is the three-way comparison of
   * the (file, name, line) order: zero exactly on equal keys, negative exactly
   * when the first key is smaller, and antisymmetric.
   */
  lemma {:induction false} TestCompareIsLexicographic(a: Test, b: Test)
    requires LineBounded(a) && LineBounded(b)
    ensures TestCompare(a, b) == 0 <==> (a.file == b.file && a.name == b.name && a.line == b.line)
    ensures TestCompare(a, b) < 0 <==> TestKeyLess(a, b)
    ensures TestCompare(a, b) > 0 <==> TestKeyLess(b, a)
  {
    NullStrCmpIsThreeWay(a.file, b.file);
    NullStrCmpIsThreeWay(a.name, b.name);
    LineDiffIsDifference(a.line, b.line);
  }

  /** For bounded line numbers `unittest_compare` is transitive, so sorting by it is meaningful. */
  lemma {:induction false} TestCompareTransitive(a: Test, b: Test, c: Test)
    requires LineBounded(a) && LineBounded(b) && LineBounded(c)
    requires TestCompare(a, b) <= 0 && TestCompare(b, c) <= 0
    ensures TestCompare(a, c) <= 0
  {
    TestCompareIsLexicographic(a, b);
    TestCompareIsLexicographic(b, c);
    TestCompareIsLexicographic(a, c);
    NullStrCmpIsThreeWay(a.file, b.file);
    NullStrCmpIsThreeWay(b.file, c.file);
    NullStrCmpIsThreeWay(a.file, c.file);
    NullStrCmpIsThreeWay(a.name, b.name);
    NullStrCmpIsThreeWay(b.name, c.name);
    NullStrCmpIsThreeWay(a.name, c.name);
    NullStrCmpTransitive(a.file, b.file, c.file);
    if a.file == b.file == c.file {
      NullStrCmpTransitive(a.name, b.name, c.name);
    }
  }

  /**
   * `unittest_config_compare` is the three-way comparison of the file order:
   * zero exactly on equal files, negative exactly when the first file is
   * smaller, positive exactly when it is greater.
   */
  lemma {:induction false} ConfigCompareByFile(a: Config, b: Config)
    ensures ConfigCompare(a, b) == 0 <==> a.file == b.file
    ensures ConfigCompare(a, b) < 0 <==> OptLess(a.file, b.file)
    ensures ConfigCompare(a, b) > 0 <==> OptLess(b.file, a.file)
  {
    NullStrCmpIsThreeWay(a.file, b.file);
  }

  /** `unittest_config_compare` is transitive, so sorting by it is meaningful. */
  lemma {:induction false} ConfigCompareTransitive(a: Config, b: Config, c: Config)
    requires ConfigCompare(a, b) <= 0 && ConfigCompare(b, c) <= 0
    ensures ConfigCompare(a, c) <= 0
  {
    NullStrCmpTransitive(a.file, b.file, c.file);
  }

  /** A sequence in the order `qsort` establishes with `unittest_compare`. */
  predicate TestsSorted(ts: seq<Test>) {
    forall i, j :: 0 <= i < j < |ts| ==> TestCompare(ts[i], ts[j]) <= 0
  }

  /** In a sorted test sequence the tests of one file occupy a contiguous range. */
  lemma {:induction false} SortedFilesContiguous(ts: seq<Test>, i: nat, j: nat, k: nat)
    requires TestsSorted(ts)
    requires i < j < k < |ts|
    requires ts[i].file == ts[k].file
    ensures ts[j].file == ts[i].file
  {
    var a, b, c := ts[i].file, ts[j].file, ts[k].file;
    assert NullStrCmp(a, b) <= 0 && NullStrCmp(b, c) <= 0 by {
      assert TestCompare(ts[i], ts[j]) <= 0;
      assert TestCompare(ts[j], ts[k]) <= 0;
      NullStrCmpIsThreeWay(a, b);
      NullStrCmpIsThreeWay(b, c);
    }
    NullStrCmpIsThreeWay(a, b);
    NullStrCmpIsThreeWay(b, c);
    NullStrCmpTransitive(b, c, a);
  }
}
