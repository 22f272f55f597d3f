/**
 * String comparison as the scheduler uses it (unittest.h): C's `strcmp`,
 * its NULL-aware extension `unittest_strcmp`, and the prefix test
 * `unittest_startswith`. C strings are NUL-free character sequences here;
 * a NULL `char const *` is `None`.
 */
module Strings {
  import opened Base

  /**
   * `strcmp`: the sign of the lexicographic comparison of two C strings,
   * characters compared by code. A proper prefix sorts first, because the
   * terminating NUL is smaller than every character.
   */
  function StrCmp(a: string, b: string): (r: int)
    ensures -1 <= r <= 1
    ensures r == 0 ==> |a| == |b|
  {
    if a == [] then (if b == [] then 0 else -1)
    else if b == [] then 1
    else if a[0] < b[0] then -1
    else if a[0] > b[0] then 1
    else StrCmp(a[1..], b[1..])
  }

  lemma {:induction false} StrCmpZeroIff(a: string, b: string)
    ensures StrCmp(a, b) == 0 <==> a == b
  {
    if a != [] && b != [] && a[0] == b[0] {
      StrCmpZeroIff(a[1..], b[1..]);
      assert a == [a[0]] + a[1..] && b == [b[0]] + b[1..];
    }
  }

  lemma {:induction false} StrCmpAntisymmetric(a: string, b: string)
    ensures StrCmp(b, a) == -StrCmp(a, b)
  {
    if a != [] && b != [] && a[0] == b[0] {
      StrCmpAntisymmetric(a[1..], b[1..]);
    }
  }

  lemma {:induction false} StrCmpTransitive(a: string, b: string, c: string)
    requires StrCmp(a, b) <= 0 && StrCmp(b, c) <= 0
    ensures StrCmp(a, c) <= 0
  {
    if a != [] && b != [] && c != [] && a[0] == b[0] && b[0] == c[0] {
      StrCmpTransitive(a[1..], b[1..], c[1..]);
    }
  }

  /** A proper prefix sorts strictly before the longer string. */
  lemma {:induction false} StrCmpProperPrefix(a: string, b: string)
    requires a < b
    ensures StrCmp(a, b) == -1
  {
    if a != [] {
      assert a[0] == b[0];
      assert a[1..] < b[1..];
      StrCmpProperPrefix(a[1..], b[1..]);
    }
  }

  /** At the first position where two strings differ, the smaller character decides. */
  lemma {:induction false} StrCmpFirstDifference(a: string, b: string, k: nat)
    requires k < |a| && k < |b|
    requires a[..k] == b[..k] && a[k] < b[k]
    ensures StrCmp(a, b) == -1
  {
    if k > 0 {
      assert a[0] == a[..k][0] == b[..k][0] == b[0];
      assert a[1..][..k - 1] == a[..k][1..];
      assert b[1..][..k - 1] == b[..k][1..];
      StrCmpFirstDifference(a[1..], b[1..], k - 1);
    }
  }

  /**
   * `unittest_strcmp` (unittest.h:302-319): two absent strings compare
   * equal, an absent string sorts before every present one (1 when only the
   * second is absent, -1 when only the first is), and two present strings
   * compare as `strcmp` does.
   */
  function NullStrCmp(a: Option<string>, b: Option<string>): int
  {
    if a.None? && b.None? then 0
    else if b.None? then 1
    else if a.None? then -1
    else StrCmp(a.value, b.value)
  }

  /**
   * The order `unittest_strcmp` defines, without reference to it: among
   * present strings the lexicographic order; absent is the least value.
   */
  ghost predicate OptLess(a: Option<string>, b: Option<string>) {
    (a.None? && b.Some?) || (a.Some? && b.Some? && StrCmp(a.value, b.value) < 0)
  }

  /** `unittest_strcmp` is a three-way comparison for `OptLess`, zero exactly on equal values. */
  lemma {:induction false} NullStrCmpIsThreeWay(a: Option<string>, b: Option<string>)
    ensures -1 <= NullStrCmp(a, b) <= 1
    ensures NullStrCmp(a, b) == 0 <==> a == b
    ensures NullStrCmp(a, b) < 0 <==> OptLess(a, b)
    ensures NullStrCmp(a, b) > 0 <==> OptLess(b, a)
    ensures NullStrCmp(b, a) == -NullStrCmp(a, b)
  {
    if a.Some? && b.Some? {
      StrCmpZeroIff(a.value, b.value);
      StrCmpAntisymmetric(a.value, b.value);
    }
  }

  lemma {:induction false} NullStrCmpTransitive(a: Option<string>, b: Option<string>, c: Option<string>)
    requires NullStrCmp(a, b) <= 0 && NullStrCmp(b, c) <= 0
    ensures NullStrCmp(a, c) <= 0
  {
    if a.Some? && b.Some? && c.Some? {
      StrCmpTransitive(a.value, b.value, c.value);
    }
  }

  /**
   * `unittest_startswith` (unittest.h:471-478): walks both strings while
   * neither is exhausted and the characters agree; 0 means `prefix` is a
   * prefix of `str`, 1 means it is not.
   */
  method StartsWith(str: string, prefix: string) returns (r: int)
    ensures r == 0 || r == 1
    ensures r == 0 <==> prefix <= str
  {
    var i := 0;
    while i < |str| && i < |prefix|
      invariant 0 <= i <= |str| && i <= |prefix|
      invariant str[..i] == prefix[..i]
    {
      if str[i] != prefix[i] {
        assert str[..i + 1] != prefix[..i + 1] by {
          assert str[..i + 1][i] == str[i];
          assert prefix[..i + 1][i] == prefix[i];
        }
        return 1;
      }
      i := i + 1;
    }
    r := if i == |prefix| then 0 else 1;
    if i < |prefix| {
      assert i == |str|;
    }
  }
}
