/**
 * Small shared vocabulary: the nullable-value wrapper that stands for a
 * C pointer that may be NULL, and facts about sequences used throughout.
 */
module Base {

  const TWO_31: int := 0x8000_0000
  const TWO_32: int := 0x1_0000_0000
  const TWO_63: int := 0x8000_0000_0000_0000
  const TWO_64: int := 0x1_0000_0000_0000_0000

  /** A value that may be absent; `None` plays the role of a NULL pointer. */
  datatype Option<+T> = None | Some(value: T) {
    function GetOr(default: T): T {
      match this
      case Some(v) => v
      case None => default
    }
  }

  /** No element occurs twice. */
  predicate Distinct<T(==)>(s: seq<T>) {
    forall i, j :: 0 <= i < j < |s| ==> s[i] != s[j]
  }

  /** The indices lo, lo + 1, ..., hi - 1 in increasing order. */
  function Range(lo: int, hi: int): (r: seq<int>)
    ensures |r| == if lo <= hi then hi - lo else 0
    ensures forall k :: 0 <= k < |r| ==> r[k] == lo + k
    decreases hi - lo
  {
    if lo >= hi then [] else [lo] + Range(lo + 1, hi)
  }

  /** `o` lists every index below `n` exactly once. */
  predicate IsPermutationOfRange(o: seq<int>, n: nat) {
    |o| == n && Distinct(o) && forall k :: 0 <= k < |o| ==> 0 <= o[k] < n
  }

  /** The elements of `s` picked out, in turn, by the index sequence `o`. */
  function Pick<T>(s: seq<T>, o: seq<int>): (r: seq<T>)
    requires forall k :: 0 <= k < |o| ==> 0 <= o[k] < |s|
    ensures |r| == |o|
    ensures forall k :: 0 <= k < |o| ==> r[k] == s[o[k]]
  {
    seq(|o|, k requires 0 <= k < |o| => s[o[k]])
  }

  /** A distinct sequence of indices below `n` has at most `n` elements, and exactly `n` only if it covers all of them. */
  lemma {:induction false} DistinctBelow(o: seq<int>, n: nat)
    requires Distinct(o)
    requires forall k :: 0 <= k < |o| ==> 0 <= o[k] < n
    ensures |o| <= n
    ensures |o| == n ==> forall v :: 0 <= v < n ==> v in o
  {
    var r := Range(0, n);
    var s := set x | x in o;
    var full := set x | x in r;
    DistinctSetSize(o);
    assert Distinct(r);
    DistinctSetSize(r);
    assert s <= full by {
      forall x | x in s ensures x in full {
        var k :| 0 <= k < |o| && o[k] == x;
        assert r[x] == x;
      }
    }
    SubsetSize(s, full);
    if |o| == n {
      if s != full {
        StrictSubsetSize(s, full);
      }
      forall v | 0 <= v < n ensures v in o {
        assert r[v] == v;
        assert v in full;
      }
    }
  }

  /** The set of a distinct sequence has as many elements as the sequence. */
  lemma {:induction false} DistinctSetSize<T>(o: seq<T>)
    requires Distinct(o)
    ensures |set x | x in o| == |o|
  {
    if o != [] {
      var t := o[..|o| - 1];
      var last := o[|o| - 1];
      assert Distinct(t);
      DistinctSetSize(t);
      assert o == t + [last];
      assert (set x | x in o) == (set x | x in t) + {last};
      assert last !in t by {
        forall k | 0 <= k < |t| ensures t[k] != last {
          assert t[k] == o[k];
        }
      }
    }
  }

  lemma {:induction false} SubsetSize<T>(a: set<T>, b: set<T>)
    requires a <= b
    ensures |a| <= |b|
  {
    assert b == a + (b - a);
  }

  lemma {:induction false} StrictSubsetSize<T>(a: set<T>, b: set<T>)
    requires a < b
    ensures |a| < |b|
  {
    var x :| x in b && x !in a;
    assert b == a + (b - a);
    assert x in b - a;
  }

  /** Two distinct sequences with no element in common concatenate to a distinct one. */
  lemma {:induction false} DistinctConcat<T>(a: seq<T>, b: seq<T>)
    requires Distinct(a) && Distinct(b)
    requires forall x :: x in a ==> x !in b
    ensures Distinct(a + b)
  {
    var c := a + b;
    forall i, j | 0 <= i < j < |c| ensures c[i] != c[j] {
      if i < |a| && j >= |a| {
        assert c[i] in a && c[j] == b[j - |a|];
      }
    }
  }

  /** Picking the elements of `s` in the order of a permutation of its indices permutes `s`. */
  lemma {:induction false} PickPermutation<T>(s: seq<T>, o: seq<int>)
    requires IsPermutationOfRange(o, |s|)
    ensures multiset(Pick(s, o)) == multiset(s)
  {
    if s != [] {
      var n := |s| - 1;
      DistinctBelow(o, |s|);
      assert n in o;
      var p :| 0 <= p < |o| && o[p] == n;
      var o' := o[..p] + o[p + 1..];
      RemoveLast(o, p);
      PickPermutation(s[..n], o');
      var r' := Pick(s[..n], o');
      PickSplice(s, o, p);
      MultisetSplice(r', p, s[n]);
      MultisetSnoc(s);
    }
  }

  /** Taking the largest index out of a permutation of a range leaves a permutation of the smaller range. */
  lemma {:induction false} RemoveLast(o: seq<int>, p: nat)
    requires |o| > 0 && IsPermutationOfRange(o, |o|) && p < |o| && o[p] == |o| - 1
    ensures IsPermutationOfRange(o[..p] + o[p + 1..], |o| - 1)
  {
    var n := |o| - 1;
    var o' := o[..p] + o[p + 1..];
    assert forall k :: 0 <= k < |o'| ==> o'[k] == if k < p then o[k] else o[k + 1];
    forall k | 0 <= k < |o'| ensures 0 <= o'[k] < n {
      if k < p { assert o[k] != o[p]; } else { assert o[k + 1] != o[p]; }
    }
    forall i, j | 0 <= i < j < |o'| ensures o'[i] != o'[j] {
      if j < p {
      } else if i < p {
        assert o'[j] == o[j + 1];
      } else {
        assert o'[i] == o[i + 1] && o'[j] == o[j + 1];
      }
    }
  }

  lemma {:induction false} PickSplice<T>(s: seq<T>, o: seq<int>, p: nat)
    requires |s| > 0 && IsPermutationOfRange(o, |s|) && p < |o| && o[p] == |s| - 1
    requires IsPermutationOfRange(o[..p] + o[p + 1..], |s| - 1)
    ensures var r' := Pick(s[..|s| - 1], o[..p] + o[p + 1..]);
      p <= |r'| && Pick(s, o) == r'[..p] + [s[|s| - 1]] + r'[p..]
  {
    var o' := o[..p] + o[p + 1..];
    var r, r' := Pick(s, o), Pick(s[..|s| - 1], o');
    var t := r'[..p] + [s[|s| - 1]] + r'[p..];
    assert |t| == |r|;
    forall k | 0 <= k < |r| ensures r[k] == t[k] {
      if k < p {
        assert o'[k] == o[k];
      } else if k > p {
        assert o'[k - 1] == o[k];
      }
    }
  }

  lemma {:induction false} MultisetSplice<T>(r: seq<T>, p: nat, x: T)
    requires p <= |r|
    ensures multiset(r[..p] + [x] + r[p..]) == multiset(r) + multiset{x}
  {
    assert r == r[..p] + r[p..];
  }

  lemma {:induction false} MultisetSnoc<T>(s: seq<T>)
    requires s != []
    ensures multiset(s) == multiset(s[..|s| - 1]) + multiset{s[|s| - 1]}
  {
    assert s == s[..|s| - 1] + [s[|s| - 1]];
  }
}
