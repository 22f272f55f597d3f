/**
 * `unittest_parse_nm_output` (unittest.h:394-453): the line parser that
 * turns the text printed by the symbol-dump tool `nm` into symbol records.
 *
 * The text is a C string; position `|s|` holds its terminating NUL. Where
 * the C code would step past that NUL (and so read outside the buffer) the
 * model answers `None`.
 */
module NmParse {
  import opened Base

  /**
   * `struct unittest_nm_result_s`: the address (0, the NULL pointer, when the
   * line starts with white space), the type character and the name.
   */
  datatype NmRecord = NmRecord(addr: nat, kind: char, name: string)

  /** The all-zero record that terminates the parsed array. */
  const Terminator := NmRecord(0, '\0', [])

  /** Longest name kept; `name` is a 255-byte array with its NUL. */
  const NameLimit: nat := 254

  /** The character at position `i`, reading the terminating NUL at `|s|`. */
  function At(s: string, i: nat): char {
    if i < |s| then s[i] else '\0'
  }

  /** The C `isspace` of the default locale. */
  predicate IsSpace(c: char) {
    c == ' ' || c == '\t' || c == '\n' || c == '\U{B}' || c == '\U{C}' || c == '\r'
  }

  predicate IsEol(c: char) {
    c == '\r' || c == '\n'
  }

  predicate IsHexDigit(c: char) {
    ('0' <= c <= '9') || ('a' <= c <= 'f') || ('A' <= c <= 'F')
  }

  function HexDigitValue(c: char): (v: nat)
    requires IsHexDigit(c)
    ensures v < 16
  {
    if '0' <= c <= '9' then c as nat - '0' as nat
    else if 'a' <= c <= 'f' then c as nat - 'a' as nat + 10
    else c as nat - 'A' as nat + 10
  }

  /** The value of a string of hexadecimal digits, most significant first. */
  function HexOf(t: string): nat
    requires forall k :: 0 <= k < |t| ==> IsHexDigit(t[k])
  {
    if t == [] then 0 else 16 * HexOf(t[..|t| - 1]) + HexDigitValue(t[|t| - 1])
  }

  function Min(a: int, b: int): int {
    if a <= b then a else b
  }

  /** First position at or after `p` that does not hold white space. */
  function SkipSpaces(s: string, p: nat): (q: nat)
    requires p <= |s|
    ensures p <= q <= |s|
    ensures !IsSpace(At(s, q))
    decreases |s| - p
  {
    if IsSpace(At(s, p)) then SkipSpaces(s, p + 1) else p
  }

  /** Every position `SkipSpaces` passes over holds white space. */
  lemma {:induction false} SkipSpacesPassed(s: string, p: nat)
    requires p <= |s|
    ensures forall k :: p <= k < SkipSpaces(s, p) ==> IsSpace(s[k])
    decreases |s| - p
  {
    if IsSpace(At(s, p)) {
      SkipSpacesPassed(s, p + 1);
    }
  }

  /** First position at or after `p` that holds neither `'\r'` nor `'\n'`. */
  function SkipEols(s: string, p: nat): (q: nat)
    requires p <= |s|
    ensures p <= q <= |s|
    ensures !IsEol(At(s, q))
    decreases |s| - p
  {
    if IsEol(At(s, p)) then SkipEols(s, p + 1) else p
  }

  /** First position at or after `p` that does not hold a hexadecimal digit. */
  function HexEnd(s: string, p: nat): (q: nat)
    requires p <= |s|
    ensures p <= q <= |s|
    ensures !IsHexDigit(At(s, q))
    decreases |s| - p
  {
    if IsHexDigit(At(s, p)) then HexEnd(s, p + 1) else p
  }

  /** Every position `HexEnd` passes over holds a hexadecimal digit. */
  lemma {:induction false} HexEndPassed(s: string, p: nat)
    requires p <= |s|
    ensures forall k :: p <= k < HexEnd(s, p) ==> IsHexDigit(s[k])
    decreases |s| - p
  {
    if IsHexDigit(At(s, p)) {
      HexEndPassed(s, p + 1);
    }
  }

  /**
   * `(uint64_t)strtoll(s + p, &end, 16)` for a `p` that does not hold white
   * space: an optional sign, an optional `0x`/`0X` before a digit, then the
   * longest run of hexadecimal digits. Without digits the value is 0 and
   * `end` stays at `p`. Magnitudes beyond `long long` saturate, and a
   * negative value is reduced modulo 2^64 by the cast.
   */
  function StrToLL16(s: string, p: nat): (r: (nat, nat))
    requires p <= |s|
    ensures p <= r.1 <= |s|
    ensures r.0 < TWO_64
  {
    var neg := At(s, p) == '-';
    var q := if At(s, p) == '-' || At(s, p) == '+' then p + 1 else p;
    var d := if At(s, q) == '0' && (At(s, q + 1) == 'x' || At(s, q + 1) == 'X') && IsHexDigit(At(s, q + 2))
             then q + 2 else q;
    var e := HexEnd(s, d);
    if e == d then (0, p)
    else
      var digits := s[d..e];
      HexEndPassed(s, d);
      assert forall k :: 0 <= k < |digits| ==> IsHexDigit(digits[k]) by {
        forall k | 0 <= k < |digits| ensures IsHexDigit(digits[k]) {
          assert digits[k] == s[d + k];
        }
      }
      var mag := HexOf(digits);
      if neg then ((TWO_64 - Min(mag, TWO_63)) % TWO_64, e)
      else (Min(mag, TWO_63 - 1), e)
  }

  /**
   * The name copy `while(*p != '\n' && name_idx < 254)`: the position where it
   * stops, starting at `q` and stopping at `lim` at the latest (the position
   * 254 characters after the start of the name); `None` when it would copy
   * the terminating NUL and go on past it.
   */
  function NameScan(s: string, q: nat, lim: nat): (r: Option<nat>)
    requires q <= |s| && q <= lim
    ensures r.Some? ==> q <= r.value <= |s| && r.value <= lim
    ensures r.Some? ==> r.value == lim || At(s, r.value) == '\n'
    decreases lim - q
  {
    if q == lim || At(s, q) == '\n' then Some(q)
    else if q == |s| then None
    else NameScan(s, q + 1, lim)
  }

  /** The address field of the line at `p`: parsed only when the line does not start with white space. */
  function AddrOf(s: string, p: nat): (a: nat)
    requires p < |s|
    ensures a < TWO_64
  {
    if !IsSpace(s[p]) then StrToLL16(s, p).0 else 0
  }

  /** Where the address field of the line at `p` ends. */
  function AddrEnd(s: string, p: nat): (q: nat)
    requires p < |s|
    ensures p <= q <= |s|
  {
    if !IsSpace(s[p]) then StrToLL16(s, p).1 else p
  }

  /** Position of the type character: the next one that is not white space. */
  function KindPos(s: string, p: nat): (q: nat)
    requires p < |s|
    ensures p <= q <= |s|
  {
    SkipSpaces(s, AddrEnd(s, p))
  }

  /** Where the name starts: after white space and at most one underscore. */
  function NameStart(s: string, p: nat): (q: nat)
    requires p < |s| && KindPos(s, p) < |s|
    ensures KindPos(s, p) < q <= |s|
  {
    var p3 := SkipSpaces(s, KindPos(s, p) + 1);
    if At(s, p3) == '_' then p3 + 1 else p3
  }

  /**
   * One pass of the loop body (unittest.h:411-447) from the head of a line
   * at `p`: the record it pushes and where the next line starts. Reading the
   * type character at the NUL, or copying the NUL into the name, would move
   * the cursor past the end of the buffer.
   */
  function ParseRecord(s: string, p: nat): (r: Option<(NmRecord, nat)>)
    requires p < |s|
    ensures r.Some? ==> p < r.value.1 <= |s|
    ensures r.Some? ==> |r.value.0.name| <= NameLimit
    ensures r.Some? ==> r.value.0.addr < TWO_64
    ensures r.Some? ==> (IsSpace(s[p]) ==> r.value.0.addr == 0)
  {
    if KindPos(s, p) == |s| then None
    else
      var q := NameStart(s, p);
      match NameScan(s, q, q + NameLimit)
      case None => None
      case Some(e) => Some((NmRecord(AddrOf(s, p), s[KindPos(s, p)], s[q..e]), SkipEols(s, e)))
  }

  /** A line whose first character is `'\r'`, `'\n'` or the NUL ends the parse. */
  predicate EmptyLine(s: string, p: nat) {
    IsEol(At(s, p)) || At(s, p) == '\0'
  }

  /** The records parsed from position `p` on, terminator included. */
  function ParseFrom(s: string, p: nat): (r: Option<seq<NmRecord>>)
    requires p <= |s|
    ensures r.Some? ==> |r.value| > 0 && r.value[|r.value| - 1] == Terminator
    ensures r.Some? ==> forall k :: 0 <= k < |r.value| ==> |r.value[k].name| <= NameLimit
    decreases |s| - p
  {
    if EmptyLine(s, p) then Some([Terminator])
    else
      match ParseRecord(s, p)
      case None => None
      case Some((rec, next)) =>
        match ParseFrom(s, next)
        case None => None
        case Some(rest) => Some([rec] + rest)
  }

  function Prepend(buf: seq<NmRecord>, rest: Option<seq<NmRecord>>): Option<seq<NmRecord>> {
    match rest
    case None => None
    case Some(r) => Some(buf + r)
  }

  /** One non-empty line contributes its record ahead of the records of the lines after it. */
  lemma {:induction false} ParseFromStep(s: string, p: nat, rec: NmRecord, next: nat)
    requires p < |s| && !EmptyLine(s, p)
    requires ParseRecord(s, p) == Some((rec, next))
    ensures ParseFrom(s, p) == Prepend([rec], ParseFrom(s, next))
  {
  }

  /** The records from a non-empty line on: none when its record is malformed, else the record ahead of the rest. */
  lemma {:induction false} ParseFromLine(s: string, p: nat)
    requires p < |s| && !EmptyLine(s, p)
    ensures ParseRecord(s, p).None? ==> ParseFrom(s, p).None?
    ensures ParseRecord(s, p).Some? ==>
      ParseFrom(s, p) == Prepend([ParseRecord(s, p).value.0], ParseFrom(s, ParseRecord(s, p).value.1))
  {
  }

  lemma {:induction false} PrependTwice(buf: seq<NmRecord>, more: seq<NmRecord>, rest: Option<seq<NmRecord>>)
    ensures Prepend(buf, Prepend(more, rest)) == Prepend(buf + more, rest)
  {
    if rest.Some? {
      assert buf + (more + rest.value) == (buf + more) + rest.value;
    }
  }

  /**
   * `unittest_parse_nm_output`: the loop pushes one record per line until a
   * line is empty, then the zero terminator. The loop test `p != '\0'`
   * compares a pointer with 0 and always holds; only the `break` ends it.
   */
  method ParseNmOutput(s: string) returns (res: Option<seq<NmRecord>>)
    ensures res == ParseFrom(s, 0)
  {
    var p: nat := 0;
    var buf: seq<NmRecord> := [];
    assert ParseFrom(s, 0) == Prepend(buf, ParseFrom(s, 0)) by {
      if ParseFrom(s, 0).Some? {
        assert [] + ParseFrom(s, 0).value == ParseFrom(s, 0).value;
      }
    }
    while true
      invariant p <= |s|
      invariant ParseFrom(s, 0) == Prepend(buf, ParseFrom(s, p))
      decreases |s| - p
    {
      var sp := LineEnd(s, p);
      if sp - p < 1 {
        break;
      }
      var step := ParseLine(s, p);
      ParseFromLine(s, p);
      if step.None? {
        return None;
      }
      var (r, next) := step.value;
      PrependTwice(buf, [r], ParseFrom(s, next));
      buf := buf + [r];
      p := next;
    }
    buf := buf + [Terminator];
    res := Some(buf);
  }

  /** `while(*sp != '\r' && *sp != '\n' && *sp != '\0') { sp++; }`: the end of the visible part of the line at `p`. */
  method LineEnd(s: string, p: nat) returns (sp: nat)
    requires p <= |s|
    ensures p <= sp <= |s|
    ensures sp == p <==> EmptyLine(s, p)
  {
    sp := p;
    while At(s, sp) != '\r' && At(s, sp) != '\n' && At(s, sp) != '\0'
      invariant p <= sp <= |s|
      invariant sp > p ==> !EmptyLine(s, p)
      decreases |s| - sp
    {
      sp := sp + 1;
    }
  }

  /** The loop body (unittest.h:411-447) for a line that is not empty. */
  method ParseLine(s: string, p: nat) returns (res: Option<(NmRecord, nat)>)
    requires p < |s| && !EmptyLine(s, p)
    ensures res == ParseRecord(s, p)
  {
    var addr: nat := 0;
    var cur: nat := p;
    if !IsSpace(s[p]) {
      var conv := StrToLL16(s, p);
      addr, cur := conv.0, conv.1;
    }
    assert addr == AddrOf(s, p) && cur == AddrEnd(s, p);
    // the type character
    cur := PassSpaces(s, cur);
    assert cur == KindPos(s, p);
    if cur == |s| {
      return None;
    }
    var kind := s[cur];
    cur := cur + 1;
    // the name, after white space and one leading underscore
    cur := PassSpaces(s, cur);
    if At(s, cur) == '_' {
      cur := cur + 1;
    }
    var q := cur;
    assert q == NameStart(s, p);
    var stop := CopyName(s, q);
    if stop.None? {
      return None;
    }
    var name := s[q..stop.value];
    // the head of the next line
    cur := PassEols(s, stop.value);
    res := Some((NmRecord(addr, kind, name), cur));
  }

  /** `while(isspace(*p)) { p++; }` */
  method PassSpaces(s: string, p: nat) returns (q: nat)
    requires p <= |s|
    ensures q == SkipSpaces(s, p)
  {
    q := p;
    while IsSpace(At(s, q))
      invariant p <= q <= |s|
      invariant SkipSpaces(s, q) == SkipSpaces(s, p)
      decreases |s| - q
    {
      q := q + 1;
    }
  }

  /** `while(*p == '\r' || *p == '\n') { p++; }` */
  method PassEols(s: string, p: nat) returns (q: nat)
    requires p <= |s|
    ensures q == SkipEols(s, p)
  {
    q := p;
    while At(s, q) == '\r' || At(s, q) == '\n'
      invariant p <= q <= |s|
      invariant SkipEols(s, q) == SkipEols(s, p)
      decreases |s| - q
    {
      q := q + 1;
    }
  }

  /** The name copy (unittest.h:435-439): where it stops, or `None` past the NUL. */
  method CopyName(s: string, q: nat) returns (stop: Option<nat>)
    requires q <= |s|
    ensures stop == NameScan(s, q, q + NameLimit)
  {
    var cur := q;
    var idx := 0;
    while At(s, cur) != '\n' && idx < NameLimit
      invariant q <= cur <= |s| && idx <= NameLimit && cur == q + idx
      invariant NameScan(s, cur, q + NameLimit) == NameScan(s, q, q + NameLimit)
      decreases NameLimit - idx
    {
      if cur == |s| {
        return None;
      }
      cur := cur + 1;
      idx := idx + 1;
    }
    stop := Some(cur);
  }
}
