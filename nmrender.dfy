/**
 * What the `nm` parser recovers from well-formed text. A line as `nm`
 * prints it is rendered from its parts; the parser's records are then
 * computed from those parts alone, with no reference to the parser.
 */
module NmRender {
  import opened Base
  import opened NmParse

  /**
   * One line of symbol-table text: the hexadecimal address text (absent for
   * undefined symbols, which `nm` prints with blanks), the type character,
   * the symbol name, and the line-break characters that follow the `'\n'`
   * ending the line.
   */
  datatype NmLine = NmLine(addr: Option<string>, kind: char, name: string, gap: string)

  predicate HexText(h: string) {
    |h| > 0 && forall k :: 0 <= k < |h| ==> IsHexDigit(h[k])
  }

  /** 1 when the name starts with the underscore the parser drops, 0 otherwise. */
  function Underscore(name: string): (u: nat)
    ensures u <= |name|
  {
    if |name| > 0 && name[0] == '_' then 1 else 0
  }

  /** The name without its one leading underscore, if it has one. */
  function Stripped(name: string): string {
    name[Underscore(name)..]
  }

  /**
   * The shape every line has: an address that fits a `long long`, a visible
   * type character, a name that starts with a visible character and holds
   * no line break, and a gap made of `'\r'` and `'\n'` only.
   */
  predicate LineShape(l: NmLine) {
    (l.addr.Some? ==> HexText(l.addr.value) && HexOf(l.addr.value) < TWO_63)
    && !IsSpace(l.kind) && l.kind != '\0'
    && |l.name| > 0 && !IsSpace(l.name[0])
    && (forall k :: 0 <= k < |l.name| ==> !IsEol(l.name[k]))
    && (forall k :: 0 <= k < |l.gap| ==> IsEol(l.gap[k]))
  }

  /** A line whose name fits the 254-character buffer once its underscore is dropped. */
  predicate WellFormed(l: NmLine) {
    LineShape(l) && |Stripped(l.name)| <= NameLimit
  }

  /** Every line well-formed, stated recursively. */
  predicate AllWellFormed(ls: seq<NmLine>) {
    ls == [] || (WellFormed(ls[0]) && AllWellFormed(ls[1..]))
  }

  function AddrText(l: NmLine): (r: string)
    ensures |r| > 0
  {
    if l.addr.Some? && |l.addr.value| > 0 then l.addr.value else " "
  }

  /** The text of one line: address (or a blank), blank, type, blank, name, newline, gap. */
  function RenderLine(l: NmLine): string {
    AddrText(l) + [' ', l.kind, ' '] + l.name + ['\n'] + l.gap
  }

  function Render(ls: seq<NmLine>): string {
    if ls == [] then [] else RenderLine(ls[0]) + Render(ls[1..])
  }

  /** The record a line stands for, computed from its parts. */
  function Expected(l: NmLine): NmRecord {
    var addr := if l.addr.Some? && HexText(l.addr.value) then HexOf(l.addr.value) else 0;
    NmRecord(addr, l.kind, Stripped(l.name))
  }

  function ExpectedAll(ls: seq<NmLine>): (r: seq<NmRecord>)
    ensures |r| == |ls|
    ensures forall k :: 0 <= k < |ls| ==> r[k] == Expected(ls[k])
  {
    if ls == [] then [] else [Expected(ls[0])] + ExpectedAll(ls[1..])
  }

  /** The text `t` occurs in `s` at position `p`, stated character by character. */
  predicate TextAt(s: string, p: nat, t: string)
    decreases t
  {
    if t == [] then p <= |s|
    else p < |s| && s[p] == t[0] && TextAt(s, p + 1, t[1..])
  }

  lemma {:induction false} TextAtChar(s: string, p: nat, t: string, k: nat)
    requires TextAt(s, p, t) && k < |t|
    ensures p + k < |s| && s[p + k] == t[k]
    decreases k
  {
    if k > 0 {
      TextAtChar(s, p + 1, t[1..], k - 1);
    }
  }

  lemma {:induction false} TextAtFits(s: string, p: nat, t: string)
    requires TextAt(s, p, t)
    ensures p + |t| <= |s|
    decreases t
  {
    if t != [] {
      TextAtFits(s, p + 1, t[1..]);
    }
  }

  lemma {:induction false} TextAtConcat(s: string, p: nat, a: string, b: string)
    requires TextAt(s, p, a + b)
    ensures TextAt(s, p, a) && TextAt(s, p + |a|, b)
    decreases a
  {
    if a == [] {
      assert a + b == b;
      TextAtFits(s, p, b);
    } else {
      assert (a + b)[1..] == a[1..] + b;
      TextAtConcat(s, p + 1, a[1..], b);
    }
  }

  lemma {:induction false} TextAtSuffix(s: string, p: nat)
    requires p <= |s|
    ensures TextAt(s, p, s[p..])
    decreases |s| - p
  {
    if p < |s| {
      assert s[p..][1..] == s[p + 1..];
      TextAtSuffix(s, p + 1);
    }
  }

  lemma {:induction false} TextAtSlice(s: string, p: nat, t: string)
    requires TextAt(s, p, t)
    ensures p + |t| <= |s| && s[p..p + |t|] == t
  {
    TextAtFits(s, p, t);
    forall k | 0 <= k < |t| ensures s[p..p + |t|][k] == t[k] {
      TextAtChar(s, p, t, k);
    }
  }

  /** The four pieces of a rendered line. */
  lemma {:induction false} LinePieces(s: string, p: nat, l: NmLine)
    requires TextAt(s, p, RenderLine(l))
    ensures var a, n := |AddrText(l)|, |l.name|;
      TextAt(s, p, AddrText(l))
      && TextAt(s, p + a, [' ', l.kind, ' '])
      && TextAt(s, p + a + 3, l.name)
      && TextAt(s, p + a + 3 + n, ['\n'] + l.gap)
      && |RenderLine(l)| == a + 4 + n + |l.gap|
  {
    var a, n := |AddrText(l)|, |l.name|;
    var t1 := [' ', l.kind, ' '];
    var t2 := ['\n'] + l.gap;
    assert RenderLine(l) == AddrText(l) + (t1 + (l.name + t2));
    TextAtConcat(s, p, AddrText(l), t1 + (l.name + t2));
    TextAtConcat(s, p + a, t1, l.name + t2);
    TextAtConcat(s, p + a + 3, l.name, t2);
  }

  lemma {:induction false} HexEndRun(s: string, d: nat, m: nat)
    requires d + m <= |s|
    requires forall k :: d <= k < d + m ==> IsHexDigit(s[k])
    requires !IsHexDigit(At(s, d + m))
    ensures HexEnd(s, d) == d + m
    decreases m
  {
    if m > 0 {
      HexEndRun(s, d + 1, m - 1);
    }
  }

  /** A run of hexadecimal digits followed by a blank converts to its value and ends at the blank. */
  lemma {:induction false} StrToLL16OfHex(s: string, p: nat, h: string)
    requires HexText(h) && HexOf(h) < TWO_63
    requires TextAt(s, p, h) && At(s, p + |h|) == ' '
    ensures StrToLL16(s, p) == (HexOf(h), p + |h|)
  {
    TextAtFits(s, p, h);
    TextAtChar(s, p, h, 0);
    if |h| > 1 {
      TextAtChar(s, p, h, 1);
    }
    forall k | p <= k < p + |h| ensures IsHexDigit(s[k]) {
      TextAtChar(s, p, h, k - p);
    }
    HexEndRun(s, p, |h|);
    TextAtSlice(s, p, h);
  }

  lemma {:induction false} NameScanRun(s: string, q: nat, n: string, i: nat)
    requires TextAt(s, q, n) && At(s, q + |n|) == '\n'
    requires |n| <= NameLimit && i <= |n|
    requires forall k :: 0 <= k < |n| ==> n[k] != '\n'
    ensures NameScan(s, q + i, q + NameLimit) == Some(q + |n|)
    decreases |n| - i
  {
    TextAtFits(s, q, n);
    if i < |n| {
      TextAtChar(s, q, n, i);
      NameScanRun(s, q, n, i + 1);
    }
  }

  lemma {:induction false} NameScanLong(s: string, q: nat, i: nat)
    requires q + NameLimit <= |s| && i <= NameLimit
    requires forall k :: q <= k < q + NameLimit ==> s[k] != '\n'
    ensures NameScan(s, q + i, q + NameLimit) == Some(q + NameLimit)
    decreases NameLimit - i
  {
    if i < NameLimit {
      NameScanLong(s, q, i + 1);
    }
  }

  lemma {:induction false} SkipEolsRun(s: string, e: nat, m: nat)
    requires e + m <= |s|
    requires forall k :: e <= k < e + m ==> IsEol(s[k])
    requires !IsEol(At(s, e + m))
    ensures SkipEols(s, e) == e + m
    decreases m
  {
    if m > 0 {
      SkipEolsRun(s, e + 1, m - 1);
    }
  }

  /** Where the parser finds the type character and the name of a rendered line. */
  lemma {:induction false} LineFields(s: string, p: nat, l: NmLine)
    requires LineShape(l) && TextAt(s, p, RenderLine(l))
    ensures var a := |AddrText(l)|;
      KindPos(s, p) == p + a + 1 < |s|
      && s[KindPos(s, p)] == l.kind
      && NameStart(s, p) == p + a + 3 + Underscore(l.name)
      && AddrOf(s, p) == Expected(l).addr
  {
    var a := |AddrText(l)|;
    LinePieces(s, p, l);
    TextAtChar(s, p + a, [' ', l.kind, ' '], 0);
    TextAtChar(s, p + a, [' ', l.kind, ' '], 1);
    TextAtChar(s, p + a, [' ', l.kind, ' '], 2);
    TextAtChar(s, p + a + 3, l.name, 0);
    TextAtChar(s, p, AddrText(l), 0);
    if l.addr.Some? {
      StrToLL16OfHex(s, p, l.addr.value);
      assert AddrEnd(s, p) == p + a;
    } else {
      assert AddrEnd(s, p) == p;
    }
    SkipSpacesPassed(s, p + a);
    SkipSpacesPassed(s, p + a + 2);
  }

  /** The stripped name sits where the parser starts the name copy, and a `'\n'` follows it. */
  lemma {:induction false} NameText(s: string, p: nat, l: NmLine)
    requires LineShape(l) && TextAt(s, p, RenderLine(l))
    ensures KindPos(s, p) < |s|
    ensures TextAt(s, NameStart(s, p), Stripped(l.name))
    ensures NameStart(s, p) + |Stripped(l.name)| == p + |AddrText(l)| + 3 + |l.name|
    ensures At(s, p + |AddrText(l)| + 3 + |l.name|) == '\n'
  {
    var a, n := |AddrText(l)|, |l.name|;
    LinePieces(s, p, l);
    LineFields(s, p, l);
    var u := Underscore(l.name);
    assert l.name == l.name[..u] + Stripped(l.name);
    TextAtConcat(s, p + a + 3, l.name[..u], Stripped(l.name));
    TextAtChar(s, p + a + 3 + n, ['\n'] + l.gap, 0);
  }

  /** A name shorter than the buffer and ended by `'\n'` is copied whole. */
  lemma {:induction false} NameOfText(s: string, q: nat, n: string, e: nat)
    requires TextAt(s, q, n) && e == q + |n| && At(s, e) == '\n'
    requires |n| <= NameLimit
    requires forall k :: 0 <= k < |n| ==> n[k] != '\n'
    ensures q <= e <= |s|
    ensures NameScan(s, q, q + NameLimit) == Some(e)
    ensures s[q..e] == n
  {
    NameScanRun(s, q, n, 0);
    TextAtSlice(s, q, n);
  }

  /** A run of line breaks, followed by a character that is not one, is skipped whole. */
  lemma {:induction false} EolRun(s: string, e: nat, t: string)
    requires TextAt(s, e, t)
    requires forall k :: 0 <= k < |t| ==> IsEol(t[k])
    requires !IsEol(At(s, e + |t|))
    ensures SkipEols(s, e) == e + |t|
  {
    TextAtFits(s, e, t);
    forall k | e <= k < e + |t| ensures IsEol(s[k]) {
      TextAtChar(s, e, t, k - e);
    }
    SkipEolsRun(s, e, |t|);
  }

  /** After the name, the `'\n'` and the gap are skipped up to the next line. */
  lemma {:induction false} GapOfLine(s: string, p: nat, l: NmLine)
    requires LineShape(l) && TextAt(s, p, RenderLine(l))
    requires !IsEol(At(s, p + |RenderLine(l)|))
    ensures p + |RenderLine(l)| <= |s|
    ensures SkipEols(s, p + |AddrText(l)| + 3 + |l.name|) == p + |RenderLine(l)|
  {
    LinePieces(s, p, l);
    TextAtFits(s, p, RenderLine(l));
    EolRun(s, p + |AddrText(l)| + 3 + |l.name|, ['\n'] + l.gap);
  }

  /** The parser's record, once each of its stages is known. */
  lemma {:induction false} ParseRecordOf(s: string, p: nat, q: nat, e: nat)
    requires p < |s| && KindPos(s, p) < |s|
    requires NameStart(s, p) == q && NameScan(s, q, q + NameLimit) == Some(e)
    ensures ParseRecord(s, p) == Some((NmRecord(AddrOf(s, p), s[KindPos(s, p)], s[q..e]), SkipEols(s, e)))
  {
  }

  /** A rendered line does not start with a line break or the NUL. */
  lemma {:induction false} LineStart(s: string, p: nat, l: NmLine)
    requires LineShape(l) && TextAt(s, p, RenderLine(l))
    ensures p < |s| && !EmptyLine(s, p) && !IsEol(At(s, p))
  {
    LinePieces(s, p, l);
    TextAtChar(s, p, AddrText(l), 0);
  }

  /**
   * The parser reads a well-formed line as its expected record and resumes
   * at the head of the next line, skipping the whole run of line breaks.
   */
  lemma {:induction false} RecordOfLine(s: string, p: nat, l: NmLine)
    requires WellFormed(l) && TextAt(s, p, RenderLine(l))
    requires !IsEol(At(s, p + |RenderLine(l)|))
    ensures ParseRecord(s, p) == Some((Expected(l), p + |RenderLine(l)|))
  {
    var e := p + |AddrText(l)| + 3 + |l.name|;
    LineFields(s, p, l);
    NameText(s, p, l);
    var q := NameStart(s, p);
    NameOfText(s, q, Stripped(l.name), e);
    GapOfLine(s, p, l);
    ParseRecordOf(s, p, q, e);
  }

  /** One well-formed line contributes its record ahead of the records of the text after it. */
  lemma {:induction false} ParseLineStep(s: string, p: nat, l: NmLine)
    requires WellFormed(l) && TextAt(s, p, RenderLine(l))
    requires !IsEol(At(s, p + |RenderLine(l)|))
    ensures p + |RenderLine(l)| <= |s|
    ensures ParseFrom(s, p) == Prepend([Expected(l)], ParseFrom(s, p + |RenderLine(l)|))
  {
    LineStart(s, p, l);
    RecordOfLine(s, p, l);
    ParseFromStep(s, p, Expected(l), p + |RenderLine(l)|);
  }

  lemma {:induction false} ParseRendered(s: string, p: nat, ls: seq<NmLine>)
    requires AllWellFormed(ls)
    requires TextAt(s, p, Render(ls)) && p + |Render(ls)| == |s|
    ensures ParseFrom(s, p) == Some(ExpectedAll(ls) + [Terminator])
    decreases ls
  {
    if ls == [] {
      RenderedNone(s, p);
    } else {
      var next := p + |RenderLine(ls[0])|;
      RenderedCons(s, p, ls);
      ParseLineStep(s, p, ls[0]);
      ParseRendered(s, next, ls[1..]);
      JoinRecords(ls, ParseFrom(s, p), ParseFrom(s, next));
    }
  }

  /** Past the last rendered line the text is over: only the terminator is left. */
  lemma {:induction false} RenderedNone(s: string, p: nat)
    requires p == |s|
    ensures ParseFrom(s, p) == Some(ExpectedAll([]) + [Terminator])
  {
    assert EmptyLine(s, p);
    assert ExpectedAll([]) + [Terminator] == [Terminator];
  }

  /** The first line's record ahead of the records of the other lines are the records of all lines. */
  lemma {:induction false} JoinRecords(ls: seq<NmLine>, whole: Option<seq<NmRecord>>, rest: Option<seq<NmRecord>>)
    requires ls != [] && whole == Prepend([Expected(ls[0])], rest)
    requires rest == Some(ExpectedAll(ls[1..]) + [Terminator])
    ensures whole == Some(ExpectedAll(ls) + [Terminator])
  {
    assert [Expected(ls[0])] + (ExpectedAll(ls[1..]) + [Terminator]) == ExpectedAll(ls) + [Terminator];
  }

  /** Rendered text splits into its first line, which a line break does not follow, and the rendering of the other lines. */
  lemma {:induction false} RenderedCons(s: string, p: nat, ls: seq<NmLine>)
    requires AllWellFormed(ls) && ls != []
    requires TextAt(s, p, Render(ls)) && p + |Render(ls)| == |s|
    ensures WellFormed(ls[0]) && AllWellFormed(ls[1..])
    ensures TextAt(s, p, RenderLine(ls[0])) && !IsEol(At(s, p + |RenderLine(ls[0])|))
    ensures TextAt(s, p + |RenderLine(ls[0])|, Render(ls[1..]))
    ensures p + |RenderLine(ls[0])| + |Render(ls[1..])| == |s|
  {
    var line, rest := RenderLine(ls[0]), Render(ls[1..]);
    assert Render(ls) == line + rest;
    TextAtConcat(s, p, line, rest);
    RenderedStart(s, p + |line|, ls[1..]);
  }

  /** Rendered text starts with a line, or is over: never with a line break. */
  lemma {:induction false} RenderedStart(s: string, p: nat, ls: seq<NmLine>)
    requires AllWellFormed(ls)
    requires TextAt(s, p, Render(ls)) && p + |Render(ls)| == |s|
    ensures !IsEol(At(s, p))
  {
    if ls != [] {
      TextAtConcat(s, p, RenderLine(ls[0]), Render(ls[1..]));
      LineStart(s, p, ls[0]);
    }
  }

  lemma {:induction false} AllWellFormedOf(ls: seq<NmLine>)
    requires forall k :: 0 <= k < |ls| ==> WellFormed(ls[k])
    ensures AllWellFormed(ls)
  {
    if ls != [] {
      assert forall k :: 0 <= k < |ls[1..]| ==> ls[1..][k] == ls[k + 1];
      AllWellFormedOf(ls[1..]);
    }
  }

  /**
   * Each well-formed line yields exactly its record, in order, and the
   * output ends with the all-zero terminator.
   */
  lemma {:induction false} ParseOfRender(ls: seq<NmLine>)
    requires forall k :: 0 <= k < |ls| ==> WellFormed(ls[k])
    ensures ParseFrom(Render(ls), 0) == Some(ExpectedAll(ls) + [Terminator])
  {
    var s := Render(ls);
    assert s[0..] == s;
    TextAtSuffix(s, 0);
    AllWellFormedOf(ls);
    ParseRendered(s, 0, ls);
  }

  /**
   * A name longer than the buffer is cut after 254 characters, and the
   * parse resumes inside the same line, at the first character not copied.
   */
  lemma {:induction false} LongNameTruncated(s: string, p: nat, l: NmLine)
    requires LineShape(l) && |Stripped(l.name)| > NameLimit
    requires TextAt(s, p, RenderLine(l))
    ensures var stop := p + |AddrText(l)| + 3 + Underscore(l.name) + NameLimit;
      ParseRecord(s, p) == Some((NmRecord(Expected(l).addr, l.kind, Stripped(l.name)[..NameLimit]), stop))
  {
    NameText(s, p, l);
    LineFields(s, p, l);
    var q := NameStart(s, p);
    var name := Stripped(l.name);
    TruncatedScan(s, q, name);
    ParseRecordOf(s, p, q, q + NameLimit);
  }

  /** The copy of a name longer than the buffer stops after 254 characters, at one that is no line break. */
  lemma {:induction false} TruncatedScan(s: string, q: nat, name: string)
    requires TextAt(s, q, name) && |name| > NameLimit
    requires forall k :: 0 <= k < |name| ==> !IsEol(name[k])
    ensures q + NameLimit < |s|
    ensures NameScan(s, q, q + NameLimit) == Some(q + NameLimit)
    ensures s[q..q + NameLimit] == name[..NameLimit]
    ensures SkipEols(s, q + NameLimit) == q + NameLimit
  {
    TextAtFits(s, q, name);
    forall k | q <= k < q + NameLimit ensures s[k] != '\n' {
      TextAtChar(s, q, name, k - q);
    }
    NameScanLong(s, q, 0);
    TextAtSlice(s, q, name);
    assert s[q..q + NameLimit] == s[q..q + |name|][..NameLimit];
    TextAtChar(s, q, name, NameLimit);
    SkipEolsRun(s, q + NameLimit, 0);
  }
}
