/**
 * The baseline file of `scripts/mypy_ratchet.py`: its printer, its reader and the exact comparison.
 *
 * Texts are Unicode code points. `int` is modelled on plain decimal numerals; what it makes of any
 * other text is a parameter.
 */
module Ratchet {
  import opened Prelude

  datatype Fingerprint = Fingerprint(path: string, code: string, message: string)

  type Counter = map<Fingerprint, int>

  function CountOf(c: Counter, k: Fingerprint): int {
    if k in c then c[k] else 0
  }

  // ----- Python's text functions

  /** The characters at which `splitlines` breaks. */
  predicate IsBreak(c: char) {
    var n := c as int;
    0x0A <= n <= 0x0D || 0x1C <= n <= 0x1E || n == 0x85 || n == 0x2028 || n == 0x2029
  }

  predicate IsSpace(c: char) {
    var n := c as int;
    0x09 <= n <= 0x0D || 0x1C <= n <= 0x20 || n == 0x85 || n == 0xA0 || n == 0x1680 || 0x2000 <= n <= 0x200A
    || n == 0x2028 || n == 0x2029 || n == 0x202F || n == 0x205F || n == 0x3000
  }

  /** Where the first line of a text ends. */
  function FirstBreak(s: string): (n: nat)
    ensures n <= |s|
  {
    if s == [] || IsBreak(s[0]) then 0 else 1 + FirstBreak(s[1..])
  }

  function BreakWidth(s: string, n: nat): (w: nat)
    requires n < |s|
    ensures 1 <= w <= |s| - n
  {
    if s[n] == '\r' && n + 1 < |s| && s[n + 1] == '\n' then 2 else 1
  }

  /** `str.splitlines`. */
  function SplitLines(s: string): seq<string>
    decreases |s|
  {
    if s == [] then []
    else
      var n := FirstBreak(s);
      if n == |s| then [s] else [s[..n]] + SplitLines(s[n + BreakWidth(s, n)..])
  }

  function LStrip(s: string): string {
    if s != [] && IsSpace(s[0]) then LStrip(s[1..]) else s
  }

  /** `"\n".join`. */
  function Join(lines: seq<string>): string {
    if lines == [] then [] else if |lines| == 1 then lines[0] else lines[0] + "\n" + Join(lines[1..])
  }

  function Decimal(n: nat): string {
    if n < 10 then [Digit(n)] else Decimal(n / 10) + [Digit(n % 10)]
  }

  predicate IsDigit(c: char) {
    48 <= c as int <= 57
  }

  predicate AllDigits(s: string) {
    s == [] || (IsDigit(s[|s| - 1]) && AllDigits(s[..|s| - 1]))
  }

  function ValueOf(s: string): int {
    if s == [] then 0 else 10 * ValueOf(s[..|s| - 1]) + (s[|s| - 1] as int - 48)
  }

  /** `int(text)`, with what it makes of texts that are not plain numerals as a parameter. */
  function ParseInt(s: string, other: string -> Option<int>): Option<int> {
    if s != [] && AllDigits(s) then Some(ValueOf(s)) else other(s)
  }

  datatype Pair = Pair(before: string, after: string)

  /** The text before and after the first tab. */
  function CutAtTab(s: string): Option<Pair> {
    if s == [] then None
    else if s[0] == '\t' then Some(Pair([], s[1..]))
    else
      match CutAtTab(s[1..])
      case None => None
      case Some(p) => Some(Pair([s[0]] + p.before, p.after))
  }

  function NormalisePath(path: string): string {
    if path == [] then [] else [if path[0] == '\\' then '/' else path[0]] + NormalisePath(path[1..])
  }

  // ----- the printer

  function LineOf(k: Fingerprint, n: nat): string {
    Decimal(n) + ("\t" + (k.path + ("\t" + (k.code + ("\t" + k.message)))))
  }

  function Comments(texts: seq<string>): seq<string> {
    if texts == [] then [] else ["#" + texts[0]] + Comments(texts[1..])
  }

  /** The version line, the explanatory comments and a blank line. */
  function Header(version: string, notes: seq<string>): seq<string> {
    Comments([" mypy-version: " + version] + notes) + [""]
  }

  function Body(keys: seq<Fingerprint>, counts: Counter): seq<string>
    requires forall k :: k in keys ==> k in counts
  {
    if keys == [] then []
    else if counts[keys[0]] > 0 then [LineOf(keys[0], counts[keys[0]])] + Body(keys[1..], counts)
    else Body(keys[1..], counts)
  }

  /** `render_baseline`, for the fingerprints in the order given. */
  function Render(keys: seq<Fingerprint>, counts: Counter, version: string, notes: seq<string>): string
    requires forall k :: k in keys ==> k in counts
  {
    Join(Header(version, notes) + (Body(keys, counts) + [""]))
  }

  // ----- the reader

  datatype Line = Skipped | Malformed | Entry(key: Fingerprint, count: int)

  function ReadLine(raw: string, other: string -> Option<int>): Line {
    var bare := LStrip(raw);
    if bare == [] || bare[0] == '#' then Skipped
    else
      match CutAtTab(raw)
      case None => Malformed
      case Some(a) =>
        match CutAtTab(a.after)
        case None => Malformed
        case Some(b) =>
          match CutAtTab(b.after)
          case None => Malformed
          case Some(c) =>
            match ParseInt(a.before, other)
            case None => Malformed
            case Some(n) => Entry(Fingerprint(NormalisePath(b.before), c.before, c.after), n)
  }

  function ReadInto(lines: seq<string>, counts: Counter, other: string -> Option<int>): Option<Counter> {
    if lines == [] then Some(counts)
    else
      match ReadLine(lines[0], other)
      case Skipped => ReadInto(lines[1..], counts, other)
      case Malformed => None
      case Entry(k, n) => ReadInto(lines[1..], counts[k := CountOf(counts, k) + n], other)
  }

  /** `read_baseline` of a file that exists; a malformed line raises. */
  method ReadBaseline(text: string, other: string -> Option<int>) returns (counts: Option<Counter>)
    ensures counts == ReadInto(SplitLines(text), map[], other)
  {
    var lines := SplitLines(text);
    var found: Counter := map[];
    var i := 0;
    while i < |lines|
      invariant 0 <= i <= |lines|
      invariant ReadInto(lines, map[], other) == ReadInto(lines[i..], found, other)
    {
      ReadStep(lines, i, found, other);
      match ReadLine(lines[i], other) {
        case Skipped =>
        case Malformed => return None;
        case Entry(k, n) => found := found[k := CountOf(found, k) + n];
      }
      i := i + 1;
    }
    counts := Some(found);
  }

  lemma ReadStep(lines: seq<string>, i: nat, found: Counter, other: string -> Option<int>)
    requires i < |lines|
    ensures var l := ReadLine(lines[i], other);
            && (l.Skipped? ==> ReadInto(lines[i..], found, other) == ReadInto(lines[i + 1..], found, other))
            && (l.Malformed? ==> ReadInto(lines[i..], found, other) == None)
            && (l.Entry? ==> ReadInto(lines[i..], found, other) == ReadInto(lines[i + 1..], found[l.key := CountOf(found, l.key) + l.count], other))
  {
    assert lines[i..][0] == lines[i] && lines[i..][1..] == lines[i + 1..];
  }

  // ----- reading back what was printed

  ghost predicate NoneOf(s: string, p: char -> bool) {
    forall i :: 0 <= i < |s| ==> !p(s[i])
  }

  predicate IsTab(c: char) {
    c == '\t'
  }

  predicate IsBackslash(c: char) {
    c == '\\'
  }

  /** What a fingerprint must be to survive a line of the file. */
  ghost predicate Printable(k: Fingerprint) {
    && NoneOf(k.path, IsTab) && NoneOf(k.code, IsTab)
    && NoneOf(k.path, IsBreak) && NoneOf(k.code, IsBreak) && NoneOf(k.message, IsBreak)
    && NoneOf(k.path, IsBackslash)
  }

  lemma {:induction false} DecimalReadsBack(n: nat)
    ensures Decimal(n) != [] && AllDigits(Decimal(n)) && ValueOf(Decimal(n)) == n
  {
    if n >= 10 {
      DecimalReadsBack(n / 10);
      assert Decimal(n)[..|Decimal(n)| - 1] == Decimal(n / 10);
    }
  }

  lemma {:induction false} DigitsHaveNone(s: string, p: char -> bool)
    requires AllDigits(s) && forall c :: IsDigit(c) ==> !p(c)
    ensures NoneOf(s, p)
  {
    if s != [] {
      DigitsHaveNone(s[..|s| - 1], p);
      forall i | 0 <= i < |s| ensures !p(s[i]) {
        if i < |s| - 1 { assert s[..|s| - 1][i] == s[i]; }
      }
    }
  }

  lemma {:induction false} CutFinds(a: string, b: string)
    requires NoneOf(a, IsTab)
    ensures CutAtTab(a + ("\t" + b)) == Some(Pair(a, b))
  {
    var s := a + ("\t" + b);
    if a == [] {
      assert s == "\t" + b && s[1..] == b;
    } else {
      assert !IsTab(a[0]) && s[0] == a[0];
      assert s[1..] == a[1..] + ("\t" + b);
      CutFinds(a[1..], b);
      assert [a[0]] + a[1..] == a;
    }
  }

  lemma {:induction false} NormalisedStays(path: string)
    requires NoneOf(path, IsBackslash)
    ensures NormalisePath(path) == path
  {
    if path != [] {
      assert !IsBackslash(path[0]);
      NormalisedStays(path[1..]);
    }
  }

  lemma LineReadsBack(k: Fingerprint, n: nat, other: string -> Option<int>)
    requires Printable(k)
    ensures ReadLine(LineOf(k, n), other) == Entry(k, n)
  {
    var count := Decimal(n);
    DecimalReadsBack(n);
    DigitsHaveNone(count, IsTab);
    DigitsHaveNone(count, IsSpace);
    DigitsHaveNone(count, c => c == '#');
    var rest := k.path + ("\t" + (k.code + ("\t" + k.message)));
    assert LineOf(k, n)[0] == count[0];
    CutFinds(count, rest);
    CutFinds(k.path, k.code + ("\t" + k.message));
    CutFinds(k.code, k.message);
    NormalisedStays(k.path);
  }

  lemma ConcatHasNone(a: string, b: string, p: char -> bool)
    requires NoneOf(a, p) && NoneOf(b, p)
    ensures NoneOf(a + b, p)
  {
  }

  lemma LineHasNoBreak(k: Fingerprint, n: nat)
    requires Printable(k)
    ensures NoneOf(LineOf(k, n), IsBreak)
  {
    DecimalReadsBack(n);
    DigitsHaveNone(Decimal(n), IsBreak);
    assert NoneOf("\t", IsBreak);
    ConcatHasNone("\t", k.message, IsBreak);
    ConcatHasNone(k.code, "\t" + k.message, IsBreak);
    ConcatHasNone("\t", k.code + ("\t" + k.message), IsBreak);
    ConcatHasNone(k.path, "\t" + (k.code + ("\t" + k.message)), IsBreak);
    ConcatHasNone("\t", k.path + ("\t" + (k.code + ("\t" + k.message))), IsBreak);
    ConcatHasNone(Decimal(n), "\t" + (k.path + ("\t" + (k.code + ("\t" + k.message)))), IsBreak);
  }

  lemma {:induction false} BreakAfter(line: string, rest: string)
    requires NoneOf(line, IsBreak)
    ensures FirstBreak(line + ("\n" + rest)) == |line|
  {
    var s := line + ("\n" + rest);
    if line == [] {
      assert s[0] == '\n';
    } else {
      assert !IsBreak(line[0]) && s[0] == line[0];
      assert s[1..] == line[1..] + ("\n" + rest);
      BreakAfter(line[1..], rest);
    }
  }

  lemma SplitOne(line: string, rest: string)
    requires NoneOf(line, IsBreak)
    ensures SplitLines(line + ("\n" + rest)) == [line] + SplitLines(rest)
  {
    var s := line + ("\n" + rest);
    BreakAfter(line, rest);
    assert s[|line|] == '\n';
    SplitAt(s, |line|, 1, line, rest);
  }

  /** A text is cut at its first break. */
  lemma SplitAt(s: string, n: nat, width: nat, line: string, rest: string)
    requires n < |s| && FirstBreak(s) == n && BreakWidth(s, n) == width
    requires n + width <= |s| && s[..n] == line && s[n + width..] == rest
    ensures SplitLines(s) == [line] + SplitLines(rest)
  {
  }

  ghost predicate Unbroken(lines: seq<string>) {
    lines == [] || (NoneOf(lines[0], IsBreak) && Unbroken(lines[1..]))
  }

  /** Lines joined with a final empty one split into the same lines. */
  lemma {:induction false} SplitUndoesJoin(lines: seq<string>)
    requires Unbroken(lines)
    ensures SplitLines(Join(lines + [""])) == lines
  {
    var all := lines + [""];
    if lines == [] {
      assert all == [""];
    } else {
      assert all[1..] == lines[1..] + [""] && all[0] == lines[0];
      SplitUndoesJoin(lines[1..]);
      var rest := Join(lines[1..] + [""]);
      assert Join(all) == lines[0] + ("\n" + rest);
      SplitOne(lines[0], rest);
    }
  }

  /** Every fingerprint that gets a line is printable. */
  ghost predicate AllPrintable(keys: seq<Fingerprint>, counts: Counter)
    requires forall k :: k in keys ==> k in counts
  {
    forall k :: k in keys && counts[k] > 0 ==> Printable(k)
  }

  lemma {:induction false} BodyUnbroken(keys: seq<Fingerprint>, counts: Counter)
    requires (forall k :: k in keys ==> k in counts) && AllPrintable(keys, counts)
    ensures Unbroken(Body(keys, counts))
  {
    if keys != [] {
      BodyUnbroken(keys[1..], counts);
      if counts[keys[0]] > 0 { LineHasNoBreak(keys[0], counts[keys[0]]); }
    }
  }

  lemma {:induction false} UnbrokenConcat(a: seq<string>, b: seq<string>)
    requires Unbroken(a) && Unbroken(b)
    ensures Unbroken(a + b)
  {
    if a == [] {
      assert a + b == b;
    } else {
      UnbrokenConcat(a[1..], b);
      assert (a + b)[1..] == a[1..] + b;
    }
  }

  /** Lines that each end in a return and a newline. */
  function WithReturns(lines: seq<string>): string {
    if lines == [] then "" else lines[0] + ("\r" + ("\n" + WithReturns(lines[1..])))
  }

  lemma {:induction false} BreakAfterReturn(line: string, rest: string)
    requires NoneOf(line, IsBreak)
    ensures FirstBreak(line + ("\r" + rest)) == |line|
  {
    var s := line + ("\r" + rest);
    if line == [] {
      assert s[0] == '\r';
    } else {
      assert !IsBreak(line[0]) && s[0] == line[0];
      assert s[1..] == line[1..] + ("\r" + rest);
      BreakAfterReturn(line[1..], rest);
    }
  }

  lemma SplitOneReturn(line: string, rest: string)
    requires NoneOf(line, IsBreak)
    ensures SplitLines(line + ("\r" + ("\n" + rest))) == [line] + SplitLines(rest)
  {
    var s := line + ("\r" + ("\n" + rest));
    BreakAfterReturn(line, "\n" + rest);
    assert s[|line|] == '\r' && s[|line| + 1] == '\n';
    SplitAt(s, |line|, 2, line, rest);
  }

  /** A file with return and newline at the end of each line has the same lines. */
  lemma {:induction false} ReturnsSplitAlike(lines: seq<string>)
    requires Unbroken(lines)
    ensures SplitLines(WithReturns(lines)) == lines
  {
    if lines != [] {
      ReturnsSplitAlike(lines[1..]);
      SplitOneReturn(lines[0], WithReturns(lines[1..]));
    }
  }

  /** The characters that end a line, and those that count as space. */
  lemma BreaksAndSpaces(c: char)
    ensures IsBreak(c) <==> c as int in {0x0A, 0x0B, 0x0C, 0x0D, 0x1C, 0x1D, 0x1E, 0x85, 0x2028, 0x2029}
    ensures IsSpace(c) <==> IsBreak(c) || c as int in {0x09, 0x1F, 0x20, 0xA0, 0x1680, 0x2000, 0x2001, 0x2002, 0x2003, 0x2004, 0x2005,
                                                       0x2006, 0x2007, 0x2008, 0x2009, 0x200A, 0x202F, 0x205F, 0x3000}
  {
  }

  /** A line is skipped iff it is blank, or a `#` is the first thing on it that is not space. */
  lemma SkippedIff(raw: string, other: string -> Option<int>)
    ensures ReadLine(raw, other).Skipped?
       <==> exists n :: 0 <= n <= |raw| && OnlySpaces(raw, n) && (n == |raw| || raw[n] == '#')
  {
    StripsTo(raw);
    var n := |raw| - |LStrip(raw)|;
    if m :| 0 <= m <= |raw| && OnlySpaces(raw, m) && (m == |raw| || raw[m] == '#') {
      assert m <= n;
      if m < n { assert IsSpace(raw[m]); }
    }
  }

  ghost predicate OnlySpaces(s: string, n: nat)
    requires n <= |s|
  {
    forall i :: 0 <= i < n ==> IsSpace(s[i])
  }

  lemma {:induction false} StripsTo(s: string)
    ensures |LStrip(s)| <= |s| && LStrip(s) == s[|s| - |LStrip(s)|..]
    ensures OnlySpaces(s, |s| - |LStrip(s)|) && (LStrip(s) != [] ==> !IsSpace(LStrip(s)[0]))
  {
    if s != [] && IsSpace(s[0]) {
      StripsTo(s[1..]);
      forall i | 0 <= i < |s| - |LStrip(s)| ensures IsSpace(s[i]) {
        if i > 0 { assert s[i] == s[1..][i - 1]; }
      }
    }
  }

  /** A count is read by value when it is a plain numeral, and otherwise left to the parameter. */
  lemma CountsAreNumerals(s: string, other: string -> Option<int>)
    ensures (exists i :: 0 <= i < |s| && !('0' <= s[i] <= '9')) || s == "" ==> ParseInt(s, other) == other(s)
    ensures s != "" && (forall i :: 0 <= i < |s| ==> '0' <= s[i] <= '9') ==> ParseInt(s, other) == Some(ValueOf(s))
  {
    AllDigitsIs(s);
  }

  lemma {:induction false} AllDigitsIs(s: string)
    ensures AllDigits(s) <==> forall i :: 0 <= i < |s| ==> '0' <= s[i] <= '9'
  {
    if s != [] {
      var front := s[..|s| - 1];
      AllDigitsIs(front);
      assert forall i :: 0 <= i < |front| ==> front[i] == s[i];
    }
  }

  ghost predicate Unique(keys: seq<Fingerprint>) {
    keys == [] || (keys[0] !in keys[1..] && Unique(keys[1..]))
  }

  /** The counts above zero of the given fingerprints. */
  function Positive(keys: seq<Fingerprint>, counts: Counter): Counter
    requires forall k :: k in keys ==> k in counts
  {
    map k | k in keys && counts[k] > 0 :: counts[k]
  }

  lemma PositiveSteps(keys: seq<Fingerprint>, counts: Counter)
    requires keys != [] && (forall k :: k in keys ==> k in counts) && keys[0] !in keys[1..]
    ensures keys[0] !in Positive(keys[1..], counts)
    ensures Positive(keys, counts)
         == if counts[keys[0]] > 0 then Positive(keys[1..], counts)[keys[0] := counts[keys[0]]] else Positive(keys[1..], counts)
  {
    assert forall k :: k in keys <==> k == keys[0] || k in keys[1..];
  }

  lemma PutBeforeOrAfter(a: Counter, k: Fingerprint, n: int, b: Counter)
    requires k !in b
    ensures a[k := n] + b == a + b[k := n]
  {
  }

  lemma {:induction false} BodyReadsBack(keys: seq<Fingerprint>, counts: Counter, found: Counter, other: string -> Option<int>)
    requires (forall k :: k in keys ==> k in counts && k !in found) && AllPrintable(keys, counts)
    requires Unique(keys)
    ensures ReadInto(Body(keys, counts), found, other) == Some(found + Positive(keys, counts))
  {
    if keys == [] {
      assert found + Positive(keys, counts) == found;
    } else {
      var k, rest := keys[0], keys[1..];
      PositiveSteps(keys, counts);
      if counts[k] > 0 {
        LineReadsBack(k, counts[k], other);
        BodyReadsBack(rest, counts, found[k := counts[k]], other);
        ReadEntry(Body(rest, counts), k, counts[k], found, other);
        PutBeforeOrAfter(found, k, counts[k], Positive(rest, counts));
      } else {
        BodyReadsBack(rest, counts, found, other);
      }
    }
  }

  lemma ReadEntry(lines: seq<string>, k: Fingerprint, n: nat, found: Counter, other: string -> Option<int>)
    requires ReadLine(LineOf(k, n), other) == Entry(k, n) && k !in found
    ensures ReadInto([LineOf(k, n)] + lines, found, other) == ReadInto(lines, found[k := n], other)
  {
    assert ([LineOf(k, n)] + lines)[1..] == lines;
  }

  lemma SkipLine(line: string, lines: seq<string>, found: Counter, other: string -> Option<int>)
    requires line == [] || line[0] == '#'
    ensures ReadInto([line] + lines, found, other) == ReadInto(lines, found, other)
  {
    assert ([line] + lines)[1..] == lines;
  }

  lemma CommentIsSkipped(text: string, lines: seq<string>, found: Counter, other: string -> Option<int>)
    ensures ReadInto(["#" + text] + lines, found, other) == ReadInto(lines, found, other)
  {
    SkipLine("#" + text, lines, found, other);
  }

  lemma {:induction false} CommentsAreSkipped(texts: seq<string>, lines: seq<string>, found: Counter, other: string -> Option<int>)
    ensures ReadInto(Comments(texts) + lines, found, other) == ReadInto(lines, found, other)
  {
    if texts == [] {
      assert Comments(texts) + lines == lines;
    } else {
      var more := Comments(texts[1..]);
      CommentsAreSkipped(texts[1..], lines, found, other);
      CommentIsSkipped(texts[0], more + lines, found, other);
      ConcatAssociates(["#" + texts[0]], more, lines);
    }
  }

  lemma HeaderIsSkipped(version: string, notes: seq<string>, lines: seq<string>, other: string -> Option<int>)
    ensures ReadInto(Header(version, notes) + lines, map[], other) == ReadInto(lines, map[], other)
  {
    var comments := Comments([" mypy-version: " + version] + notes);
    assert Header(version, notes) + lines == comments + ([""] + lines);
    CommentsAreSkipped([" mypy-version: " + version] + notes, [""] + lines, map[], other);
    SkipLine("", lines, map[], other);
  }

  lemma {:induction false} CommentsUnbroken(texts: seq<string>)
    requires Unbroken(texts)
    ensures Unbroken(Comments(texts))
  {
    if texts != [] {
      CommentsUnbroken(texts[1..]);
      ConcatHasNone("#", texts[0], IsBreak);
    }
  }

  lemma HeaderUnbroken(version: string, notes: seq<string>)
    requires NoneOf(version, IsBreak) && Unbroken(notes)
    ensures Unbroken(Header(version, notes))
  {
    ConcatHasNone(" mypy-version: ", version, IsBreak);
    var texts := [" mypy-version: " + version] + notes;
    assert texts[1..] == notes;
    CommentsUnbroken(texts);
    assert Unbroken([""]);
    UnbrokenConcat(Comments(texts), [""]);
  }

  /** Reading a rendered baseline gives back exactly the positive counts. */
  lemma RenderReadsBack(keys: seq<Fingerprint>, counts: Counter, version: string, notes: seq<string>, other: string -> Option<int>)
    requires Unique(keys) && (forall k :: k in keys ==> k in counts) && AllPrintable(keys, counts)
    requires NoneOf(version, IsBreak) && Unbroken(notes)
    ensures ReadInto(SplitLines(Render(keys, counts, version, notes)), map[], other) == Some(Positive(keys, counts))
  {
    var h, b := Header(version, notes), Body(keys, counts);
    HeaderUnbroken(version, notes);
    BodyUnbroken(keys, counts);
    UnbrokenConcat(h, b);
    ConcatAssociates(h, b, [""]);
    SplitUndoesJoin(h + b);
    HeaderIsSkipped(version, notes, b, other);
    BodyReadsBack(keys, counts, map[], other);
    NoneBefore(Positive(keys, counts));
  }

  lemma NoneBefore(c: Counter)
    ensures var none: Counter := map[]; none + c == c
  {
  }

  // ----- what a line can hold

  lemma {:induction false} LineEndsAtBreak(s: string)
    ensures NoneOf(s[..FirstBreak(s)], IsBreak)
  {
    if s != [] && !IsBreak(s[0]) {
      LineEndsAtBreak(s[1..]);
      assert s[..FirstBreak(s)] == [s[0]] + s[1..][..FirstBreak(s[1..])];
    }
  }

  lemma {:induction false} LinesAreUnbroken(s: string)
    ensures Unbroken(SplitLines(s))
    decreases |s|
  {
    if s != [] {
      var n := FirstBreak(s);
      LineEndsAtBreak(s);
      if n == |s| {
        assert s[..n] == s;
      } else {
        LinesAreUnbroken(s[n + BreakWidth(s, n)..]);
      }
    }
  }

  lemma {:induction false} CutSplits(s: string, p: char -> bool)
    requires CutAtTab(s).Some? && NoneOf(s, p)
    ensures var cut := CutAtTab(s).value; NoneOf(cut.before, IsTab) && NoneOf(cut.before, p) && NoneOf(cut.after, p)
  {
    if s[0] != '\t' { CutSplits(s[1..], p); }
  }

  lemma {:induction false} NormalisedHasNone(path: string)
    ensures NoneOf(NormalisePath(path), IsBackslash)
    ensures NoneOf(path, IsTab) ==> NoneOf(NormalisePath(path), IsTab)
    ensures NoneOf(path, IsBreak) ==> NoneOf(NormalisePath(path), IsBreak)
  {
    if path != [] {
      NormalisedHasNone(path[1..]);
      assert path == [path[0]] + path[1..];
      NoneInFront(path, IsTab);
      NoneInFront(path, IsBreak);
    }
  }

  lemma NoneInFront(s: string, p: char -> bool)
    requires s != []
    ensures NoneOf(s, p) <==> !p(s[0]) && NoneOf(s[1..], p)
  {
    if !p(s[0]) && NoneOf(s[1..], p) {
      forall i | 0 <= i < |s| ensures !p(s[i]) {
        if i > 0 { assert s[i] == s[1..][i - 1]; }
      }
    }
  }

  /** Whatever line is read, its fingerprint is printable. */
  lemma ReadKeyIsPrintable(raw: string, other: string -> Option<int>)
    requires NoneOf(raw, IsBreak) && ReadLine(raw, other).Entry?
    ensures Printable(ReadLine(raw, other).key)
  {
    CutSplits(raw, IsBreak);
    var a := CutAtTab(raw).value;
    CutSplits(a.after, IsBreak);
    var b := CutAtTab(a.after).value;
    CutSplits(b.after, IsBreak);
    NormalisedHasNone(b.before);
  }

  ghost predicate KeysPrintable(c: Counter) {
    forall k :: k in c ==> Printable(k)
  }

  lemma {:induction false} ReadKeysPrintable(lines: seq<string>, counts: Counter, other: string -> Option<int>)
    requires Unbroken(lines) && KeysPrintable(counts) && ReadInto(lines, counts, other).Some?
    ensures KeysPrintable(ReadInto(lines, counts, other).value)
  {
    if lines != [] {
      match ReadLine(lines[0], other)
      case Skipped => ReadKeysPrintable(lines[1..], counts, other);
      case Entry(k, n) =>
        ReadKeyIsPrintable(lines[0], other);
        ReadKeysPrintable(lines[1..], counts[k := CountOf(counts, k) + n], other);
    }
  }

  /** No baseline file, however made, gives a fingerprint that is not printable. */
  lemma FilesHoldPrintable(text: string, other: string -> Option<int>)
    requires ReadInto(SplitLines(text), map[], other).Some?
    ensures KeysPrintable(ReadInto(SplitLines(text), map[], other).value)
  {
    LinesAreUnbroken(text);
    ReadKeysPrintable(SplitLines(text), map[], other);
  }

  lemma PositiveKeys(keys: seq<Fingerprint>, counts: Counter)
    requires forall k :: k in keys ==> k in counts
    ensures KeysPrintable(Positive(keys, counts)) <==> AllPrintable(keys, counts)
  {
    forall k | k in keys && counts[k] > 0 ensures k in Positive(keys, counts) {
    }
  }

  /** A rendered baseline reads back as its positive counts iff each of their fingerprints is printable. */
  lemma RenderReadsBackIff(keys: seq<Fingerprint>, counts: Counter, version: string, notes: seq<string>, other: string -> Option<int>)
    requires Unique(keys) && (forall k :: k in keys ==> k in counts)
    requires NoneOf(version, IsBreak) && Unbroken(notes)
    ensures ReadInto(SplitLines(Render(keys, counts, version, notes)), map[], other) == Some(Positive(keys, counts))
       <==> AllPrintable(keys, counts)
  {
    if AllPrintable(keys, counts) { RenderReadsBack(keys, counts, version, notes, other); }
    if ReadInto(SplitLines(Render(keys, counts, version, notes)), map[], other) == Some(Positive(keys, counts)) {
      FilesHoldPrintable(Render(keys, counts, version, notes), other);
      PositiveKeys(keys, counts);
    }
  }

  // ----- the comparison

  datatype Failure =
    | NewError(key: Fingerprint, now: int)
    | Rose(key: Fingerprint, was: int, now: int)
    | Fixed(key: Fingerprint, was: int, now: int)
    | BaselineIsStale(fixed: int)
    | RippleHint

  ghost predicate Lists(keys: seq<Fingerprint>, actual: Counter, baseline: Counter) {
    forall k :: k in keys <==> k in actual || k in baseline
  }

  /** The failures a rise gives, for the first `n` keys. */
  function Rises(keys: seq<Fingerprint>, n: nat, actual: Counter, baseline: Counter): seq<Failure>
    requires n <= |keys|
  {
    if n == 0 then []
    else
      var k, front := keys[n - 1], Rises(keys, n - 1, actual, baseline);
      var now, was := CountOf(actual, k), CountOf(baseline, k);
      if now > was then front + [if k in baseline then Rose(k, was, now) else NewError(k, now)] else front
  }

  function Falls(keys: seq<Fingerprint>, n: nat, actual: Counter, baseline: Counter): seq<Failure>
    requires n <= |keys|
  {
    if n == 0 then []
    else
      var k, front := keys[n - 1], Falls(keys, n - 1, actual, baseline);
      var now, was := CountOf(actual, k), CountOf(baseline, k);
      if now < was then front + [Fixed(k, was, now)] else front
  }

  function FixedCount(keys: seq<Fingerprint>, n: nat, actual: Counter, baseline: Counter): nat
    requires n <= |keys|
  {
    if n == 0 then 0
    else FixedCount(keys, n - 1, actual, baseline)
         + Max(0, CountOf(baseline, keys[n - 1]) - CountOf(actual, keys[n - 1]))
  }

  function Report(rises: seq<Failure>, falls: seq<Failure>, fixed: nat): seq<Failure> {
    if fixed == 0 then rises
    else rises + (falls + (if rises != [] then [BaselineIsStale(fixed), RippleHint] else [BaselineIsStale(fixed)]))
  }

  /** `compare_counts`, over the fingerprints of either side in order. */
  method CompareCounts(keys: seq<Fingerprint>, actual: Counter, baseline: Counter) returns (failures: seq<Failure>)
    requires Lists(keys, actual, baseline)
    ensures failures == Report(Rises(keys, |keys|, actual, baseline), Falls(keys, |keys|, actual, baseline),
                               FixedCount(keys, |keys|, actual, baseline))
    ensures failures == [] <==> forall k :: CountOf(actual, k) == CountOf(baseline, k)
  {
    failures := [];
    var stale: seq<Failure> := [];
    var fixed, isNew := 0, false;
    var i := 0;
    while i < |keys|
      invariant 0 <= i <= |keys|
      invariant failures == Rises(keys, i, actual, baseline) && isNew == (failures != [])
      invariant stale == Falls(keys, i, actual, baseline)
      invariant fixed == FixedCount(keys, i, actual, baseline)
    {
      var k := keys[i];
      var now, was := CountOf(actual, k), CountOf(baseline, k);
      if now > was {
        isNew := true;
        failures := failures + [if k !in baseline then NewError(k, now) else Rose(k, was, now)];
      } else if now < was {
        fixed := fixed + (was - now);
        stale := stale + [Fixed(k, was, now)];
      }
      i := i + 1;
    }
    NothingReported(keys, |keys|, actual, baseline);
    if fixed > 0 {
      ConcatAssociates(failures, stale, [BaselineIsStale(fixed)]);
      ghost var rises := failures;
      failures := failures + stale;
      failures := failures + [BaselineIsStale(fixed)];
      if isNew {
        ConcatAssociates(rises + stale, [BaselineIsStale(fixed)], [RippleHint]);
        ConcatAssociates(rises, stale, [BaselineIsStale(fixed)] + [RippleHint]);
        failures := failures + [RippleHint];
      }
    }
    EqualCounts(keys, actual, baseline);
  }

  lemma {:induction false} NothingReported(keys: seq<Fingerprint>, n: nat, actual: Counter, baseline: Counter)
    requires n <= |keys|
    ensures (Rises(keys, n, actual, baseline) == [] && FixedCount(keys, n, actual, baseline) == 0)
       <==> forall i :: 0 <= i < n ==> CountOf(actual, keys[i]) == CountOf(baseline, keys[i])
  {
    if n > 0 {
      NothingReported(keys, n - 1, actual, baseline);
    }
  }

  lemma EqualCounts(keys: seq<Fingerprint>, actual: Counter, baseline: Counter)
    requires Lists(keys, actual, baseline)
    ensures (forall i :: 0 <= i < |keys| ==> CountOf(actual, keys[i]) == CountOf(baseline, keys[i]))
       <==> forall k :: CountOf(actual, k) == CountOf(baseline, k)
  {
    if forall i :: 0 <= i < |keys| ==> CountOf(actual, keys[i]) == CountOf(baseline, keys[i]) {
      forall k ensures CountOf(actual, k) == CountOf(baseline, k) {
        if k in keys {
          var i :| 0 <= i < |keys| && keys[i] == k;
        }
      }
    }
  }

  predicate Rising(actual: Counter, baseline: Counter, k: Fingerprint) {
    CountOf(actual, k) > CountOf(baseline, k)
  }

  predicate Falling(actual: Counter, baseline: Counter, k: Fingerprint) {
    CountOf(actual, k) < CountOf(baseline, k)
  }

  /** The message that a rise gives. */
  function RiseOf(actual: Counter, baseline: Counter, k: Fingerprint): Failure {
    if k in baseline then Rose(k, CountOf(baseline, k), CountOf(actual, k)) else NewError(k, CountOf(actual, k))
  }

  function FallOf(actual: Counter, baseline: Counter, k: Fingerprint): Failure {
    Fixed(k, CountOf(baseline, k), CountOf(actual, k))
  }

  lemma {:induction false} EveryRiseIsReported(keys: seq<Fingerprint>, n: nat, actual: Counter, baseline: Counter, f: Failure)
    requires n <= |keys|
    ensures f in Rises(keys, n, actual, baseline)
       <==> (f.NewError? || f.Rose?) && f.key in keys[..n] && Rising(actual, baseline, f.key) && f == RiseOf(actual, baseline, f.key)
  {
    if n > 0 {
      EveryRiseIsReported(keys, n - 1, actual, baseline, f);
      assert keys[..n] == keys[..n - 1] + [keys[n - 1]];
    }
  }

  lemma {:induction false} EveryFallIsReported(keys: seq<Fingerprint>, n: nat, actual: Counter, baseline: Counter, f: Failure)
    requires n <= |keys|
    ensures f in Falls(keys, n, actual, baseline)
       <==> f.Fixed? && f.key in keys[..n] && Falling(actual, baseline, f.key) && f == FallOf(actual, baseline, f.key)
  {
    if n > 0 {
      EveryFallIsReported(keys, n - 1, actual, baseline, f);
      assert keys[..n] == keys[..n - 1] + [keys[n - 1]];
    }
  }

  lemma {:induction false} FallsMeanFixed(keys: seq<Fingerprint>, n: nat, actual: Counter, baseline: Counter)
    requires n <= |keys|
    ensures Falls(keys, n, actual, baseline) == [] <==> FixedCount(keys, n, actual, baseline) == 0
  {
    if n > 0 {
      FallsMeanFixed(keys, n - 1, actual, baseline);
    }
  }

  ghost predicate SomeRises(actual: Counter, baseline: Counter) {
    exists k :: Rising(actual, baseline, k)
  }

  ghost predicate SomeFalls(actual: Counter, baseline: Counter) {
    exists k :: Falling(actual, baseline, k)
  }

  lemma SomeRise(keys: seq<Fingerprint>, actual: Counter, baseline: Counter)
    requires Lists(keys, actual, baseline)
    ensures Rises(keys, |keys|, actual, baseline) != [] <==> SomeRises(actual, baseline)
  {
    var rises := Rises(keys, |keys|, actual, baseline);
    if rises != [] { EveryRiseIsReported(keys, |keys|, actual, baseline, rises[0]); }
    if k :| Rising(actual, baseline, k) {
      EveryRiseIsReported(keys, |keys|, actual, baseline, RiseOf(actual, baseline, k));
    }
  }

  lemma SomeFall(keys: seq<Fingerprint>, actual: Counter, baseline: Counter)
    requires Lists(keys, actual, baseline)
    ensures Falls(keys, |keys|, actual, baseline) != [] <==> SomeFalls(actual, baseline)
  {
    var falls := Falls(keys, |keys|, actual, baseline);
    if falls != [] { EveryFallIsReported(keys, |keys|, actual, baseline, falls[0]); }
    if k :| Falling(actual, baseline, k) {
      EveryFallIsReported(keys, |keys|, actual, baseline, FallOf(actual, baseline, k));
    }
  }

  /** A failure that the counts call for. */
  ghost predicate Due(f: Failure, actual: Counter, baseline: Counter, fixed: nat) {
    match f
    case BaselineIsStale(n) => n == fixed && SomeFalls(actual, baseline)
    case RippleHint => SomeFalls(actual, baseline) && SomeRises(actual, baseline)
    case Fixed(k, _, _) => Falling(actual, baseline, k) && f == FallOf(actual, baseline, k)
    case _ => Rising(actual, baseline, f.key) && f == RiseOf(actual, baseline, f.key)
  }

  /**
   * What a report says of the counts: every fingerprint that rose, with both counts, also when
   * others fell, so that a fix cannot hide a new error; every one that fell; that the baseline is
   * stale iff one fell; and the hint that code may have moved iff some rose and some fell.
   */
  lemma ReportHolds(keys: seq<Fingerprint>, actual: Counter, baseline: Counter, f: Failure)
    requires Lists(keys, actual, baseline)
    ensures f in Report(Rises(keys, |keys|, actual, baseline), Falls(keys, |keys|, actual, baseline), FixedCount(keys, |keys|, actual, baseline))
       <==> Due(f, actual, baseline, FixedCount(keys, |keys|, actual, baseline))
  {
    FallsMeanFixed(keys, |keys|, actual, baseline);
    SomeRise(keys, actual, baseline);
    SomeFall(keys, actual, baseline);
    EveryRiseIsReported(keys, |keys|, actual, baseline, f);
    EveryFallIsReported(keys, |keys|, actual, baseline, f);
    assert keys[..|keys|] == keys;
  }

  ghost predicate SameCounts(a: Counter, b: Counter) {
    forall k :: CountOf(a, k) == CountOf(b, k)
  }

  /** After `--write` the check passes, iff every fingerprint written is printable. */
  lemma WriteThenCheckPassesIff(keys: seq<Fingerprint>, actual: Counter, version: string, notes: seq<string>,
                                other: string -> Option<int>)
    requires Unique(keys) && (forall k :: k in keys <==> k in actual) && forall k :: k in actual ==> actual[k] > 0
    requires NoneOf(version, IsBreak) && Unbroken(notes)
    ensures var read := ReadInto(SplitLines(Render(keys, actual, version, notes)), map[], other);
            (read.Some? && SameCounts(actual, read.value)) <==> KeysPrintable(actual)
  {
    var read := ReadInto(SplitLines(Render(keys, actual, version, notes)), map[], other);
    if KeysPrintable(actual) { RenderReadsBack(keys, actual, version, notes, other); }
    if read.Some? && SameCounts(actual, read.value) {
      FilesHoldPrintable(Render(keys, actual, version, notes), other);
      forall k | k in actual ensures Printable(k) {
        assert CountOf(read.value, k) == CountOf(actual, k);
      }
    }
  }
}
