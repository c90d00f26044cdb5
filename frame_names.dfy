/**
 * The two text parses of the frame sequencer (pixeltable/utils/video.py):
 *  - the frame file name `{runId}_(\d+)\.jpg`, matched at the start of the name only;
 *  - the frame count `frame=\s*(\d+)`, searched for (leftmost match) in the
 *    second-to-last line of the extraction process's log.
 * Together with the names the extraction process writes (`{runId}_%07d.jpg`),
 * so that the parse can be proved to invert them.
 */
module FrameNames {
  import opened Wrappers

  predicate IsDigit(c: char) { '0' <= c <= '9' }

  /** Python's `\s` in a text pattern: the characters `str.isspace` accepts, that is
      tab to carriage return, the four information separators (0x1C-0x1F), space,
      next line, no-break space, and the Unicode space and line/paragraph separators. */
  predicate IsSpace(c: char)
  {
    var u := c as int;
    || 0x09 <= u <= 0x0D || 0x1C <= u <= 0x20 || u == 0x85 || u == 0xA0 || u == 0x1680
    || 0x2000 <= u <= 0x200A || u == 0x2028 || u == 0x2029 || u == 0x202F || u == 0x205F || u == 0x3000
  }

  predicate AllDigits(s: string) { forall i :: 0 <= i < |s| ==> IsDigit(s[i]) }

  predicate AllSpaces(s: string) { forall i :: 0 <= i < |s| ==> IsSpace(s[i]) }

  predicate HasPrefix(s: string, prefix: string) { |prefix| <= |s| && s[..|prefix|] == prefix }

  /** The character classes the two patterns repeat: `\d` and `\s`. */
  datatype CharClass = Digit | Space

  predicate InClass(c: char, cls: CharClass)
  {
    match cls
    case Digit => IsDigit(c)
    case Space => IsSpace(c)
  }

  /** The length of the longest prefix of `s` whose characters are all in `cls`
      (what a greedy `\d+` or `\s*` consumes). */
  function RunLength(s: string, cls: CharClass): (k: nat)
    ensures k <= |s|
  {
    if s != [] && InClass(s[0], cls) then 1 + RunLength(s[1..], cls) else 0
  }

  /** The run is as long as it can be: every character in it is in the class, and
      the next one is not. */
  lemma {:induction false} RunLengthIsMaximal(s: string, cls: CharClass)
    ensures var k := RunLength(s, cls);
      && (forall i :: 0 <= i < k ==> InClass(s[i], cls))
      && (k < |s| ==> !InClass(s[k], cls))
  {
    if s != [] && InClass(s[0], cls) {
      RunLengthIsMaximal(s[1..], cls);
      var k := RunLength(s, cls);
      forall i | 0 <= i < k
        ensures InClass(s[i], cls)
      {
        if i > 0 {
          assert s[i] == s[1..][i - 1];
        }
      }
    }
  }

  lemma {:induction false} RunLengthOf(run: string, tail: string, cls: CharClass)
    requires forall i :: 0 <= i < |run| ==> InClass(run[i], cls)
    requires tail == [] || !InClass(tail[0], cls)
    ensures RunLength(run + tail, cls) == |run|
  {
    if run != [] {
      assert (run + tail)[1..] == run[1..] + tail;
      RunLengthOf(run[1..], tail, cls);
    } else {
      assert run + tail == tail;
    }
  }

  /** Decimal value of a digit string, as Python's `int()` reads it (leading zeros allowed). */
  function Value(s: string): nat
    requires AllDigits(s)
  {
    if s == [] then 0 else Value(s[..|s| - 1]) * 10 + (s[|s| - 1] as int - '0' as int)
  }

  function DigitChar(d: nat): (c: char)
    requires d < 10
    ensures IsDigit(c) && c as int - '0' as int == d
  {
    ('0' as int + d) as char
  }

  /** The shortest decimal representation of `n`. */
  function Decimal(n: nat): (s: string)
    ensures 1 <= |s| && AllDigits(s)
  {
    if n < 10 then [DigitChar(n)] else Decimal(n / 10) + [DigitChar(n % 10)]
  }

  /** `s` padded on the left with zeros to at least `width` characters (printf's `%0<width>d`). */
  function ZeroPad(s: string, width: nat): (r: string)
    ensures |r| >= |s| && |r| >= width
    ensures AllDigits(s) ==> AllDigits(r)
  {
    if |s| >= width then s else seq(width - |s|, _ => '0') + s
  }

  lemma {:induction false} ValueOfDecimal(n: nat)
    ensures Value(Decimal(n)) == n
  {
    if n >= 10 {
      var d := Decimal(n / 10);
      assert (d + [DigitChar(n % 10)])[..|d|] == d;
      ValueOfDecimal(n / 10);
    }
  }

  lemma {:induction false} ValueOfZeros(z: string)
    requires forall i :: 0 <= i < |z| ==> z[i] == '0'
    ensures AllDigits(z) && Value(z) == 0
  {
    if z != [] {
      ValueOfZeros(z[..|z| - 1]);
    }
  }

  lemma {:induction false} ValueIgnoresLeadingZeros(z: string, s: string)
    requires forall i :: 0 <= i < |z| ==> z[i] == '0'
    requires AllDigits(s)
    ensures AllDigits(z + s) && Value(z + s) == Value(s)
  {
    if s == [] {
      assert z + s == z;
      ValueOfZeros(z);
    } else {
      var init := s[..|s| - 1];
      assert (z + s)[..|z + s| - 1] == z + init;
      ValueIgnoresLeadingZeros(z, init);
    }
  }

  /** The name the extraction process gives the file of 1-based frame `n`: `{runId}_%07d.jpg`. */
  function FrameFileName(runId: string, n: nat): string
  {
    runId + "_" + ZeroPad(Decimal(n), 7) + ".jpg"
  }

  /**
   * The frame number in a file name, or None when the name does not match the
   * run's pattern `{runId}_(\d+)\.jpg`. The match is anchored at the start of the
   * name only: whatever follows `.jpg` is accepted. The greedy `\d+` cannot
   * backtrack usefully, because the character after it must be the literal `.`.
   */
  function FrameNumber(runId: string, name: string): Option<nat>
  {
    var prefix := runId + "_";
    if !HasPrefix(name, prefix) then None
    else
      var rest := name[|prefix|..];
      var k := RunLength(rest, Digit);
      if k == 0 || !HasPrefix(rest[k..], ".jpg") then None
      else
        RunLengthIsMaximal(rest, Digit);
        Some(Value(rest[..k]))
  }

  /** Parsing inverts naming: a file written for frame `n` is read back as frame `n`,
      whatever follows its name (the match is not anchored at the end). */
  lemma {:induction false} FrameNumberOfFileName(runId: string, n: nat, tail: string)
    ensures FrameNumber(runId, FrameFileName(runId, n) + tail) == Some(n)
  {
    var prefix := runId + "_";
    var digits := ZeroPad(Decimal(n), 7);
    var name := FrameFileName(runId, n) + tail;
    assert name == prefix + (digits + (".jpg" + tail));
    assert name[..|prefix|] == prefix;
    var rest := name[|prefix|..];
    assert rest == digits + (".jpg" + tail);
    RunLengthOf(digits, ".jpg" + tail, Digit);
    assert rest[|digits|..] == ".jpg" + tail;
    assert rest[..|digits|] == digits;
    var d := Decimal(n);
    if |d| < 7 {
      ValueIgnoresLeadingZeros(seq(7 - |d|, _ => '0'), d);
    }
    ValueOfDecimal(n);
  }

  /** Runs never read each other's files, whatever the lengths of their ids, as long
      as the ids have no `_` (they are hex digits): a file of run `other` is rejected
      by run `runId`. */
  lemma ForeignFileRejected(runId: string, other: string, n: nat, tail: string)
    requires runId != other && '_' !in runId && '_' !in other
    ensures FrameNumber(runId, FrameFileName(other, n) + tail) == None
  {
    var name := FrameFileName(other, n) + tail;
    assert name == other + "_" + (ZeroPad(Decimal(n), 7) + ".jpg" + tail);
    PrefixesDiffer(runId, other, ZeroPad(Decimal(n), 7) + ".jpg" + tail);
  }

  /** Two ids without `_` that differ: one name cannot start with both `id_` prefixes. */
  lemma PrefixesDiffer(runId: string, other: string, rest: string)
    requires runId != other && '_' !in runId && '_' !in other
    ensures !HasPrefix(other + "_" + rest, runId + "_")
  {
    var name, p := other + "_" + rest, runId + "_";
    if |p| <= |name| {
      // a position below |p| where the name and the prefix disagree
      var i: nat;
      if |runId| < |other| {
        i := |runId|;
        assert name[i] == other[i] && other[i] in other && p[i] == '_';
      } else if |other| < |runId| {
        i := |other|;
        assert name[i] == '_' && p[i] == runId[i] && runId[i] in runId;
      } else {
        i :| 0 <= i < |runId| && runId[i] != other[i];
        assert name[i] == other[i] && p[i] == runId[i];
      }
      assert name[..|p|][i] != p[i];
    }
  }

  /** A name that matches keeps its frame number whatever is appended to it. */
  lemma {:induction false} FrameNumberPrefixAnchored(runId: string, name: string, tail: string)
    requires FrameNumber(runId, name).Some?
    ensures FrameNumber(runId, name + tail) == FrameNumber(runId, name)
  {
    var prefix := runId + "_";
    assert (name + tail)[..|prefix|] == prefix;
    var rest := name[|prefix|..];
    var k := RunLength(rest, Digit);
    assert (name + tail)[|prefix|..] == rest + tail;
    RunLengthIsMaximal(rest, Digit);
    RunLengthOf(rest[..k], rest[k..] + tail, Digit);
    assert rest + tail == rest[..k] + (rest[k..] + tail);
    assert (rest + tail)[..k] == rest[..k];
    assert (rest + tail)[k..] == rest[k..] + tail;
    assert (rest[k..] + tail)[..4] == rest[k..][..4];
  }

  /** The frame count reported by a match of `frame=\s*(\d+)` starting at position `p`, if any. */
  function FrameCountAt(line: string, p: nat): Option<nat>
    requires p <= |line|
  {
    if !HasPrefix(line[p..], "frame=") then None
    else
      var rest := line[p + 6..];
      var w := RunLength(rest, Space);
      var d := RunLength(rest[w..], Digit);
      if d == 0 then None
      else
        RunLengthIsMaximal(rest[w..], Digit);
        Some(Value(rest[w..][..d]))
  }

  /** What the pattern reports at each position of `line`, 0 to |line| inclusive. */
  function Matches(line: string): (ms: seq<Option<nat>>)
    ensures |ms| == |line| + 1
  {
    seq(|line| + 1, q requires 0 <= q <= |line| => FrameCountAt(line, q))
  }

  /** `re.search` from position `from`: the least position at which the pattern matches. */
  function LeftmostMatch(ms: seq<Option<nat>>, from: nat): (p: Option<nat>)
    requires from <= |ms|
    ensures p.Some? ==> from <= p.value < |ms|
    decreases |ms| - from
  {
    if from == |ms| then None
    else if ms[from].Some? then Some(from)
    else LeftmostMatch(ms, from + 1)
  }

  /** The search finds a match exactly when there is one, and no match lies before
      the one it finds. */
  lemma {:induction false} LeftmostMatchIsLeast(ms: seq<Option<nat>>, from: nat)
    requires from <= |ms|
    ensures var p := LeftmostMatch(ms, from);
      && (p.None? ==> forall q :: from <= q < |ms| ==> ms[q].None?)
      && (p.Some? ==> ms[p.value].Some?)
      && (p.Some? ==> forall q :: from <= q < p.value ==> ms[q].None?)
    decreases |ms| - from
  {
    if from < |ms| && ms[from].None? {
      LeftmostMatchIsLeast(ms, from + 1);
    }
  }

  /** The frame count in one log line: the digits after the leftmost `frame=` and optional
      blanks; None when the line has no such match. */
  function ParseFrameCount(line: string): Option<nat>
  {
    var ms := Matches(line);
    match LeftmostMatch(ms, 0)
    case None => None
    case Some(p) => ms[p]
  }

  /** The parse finds a count exactly when some position matches, and then it is
      the count of the leftmost match. */
  lemma ParseFrameCountIsLeftmost(line: string)
    ensures ParseFrameCount(line).None? <==> forall q :: 0 <= q <= |line| ==> FrameCountAt(line, q).None?
    ensures ParseFrameCount(line).Some? ==>
      exists p :: 0 <= p <= |line| && FrameCountAt(line, p) == ParseFrameCount(line) &&
                  forall q :: 0 <= q < p ==> FrameCountAt(line, q).None?
  {
    var ms := Matches(line);
    LeftmostMatchIsLeast(ms, 0);
    assert forall q :: 0 <= q <= |line| ==> ms[q] == FrameCountAt(line, q);
  }

  /** A log line that starts with the marker reports the number written after it. */
  lemma {:induction false} ParseFrameCountOf(blanks: string, n: nat, tail: string)
    requires AllSpaces(blanks)
    requires tail == [] || !IsDigit(tail[0])
    ensures ParseFrameCount("frame=" + blanks + Decimal(n) + tail) == Some(n)
  {
    var line := "frame=" + blanks + Decimal(n) + tail;
    var d := Decimal(n);
    assert line == "frame=" + (blanks + (d + tail));
    assert line[0..][..6] == "frame=";
    var rest := line[6..];
    assert rest == blanks + (d + tail);
    assert !IsSpace(d[0]);
    RunLengthOf(blanks, d + tail, Space);
    assert rest[|blanks|..] == d + tail;
    RunLengthOf(d, tail, Digit);
    assert (d + tail)[..|d|] == d;
    ValueOfDecimal(n);
    assert FrameCountAt(line, 0) == Some(n);
  }

  /** Why the end-of-extraction log could not give a frame count. */
  datatype LogFault = LogTooShort | NoFrameCount

  /** The frame count in the exit log: the second-to-last line (Python's `lines[-2]`,
      an IndexError with fewer than two lines) must contain the marker. */
  function FrameCountFromLog(log: seq<string>): (r: Result<nat, LogFault>)
    ensures r == Err(LogTooShort) <==> |log| < 2
  {
    if |log| < 2 then Err(LogTooShort)
    else match ParseFrameCount(log[|log| - 2])
      case Some(n) => Ok(n)
      case None => Err(NoFrameCount)
  }

  /** The three outcomes of reading the exit log: too few lines, no count in the
      second-to-last line, or the count that line reports. */
  lemma FrameCountFromLogCases(log: seq<string>)
    ensures FrameCountFromLog(log) == Err(NoFrameCount) <==> |log| >= 2 && ParseFrameCount(log[|log| - 2]).None?
    ensures FrameCountFromLog(log).Ok? ==> |log| >= 2 && ParseFrameCount(log[|log| - 2]) == Some(FrameCountFromLog(log).value)
  {
  }
}
