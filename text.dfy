/** The Python string built-ins the checker relies on: str.strip, str.ljust
    (the `:<width` format), str.split with a one-character separator,
    str.splitlines and repetition of a character. */
module Text {

  /** Python's str.isspace for one character. */
  predicate IsWhitespace(c: char) {
    var n := c as int;
    n == 0x20 || 0x09 <= n <= 0x0D || 0x1C <= n <= 0x1F || n == 0x85 || n == 0xA0 ||
    n == 0x1680 || 0x2000 <= n <= 0x200A || n == 0x2028 || n == 0x2029 ||
    n == 0x202F || n == 0x205F || n == 0x3000
  }

  /** The characters str.splitlines treats as line boundaries. */
  predicate IsLineBreak(c: char) {
    var n := c as int;
    0x0A <= n <= 0x0D || 0x1C <= n <= 0x1E || n == 0x85 || n == 0x2028 || n == 0x2029
  }

  predicate NoBreak(line: string) {
    forall j :: 0 <= j < |line| ==> !IsLineBreak(line[j])
  }

  // ---------------------------------------------------------------- repeat

  /** `c * n` in Python. */
  function Repeat(c: char, n: nat): (r: string)
    ensures |r| == n
    ensures forall k :: 0 <= k < n ==> r[k] == c
  {
    if n == 0 then [] else [c] + Repeat(c, n - 1)
  }

  // ----------------------------------------------------------------- strip

  /** s.lstrip(): the longest suffix of s that does not start with whitespace. */
  function TrimLeft(s: string): (r: string)
    ensures |r| <= |s| && r == s[|s| - |r|..]
    ensures forall k :: 0 <= k < |s| - |r| ==> IsWhitespace(s[k])
    ensures r == [] || !IsWhitespace(r[0])
  {
    if s != [] && IsWhitespace(s[0]) then TrimLeft(s[1..]) else s
  }

  /** s.rstrip(): the longest prefix of s that does not end with whitespace. */
  function TrimRight(s: string): (r: string)
    ensures |r| <= |s| && r == s[..|r|]
    ensures forall k :: |r| <= k < |s| ==> IsWhitespace(s[k])
    ensures r == [] || !IsWhitespace(r[|r| - 1])
  {
    if s != [] && IsWhitespace(s[|s| - 1]) then TrimRight(s[..|s| - 1]) else s
  }

  /** r sits at index i of s and everything of s around it is whitespace. */
  predicate SurroundedAt(s: string, r: string, i: int) {
    0 <= i <= |s| - |r| && r == s[i..i + |r|] &&
    (forall k :: 0 <= k < i ==> IsWhitespace(s[k])) &&
    (forall k :: i + |r| <= k < |s| ==> IsWhitespace(s[k]))
  }

  /** s.strip(): s with the whitespace on both ends removed and nothing else. */
  function Strip(s: string): (r: string)
    ensures exists i :: SurroundedAt(s, r, i)
    ensures r == [] || (!IsWhitespace(r[0]) && !IsWhitespace(r[|r| - 1]))
  {
    var t := TrimLeft(s);
    var r := TrimRight(t);
    assert SurroundedAt(s, r, |s| - |t|);
    r
  }

  /** Stripping twice changes nothing more than stripping once. */
  lemma StripIdempotent(s: string)
    ensures Strip(Strip(s)) == Strip(s)
  {
    var r := Strip(s);
    assert TrimLeft(r) == r;
    assert TrimRight(r) == r;
  }

  // ----------------------------------------------------------------- ljust

  /** format(s, "<width"): s padded on the right with spaces to at least
      `width` characters, never truncated. */
  function LJust(s: string, width: nat): (r: string)
    ensures |r| == if |s| < width then width else |s|
    ensures r[..|s|] == s
    ensures forall k :: |s| <= k < |r| ==> r[k] == ' '
  {
    if |s| < width then s + Repeat(' ', width - |s|) else s
  }

  // ----------------------------------------------------------------- split

  /** s.split(sep) for a single-character separator: the fields between the
      occurrences of sep, one more field than there are separators. */
  function Split(s: string, sep: char): (r: seq<string>)
    ensures |r| >= 1
    ensures forall k :: 0 <= k < |r| ==> sep !in r[k]
    decreases |s|
  {
    if s == [] then [[]]
    else
      var rest := Split(s[1..], sep);
      if s[0] == sep then [[]] + rest
      else [[s[0]] + rest[0]] + rest[1..]
  }

  /** sep.join(parts). */
  function Join(parts: seq<string>, sep: char): string
  {
    if parts == [] then []
    else if |parts| == 1 then parts[0]
    else parts[0] + [sep] + Join(parts[1..], sep)
  }

  /** Joining the fields of a split gives back the split string. */
  lemma {:induction false} JoinSplit(s: string, sep: char)
    ensures Join(Split(s, sep), sep) == s
    decreases |s|
  {
    if s != [] {
      var rest := Split(s[1..], sep);
      JoinSplit(s[1..], sep);
      if s[0] != sep && |rest| > 1 {
        assert Join(rest, sep) == rest[0] + [sep] + Join(rest[1..], sep);
        assert ([s[0]] + rest[0]) + [sep] + Join(rest[1..], sep) == [s[0]] + Join(rest, sep);
      }
    }
  }

  lemma {:induction false} SplitNoSeparator(a: string, sep: char)
    requires sep !in a
    ensures Split(a, sep) == [a]
  {
    if a != [] {
      SplitNoSeparator(a[1..], sep);
      assert [a[0]] + a[1..] == a;
    }
  }

  lemma {:induction false} SplitAfterField(a: string, b: string, sep: char)
    requires sep !in a
    ensures Split(a + [sep] + b, sep) == [a] + Split(b, sep)
  {
    var s := a + [sep] + b;
    if a == [] {
      assert s[1..] == b;
    } else {
      assert s[1..] == a[1..] + [sep] + b;
      SplitAfterField(a[1..], b, sep);
      assert [a[0]] + a[1..] == a;
    }
  }

  /** Splitting a join of separator-free fields gives back the fields. */
  lemma {:induction false} SplitJoin(parts: seq<string>, sep: char)
    requires |parts| >= 1
    requires forall k :: 0 <= k < |parts| ==> sep !in parts[k]
    ensures Split(Join(parts, sep), sep) == parts
  {
    if |parts| == 1 {
      SplitNoSeparator(parts[0], sep);
    } else {
      SplitJoin(parts[1..], sep);
      SplitAfterField(parts[0], Join(parts[1..], sep), sep);
      assert [parts[0]] + parts[1..] == parts;
    }
  }

  // ------------------------------------------------------------ splitlines

  /** Index of the first line boundary in s, or |s| when there is none. */
  function FirstBreak(s: string): (k: nat)
    ensures k <= |s|
    ensures forall j :: 0 <= j < k ==> !IsLineBreak(s[j])
    ensures k < |s| ==> IsLineBreak(s[k])
  {
    if s == [] || IsLineBreak(s[0]) then 0 else 1 + FirstBreak(s[1..])
  }

  /** s.splitlines(): the lines of s without their terminators; "\r\n" is one
      terminator, and a terminator at the very end opens no further line. */
  function SplitLines(s: string): (r: seq<string>)
    ensures r == [] <==> s == []
    ensures forall k :: 0 <= k < |r| ==> NoBreak(r[k])
    decreases |s|
  {
    if s == [] then []
    else
      var k := FirstBreak(s);
      var next :=
        if k == |s| then k
        else if s[k] == '\r' && k + 1 < |s| && s[k + 1] == '\n' then k + 2
        else k + 1;
      [s[..k]] + SplitLines(s[next..])
  }

  /** The text of `lines`, each followed by the terminator `term`. */
  function Terminated(lines: seq<string>, term: string): string
  {
    if lines == [] then [] else lines[0] + term + Terminated(lines[1..], term)
  }

  /** Reading back lines written with "\n" or "\r\n" terminators, followed
      by any text, gives the lines and then whatever that text reads as. */
  lemma {:induction false} SplitLinesPrefix(lines: seq<string>, term: string, rest: string)
    requires term == "\n" || term == "\r\n"
    requires forall k :: 0 <= k < |lines| ==> NoBreak(lines[k])
    ensures SplitLines(Terminated(lines, term) + rest) == lines + SplitLines(rest)
  {
    if lines == [] {
      assert Terminated(lines, term) + rest == rest;
      assert lines + SplitLines(rest) == SplitLines(rest);
    } else {
      NoBreakTail(lines);
      SplitLinesPrefix(lines[1..], term, rest);
      PrefixCons(lines, term, rest);
    }
  }

  lemma PrefixCons(lines: seq<string>, term: string, rest: string)
    requires term == "\n" || term == "\r\n"
    requires lines != [] && NoBreak(lines[0])
    requires SplitLines(Terminated(lines[1..], term) + rest) == lines[1..] + SplitLines(rest)
    ensures SplitLines(Terminated(lines, term) + rest) == lines + SplitLines(rest)
  {
    var more := Terminated(lines[1..], term) + rest;
    TerminatedCons(lines, term, rest);
    SplitLinesStep(lines[0], term, more);
    ConsAppend(lines, SplitLines(rest));
  }

  lemma ConsAppend<T>(xs: seq<T>, ys: seq<T>)
    requires xs != []
    ensures [xs[0]] + (xs[1..] + ys) == xs + ys
  {
    assert xs == [xs[0]] + xs[1..];
  }

  lemma TerminatedCons(lines: seq<string>, term: string, rest: string)
    requires lines != []
    ensures Terminated(lines, term) + rest == lines[0] + term + (Terminated(lines[1..], term) + rest)
  {
  }

  /** A line without a break, followed by "\n" or "\r\n", is read as that
      line, and reading continues after the terminator. */
  lemma SplitLinesStep(l: string, term: string, rest: string)
    requires term == "\n" || term == "\r\n"
    requires NoBreak(l)
    ensures SplitLines(l + term + rest) == [l] + SplitLines(rest)
  {
    var s := l + term + rest;
    assert s[|l|] == term[0];
    assert s[..|l|] == l;
    assert FirstBreak(s) == |l|;
    assert s[|l| + |term|..] == rest;
  }

  lemma NoBreakTail(lines: seq<string>)
    requires lines != []
    requires forall k :: 0 <= k < |lines| ==> NoBreak(lines[k])
    ensures forall k :: 0 <= k < |lines[1..]| ==> NoBreak(lines[1..][k])
  {
    forall k | 0 <= k < |lines[1..]| ensures NoBreak(lines[1..][k]) {
      assert lines[1..][k] == lines[k + 1];
    }
  }

  /** Reading back lines written with "\n" or "\r\n" terminators gives the
      lines, empty ones included. */
  lemma SplitLinesTerminated(lines: seq<string>, term: string)
    requires term == "\n" || term == "\r\n"
    requires forall k :: 0 <= k < |lines| ==> NoBreak(lines[k])
    ensures SplitLines(Terminated(lines, term)) == lines
  {
    SplitLinesPrefix(lines, term, []);
    assert Terminated(lines, term) + [] == Terminated(lines, term);
    assert lines + [] == lines;
  }

  /** A non-empty line without a break, and nothing after it, is read as
      that one line. */
  lemma SplitLinesLast(last: string)
    requires last != [] && NoBreak(last)
    ensures SplitLines(last) == [last]
  {
    assert FirstBreak(last) == |last|;
    assert last[..|last|] == last && last[|last|..] == [];
  }

  /** Reading back lines written with "\n" or "\r\n" between them, with no
      terminator after a non-empty last line, gives the lines too. */
  lemma SplitLinesSeparated(lines: seq<string>, term: string, last: string)
    requires term == "\n" || term == "\r\n"
    requires forall k :: 0 <= k < |lines| ==> NoBreak(lines[k])
    requires last != [] && NoBreak(last)
    ensures SplitLines(Terminated(lines, term) + last) == lines + [last]
  {
    SplitLinesPrefix(lines, term, last);
    SplitLinesLast(last);
  }
}
