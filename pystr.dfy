/** The few operations of Python's `str` type that the tutoring core relies on:
    `isspace`, `strip`, `split` on one character, `splitlines`, `startswith`,
    `endswith`, `join` and removing every occurrence of one character. */
module PyStr {

  /** Python's `str.isspace()` on one character (also what `\s` matches in a `str` regex). */
  predicate IsSpace(c: char) {
    ('\t' <= c <= '\r') || ('\U{1c}' <= c <= '\U{1f}') || c == ' ' || c == '\U{85}' || c == '\U{a0}'
    || c == '\U{1680}' || ('\U{2000}' <= c <= '\U{200a}') || c == '\U{2028}' || c == '\U{2029}'
    || c == '\U{202f}' || c == '\U{205f}' || c == '\U{3000}'
  }

  /** The characters at which Python's `str.splitlines()` ends a line. */
  predicate IsLineBreak(c: char) {
    ('\n' <= c <= '\r') || ('\U{1c}' <= c <= '\U{1e}') || c == '\U{85}' || c == '\U{2028}' || c == '\U{2029}'
  }

  predicate NoLineBreaks(s: string) {
    forall k | 0 <= k < |s| :: !IsLineBreak(s[k])
  }

  predicate StartsWith(s: string, prefix: string) {
    |prefix| <= |s| && s[..|prefix|] == prefix
  }

  predicate EndsWith(s: string, suffix: string) {
    |suffix| <= |s| && s[|s| - |suffix|..] == suffix
  }

  /** Drops the leading whitespace: the result is the suffix of `s` that starts at its
      first non-space character. */
  function TrimLeft(s: string): (r: string)
    ensures |r| <= |s| && r == s[|s| - |r|..]
    ensures forall k | 0 <= k < |s| - |r| :: IsSpace(s[k])
    ensures r == [] || !IsSpace(r[0])
    decreases |s|
  {
    if |s| > 0 && IsSpace(s[0]) then TrimLeft(s[1..]) else s
  }

  /** Drops the trailing whitespace: the result is the prefix of `s` that ends at its
      last non-space character. */
  function TrimRight(s: string): (r: string)
    ensures |r| <= |s| && r == s[..|r|]
    ensures forall k | |r| <= k < |s| :: IsSpace(s[k])
    ensures r == [] || !IsSpace(r[|r| - 1])
    decreases |s|
  {
    if |s| > 0 && IsSpace(s[|s| - 1]) then TrimRight(s[..|s| - 1]) else s
  }

  /** Python's `str.strip()` with no argument. */
  function Strip(s: string): (r: string)
    ensures r == [] || (!IsSpace(r[0]) && !IsSpace(r[|r| - 1]))
    ensures r == [] <==> forall k | 0 <= k < |s| :: IsSpace(s[k])
    ensures forall c | c in r :: c in s
  {
    var t := TrimLeft(s);
    var r := TrimRight(t);
    assert forall c | c in r :: c in t;
    assert r != [] ==> r[0] == s[|s| - |t|] && !IsSpace(s[|s| - |t|]);
    r
  }

  /** A string with no surrounding whitespace is its own strip. */
  lemma StripTrimmed(s: string)
    requires s == [] || (!IsSpace(s[0]) && !IsSpace(s[|s| - 1]))
    ensures Strip(s) == s
  {
  }

  /** Every character of `s` other than `c`, in order (`re.sub` with a one-character pattern). */
  function Without(s: string, c: char): (r: string)
    ensures c !in r
    ensures forall x | x in r :: x in s
    ensures c !in s ==> r == s
  {
    if s == [] then []
    else (if s[0] == c then [] else [s[0]]) + Without(s[1..], c)
  }

  /** Removing a character works piece by piece, so every other character is kept, in its
      order. */
  lemma {:induction false} WithoutAppend(a: string, b: string, c: char)
    ensures Without(a + b, c) == Without(a, c) + Without(b, c)
    decreases |a|
  {
    if a == [] {
      assert a + b == b;
    } else {
      assert (a + b)[0] == a[0];
      assert (a + b)[1..] == a[1..] + b;
      WithoutAppend(a[1..], b, c);
    }
  }

  /** A single character is kept exactly when it is not `c`; with `WithoutAppend` this fixes
      `Without` on every text. */
  lemma WithoutOne(x: char, c: char)
    ensures Without([x], c) == if x == c then [] else [x]
  {
  }

  /** The index of the first occurrence of `c` in `s`. */
  function IndexOf(s: string, c: char): (i: nat)
    requires c in s
    ensures i < |s| && s[i] == c && c !in s[..i]
  {
    if s[0] == c then 0 else 1 + IndexOf(s[1..], c)
  }

  /** Python's `str.join`: the parts with `sep` between each two neighbours. */
  function Join(parts: seq<string>, sep: string): string {
    if |parts| == 0 then ""
    else if |parts| == 1 then parts[0]
    else parts[0] + sep + Join(parts[1..], sep)
  }

  /** Python's `s.split(sep)` for a one-character separator: never empty, and no part
      holds the separator. */
  function Split(s: string, sep: char): (parts: seq<string>)
    ensures |parts| >= 1
    ensures forall p | p in parts :: sep !in p
    decreases |s|
  {
    if sep !in s then [s]
    else
      var i := IndexOf(s, sep);
      [s[..i]] + Split(s[i + 1..], sep)
  }

  /** Joining a part in front of at least one more puts the separator between them. */
  lemma JoinCons(head: string, rest: seq<string>, sep: string)
    requires |rest| >= 1
    ensures Join([head] + rest, sep) == head + sep + Join(rest, sep)
  {
    assert ([head] + rest)[1..] == rest;
  }

  /** Splitting and joining back with the same separator gives the original text. */
  lemma {:induction false} SplitJoin(s: string, sep: char)
    ensures Join(Split(s, sep), [sep]) == s
    decreases |s|
  {
    if sep in s {
      var i := IndexOf(s, sep);
      var rest := Split(s[i + 1..], sep);
      SplitJoin(s[i + 1..], sep);
      assert Split(s, sep) == [s[..i]] + rest;
      JoinCons(s[..i], rest, [sep]);
    }
  }

  /** A character that is not in the text is in none of its parts. */
  lemma {:induction false} SplitAvoids(s: string, sep: char, c: char)
    requires c !in s
    ensures forall p | p in Split(s, sep) :: c !in p
    decreases |s|
  {
    if sep in s {
      var i := IndexOf(s, sep);
      assert forall x | x in s[..i] :: x in s;
      assert forall x | x in s[i + 1..] :: x in s;
      SplitAvoids(s[i + 1..], sep, c);
    }
  }

  /** A character that is neither in the separator nor in any part is not in the join. */
  lemma {:induction false} JoinAvoids(parts: seq<string>, sep: string, c: char)
    requires c !in sep
    requires forall p | p in parts :: c !in p
    ensures c !in Join(parts, sep)
    decreases |parts|
  {
    if |parts| > 1 {
      JoinAvoids(parts[1..], sep, c);
    }
  }

  /** A non-empty join starts with its first part and ends with its last part. */
  lemma {:induction false} JoinEnds(parts: seq<string>, sep: string)
    requires |parts| >= 1
    ensures |Join(parts, sep)| >= |parts[0]| && Join(parts, sep)[..|parts[0]|] == parts[0]
    ensures var j, last := Join(parts, sep), parts[|parts| - 1];
            |j| >= |last| && j[|j| - |last|..] == last
    decreases |parts|
  {
    if |parts| > 1 {
      JoinEnds(parts[1..], sep);
      var j, tail := Join(parts, sep), Join(parts[1..], sep);
      assert j == parts[0] + sep + tail;
      assert j[..|parts[0]|] == parts[0];
      var last := parts[|parts| - 1];
      assert parts[1..][|parts| - 2] == last;
      assert j[|j| - |last|..] == tail[|tail| - |last|..];
    }
  }

  /** The index of the first line break in `s`, or `|s|` when there is none. */
  function LineEnd(s: string): (i: nat)
    ensures i <= |s|
    ensures i < |s| ==> IsLineBreak(s[i])
    ensures forall k | 0 <= k < i :: !IsLineBreak(s[k])
  {
    if s == [] || IsLineBreak(s[0]) then 0 else 1 + LineEnd(s[1..])
  }

  /** How many characters the line break at `s[i]` takes: `\r\n` counts as one break. */
  function BreakWidth(s: string, i: nat): nat
    requires i < |s|
  {
    if s[i] == '\r' && i + 1 < |s| && s[i + 1] == '\n' then 2 else 1
  }

  /** Python's `str.splitlines()`: the lines without their terminators; no empty last line
      is produced for a text that ends with a line break, and "" has no lines at all. */
  function SplitLines(s: string): (lines: seq<string>)
    ensures forall l | l in lines :: NoLineBreaks(l)
    decreases |s|
  {
    if s == [] then []
    else
      var i := LineEnd(s);
      if i == |s| then [s]
      else [s[..i]] + SplitLines(s[i + BreakWidth(s, i)..])
  }

  /** `lines` without its last element when that element is empty. */
  function DropEmptyLast(lines: seq<string>): seq<string> {
    if |lines| > 0 && lines[|lines| - 1] == "" then lines[..|lines| - 1] else lines
  }

  /** The line-break position of a text made of a break-free line, a break and more. */
  lemma LineEndAfterLine(line: string, b: char, rest: string)
    requires NoLineBreaks(line) && IsLineBreak(b)
    ensures LineEnd(line + [b] + rest) == |line|
  {
    var s := line + [b] + rest;
    assert s[|line|] == b;
    assert forall k | 0 <= k < |line| :: s[k] == line[k];
  }

  /** A break-free line followed by a one-character break (any break other than a `\r` that
      starts `\r\n`) is split off as one line. */
  lemma SplitLinesAfterBreak(line: string, b: char, rest: string)
    requires NoLineBreaks(line) && IsLineBreak(b)
    requires b == '\r' ==> rest == [] || rest[0] != '\n'
    ensures SplitLines(line + [b] + rest) == [line] + SplitLines(rest)
  {
    var s := line + [b] + rest;
    LineEndAfterLine(line, b, rest);
    assert s[..|line|] == line;
    assert s[|line| + 1..] == rest;
    assert BreakWidth(s, |line|) == 1 by {
      if b == '\r' && |line| + 1 < |s| {
        assert s[|line| + 1] == rest[0];
      }
    }
  }

  /** A break-free line followed by `\r\n` is split off as one line: the pair is one break. */
  lemma SplitLinesAfterCrLf(line: string, rest: string)
    requires NoLineBreaks(line)
    ensures SplitLines(line + "\r\n" + rest) == [line] + SplitLines(rest)
  {
    var s := line + "\r\n" + rest;
    assert s == line + ['\r'] + ("\n" + rest);
    LineEndAfterLine(line, '\r', "\n" + rest);
    assert s[|line| + 1] == '\n';
    assert BreakWidth(s, |line|) == 2;
    assert s[..|line|] == line;
    assert s[|line| + 2..] == rest;
  }

  /** A non-empty break-free text is one line. */
  lemma SplitLinesOfLine(line: string)
    requires NoLineBreaks(line) && line != ""
    ensures SplitLines(line) == [line]
  {
  }

  /** Dropping an empty last line does not touch the first line of a longer list. */
  lemma DropEmptyLastCons(head: string, rest: seq<string>)
    requires |rest| >= 1
    ensures DropEmptyLast([head] + rest) == [head] + DropEmptyLast(rest)
  {
    var lines := [head] + rest;
    assert lines[|lines| - 1] == rest[|rest| - 1];
    if rest[|rest| - 1] == "" {
      assert lines[..|lines| - 1] == [head] + rest[..|rest| - 1];
    }
  }

  /** Joining break-free lines with "\n" and splitting the text again gives the lines back,
      except for an empty last line, which `splitlines` does not report. */
  lemma {:induction false} SplitLinesOfJoin(lines: seq<string>)
    requires forall l | l in lines :: NoLineBreaks(l)
    ensures SplitLines(Join(lines, "\n")) == DropEmptyLast(lines)
    decreases |lines|
  {
    if |lines| == 1 {
      if lines[0] != "" {
        SplitLinesOfLine(lines[0]);
      }
    } else if |lines| > 1 {
      var head, rest := lines[0], lines[1..];
      assert lines == [head] + rest;
      assert NoLineBreaks(head);
      assert forall l | l in rest :: l in lines;
      var tail := Join(rest, "\n");
      assert Join(lines, "\n") == head + "\n" + tail;
      SplitLinesAfterBreak(head, '\n', tail);
      SplitLinesOfJoin(rest);
      DropEmptyLastCons(head, rest);
    }
  }

  /** Leading whitespace is all that `TrimLeft` removes before a non-space character. */
  lemma {:induction false} TrimLeftSkips(padding: string, rest: string)
    requires forall k | 0 <= k < |padding| :: IsSpace(padding[k])
    requires rest != [] && !IsSpace(rest[0])
    ensures TrimLeft(padding + rest) == rest
    decreases |padding|
  {
    if padding != [] {
      assert (padding + rest)[1..] == padding[1..] + rest;
      TrimLeftSkips(padding[1..], rest);
    } else {
      assert padding + rest == rest;
    }
  }

  /** Trailing whitespace is all that `TrimRight` removes after a non-space character. */
  lemma {:induction false} TrimRightSkips(body: string, padding: string)
    requires forall k | 0 <= k < |padding| :: IsSpace(padding[k])
    requires body != [] && !IsSpace(body[|body| - 1])
    ensures TrimRight(body + padding) == body
    decreases |padding|
  {
    if padding != [] {
      var shorter := padding[..|padding| - 1];
      assert (body + padding)[..|body + padding| - 1] == body + shorter;
      TrimRightSkips(body, shorter);
    } else {
      assert body + padding == body;
    }
  }

  /** Stripping removes exactly the whitespace before and after a text that has none at
      either end of its own. */
  lemma StripPadded(lead: string, body: string, trail: string)
    requires forall k | 0 <= k < |lead| :: IsSpace(lead[k])
    requires forall k | 0 <= k < |trail| :: IsSpace(trail[k])
    requires body == [] || (!IsSpace(body[0]) && !IsSpace(body[|body| - 1]))
    ensures Strip(lead + body + trail) == body
  {
    var s := lead + body + trail;
    if body == [] {
      assert forall k | 0 <= k < |s| :: s[k] == if k < |lead| then lead[k] else trail[k - |lead|];
    } else {
      assert s == lead + (body + trail);
      TrimLeftSkips(lead, body + trail);
      TrimRightSkips(body, trail);
    }
  }
}
