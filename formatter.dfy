/** The text formatter `format_as_bullets` (Minor-Project-2/app.py:18-30): it turns an
    agent's raw reply into one list item per non-blank line, joined by `<br>`. */
module Formatter {
  import opened PyStr

  /** The marker put in front of a line that has none. */
  const Bullet := "- "
  /** What the items are joined with. */
  const LineSeparator := "<br>"
  /** The bullet character `•` that the marker pattern accepts beside `-`. */
  const Dot := '\U{2022}'

  predicate IsDigit(c: char) {
    '0' <= c <= '9'
  }

  /** The length of the run of digits that `line` starts with. */
  function DigitRun(line: string): (n: nat)
    ensures n <= |line|
    ensures forall k | 0 <= k < n :: IsDigit(line[k])
    ensures n < |line| ==> !IsDigit(line[n])
  {
    if |line| > 0 && IsDigit(line[0]) then 1 + DigitRun(line[1..]) else 0
  }

  /** `line` starts with `<digits>. `: digits, a full stop and one whitespace character. */
  predicate IsNumbered(line: string) {
    var n := DigitRun(line);
    0 < n && n + 1 < |line| && line[n] == '.' && IsSpace(line[n + 1])
  }

  /** `line` starts with `- ` or `• `: the marker and one whitespace character. */
  predicate IsBulleted(line: string) {
    2 <= |line| && (line[0] == '-' || line[0] == Dot) && IsSpace(line[1])
  }

  /** `line` matches `^(\d+\.\s|[-•]\s)`. */
  predicate HasMarker(line: string) {
    IsNumbered(line) || IsBulleted(line)
  }

  /** `line` starts with a run of `n` digits, a full stop and a whitespace character. */
  predicate NumberedAt(line: string, n: nat) {
    0 < n && n + 1 < |line|
    && (forall k | 0 <= k < n :: IsDigit(line[k])) && line[n] == '.' && IsSpace(line[n + 1])
  }

  /** `HasMarker` is the regular expression itself: one or more digits, a full stop and a
      whitespace character, or `-` or `•` and a whitespace character, at the start. */
  lemma MarkerPattern(line: string)
    ensures HasMarker(line) <==>
              (exists n: nat :: NumberedAt(line, n))
              || (2 <= |line| && (line[0] == '-' || line[0] == Dot) && IsSpace(line[1]))
  {
    var m := DigitRun(line);
    if IsNumbered(line) {
      assert NumberedAt(line, m);
    }
    if exists n: nat :: NumberedAt(line, n) {
      var n: nat :| NumberedAt(line, n);
      assert m <= n || IsDigit(line[n]);
    }
  }

  /** The item emitted for a stripped, non-blank line. */
  function ItemFor(line: string): string {
    if HasMarker(line) then line else Bullet + line
  }

  /** The stripped non-blank lines, in input order. */
  function NonBlank(lines: seq<string>): (r: seq<string>)
    ensures forall l | l in r :: l != "" && Strip(l) == l
  {
    if lines == [] then []
    else
      var line := Strip(lines[|lines| - 1]);
      if line == "" then NonBlank(lines[..|lines| - 1])
      else
        StripTrimmed(line);
        NonBlank(lines[..|lines| - 1]) + [line]
  }

  /** A non-empty string with no surrounding whitespace that starts with a marker. */
  predicate IsItem(item: string) {
    item != "" && !IsSpace(item[0]) && !IsSpace(item[|item| - 1]) && HasMarker(item)
  }

  /** The items the formatting loop appends for `lines`, one line after the other: each is
      non-empty, has no surrounding whitespace and starts with a marker. */
  function Items(lines: seq<string>): (items: seq<string>)
    ensures forall item | item in items :: IsItem(item)
  {
    if lines == [] then []
    else
      var line := Strip(lines[|lines| - 1]);
      if line == "" then Items(lines[..|lines| - 1])
      else
        ItemIsItem(line);
        Items(lines[..|lines| - 1]) + [ItemFor(line)]
  }

  /** The text `format_as_bullets` returns. */
  function Formatted(text: string): string {
    Join(Items(Split(Without(text, '*'), '\n')), LineSeparator)
  }

  /** Taking one more line appends that line's item, if it has one. */
  lemma ItemsStep(lines: seq<string>, i: nat)
    requires i < |lines|
    ensures Items(lines[..i + 1]) ==
              Items(lines[..i]) + (if Strip(lines[i]) == "" then [] else [ItemFor(Strip(lines[i]))])
  {
    assert lines[..i + 1][..i] == lines[..i];
  }

  /** `format_as_bullets`: removes every `*`, splits into lines, and appends one item per
      non-blank stripped line before joining the items with `<br>`. */
  method FormatAsBullets(text: string) returns (out: string)
    ensures out == Formatted(text)
  {
    var lines := Split(Without(text, '*'), '\n');
    var formatted: seq<string> := [];
    for i := 0 to |lines|
      invariant formatted == Items(lines[..i])
    {
      var line := Strip(lines[i]);
      ItemsStep(lines, i);
      if line != "" {
        if HasMarker(line) {
          formatted := formatted + [line];
        } else {
          formatted := formatted + [Bullet + line];
        }
      }
    }
    assert lines[..|lines|] == lines;
    out := Join(formatted, LineSeparator);
  }

  /** Every emitted item carries a list marker; a marked line is kept as it is, any other
      line gets exactly one `- `, and formatting an item again does not add a second one. */
  lemma ItemForMarks(line: string)
    ensures HasMarker(ItemFor(line))
    ensures ItemFor(line) == line <==> HasMarker(line)
    ensures !HasMarker(line) ==> ItemFor(line) == Bullet + line
    ensures ItemFor(ItemFor(line)) == ItemFor(line)
  {
  }

  /** One item per non-blank stripped line, in input order. */
  lemma {:induction false} ItemsFollowLines(lines: seq<string>)
    ensures |Items(lines)| == |NonBlank(lines)|
    ensures forall i | 0 <= i < |Items(lines)| :: Items(lines)[i] == ItemFor(NonBlank(lines)[i])
  {
    if lines != [] {
      ItemsFollowLines(lines[..|lines| - 1]);
    }
  }

  /** Lines that are already stripped and non-blank are all kept, in their order. */
  lemma {:induction false} NonBlankKeepsLines(lines: seq<string>)
    requires forall l | l in lines :: l != "" && Strip(l) == l
    ensures NonBlank(lines) == lines
  {
    if lines != [] {
      var init := lines[..|lines| - 1];
      assert forall l | l in init :: l in lines;
      assert lines[|lines| - 1] in lines;
      NonBlankKeepsLines(init);
      assert init + [lines[|lines| - 1]] == lines;
    }
  }

  /** No item holds a character that none of the lines holds and that is not in `- `. */
  lemma {:induction false} ItemsAvoid(lines: seq<string>, c: char)
    requires c !in Bullet
    requires forall l | l in lines :: c !in l
    ensures forall item | item in Items(lines) :: c !in item
  {
    if lines != [] {
      ItemsAvoid(lines[..|lines| - 1], c);
      assert lines[|lines| - 1] in lines;
    }
  }

  /** The output contains no `*`, because every `*` is removed before anything else happens,
      and no newline, because the items are joined by `<br>`. */
  lemma NoStarsOrNewlines(text: string)
    ensures '*' !in Formatted(text)
    ensures '\n' !in Formatted(text)
  {
    var stripped := Without(text, '*');
    var lines := Split(stripped, '\n');
    SplitAvoids(stripped, '\n', '*');
    ItemsAvoid(lines, '*');
    ItemsAvoid(lines, '\n');
    var items := Items(lines);
    JoinAvoids(items, LineSeparator, '*');
    JoinAvoids(items, LineSeparator, '\n');
  }

  /** A marker at the start of `a` is still one at the start of `a + b`. */
  lemma MarkerPrefix(a: string, b: string)
    requires HasMarker(a)
    ensures HasMarker(a + b)
  {
    var s := a + b;
    assert forall k | 0 <= k < |a| :: s[k] == a[k];
    if IsNumbered(a) {
      var n := DigitRun(a);
      var m := DigitRun(s);
      assert !IsDigit(s[n]);
      assert m <= n;
    }
  }

  /** The item for a stripped, non-blank line is an item. */
  lemma ItemIsItem(line: string)
    requires line != "" && !IsSpace(line[0]) && !IsSpace(line[|line| - 1])
    ensures IsItem(ItemFor(line))
  {
    ItemForMarks(line);
  }

  /** Items joined by `<br>`, if there are any, have no surrounding whitespace and start
      with a marker. */
  lemma JoinedItemsShape(items: seq<string>)
    requires forall item | item in items :: IsItem(item)
    ensures var out := Join(items, LineSeparator);
            out == "" || IsItem(out)
  {
    if items != [] {
      var out := Join(items, LineSeparator);
      JoinEnds(items, LineSeparator);
      assert items[0] in items && items[|items| - 1] in items;
      var first, last := items[0], items[|items| - 1];
      assert IsItem(first) && IsItem(last);
      assert out == first + out[|first|..];
      MarkerPrefix(first, out[|first|..]);
      assert out[0] == first[0] && out[|out| - 1] == last[|last| - 1];
    }
  }

  /** A non-empty formatted text has no surrounding whitespace and starts with a marker. */
  lemma FormattedShape(text: string)
    ensures var out := Formatted(text);
            out == "" || IsItem(out)
  {
    JoinedItemsShape(Items(Split(Without(text, '*'), '\n')));
  }

  /** A single line without `*` that is blank-free at both ends and already marked is
      formatted as itself. */
  lemma FormatsToItself(line: string)
    requires '*' !in line && '\n' !in line
    requires line == "" || IsItem(line)
    ensures Formatted(line) == line
  {
    assert Without(line, '*') == line;
    assert Split(line, '\n') == [line];
    assert Items([line]) == Items([]) + (if Strip(line) == "" then [] else [ItemFor(Strip(line))]);
    StripTrimmed(line);
  }

  /** Formatting is idempotent: a formatted text is a single line that already starts with a
      marker and has no surrounding whitespace, so a second pass returns it unchanged. */
  lemma FormattedIdempotent(text: string)
    ensures Formatted(Formatted(text)) == Formatted(text)
  {
    NoStarsOrNewlines(text);
    FormattedShape(text);
    FormatsToItself(Formatted(text));
  }
}
