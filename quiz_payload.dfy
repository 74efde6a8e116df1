/** Pre-processing of the quiz generator's reply before it is parsed
    (Minor-Project-2/app.py:168-171): the reply is stripped, and when it is wrapped in
    three-backtick fences every fence line is removed. */
module QuizPayload {
  import opened PyStr

  const Fence := "```"

  /** A line whose stripped form starts with three backticks. */
  predicate IsFenceLine(line: string) {
    StartsWith(Strip(line), Fence)
  }

  /** The text both starts and ends with three backticks. */
  predicate IsFenced(text: string) {
    StartsWith(text, Fence) && EndsWith(text, Fence)
  }

  /** The lines for which `dropped` does not hold, in their order. */
  function Dropping(lines: seq<string>, dropped: string -> bool): seq<string> {
    if lines == [] then []
    else (if dropped(lines[0]) then [] else [lines[0]]) + Dropping(lines[1..], dropped)
  }

  /** The lines that are not fence lines, in their order. */
  function DropFenceLines(lines: seq<string>): seq<string> {
    Dropping(lines, IsFenceLine)
  }

  /** The text handed to the literal parser: the stripped reply, with its fence lines
      removed when it is fenced at both ends. */
  function CleanPayload(response: string): (cleaned: string)
    ensures !IsFenced(Strip(response)) ==> cleaned == Strip(response)
  {
    var text := Strip(response);
    if IsFenced(text) then Join(DropFenceLines(SplitLines(text)), "\n") else text
  }

  /** Every kept line is a line of the input for which `dropped` does not hold. */
  lemma {:induction false} DroppingSound(lines: seq<string>, dropped: string -> bool)
    ensures forall l | l in Dropping(lines, dropped) :: l in lines && !dropped(l)
  {
    if lines != [] {
      DroppingSound(lines[1..], dropped);
    }
  }

  /** Every line for which `dropped` does not hold is kept. */
  lemma {:induction false} DroppingKeeps(lines: seq<string>, dropped: string -> bool, line: string)
    requires line in lines && !dropped(line)
    ensures line in Dropping(lines, dropped)
  {
    if lines[0] != line {
      DroppingKeeps(lines[1..], dropped, line);
    }
  }

  /** Lines are dropped one at a time, so the kept lines stay in their order. */
  lemma {:induction false} DroppingAppend(a: seq<string>, b: seq<string>, dropped: string -> bool)
    ensures Dropping(a + b, dropped) == Dropping(a, dropped) + Dropping(b, dropped)
  {
    if a == [] {
      assert a + b == b;
    } else {
      assert (a + b)[0] == a[0];
      assert (a + b)[1..] == a[1..] + b;
      DroppingAppend(a[1..], b, dropped);
    }
  }

  /** After cleaning a fenced reply, no line of the text is a fence line any more. */
  lemma CleanedHasNoFenceLines(response: string)
    requires IsFenced(Strip(response))
    ensures forall line | line in SplitLines(CleanPayload(response)) :: !IsFenceLine(line)
  {
    var lines := SplitLines(Strip(response));
    var kept := DropFenceLines(lines);
    DroppingSound(lines, IsFenceLine);
    SplitLinesOfJoin(kept);
  }

  /** The lines of a cleaned fenced reply are exactly its non-fence lines, in order, apart
      from an empty last line, which a line split does not report. */
  lemma CleanedLines(response: string)
    requires IsFenced(Strip(response))
    ensures SplitLines(CleanPayload(response)) == DropEmptyLast(DropFenceLines(SplitLines(Strip(response))))
  {
    var lines := SplitLines(Strip(response));
    var kept := DropFenceLines(lines);
    DroppingSound(lines, IsFenceLine);
    SplitLinesOfJoin(kept);
  }
}
