# Intelligent Tutoring System — a Dafny model of its core

The tutoring web app sends a learner's query to a language model. The model picks one of
four agents (coach, tutor, quiz generator, roadmap). The chosen agent's reply is shown as a
bulleted list, or, for the quiz generator, parsed into a multiple-choice quiz. The quiz is
then played one question at a time, and its state is kept in the user's session.

This project models the four pieces of `Minor-Project-2/app.py` that hold logic:

- **Text formatter** (`format_as_bullets`), module `Formatter` in `formatter.dfy`. The
  method `FormatAsBullets` keeps the source's loop, which appends to a list. It is proved
  to return `Formatted(text)`. Lemmas about `Formatted` show that the output has no `*` and
  has one item per non-blank line, in order. Every item carries a list marker, a line that
  already had one is kept as it is, and formatting twice changes nothing.
- **Router fallback** (`MasterAgent.get_agent`), module `Router` in `router.dfy`. It is a
  pure function from the completion service's reply, or its failure, to an agent.
- **Quiz payload cleaning** (fence stripping in `ask`), module `QuizPayload` in
  `quiz_payload.dfy`. It is a pure function with lemmas about the lines it keeps.
- **Quiz state machine** (quiz loading in `ask`, and the `/quiz` handler), module `Quiz` in
  `quiz.dfy`. The session's quiz keys are the fields of class `Session`. Each method is
  proved to move the session from `old(Snapshot())` to the image of a pure transition
  function: `AfterLoad`, `WithDefaults`, `AfterSubmit`, `AfterNext`, or `Step` for a whole
  request. Module `QuizProperties` in `quiz_properties.dfy` proves what these transitions
  guarantee, one at a time and over a whole run of answers. It also proves what they do not
  guarantee, because the handler has no guards.

Module `PyStr` in `pystr.dfy` gives the Python string operations the code relies on:
`str.isspace` (the full Unicode whitespace set), `strip`, `split` on one character,
`splitlines` (all of its line boundaries, with `\r\n` as one), `startswith`, `endswith`,
`join`, and removing one character everywhere. Module `Wrappers` in `wrappers.dfy` holds an
`Option` type for Python's `None` and for absent session keys.

External inputs are parameters. The language model's router reply is `Router.Reply`: text,
or `Failed` for an exception. The quiz generator's reply is a string. `ast.literal_eval` is a
parameter `parse: string -> Option<seq<Question>>`. A form post is `Quiz.Request`, a map
from field names to values.

The code has no guards where a reader might expect them, and the model follows the code:

- A second submit of the same question counts again (`DoubleSubmitCountsTwice`).
- `next` does not require a submitted answer (`NextSkipsUnanswered`).
- Loading a quiz does not reset `submitted` or `feedback` (see Findings).
- A question list of any length is accepted as it is, with no padding or truncation to ten.

## Model

| member | source | states |
|---|---|---|
| `PyStr.Strip` | Minor-Project-2/app.py:23 | the result has no whitespace at either end, it is empty exactly when the input is all whitespace, and it holds only characters of the input |
| `PyStr.Without` | Minor-Project-2/app.py:19 | the removed character is gone, every other character comes from the input, and a text without it is returned unchanged |
| `PyStr.WithoutAppend` | Minor-Project-2/app.py:19 | removing a character from a concatenation removes it from each piece, so the kept characters stay in order |
| `PyStr.WithoutOne` | Minor-Project-2/app.py:19 | a single character is kept exactly when it is not the removed one; with `WithoutAppend` this fixes the result for every text |
| `PyStr.Split` | Minor-Project-2/app.py:20 | at least one part, and no part holds the separator |
| `PyStr.SplitAvoids` | Minor-Project-2/app.py:20 | a character that is not in the text is in none of its parts |
| `PyStr.SplitJoin` | Minor-Project-2/app.py:20 | splitting on a character and joining back with it gives the original text |
| `PyStr.SplitLines` | Minor-Project-2/app.py:171 | no line returned by `splitlines` holds a line boundary |
| `PyStr.SplitLinesAfterBreak` | Minor-Project-2/app.py:171 | a break-free line followed by any one-character line boundary (`\n`, `\r` not followed by `\n`, `\v`, `\f`, `\x1c`-`\x1e`, `\x85`, U+2028, U+2029) is split off as one line before the lines of the rest |
| `PyStr.SplitLinesAfterCrLf` | Minor-Project-2/app.py:171 | a break-free line followed by `\r\n` is split off as one line: the pair is one boundary, with no empty line between |
| `PyStr.SplitLinesOfLine` | Minor-Project-2/app.py:171 | a non-empty text without boundaries is a single line |
| `PyStr.SplitLinesOfJoin` | Minor-Project-2/app.py:171 | joining break-free lines with a newline and splitting again gives the lines back, except for an empty last line |
| `PyStr.StripPadded` | Minor-Project-2/app.py:109 | for any whitespace before and any whitespace after a text that has none at either end, stripping returns exactly that text, so only the surrounding whitespace is removed |
| `Formatter.Items` | Minor-Project-2/app.py:22-29 | every item the loop appends is non-empty, has no whitespace at either end and starts with `<digits>. `, `- ` or `• ` |
| `Formatter.ItemsStep` | Minor-Project-2/app.py:22-29 | one more line appends that line's item when its stripped form is non-blank, and nothing otherwise |
| `Formatter.FormatAsBullets` | Minor-Project-2/app.py:18-30 | the loop that appends one item per non-blank stripped line returns exactly `Formatted(text)` |
| `Formatter.NoStarsOrNewlines` | Minor-Project-2/app.py:19-30 | the formatted text contains no `*`, since every `*` is removed first, and no newline, since the items are joined by `<br>` |
| `Formatter.ItemsFollowLines` | Minor-Project-2/app.py:20-29 | there is exactly one item per non-blank stripped line, in input order, and item i is the item for line i |
| `Formatter.NonBlankKeepsLines` | Minor-Project-2/app.py:22-25 | lines that are already stripped and non-blank are all kept, in order |
| `Formatter.MarkerPattern` | Minor-Project-2/app.py:26 | `HasMarker` holds exactly when the line matches `^(\d+\.\s|[-•]\s)`: some run of one or more digits followed by `.` and a whitespace character, or `-` or `•` followed by a whitespace character |
| `Formatter.ItemForMarks` | Minor-Project-2/app.py:26-29 | every item carries a marker; an item equals its line exactly when the line starts with `<digits>. `, `- ` or `• `; any other line gets exactly one `- `; re-formatting an item adds nothing |
| `Formatter.JoinedItemsShape` | Minor-Project-2/app.py:30 | items joined by `<br>` start with the first item's marker and have no whitespace at either end |
| `Formatter.FormattedShape` | Minor-Project-2/app.py:26-30 | a non-empty formatted text starts with a list marker and has no whitespace at either end |
| `Formatter.FormattedIdempotent` | Minor-Project-2/app.py:18-30 | formatting a formatted text returns it unchanged, so nothing is bulleted twice |
| `Router.KindNamed` | Minor-Project-2/app.py:110 | a name selects an agent exactly when it is one of the four agent names, and it selects the agent with that name |
| `Router.GetAgent` | Minor-Project-2/app.py:107-114 | the result is always one of the four agents; on failure it is the coach; for a reply, the agent's name equals the stripped reply exactly when the stripped reply is one of the four names, and otherwise the agent is the coach |
| `Router.NameRoundTrip` | Minor-Project-2/app.py:110-111 | agent names are distinct, and each name reads back as its agent |
| `Router.EveryAgentSelectable` | Minor-Project-2/app.py:109-111 | a reply that is an agent's name with any whitespace before and after it (such as a trailing newline) selects that agent |
| `QuizPayload.CleanPayload` | Minor-Project-2/app.py:168-171 | a stripped reply that does not both start and end with three backticks is passed on unchanged |
| `QuizPayload.CleanedHasNoFenceLines` | Minor-Project-2/app.py:170-171 | after cleaning a fenced reply, no line's stripped form starts with three backticks |
| `QuizPayload.CleanedLines` | Minor-Project-2/app.py:170-171 | the lines of a cleaned fenced reply are exactly its non-fence lines, in order, except for an empty last line |
| `QuizPayload.DroppingSound` | Minor-Project-2/app.py:171 | every kept line is an input line that the filter does not drop; for fence lines, one whose stripped form does not start with three backticks |
| `QuizPayload.DroppingKeeps` | Minor-Project-2/app.py:171 | every line that the filter does not drop is kept |
| `QuizPayload.DroppingAppend` | Minor-Project-2/app.py:171 | lines are dropped one at a time, so filtering two blocks of lines is filtering each, and the kept lines keep their relative order |
| `Quiz.WithDefaults` | Minor-Project-2/app.py:203-208 | an absent `score` becomes 0, an absent `submitted` becomes false and an absent `wrong_answers` becomes `[]`; present values and every other key are kept, so a session that had all three is unchanged |
| `Quiz.ActionOf` | Minor-Project-2/app.py:210-225 | a GET only shows the page; a POST with `submit` answers with its `option` field, or with none when it is missing, and `submit` is tested before `next`; a POST with `next` and no `submit` advances; the page is only shown exactly for a GET or a POST with neither field |
| `Quiz.ViewOf` | Minor-Project-2/app.py:231-250 | the question page is shown exactly while `q_index < len(questions)`, numbered `q_index + 1` of `len(questions)`, with the current question, options, feedback and submitted flag; otherwise the result page shows the score, total and wrong-answer log; both carry the topic |
| `Quiz.Session.LoadQuiz` | Minor-Project-2/app.py:166-181 | the session moves to `AfterLoad`: the topic is always set; a parsed payload is stored as parsed, with score 0, index 0 and an empty log; a failed parse returns the cleaned text |
| `Quiz.Session.ApplyDefaults` | Minor-Project-2/app.py:203-208 | the session moves to `WithDefaults` of its old state |
| `Quiz.Session.Submit` | Minor-Project-2/app.py:211-224 | the session moves to `AfterSubmit` of its old state and the selected option |
| `Quiz.Session.Next` | Minor-Project-2/app.py:225-228 | the session moves to `AfterNext` of its old state |
| `Quiz.Session.Handle` | Minor-Project-2/app.py:200-250 | one request moves the session to `Step` of its old state; it returns a redirect after `next` and the view of the new state otherwise |
| `QuizProperties.SubmitOutcome` | Minor-Project-2/app.py:211-224 | a correct choice adds exactly 1 to the score and leaves the log alone; any other choice (including no option) leaves the score alone and logs `{question, correct, options}` of the current question; either way `submitted` is set and the index does not change |
| `QuizProperties.NextOutcome` | Minor-Project-2/app.py:225-228 | the index goes up by one, feedback is cleared, `submitted` is false, and the questions, score and log are unchanged |
| `QuizProperties.SubmitKeepsTally` | Minor-Project-2/app.py:211-224 | submitting an unanswered question keeps the count `score + len(wrong_answers)` equal to the questions answered |
| `QuizProperties.NextKeepsTally` | Minor-Project-2/app.py:225-228 | moving on from a submitted question keeps that count |
| `QuizProperties.DoubleSubmitCountsTwice` | Minor-Project-2/app.py:211-224 | submit does not check `submitted`: a second submit adds 2 to the score, or logs the question twice, and breaks the count |
| `QuizProperties.NextSkipsUnanswered` | Minor-Project-2/app.py:225-228 | next does not check `submitted`: moving on from an unanswered question breaks the count |
| `QuizProperties.CountPlusMissed` | Minor-Project-2/app.py:214-223 | each answer of a run lands either in the score or in the log |
| `QuizProperties.RoundOutcome` | Minor-Project-2/app.py:211-228 | one answer followed by next advances by one, clears the answer state, and scores or logs the answer |
| `QuizProperties.PlayMoves` | Minor-Project-2/app.py:211-228 | a run of answers, each followed by next, moves the index past them, keeps the questions and topic, and leaves no answer pending |
| `QuizProperties.PlayOutcome` | Minor-Project-2/app.py:211-228 | a run of answers, each followed by next, adds the correct ones to the score and logs the others, in order |
| `QuizProperties.PlayKeepsTally` | Minor-Project-2/app.py:211-228 | answering each question once and moving on keeps the count |
| `QuizProperties.AllWrongCounts` | Minor-Project-2/app.py:214-223 | when every answer is wrong, nothing is counted and every question answered is logged in order |
| `QuizProperties.AllRightCounts` | Minor-Project-2/app.py:214-216 | when every answer is right, each counts and nothing is logged |
| `QuizProperties.AfterLoadOutcome` | Minor-Project-2/app.py:166-181 | a successful load stores the parsed questions unchanged, with no truncation or padding to ten, plus index 0, score 0 and an empty log; a failed parse changes only the topic |
| `QuizProperties.LoadTallyIff` | Minor-Project-2/app.py:174-178 | as written, loading keeps `submitted` and `feedback`, and the count holds afterwards exactly when no answer was left submitted |
| `QuizProperties.StaleSubmittedAfterLoad` | Minor-Project-2/app.py:174-178 | a learner who submitted an answer and then loads a new quiz sees its first question already submitted, with the old feedback |
| `QuizProperties.FreshLoadStartsClean` | Minor-Project-2/app.py:174-178 | with the answer state cleared on load, a quiz starts at question 1 of n with nothing submitted and no feedback, or at the result page for an empty quiz |
| `QuizProperties.LoadsStart` | Minor-Project-2/app.py:174-178 | the load as written, after the handler's defaults (203-208), starts the quiz at index 0 with score 0, an empty log, the topic and the parsed questions; so does the corrected load |
| `QuizProperties.FullRun` | Minor-Project-2/app.py:211-250 | a started quiz answered question by question ends on the result page, with the correct answers as the score and the others logged in order |
| `QuizProperties.AllWrongRun` | Minor-Project-2/app.py:174-250 | a quiz loaded as the code loads it and answered wrongly throughout ends with score 0, every question logged in order, and the result page |
| `QuizProperties.AllRightRun` | Minor-Project-2/app.py:174-250 | a quiz loaded as the code loads it and answered rightly throughout ends with full marks, an empty log, and the result page |
| `QuizProperties.EmptyQuizShowsResult` | Minor-Project-2/app.py:231-250 | with no questions, a request that only shows the page (a GET, or a POST with neither `submit` nor `next`) shows the result page with total 0; a `submit` there raises `IndexError` at line 213 and is excluded |

## Left out

- The language model calls are not modelled (`genai.configure`, `GenerativeModel`, `generate_content`, app.py:12, 35-42, 92, 108). Neither is `BaseAgent.respond`'s error-string wrapper. They are an external network service. The router sees the reply only as text or `Failed`, and the quiz loader sees the generator's reply only as a string.
- The prompt templates of the four agents and of the router (app.py:44-88, 95-106) are not modelled. They are plain string interpolation.
- `ast.literal_eval` is a parameter. A literal that is not a list of records with `question`, `options` and `answer` is not modelled: the code would store it, and a later request would raise an exception (`TypeError`, `KeyError` or `IndexError`). `parse` either gives such a list or fails.
- `Router.GetAgent` returns an agent kind rather than its class name. `Router.Name` maps one to the other, and `NameRoundTrip` shows that the mapping is one-to-one.
- The `/ask` dispatch to the coach, tutor and roadmap agents, and the `"Unknown agent assigned."` branch, are not modelled (app.py:183-193). They are framework glue between the router and the formatter.
- Sign-up, login, logout, the `student_id` checks, `render_template` and `redirect` are not modelled (app.py:116-157, 197-198). They are web-framework and authentication scaffolding. `Quiz.Session.Handle` models the handler for a signed-in user.
- `Quiz.Session.Submit` requires `q_index < len(questions)`. On other input the code raises `IndexError` and the request fails; that crash is not modelled.
- `Formatter.IsNumbered` treats `\d` as the ASCII digits 0-9. Python's `\d` also matches the other Unicode decimal digits.
- The order of a question's options is not modelled. Options are a map from label to text, while the code keeps a Python dict in insertion order.
- A form field sent twice is modelled by one value. Flask's `form.get` returns the first value.
- Two requests that race on the same session are not modelled. The code has no locking, and such races are not sequential logic.
- Strip: its own contract gives only the shape of the result; that exactly the surrounding whitespace is removed is stated by `PyStr.StripPadded`, for any text.
- Without: its own contract does not order the kept characters; `PyStr.WithoutAppend` and `PyStr.WithoutOne` together fix the result for every text.
- SplitLines: its own contract gives only break-free lines; which lines come out is stated one boundary at a time by `PyStr.SplitLinesAfterBreak`, `PyStr.SplitLinesAfterCrLf` and `PyStr.SplitLinesOfLine`.
- The text of the exception in the failure page `Failed to load quiz: {e}` is not modelled. `LoadFailed` carries only the cleaned text.

## Findings

| source | as written | input that shows it | evidently intended | confidence | as-written member | corrected member |
|---|---|---|---|---|---|---|
| Minor-Project-2/app.py:174-178 | loading a new quiz sets `quiz_questions`, `score`, `q_index` and `wrong_answers` but leaves `submitted` and `feedback` of the previous quiz in the session | submit an answer to a quiz (so `submitted` is true and `feedback` is `"Correct!"`), then ask for a new quiz before pressing next: question 1 of the new quiz is shown as already submitted, with the old feedback, and pressing next skips it unanswered | a new quiz starts with nothing submitted and no feedback, so that `score + len(wrong_answers)` counts the questions answered | medium, not executed | `Quiz.AfterLoad` (with `Quiz.Session.LoadQuiz`), exhibited by `QuizProperties.StaleSubmittedAfterLoad` and `QuizProperties.LoadTallyIff` | `Quiz.FreshLoad`, proved by `QuizProperties.FreshLoadStartsClean`; `QuizProperties.LoadsStart` shows it starts a quiz as the as-written load does, so `QuizProperties.FullRun` covers it too |
