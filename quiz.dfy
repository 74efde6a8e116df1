/** The quiz flow (Minor-Project-2/app.py:165-181 and 195-250): loading a generated question
    list into the session, and the `/quiz` request handler that fills in defaults, submits
    an answer or moves to the next question, and shows either the current question or the
    result. The session keys are the fields of `Session`; each transition is specified by a
    function from the old session state to the new one. */
module Quiz {
  import opened Wrappers
  import QuizPayload

  /** One generated question: its text, the options by label, and the correct label. */
  datatype Question = Question(question: string, options: map<string, string>, answer: string)

  /** The record kept for a wrongly answered question. */
  datatype WrongAnswer = WrongAnswer(question: string, correct: string, options: map<string, string>)

  /** The quiz keys of one user's session. `quiz_questions` and `q_index` are only ever read
      with a default (`[]`, `0`), so an absent key and its default are the same here; the keys
      that the handler fills in when absent (`score`, `wrong_answers`, `submitted`) are
      `Option`s, and so are `topic` and `feedback`, which are read with `get`. */
  datatype State = State(
    topic: Option<string>,
    questions: seq<Question>,
    qIndex: nat,
    score: Option<int>,
    wrongAnswers: Option<seq<WrongAnswer>>,
    feedback: Option<string>,
    submitted: Option<bool>)

  /** A session in which no quiz key has been set yet. */
  const NoQuiz := State(None, [], 0, None, None, None, None)

  const CorrectFeedback := "Correct!"

  function IncorrectFeedback(correct: string): string {
    "Incorrect. Correct answer is " + correct + "."
  }

  /** The keys the handler fills in on every request are present. */
  predicate Defaulted(s: State) {
    s.score.Some? && s.wrongAnswers.Some? && s.submitted.Some?
  }

  /** Fills in `score = 0`, `submitted = False` and `wrong_answers = []` where absent. */
  function WithDefaults(s: State): (d: State)
    ensures Defaulted(d)
    ensures Defaulted(s) ==> d == s
    ensures d.score == if s.score.None? then Some(0) else s.score
    ensures d.submitted == if s.submitted.None? then Some(false) else s.submitted
    ensures d.wrongAnswers == if s.wrongAnswers.None? then Some([]) else s.wrongAnswers
    ensures d.(score := s.score, submitted := s.submitted, wrongAnswers := s.wrongAnswers) == s
  {
    s.(score := Some(s.score.GetOr(0)),
       submitted := Some(s.submitted.GetOr(false)),
       wrongAnswers := Some(s.wrongAnswers.GetOr([])))
  }

  /** The record of a wrong answer to `q`. */
  function Missed(q: Question): WrongAnswer {
    WrongAnswer(q.question, q.answer, q.options)
  }

  /** Submitting `selected` for the current question. */
  function AfterSubmit(s: State, selected: Option<string>): State
    requires Defaulted(s) && s.qIndex < |s.questions|
  {
    var q := s.questions[s.qIndex];
    if selected == Some(q.answer) then
      s.(feedback := Some(CorrectFeedback), score := Some(s.score.value + 1), submitted := Some(true))
    else
      s.(feedback := Some(IncorrectFeedback(q.answer)),
         wrongAnswers := Some(s.wrongAnswers.value + [Missed(q)]),
         submitted := Some(true))
  }

  /** Moving to the next question. */
  function AfterNext(s: State): State {
    s.(qIndex := s.qIndex + 1, feedback := None, submitted := Some(false))
  }

  /** Loading a parsed quiz for `query`, as the code does it: the topic is set even when the
      payload did not parse; `submitted` and `feedback` are left as they were. */
  function AfterLoad(s: State, query: string, parsed: Option<seq<Question>>): State {
    var t := s.(topic := Some(query));
    match parsed
    case None => t
    case Some(qs) => t.(questions := qs, score := Some(0), qIndex := 0, wrongAnswers := Some([]))
  }

  /** Loading a parsed quiz with the answer state of any earlier quiz cleared as well. */
  function FreshLoad(s: State, query: string, parsed: Option<seq<Question>>): State {
    var t := AfterLoad(s, query, parsed);
    if parsed.Some? then t.(submitted := Some(false), feedback := None) else t
  }

  /** What the handler renders. */
  datatype Page =
    | Redirect
    | QuestionPage(question: string, options: map<string, string>, number: nat, total: nat,
                   feedback: Option<string>, submitted: Option<bool>, topic: Option<string>)
    | ResultPage(score: int, total: nat, wrongAnswers: seq<WrongAnswer>, topic: Option<string>)

  /** The page shown for a session: the current question while one is left, the result after. */
  function ViewOf(s: State): (page: Page)
    requires s.score.Some?
    ensures page.QuestionPage? <==> s.qIndex < |s.questions|
    ensures page.ResultPage? <==> s.qIndex >= |s.questions|
    ensures page.QuestionPage? ==>
              1 <= page.number <= page.total && page.number == s.qIndex + 1 && page.total == |s.questions|
              && page.question == s.questions[s.qIndex].question
              && page.options == s.questions[s.qIndex].options
              && page.feedback == s.feedback && page.submitted == s.submitted
    ensures page.ResultPage? ==>
              page.score == s.score.value && page.total == |s.questions|
              && page.wrongAnswers == s.wrongAnswers.GetOr([])
    ensures page.topic == s.topic
  {
    if s.qIndex < |s.questions| then
      var q := s.questions[s.qIndex];
      QuestionPage(q.question, q.options, s.qIndex + 1, |s.questions|, s.feedback, s.submitted, s.topic)
    else
      ResultPage(s.score.value, |s.questions|, s.wrongAnswers.GetOr([]), s.topic)
  }

  /** A request to `/quiz`. */
  datatype Request = Get | Post(form: map<string, string>)

  /** What a request asks for: a form with `submit` answers (with its `option`, if any),
      one with `next` advances, anything else only shows the page. */
  datatype Action = Show | Answer(selected: Option<string>) | Advance

  function ActionOf(request: Request): (action: Action)
    ensures request.Get? ==> action == Show
    ensures request.Post? && "submit" in request.form ==>
              action == Answer(if "option" in request.form then Some(request.form["option"]) else None)
    ensures request.Post? && "submit" !in request.form && "next" in request.form ==> action == Advance
    ensures action == Show <==> request.Get? || ("submit" !in request.form && "next" !in request.form)
  {
    match request
    case Get => Show
    case Post(form) =>
      if "submit" in form then Answer(if "option" in form then Some(form["option"]) else None)
      else if "next" in form then Advance
      else Show
  }

  /** The code indexes the current question only when it answers, and only then needs one. */
  predicate CanHandle(s: State, request: Request) {
    ActionOf(request).Answer? ==> s.qIndex < |s.questions|
  }

  /** The session state after one `/quiz` request. */
  function Step(s: State, request: Request): State
    requires CanHandle(s, request)
  {
    var d := WithDefaults(s);
    match ActionOf(request)
    case Show => d
    case Answer(selected) => AfterSubmit(d, selected)
    case Advance => AfterNext(d)
  }

  /** The page one `/quiz` request returns: a redirect after `next`, the view otherwise. */
  function PageOf(s: State, request: Request): Page
    requires CanHandle(s, request)
  {
    if ActionOf(request).Advance? then Redirect else ViewOf(Step(s, request))
  }

  /** What `ask` returns for a quiz: a redirect to the quiz, or the failure page with the
      cleaned text. */
  datatype LoadOutcome = QuizLoaded | LoadFailed(cleaned: string)

  /** The session, whose keys the handlers update in place. */
  class Session {
    var topic: Option<string>
    var questions: seq<Question>
    var qIndex: nat
    var score: Option<int>
    var wrongAnswers: Option<seq<WrongAnswer>>
    var feedback: Option<string>
    var submitted: Option<bool>

    /** The session's quiz keys as one value. */
    function Snapshot(): State
      reads this
    {
      State(topic, questions, qIndex, score, wrongAnswers, feedback, submitted)
    }

    /** A session in which no quiz has been started. */
    constructor ()
      ensures Snapshot() == NoQuiz
    {
      topic, questions, qIndex := None, [], 0;
      score, wrongAnswers, feedback, submitted := None, None, None, None;
    }

    /** `ask` for a query routed to the quiz generator: stores the topic, cleans the
        generator's `response` and, when `parse` accepts it, starts the quiz on the parsed
        questions as they are. */
    method LoadQuiz(query: string, response: string, parse: string -> Option<seq<Question>>)
      returns (outcome: LoadOutcome)
      modifies this
      ensures var cleaned := QuizPayload.CleanPayload(response);
              Snapshot() == AfterLoad(old(Snapshot()), query, parse(cleaned))
              && outcome == (if parse(cleaned).Some? then QuizLoaded else LoadFailed(cleaned))
    {
      topic := Some(query);
      var cleaned := QuizPayload.CleanPayload(response);
      match parse(cleaned)
      case Some(qs) =>
        questions := qs;
        score := Some(0);
        qIndex := 0;
        wrongAnswers := Some([]);
        outcome := QuizLoaded;
      case None =>
        outcome := LoadFailed(cleaned);
    }

    /** Fills in the keys the handler needs on every request. */
    method ApplyDefaults()
      modifies this
      ensures Snapshot() == WithDefaults(old(Snapshot()))
    {
      if score.None? {
        score := Some(0);
      }
      if submitted.None? {
        submitted := Some(false);
      }
      if wrongAnswers.None? {
        wrongAnswers := Some([]);
      }
    }

    /** Answers the current question with `selected`. */
    method Submit(selected: Option<string>)
      requires Defaulted(Snapshot()) && qIndex < |questions|
      modifies this
      ensures Snapshot() == AfterSubmit(old(Snapshot()), selected)
    {
      var q := questions[qIndex];
      if selected == Some(q.answer) {
        feedback := Some(CorrectFeedback);
        score := Some(score.value + 1);
      } else {
        feedback := Some(IncorrectFeedback(q.answer));
        wrongAnswers := Some(wrongAnswers.value + [Missed(q)]);
      }
      submitted := Some(true);
    }

    /** Moves to the next question. */
    method Next()
      modifies this
      ensures Snapshot() == AfterNext(old(Snapshot()))
    {
      qIndex := qIndex + 1;
      feedback := None;
      submitted := Some(false);
    }

    /** The `/quiz` handler for a signed-in user. */
    method Handle(request: Request) returns (page: Page)
      requires CanHandle(Snapshot(), request)
      modifies this
      ensures Snapshot() == Step(old(Snapshot()), request)
      ensures page == PageOf(old(Snapshot()), request)
    {
      ApplyDefaults();
      match ActionOf(request) {
        case Answer(selected) =>
          Submit(selected);
        case Advance =>
          Next();
          return Redirect;
        case Show =>
      }
      page := ViewOf(Snapshot());
    }
  }
}
