/** What the quiz transitions of module Quiz guarantee, one call at a time and over a whole
    run of answers, and what they do not guarantee because the handler has no guards. */
module QuizProperties {
  import opened Wrappers
  import opened Quiz

  /** Submitting sets `submitted` and keeps the position; a correct choice adds exactly one
      to the score and leaves the wrong-answer log alone, any other choice leaves the score
      alone and logs the question, its correct label and its options. */
  lemma SubmitOutcome(s: State, selected: Option<string>)
    requires Defaulted(s) && s.qIndex < |s.questions|
    ensures var t, q := AfterSubmit(s, selected), s.questions[s.qIndex];
            var correct := selected == Some(q.answer);
            Defaulted(t) && t.submitted == Some(true)
            && t.qIndex == s.qIndex && t.questions == s.questions && t.topic == s.topic
            && t.score.value == s.score.value + (if correct then 1 else 0)
            && t.wrongAnswers.value == s.wrongAnswers.value + (if correct then [] else [Missed(q)])
            && t.feedback == Some(if correct then CorrectFeedback else IncorrectFeedback(q.answer))
  {
  }

  /** Moving on advances the position by one, clears the feedback and the submitted flag, and
      leaves the questions, the score and the wrong-answer log as they were. */
  lemma NextOutcome(s: State)
    ensures var t := AfterNext(s);
            t.qIndex == s.qIndex + 1 && t.feedback == None && t.submitted == Some(false)
            && t.questions == s.questions && t.score == s.score && t.wrongAnswers == s.wrongAnswers
            && t.topic == s.topic
  {
  }

  /** Every answered question is counted once, either in the score or in the log: one per
      question passed, plus the current one once it is submitted. */
  predicate Tally(s: State) {
    s.score.Some? && s.wrongAnswers.Some?
    && s.score.value + |s.wrongAnswers.value| == s.qIndex + (if s.submitted == Some(true) then 1 else 0)
  }

  /** Submitting an unanswered question keeps the tally. */
  lemma SubmitKeepsTally(s: State, selected: Option<string>)
    requires Defaulted(s) && s.qIndex < |s.questions|
    requires Tally(s) && s.submitted == Some(false)
    ensures Tally(AfterSubmit(s, selected))
  {
  }

  /** Moving on from a submitted question keeps the tally. */
  lemma NextKeepsTally(s: State)
    requires Tally(s) && s.submitted == Some(true)
    ensures Tally(AfterNext(s))
  {
  }

  /** Submit does not look at `submitted`: a second submit of the same choice counts again,
      and the tally no longer holds. */
  lemma DoubleSubmitCountsTwice(s: State, selected: Option<string>)
    requires Defaulted(s) && s.qIndex < |s.questions|
    ensures var t, q := AfterSubmit(AfterSubmit(s, selected), selected), s.questions[s.qIndex];
            if selected == Some(q.answer) then t.score.value == s.score.value + 2
            else |t.wrongAnswers.value| == |s.wrongAnswers.value| + 2
    ensures Tally(s) && s.submitted == Some(false) ==> !Tally(AfterSubmit(AfterSubmit(s, selected), selected))
  {
  }

  /** Next does not look at `submitted`: moving on from an unanswered question skips it, and
      the tally no longer holds. */
  lemma NextSkipsUnanswered(s: State)
    requires Tally(s) && s.submitted != Some(true)
    ensures !Tally(AfterNext(s))
  {
  }

  /** The session after answering `answers` in turn, each answer followed by `next`. */
  function Play(s: State, answers: seq<Option<string>>): State
    requires Defaulted(s) && s.qIndex + |answers| <= |s.questions|
    decreases |answers|
  {
    if answers == [] then s else Play(AfterNext(AfterSubmit(s, answers[0])), answers[1..])
  }

  /** How many of `answers` pick the correct label of the matching question, the first
      answer being for question `from`. */
  function CountCorrect(qs: seq<Question>, from: nat, answers: seq<Option<string>>): nat
    requires from + |answers| <= |qs|
    decreases |answers|
  {
    if answers == [] then 0
    else (if answers[0] == Some(qs[from].answer) then 1 else 0) + CountCorrect(qs, from + 1, answers[1..])
  }

  /** The records logged for the wrongly answered questions, in order. */
  function MissedLog(qs: seq<Question>, from: nat, answers: seq<Option<string>>): seq<WrongAnswer>
    requires from + |answers| <= |qs|
    decreases |answers|
  {
    if answers == [] then []
    else (if answers[0] == Some(qs[from].answer) then [] else [Missed(qs[from])]) + MissedLog(qs, from + 1, answers[1..])
  }

  /** Each answer lands either in the score or in the log. */
  lemma {:induction false} CountPlusMissed(qs: seq<Question>, from: nat, answers: seq<Option<string>>)
    requires from + |answers| <= |qs|
    ensures CountCorrect(qs, from, answers) + |MissedLog(qs, from, answers)| == |answers|
    decreases |answers|
  {
    if answers != [] {
      CountPlusMissed(qs, from + 1, answers[1..]);
    }
  }

  /** One round, an answer followed by `next`. */
  lemma RoundOutcome(s: State, answer: Option<string>)
    requires Defaulted(s) && s.qIndex < |s.questions|
    ensures var t, q := AfterNext(AfterSubmit(s, answer)), s.questions[s.qIndex];
            var correct := answer == Some(q.answer);
            Defaulted(t) && t.questions == s.questions && t.topic == s.topic
            && t.qIndex == s.qIndex + 1 && t.submitted == Some(false) && t.feedback == None
            && t.score.value == s.score.value + (if correct then 1 else 0)
            && t.wrongAnswers.value == s.wrongAnswers.value + (if correct then [] else [Missed(q)])
  {
  }

  /** A run of answers moves the position past them and leaves the questions and the topic
      alone; after at least one round no answer is pending. */
  lemma {:induction false} PlayMoves(s: State, answers: seq<Option<string>>)
    requires Defaulted(s) && s.qIndex + |answers| <= |s.questions|
    ensures var t := Play(s, answers);
            Defaulted(t) && t.questions == s.questions && t.topic == s.topic
            && t.qIndex == s.qIndex + |answers|
            && (answers != [] ==> t.submitted == Some(false) && t.feedback == None)
    decreases |answers|
  {
    if answers != [] {
      RoundOutcome(s, answers[0]);
      PlayMoves(AfterNext(AfterSubmit(s, answers[0])), answers[1..]);
    }
  }

  /** A run of answers adds the correct ones to the score and logs the others, in order. */
  lemma {:induction false} PlayOutcome(s: State, answers: seq<Option<string>>)
    requires Defaulted(s) && s.qIndex + |answers| <= |s.questions|
    ensures var t := Play(s, answers);
            Defaulted(t)
            && t.score.value == s.score.value + CountCorrect(s.questions, s.qIndex, answers)
            && t.wrongAnswers.value == s.wrongAnswers.value + MissedLog(s.questions, s.qIndex, answers)
    decreases |answers|
  {
    if answers == [] {
      assert s.wrongAnswers.value + [] == s.wrongAnswers.value;
    } else {
      var s1 := AfterNext(AfterSubmit(s, answers[0]));
      RoundOutcome(s, answers[0]);
      PlayOutcome(s1, answers[1..]);
      var q := s.questions[s.qIndex];
      var head := if answers[0] == Some(q.answer) then [] else [Missed(q)];
      var rest := MissedLog(s.questions, s.qIndex + 1, answers[1..]);
      assert s.wrongAnswers.value + head + rest == s.wrongAnswers.value + (head + rest);
    }
  }

  /** Answering each question once and moving on keeps the tally. */
  lemma PlayKeepsTally(s: State, answers: seq<Option<string>>)
    requires Defaulted(s) && s.qIndex + |answers| <= |s.questions|
    requires Tally(s) && s.submitted == Some(false)
    ensures Tally(Play(s, answers))
  {
    PlayMoves(s, answers);
    PlayOutcome(s, answers);
    CountPlusMissed(s.questions, s.qIndex, answers);
  }

  /** When every answer is wrong, nothing is counted and every question answered is logged. */
  lemma {:induction false} AllWrongCounts(qs: seq<Question>, from: nat, answers: seq<Option<string>>)
    requires from + |answers| <= |qs|
    requires forall k | 0 <= k < |answers| :: answers[k] != Some(qs[from + k].answer)
    ensures CountCorrect(qs, from, answers) == 0
    ensures |MissedLog(qs, from, answers)| == |answers|
    ensures forall k | 0 <= k < |answers| :: MissedLog(qs, from, answers)[k] == Missed(qs[from + k])
    decreases |answers|
  {
    if answers != [] {
      assert answers[0] != Some(qs[from].answer);
      assert forall k | 0 <= k < |answers| - 1 :: answers[1..][k] == answers[k + 1];
      AllWrongCounts(qs, from + 1, answers[1..]);
    }
  }

  /** When every answer is right, each counts and nothing is logged. */
  lemma {:induction false} AllRightCounts(qs: seq<Question>, from: nat, answers: seq<Option<string>>)
    requires from + |answers| <= |qs|
    requires forall k | 0 <= k < |answers| :: answers[k] == Some(qs[from + k].answer)
    ensures CountCorrect(qs, from, answers) == |answers|
    ensures MissedLog(qs, from, answers) == []
    decreases |answers|
  {
    if answers != [] {
      assert answers[0] == Some(qs[from].answer);
      assert forall k | 0 <= k < |answers| - 1 :: answers[1..][k] == answers[k + 1];
      AllRightCounts(qs, from + 1, answers[1..]);
    }
  }

  /** A loaded quiz stores the parsed questions exactly as parsed (no truncation or padding
      to ten) and starts at the first question with a zero score and an empty log; a payload
      that does not parse changes only the topic. */
  lemma AfterLoadOutcome(s: State, query: string, parsed: Option<seq<Question>>)
    ensures var t := AfterLoad(s, query, parsed);
            t.topic == Some(query)
            && (parsed.Some? ==>
                  t.questions == parsed.value && t.qIndex == 0 && t.score == Some(0)
                  && t.wrongAnswers == Some([]))
            && (parsed.None? ==> t == s.(topic := Some(query)))
  {
  }

  /** As written, loading keeps the `submitted` flag and the feedback of the previous quiz, so
      the tally holds afterwards exactly when no answer was left submitted. */
  lemma LoadTallyIff(s: State, query: string, qs: seq<Question>)
    ensures var t := AfterLoad(s, query, Some(qs));
            t.submitted == s.submitted && t.feedback == s.feedback
            && (Tally(t) <==> s.submitted != Some(true))
  {
  }

  /** The input that shows it: a user who submitted an answer and then asks for a new quiz
      sees its first question already marked as submitted, with the old feedback. */
  lemma StaleSubmittedAfterLoad(query: string, q: Question, qs: seq<Question>)
    ensures var before := NoQuiz.(score := Some(1), wrongAnswers := Some([]), submitted := Some(true),
                                feedback := Some(CorrectFeedback), questions := [q]);
            var page := ViewOf(WithDefaults(AfterLoad(before, query, Some([q] + qs))));
            page == QuestionPage(q.question, q.options, 1, 1 + |qs|, Some(CorrectFeedback), Some(true), Some(query))
  {
  }

  /** With the answer state cleared on load, a new quiz always starts consistently: first
      question, nothing submitted, no feedback, or the result page at once for an empty quiz. */
  lemma FreshLoadStartsClean(s: State, query: string, qs: seq<Question>)
    ensures var t := FreshLoad(s, query, Some(qs));
            Defaulted(t) && Tally(t) && t.questions == qs && t.submitted == Some(false) && t.feedback == None
            && ViewOf(t) == if qs == [] then ResultPage(0, 0, [], Some(query))
                            else QuestionPage(qs[0].question, qs[0].options, 1, |qs|, None, Some(false), Some(query))
  {
  }

  /** The session at the first question of a quiz on `qs` for `query`: defaults present,
      index 0, score 0 and an empty log. */
  predicate Started(t: State, query: string, qs: seq<Question>) {
    Defaulted(t) && t.topic == Some(query) && t.questions == qs
    && t.qIndex == 0 && t.score == Some(0) && t.wrongAnswers == Some([])
  }

  /** Both loads start the quiz: the load as written, once the handler has filled in its
      defaults on the redirect to `/quiz`, and the corrected load. */
  lemma LoadsStart(s: State, query: string, qs: seq<Question>)
    ensures Started(WithDefaults(AfterLoad(s, query, Some(qs))), query, qs)
    ensures Started(FreshLoad(s, query, Some(qs)), query, qs)
  {
  }

  /** A started quiz answered question by question ends on the result page, with the correct
      answers as the score and the others logged in order. */
  lemma FullRun(start: State, query: string, qs: seq<Question>, answers: seq<Option<string>>)
    requires Started(start, query, qs) && |answers| == |qs|
    ensures var t := Play(start, answers);
            var score, log := CountCorrect(qs, 0, answers), MissedLog(qs, 0, answers);
            t.score == Some(score) && t.wrongAnswers == Some(log)
            && ViewOf(t) == ResultPage(score, |qs|, log, Some(query))
  {
    PlayMoves(start, answers);
    PlayOutcome(start, answers);
    assert [] + MissedLog(qs, 0, answers) == MissedLog(qs, 0, answers);
  }

  /** A quiz loaded as the code loads it and answered wrongly throughout ends with score 0,
      every question in the log in order, and the result page. */
  lemma AllWrongRun(s: State, query: string, qs: seq<Question>, answers: seq<Option<string>>)
    requires |answers| == |qs|
    requires forall i | 0 <= i < |qs| :: answers[i] != Some(qs[i].answer)
    ensures var t := Play(WithDefaults(AfterLoad(s, query, Some(qs))), answers);
            t.score == Some(0) && t.wrongAnswers.Some? && |t.wrongAnswers.value| == |qs|
            && (forall i | 0 <= i < |qs| :: t.wrongAnswers.value[i] == Missed(qs[i]))
            && ViewOf(t) == ResultPage(0, |qs|, t.wrongAnswers.value, Some(query))
  {
    LoadsStart(s, query, qs);
    FullRun(WithDefaults(AfterLoad(s, query, Some(qs))), query, qs, answers);
    AllWrongCounts(qs, 0, answers);
  }

  /** A quiz loaded as the code loads it and answered rightly throughout ends with full marks,
      an empty log and the result page. */
  lemma AllRightRun(s: State, query: string, qs: seq<Question>, answers: seq<Option<string>>)
    requires |answers| == |qs|
    requires forall i | 0 <= i < |qs| :: answers[i] == Some(qs[i].answer)
    ensures var t := Play(WithDefaults(AfterLoad(s, query, Some(qs))), answers);
            t.score == Some(|qs|) && t.wrongAnswers == Some([])
            && ViewOf(t) == ResultPage(|qs|, |qs|, [], Some(query))
  {
    LoadsStart(s, query, qs);
    FullRun(WithDefaults(AfterLoad(s, query, Some(qs))), query, qs, answers);
    AllRightCounts(qs, 0, answers);
  }

  /** With no questions there is nothing to answer: every request that is not `next` shows
      the result page for a quiz of zero questions. */
  lemma EmptyQuizShowsResult(s: State, request: Request)
    requires s.questions == [] && CanHandle(s, request) && !ActionOf(request).Advance?
    ensures PageOf(s, request).ResultPage? && PageOf(s, request).total == 0
  {
  }
}
