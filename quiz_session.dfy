/** The quiz loop shared by the addition, subtraction, counting, alphabet
    and shape games: a question index, a score, a feedback flag, the
    selected answer and the answer buttons of the current question.

    The 2000 ms `setTimeout` becomes the explicit step `FeedbackElapsed`;
    `timerPending` records that such a timer has been started and has not
    fired. The effect that regenerates the buttons whenever the question
    index changes is folded into that step: its result is the `nextOptions`
    parameter, produced by the game's `GenerateOptions`. */
module QuizSession {
  import opened Wrappers
  import opened OptionSets
  import Sampling

  /** What the feedback timer did when it fired. */
  datatype Outcome =
    | Advanced   // correct answer, not the last question: next question
    | Completed  // correct answer on the last question: `onComplete()` called
    | Retry      // wrong answer: same question, same buttons, selection cleared

  class Session<A(==)> {
    /** The correct answer of each question, in order. */
    const answers: seq<A>
    /** Points added for a correct answer (10 or 15, per game). */
    const points: nat

    var index: nat
    var score: nat
    var showFeedback: bool
    var selected: Option<A>
    var options: seq<A>
    var timerPending: bool

    /** The current question's correct answer. */
    function Correct(): A
      reads this
      requires index < |answers|
    {
      answers[index]
    }

    /** Number of questions answered correctly so far: all before the
        current one, plus the current one once its correct answer is chosen. */
    function Solved(): nat
      reads this
      requires index < |answers|
    {
      index + if selected == Some(Correct()) then 1 else 0
    }

    /** The last question has been answered correctly and its timer fired:
        `onComplete()` has been called. */
    predicate Finished()
      reads this
    {
      index == |answers| - 1 && !timerPending && selected == Some(answers[index])
    }

    ghost predicate Valid()
      reads this
    {
      && 0 < |answers| && index < |answers|
      && IsOptionSet(options, Correct())
      && (showFeedback <==> selected.Some?)
      && (timerPending ==> showFeedback)
      && (showFeedback && !timerPending ==> Finished())
      && score == points * Solved()
    }

    /** Mounting a game: first question, score 0, no feedback, the buttons
        the effect generated for the first question. */
    constructor (answers: seq<A>, points: nat, initial: seq<A>)
      requires 0 < |answers| && IsOptionSet(initial, answers[0])
      ensures Valid()
      ensures this.answers == answers && this.points == points
      ensures index == 0 && score == 0 && options == initial
      ensures !showFeedback && selected == None && !timerPending
    {
      this.answers := answers;
      this.points := points;
      index := 0;
      score := 0;
      showFeedback := false;
      selected := None;
      options := initial;
      timerPending := false;
    }

    /** `handleAnswerSelect(answer)`: record the selection, show feedback,
        add the points when the answer is correct, and start the timer.
        The answer buttons are disabled while feedback is shown, so the
        handler is only reached when it is not. */
    method Answer(answer: A)
      requires Valid() && !showFeedback
      modifies this
      ensures Valid()
      ensures selected == Some(answer) && showFeedback && timerPending
      ensures score == old(score) + if answer == old(Correct()) then points else 0
      ensures index == old(index) && options == old(options)
    {
      selected := Some(answer);
      showFeedback := true;
      if answer == answers[index] {
        score := score + points;
      }
      timerPending := true;
    }

    /** The feedback timer fires. After a correct answer it advances to the
        next question, whose buttons are `nextOptions`, or calls `onComplete()` on
        the last one; after a wrong answer it only clears feedback and
        selection, keeping question and buttons for a retry. */
    method FeedbackElapsed(nextOptions: seq<A>) returns (outcome: Outcome)
      requires Valid() && timerPending
      requires selected == Some(Correct()) && index + 1 < |answers| ==> IsOptionSet(nextOptions, answers[index + 1])
      modifies this
      ensures Valid() && !timerPending && score == old(score)
      ensures outcome == Retry <==> old(selected) != Some(old(Correct()))
      ensures outcome == Retry ==>
        index == old(index) && options == old(options) && !showFeedback && selected == None
      ensures outcome == Advanced <==> old(selected) == Some(old(Correct())) && old(index) + 1 < |answers|
      ensures outcome == Advanced ==>
        index == old(index) + 1 && options == nextOptions && !showFeedback && selected == None
      ensures outcome == Completed ==>
        index == old(index) && options == old(options) && selected == old(selected) && showFeedback && Finished()
    {
      timerPending := false;
      if selected == Some(answers[index]) {
        if index < |answers| - 1 {
          index := index + 1;
          showFeedback := false;
          selected := None;
          options := nextOptions;
          outcome := Advanced;
        } else {
          outcome := Completed;
        }
      } else {
        showFeedback := false;
        selected := None;
        outcome := Retry;
      }
    }
  }

  /** On a valid session the score is the points times the number of
      questions answered correctly, so it never exceeds the points for the
      whole quiz. */
  lemma ScoreBounded<A>(s: Session<A>)
    requires s.Valid()
    ensures s.score <= s.points * |s.answers|
  {
    assert s.Solved() <= |s.answers|;
  }

  /** Mounting a game whose buttons come from rejection sampling (addition,
      subtraction, counting, alphabet): the first question's buttons are
      sampled with the game's `pick` rule and shuffled; `None` when the
      draws run out first. */
  method StartSampled<A(==)>(answers: seq<A>, points: nat, pick: nat -> A, draws: seq<nat>, keys: seq<nat>)
    returns (s: Option<Session<A>>)
    requires 0 < |answers|
    ensures s.None? <==> |Sampling.Fill([answers[0]], pick, draws)| < 4
    ensures s.Some? ==> fresh(s.value) && s.value.Valid()
    ensures s.Some? ==> s.value.answers == answers && s.value.points == points
    ensures s.Some? ==> s.value.index == 0 && s.value.score == 0 && !s.value.showFeedback
    ensures s.Some? ==> multiset(s.value.options) == multiset(Sampling.Fill([answers[0]], pick, draws))
    ensures s.Some? ==>
      forall x :: x in s.value.options && x != answers[0] ==> exists d :: d in draws && x == pick(d)
  {
    var initial := Sampling.ShuffledSample(answers[0], pick, draws, keys);
    if initial.None? {
      return None;
    }
    var session := new Session(answers, points, initial.value);
    return Some(session);
  }

  /** The feedback timer of a running rejection-sampling game fires. When a
      correct answer leads to a next question, the effect first samples that
      question's buttons with `pick`; `None`, and no change, when its draws
      run out. */
  method AdvanceSampled<A(==)>(s: Session<A>, pick: nat -> A, draws: seq<nat>, keys: seq<nat>)
    returns (outcome: Option<Outcome>)
    requires s.Valid() && s.timerPending
    modifies s
    ensures outcome.None? ==> unchanged(s)
    ensures outcome.None? <==>
      old(s.selected) == Some(old(s.Correct())) && old(s.index) + 1 < |s.answers|
      && |Sampling.Fill([s.answers[old(s.index) + 1]], pick, draws)| < 4
    ensures outcome.Some? ==> s.Valid() && !s.timerPending && s.score == old(s.score)
    ensures outcome == Some(Retry) <==> old(s.selected) != Some(old(s.Correct()))
    ensures outcome == Some(Retry) ==>
      s.index == old(s.index) && s.options == old(s.options) && !s.showFeedback && s.selected.None?
    ensures outcome == Some(Advanced) <==>
      old(s.selected) == Some(old(s.Correct())) && old(s.index) + 1 < |s.answers|
      && |Sampling.Fill([s.answers[old(s.index) + 1]], pick, draws)| == 4
    ensures outcome == Some(Advanced) ==>
      s.index == old(s.index) + 1 && !s.showFeedback && s.selected.None?
      && multiset(s.options) == multiset(Sampling.Fill([s.Correct()], pick, draws))
      && forall x :: x in s.options && x != s.Correct() ==> exists d :: d in draws && x == pick(d)
    ensures outcome == Some(Completed) ==>
      s.index == old(s.index) && s.options == old(s.options) && s.showFeedback && s.Finished()
  {
    var next := s.options;
    if s.selected == Some(s.Correct()) && s.index + 1 < |s.answers| {
      Sampling.FillExtends([s.answers[s.index + 1]], pick, draws);
      var generated := Sampling.ShuffledSample(s.answers[s.index + 1], pick, draws, keys);
      if generated.None? {
        return None;
      }
      next := generated.value;
    }
    var fired := s.FeedbackElapsed(next);
    outcome := Some(fired);
  }

}
