/** Counting Fun: eight pictures to count, 10 points per correct answer,
    three wrong answers drawn from 1..10. */
module CountingGame {
  import opened Wrappers
  import opened OptionSets
  import Sampling
  import QuizSession

  /** One question: how many objects are shown. The emoji and the question
      text are left out. */
  datatype Question = Question(count: int)

  const Questions: seq<Question> :=
    [Question(3), Question(5), Question(2), Question(4), Question(6), Question(7), Question(8), Question(1)]

  const PointsPerCorrect: nat := 10

  /** The number of objects shown. Every count of the table lies inside
      the wrong-answer range 1..10, so a draw can hit it, and only the
      `includes` test keeps it from being pushed twice. */
  function CorrectAnswer(q: Question): (r: int)
    ensures q in Questions ==> 1 <= r <= 10
  {
    q.count
  }

  /** The correct answer of every question, in order. */
  function Answers(): seq<int> {
    seq(|Questions|, i requires 0 <= i < |Questions| => CorrectAnswer(Questions[i]))
  }

  /** `Math.floor(Math.random() * 10) + 1`, the draw `d` standing for the
      random number. */
  function Distractor(d: nat): (x: int)
    ensures 1 <= x <= 10
  {
    d % 10 + 1
  }

  /** `generateOptions`: the count plus three distinct wrong answers from
      1..10, then shuffled; `None` when the draws run out first. */
  method GenerateOptions(q: Question, draws: seq<nat>, keys: seq<nat>) returns (r: Option<seq<int>>)
    ensures r.None? <==> |Sampling.Fill([CorrectAnswer(q)], Distractor, draws)| < 4
    ensures r.Some? ==> IsOptionSet(r.value, CorrectAnswer(q)) && multiset(r.value)[CorrectAnswer(q)] == 1
    ensures r.Some? ==> multiset(r.value) == multiset(Sampling.Fill([CorrectAnswer(q)], Distractor, draws))
    ensures r.Some? ==> forall x :: x in r.value && x != CorrectAnswer(q) ==> 1 <= x <= 10
  {
    r := Sampling.ShuffledSample(CorrectAnswer(q), Distractor, draws, keys);
  }

  /** Mounting the game: a session on the eight counts whose first buttons are
      sampled with `Distractor`. */
  method Start(draws: seq<nat>, keys: seq<nat>) returns (s: Option<QuizSession.Session<int>>)
    ensures s.None? <==> |Sampling.Fill([CorrectAnswer(Questions[0])], Distractor, draws)| < 4
    ensures s.Some? ==> fresh(s.value) && s.value.Valid()
    ensures s.Some? ==> s.value.answers == Answers() && s.value.points == PointsPerCorrect
    ensures s.Some? ==> s.value.index == 0 && s.value.score == 0 && !s.value.showFeedback
    ensures s.Some? ==> forall x :: x in s.value.options && x != CorrectAnswer(Questions[0]) ==> 1 <= x <= 10
  {
    s := QuizSession.StartSampled(Answers(), PointsPerCorrect, Distractor, draws, keys);
  }

}
