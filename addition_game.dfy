/** Addition Adventure: six sums, 15 points per correct answer, three wrong
    answers drawn from 1..15. */
module AdditionGame {
  import opened Wrappers
  import opened OptionSets
  import Sampling
  import QuizSession

  /** One question; the emoji pictures are left out. */
  datatype Question = Question(num1: int, num2: int)

  const Questions: seq<Question> :=
    [Question(2, 3), Question(1, 4), Question(3, 2), Question(4, 1), Question(2, 2), Question(3, 3)]

  const PointsPerCorrect: nat := 15

  /** `num1 + num2`. Every sum of the table lies inside the wrong-answer
      range 1..15, so a draw can hit it, and only the `includes` test keeps
      it from being pushed twice. */
  function CorrectAnswer(q: Question): (r: int)
    ensures q in Questions ==> 1 <= r <= 15
  {
    q.num1 + q.num2
  }

  /** The correct answer of every question, in order. */
  function Answers(): seq<int> {
    seq(|Questions|, i requires 0 <= i < |Questions| => CorrectAnswer(Questions[i]))
  }

  /** `Math.floor(Math.random() * 15) + 1`, the draw `d` standing for the
      random number. */
  function Distractor(d: nat): (x: int)
    ensures 1 <= x <= 15
  {
    d % 15 + 1
  }

  /** `generateOptions`: the correct sum plus three distinct wrong answers
      from 1..15, then shuffled; `None` when the draws run out first. */
  method GenerateOptions(q: Question, draws: seq<nat>, keys: seq<nat>) returns (r: Option<seq<int>>)
    ensures r.None? <==> |Sampling.Fill([CorrectAnswer(q)], Distractor, draws)| < 4
    ensures r.Some? ==> IsOptionSet(r.value, CorrectAnswer(q)) && multiset(r.value)[CorrectAnswer(q)] == 1
    ensures r.Some? ==> multiset(r.value) == multiset(Sampling.Fill([CorrectAnswer(q)], Distractor, draws))
    ensures r.Some? ==> forall x :: x in r.value && x != CorrectAnswer(q) ==> 1 <= x <= 15
  {
    r := Sampling.ShuffledSample(CorrectAnswer(q), Distractor, draws, keys);
  }

  /** Mounting the game: a session on the six sums whose first buttons are
      sampled with `Distractor`. */
  method Start(draws: seq<nat>, keys: seq<nat>) returns (s: Option<QuizSession.Session<int>>)
    ensures s.None? <==> |Sampling.Fill([CorrectAnswer(Questions[0])], Distractor, draws)| < 4
    ensures s.Some? ==> fresh(s.value) && s.value.Valid()
    ensures s.Some? ==> s.value.answers == Answers() && s.value.points == PointsPerCorrect
    ensures s.Some? ==> s.value.index == 0 && s.value.score == 0 && !s.value.showFeedback
    ensures s.Some? ==> forall x :: x in s.value.options && x != CorrectAnswer(Questions[0]) ==> 1 <= x <= 15
  {
    s := QuizSession.StartSampled(Answers(), PointsPerCorrect, Distractor, draws, keys);
  }

}
