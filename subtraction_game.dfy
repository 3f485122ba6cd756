/** Subtraction Safari: six differences, 15 points per correct answer,
    three wrong answers drawn from 0..9, and a picture of `num1` items whose
    last `crossed` are struck through. */
module SubtractionGame {
  import opened Wrappers
  import opened OptionSets
  import Sampling
  import QuizSession

  /** One question; the emoji picture string is left out. */
  datatype Question = Question(num1: int, num2: int, crossed: int)

  const Questions: seq<Question> :=
    [Question(5, 2, 2), Question(7, 3, 3), Question(6, 4, 4),
     Question(8, 3, 3), Question(9, 4, 4), Question(10, 6, 6)]

  const PointsPerCorrect: nat := 15

  /** `num1 - num2`. Every difference of the table lies inside the
      wrong-answer range 0..9, so a draw can hit it, and only the
      `includes` test keeps it from being pushed twice. */
  function CorrectAnswer(q: Question): (r: int)
    ensures q in Questions ==> 0 <= r <= 9
  {
    q.num1 - q.num2
  }

  /** The correct answer of every question, in order. */
  function Answers(): seq<int> {
    seq(|Questions|, i requires 0 <= i < |Questions| => CorrectAnswer(Questions[i]))
  }

  /** `Math.floor(Math.random() * 10)`, the draw `d` standing for the random
      number. The game also tests `wrong >= 0`, which such a value always
      passes. */
  function Distractor(d: nat): (x: int)
    ensures 0 <= x <= 9
  {
    d % 10
  }

  /** `generateOptions`: the correct difference plus three distinct wrong
      answers from 0..9, then shuffled; `None` when the draws run out first. */
  method GenerateOptions(q: Question, draws: seq<nat>, keys: seq<nat>) returns (r: Option<seq<int>>)
    ensures r.None? <==> |Sampling.Fill([CorrectAnswer(q)], Distractor, draws)| < 4
    ensures r.Some? ==> IsOptionSet(r.value, CorrectAnswer(q)) && multiset(r.value)[CorrectAnswer(q)] == 1
    ensures r.Some? ==> multiset(r.value) == multiset(Sampling.Fill([CorrectAnswer(q)], Distractor, draws))
    ensures r.Some? ==> forall x :: x in r.value && x != CorrectAnswer(q) ==> 0 <= x <= 9
  {
    r := Sampling.ShuffledSample(CorrectAnswer(q), Distractor, draws, keys);
  }

  /** Mounting the game: a session on the six differences whose first
      buttons are sampled with `Distractor`. */
  method Start(draws: seq<nat>, keys: seq<nat>) returns (s: Option<QuizSession.Session<int>>)
    ensures s.None? <==> |Sampling.Fill([CorrectAnswer(Questions[0])], Distractor, draws)| < 4
    ensures s.Some? ==> fresh(s.value) && s.value.Valid()
    ensures s.Some? ==> s.value.answers == Answers() && s.value.points == PointsPerCorrect
    ensures s.Some? ==> s.value.index == 0 && s.value.score == 0 && !s.value.showFeedback
    ensures s.Some? ==> forall x :: x in s.value.options && x != CorrectAnswer(Questions[0]) ==> 0 <= x <= 9
  {
    s := QuizSession.StartSampled(Answers(), PointsPerCorrect, Distractor, draws, keys);
  }

  /** `renderVisualSubtraction`: item `i` of `total` is struck through when
      `i >= total - toRemove`. */
  function CrossedMarks(total: nat, toRemove: int): (marks: seq<bool>)
    ensures |marks| == total
  {
    seq(total, i => i >= total - toRemove)
  }

  /** Number of `true` entries. */
  function CountTrue(s: seq<bool>): nat {
    if s == [] then 0 else (if s[0] then 1 else 0) + CountTrue(s[1..])
  }

  /** A run of `k` unmarked entries followed only by marked ones has
      `|s| - k` marks. */
  lemma {:induction false} CountTrueOfSuffix(s: seq<bool>, k: nat)
    requires k <= |s|
    requires forall i :: 0 <= i < |s| ==> (s[i] <==> i >= k)
    ensures CountTrue(s) == |s| - k
  {
    if s != [] {
      var k' := if k == 0 then 0 else k - 1;
      forall i | 0 <= i < |s[1..]| ensures s[1..][i] <==> i >= k' {
        assert s[1..][i] == s[i + 1];
      }
      CountTrueOfSuffix(s[1..], k');
    }
  }

  /** The picture strikes through exactly the last `toRemove` items when
      `toRemove <= total`, and all of them otherwise. */
  lemma CrossedCount(total: nat, toRemove: nat)
    ensures CountTrue(CrossedMarks(total, toRemove)) == if toRemove <= total then toRemove else total
    ensures forall i :: 0 <= i < total ==> (CrossedMarks(total, toRemove)[i] <==> total - toRemove <= i)
  {
    var k := if toRemove <= total then total - toRemove else 0;
    CountTrueOfSuffix(CrossedMarks(total, toRemove), k);
  }

  /** In every question the picture strikes through `num2` items and leaves
      exactly the correct answer standing. */
  lemma PictureShowsAnswer(i: nat)
    requires i < |Questions|
    ensures var q := Questions[i];
      q.crossed == q.num2 && 0 <= q.num1 &&
      q.num1 - CountTrue(CrossedMarks(q.num1, q.crossed)) == CorrectAnswer(q)
  {
    var q := Questions[i];
    assert q.crossed == q.num2 && 0 <= q.num2 <= q.num1;
    CrossedCount(q.num1, q.crossed);
  }

}
