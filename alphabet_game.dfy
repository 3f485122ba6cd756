/** Alphabet Adventure: eight letters, each with a picture word to pick,
    10 points per correct pick, three wrong words drawn from a fixed list of
    ten. */
module AlphabetGame {
  import opened Wrappers
  import opened OptionSets
  import Sampling
  import QuizSession

  /** One letter and its word; the sound and the emoji are left out. */
  datatype Entry = Entry(letter: string, word: string)

  const Alphabet: seq<Entry> :=
    [Entry("A", "Apple"), Entry("B", "Ball"), Entry("C", "Cat"), Entry("D", "Dog"),
     Entry("E", "Elephant"), Entry("F", "Fish"), Entry("G", "Goat"), Entry("H", "House")]

  /** The fixed pool of wrong words. */
  const WrongWords: seq<string> :=
    ["Tree", "Car", "Book", "Sun", "Moon", "Star", "Bird", "Flower", "Water", "Fire"]

  const PointsPerCorrect: nat := 10

  /** The letter's picture word. For the letters of the table it is never a
      word of the wrong-word pool. */
  function CorrectAnswer(e: Entry): (r: string)
    ensures e in Alphabet ==> r !in WrongWords
  {
    PoolAvoidsAnswers();
    e.word
  }

  /** The correct word of every letter, in order. */
  function Answers(): seq<string> {
    seq(|Alphabet|, i requires 0 <= i < |Alphabet| => CorrectAnswer(Alphabet[i]))
  }

  /** `wrongOptions[Math.floor(Math.random() * wrongOptions.length)]`, the
      draw `d` standing for the random number. */
  function Distractor(d: nat): (w: string)
    ensures w in WrongWords
  {
    WrongWords[d % |WrongWords|]
  }

  /** No word of the pool is the word of any letter, so a draw never yields
      the correct answer. */
  lemma PoolAvoidsAnswers()
    ensures forall i, j :: 0 <= i < |Alphabet| && 0 <= j < |WrongWords| ==> Alphabet[i].word != WrongWords[j]
  {
    forall i, j | 0 <= i < |Alphabet| && 0 <= j < |WrongWords| ensures Alphabet[i].word != WrongWords[j] {
      assert Alphabet[i].word[0] in "ABCDEFGH";
      assert WrongWords[j][0] in "TCBSMFW";
      if Alphabet[i].word[0] == WrongWords[j][0] {
        assert Alphabet[i].word[2] != WrongWords[j][2];
      }
    }
  }

  /** `generateOptions`: the letter's word plus three distinct words from
      the pool, then shuffled; `None` when the draws run out first. */
  method GenerateOptions(e: Entry, draws: seq<nat>, keys: seq<nat>) returns (r: Option<seq<string>>)
    ensures r.None? <==> |Sampling.Fill([CorrectAnswer(e)], Distractor, draws)| < 4
    ensures r.Some? ==> IsOptionSet(r.value, CorrectAnswer(e)) && multiset(r.value)[CorrectAnswer(e)] == 1
    ensures r.Some? ==> multiset(r.value) == multiset(Sampling.Fill([CorrectAnswer(e)], Distractor, draws))
    ensures r.Some? ==> forall w :: w in r.value && w != CorrectAnswer(e) ==> w in WrongWords
  {
    r := Sampling.ShuffledSample(CorrectAnswer(e), Distractor, draws, keys);
  }

  /** Mounting the game: a session on the eight words whose first buttons are
      sampled with `Distractor`. */
  method Start(draws: seq<nat>, keys: seq<nat>) returns (s: Option<QuizSession.Session<string>>)
    ensures s.None? <==> |Sampling.Fill([CorrectAnswer(Alphabet[0])], Distractor, draws)| < 4
    ensures s.Some? ==> fresh(s.value) && s.value.Valid()
    ensures s.Some? ==> s.value.answers == Answers() && s.value.points == PointsPerCorrect
    ensures s.Some? ==> s.value.index == 0 && s.value.score == 0 && !s.value.showFeedback
    ensures s.Some? ==> forall x :: x in s.value.options && x != CorrectAnswer(Alphabet[0]) ==> x in WrongWords
  {
    s := QuizSession.StartSampled(Answers(), PointsPerCorrect, Distractor, draws, keys);
  }

}
