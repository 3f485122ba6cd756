/** Shape Explorer: six shapes to name, 15 points per correct answer, three
    wrong names drawn without replacement from the other five. */
module ShapeGame {
  import opened Wrappers
  import opened OptionSets
  import Sampling
  import QuizSession

  /** The shape names in play order; pictures and descriptions are left out. */
  const Shapes: seq<string> := ["Circle", "Square", "Triangle", "Rectangle", "Star", "Heart"]

  const PointsPerCorrect: nat := 15

  lemma ShapesDistinct()
    ensures NoDuplicates(Shapes)
  {
    forall i, j | 0 <= i < j < |Shapes| ensures Shapes[i] != Shapes[j] {
      assert Shapes[i][0] != Shapes[j][0] || Shapes[i][1] != Shapes[j][1];
    }
  }

  /** Removing a name that occurs once from a list without duplicates
      shortens it by one. */
  lemma {:induction false} WithoutLength(names: seq<string>, x: string)
    requires NoDuplicates(names) && x in names
    ensures |Sampling.Without(names, x)| == |names| - 1
  {
    if names[0] == x {
      assert x !in names[1..] by {
        forall j | 0 <= j < |names[1..]| ensures names[1..][j] != x {
          assert names[1..][j] == names[j + 1];
        }
      }
      WithoutAbsent(names[1..], x);
    } else {
      assert names == [names[0]] + names[1..];
      assert NoDuplicates(names[1..]) by {
        forall i, j | 0 <= i < j < |names[1..]| ensures names[1..][i] != names[1..][j] {
          assert names[1..][i] == names[i + 1] && names[1..][j] == names[j + 1];
        }
      }
      WithoutLength(names[1..], x);
    }
  }

  /** Removing a name that does not occur changes nothing. */
  lemma {:induction false} WithoutAbsent(names: seq<string>, x: string)
    requires x !in names
    ensures Sampling.Without(names, x) == names
  {
    if names != [] {
      assert names == [names[0]] + names[1..];
      WithoutAbsent(names[1..], x);
    }
  }

  /** `generateOptions`: the shape's name plus three names spliced out of
      the pool of the other names, then shuffled. */
  method GenerateOptions(index: nat, draws: seq<nat>, keys: seq<nat>) returns (r: seq<string>)
    requires index < |Shapes|
    ensures IsOptionSet(r, Shapes[index]) && multiset(r)[Shapes[index]] == 1
    ensures forall x :: x in r ==> x in Shapes
  {
    var names := Shapes;
    var correct := names[index];
    ShapesDistinct();
    WithoutLength(names, correct);
    var list := Sampling.SpliceSample(correct, names, draws);
    SplicedIsOptionSet(list, names, correct);
    r := Shuffle(list, keys);
    ShuffleKeepsOptionSet(list, correct, keys);
    ShuffleIsPermutation(list, keys);
    forall x | x in r ensures x in names {
      assert x in multiset(list);
    }
  }

  /** Four names spliced from a duplicate-free list that holds the correct
      one form an answer-button list drawn from that list. */
  lemma SplicedIsOptionSet(list: seq<string>, names: seq<string>, correct: string)
    requires NoDuplicates(names) && correct in names
    requires |list| == 4 && list[0] == correct && NoDuplicates(list)
    requires forall x :: x in list[1..] ==> x in names && x != correct
    ensures IsOptionSet(list, correct)
    ensures forall x :: x in list ==> x in names
  {
  }

  /** Mounting the game: a session on the six names whose first buttons
      come from `GenerateOptions`. */
  method Start(draws: seq<nat>, keys: seq<nat>) returns (s: QuizSession.Session<string>)
    ensures fresh(s) && s.Valid()
    ensures s.answers == Shapes && s.points == PointsPerCorrect
    ensures s.index == 0 && s.score == 0 && !s.showFeedback
  {
    var initial := GenerateOptions(0, draws, keys);
    s := new QuizSession.Session(Shapes, PointsPerCorrect, initial);
  }

  /** The feedback timer of a running game fires. When a correct answer
      leads to a next shape, the effect's `GenerateOptions` for it is run
      first. */
  method Advance(s: QuizSession.Session<string>, draws: seq<nat>, keys: seq<nat>) returns (outcome: QuizSession.Outcome)
    requires s.Valid() && s.timerPending && s.answers == Shapes
    modifies s
    ensures s.Valid() && !s.timerPending && s.score == old(s.score)
    ensures outcome == QuizSession.Advanced <==>
      old(s.selected) == Some(old(s.Correct())) && old(s.index) + 1 < |s.answers|
    ensures outcome == QuizSession.Advanced ==>
      s.index == old(s.index) + 1 && !s.showFeedback && s.selected.None?
      && forall x :: x in s.options ==> x in Shapes
    ensures outcome == QuizSession.Retry <==> old(s.selected) != Some(old(s.Correct()))
    ensures outcome == QuizSession.Retry ==>
      s.index == old(s.index) && s.options == old(s.options) && !s.showFeedback && s.selected.None?
    ensures outcome == QuizSession.Completed ==>
      s.index == old(s.index) && s.options == old(s.options) && s.showFeedback && s.Finished()
  {
    var next := s.options;
    if s.selected == Some(s.Correct()) && s.index + 1 < |s.answers| {
      next := GenerateOptions(s.index + 1, draws, keys);
    }
    outcome := s.FeedbackElapsed(next);
  }

}
