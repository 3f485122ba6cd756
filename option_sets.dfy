/** What the multiple-choice games show as answer buttons, and the random
    reordering (`sort(() => Math.random() - 0.5)`) they apply to it. */
module OptionSets {

  /** No value occurs twice in `s`. */
  predicate NoDuplicates<A(==)>(s: seq<A>) {
    forall i, j :: 0 <= i < j < |s| ==> s[i] != s[j]
  }

  /** An answer-button list: four values, pairwise distinct, the correct
      answer among them. */
  predicate IsOptionSet<A(==)>(opts: seq<A>, correct: A) {
    |opts| == 4 && correct in opts && NoDuplicates(opts)
  }

  /** Draw number `i` of a finite random oracle. A draw past the end reads
      as 0, which is one of the values `Math.random()` may return. */
  function DrawAt(draws: seq<nat>, i: nat): nat {
    if i < |draws| then draws[i] else 0
  }

  /** The comparator-driven random sort, seen as "some permutation": the
      key drawn for each slot picks which of the remaining values goes
      there. */
  function Shuffle<A>(s: seq<A>, keys: seq<nat>): (r: seq<A>)
    ensures |r| == |s|
    decreases |s|
  {
    if s == [] then []
    else
      var k := DrawAt(keys, 0) % |s|;
      [s[k]] + Shuffle(s[..k] + s[k + 1..], if keys == [] then [] else keys[1..])
  }

  /** Shuffling only reorders: the same values, each as often as before. */
  lemma {:induction false} ShuffleIsPermutation<A>(s: seq<A>, keys: seq<nat>)
    ensures multiset(Shuffle(s, keys)) == multiset(s)
    decreases |s|
  {
    if s != [] {
      var k := DrawAt(keys, 0) % |s|;
      var rest := s[..k] + s[k + 1..];
      var later := if keys == [] then [] else keys[1..];
      ShuffleIsPermutation(rest, later);
      assert Shuffle(s, keys) == [s[k]] + Shuffle(rest, later);
      TakeOut(s, k);
    }
  }

  /** Taking out the value at `k` leaves the others. */
  lemma TakeOut<A>(s: seq<A>, k: nat)
    requires k < |s|
    ensures multiset(s) == multiset{s[k]} + multiset(s[..k] + s[k + 1..])
  {
    assert s == s[..k] + ([s[k]] + s[k + 1..]);
  }

  /** A list without duplicates holds each of its values exactly once. */
  lemma {:induction false} NoDuplicatesCount<A>(s: seq<A>, x: A)
    requires NoDuplicates(s)
    ensures multiset(s)[x] == if x in s then 1 else 0
  {
    if s != [] {
      assert NoDuplicates(s[1..]) by {
        forall i, j | 0 <= i < j < |s[1..]| ensures s[1..][i] != s[1..][j] {
          assert s[1..][i] == s[i + 1] && s[1..][j] == s[j + 1];
        }
      }
      NoDuplicatesCount(s[1..], x);
      assert s == [s[0]] + s[1..];
      assert multiset(s) == multiset{s[0]} + multiset(s[1..]);
      assert forall j :: 0 <= j < |s[1..]| ==> s[1..][j] != s[0] by {
        forall j | 0 <= j < |s[1..]| ensures s[1..][j] != s[0] {
          assert s[1..][j] == s[j + 1];
        }
      }
      assert s[0] !in s[1..];
    }
  }

  /** A list in which every value occurs at most once has no duplicates. */
  lemma CountAtMostOneIsNoDuplicates<A>(s: seq<A>)
    requires forall x :: multiset(s)[x] <= 1
    ensures NoDuplicates(s)
  {
    forall i, j | 0 <= i < j < |s| ensures s[i] != s[j] {
      var x := s[i];
      assert s == s[..i] + [s[i]] + s[i + 1..j] + [s[j]] + s[j + 1..];
      assert multiset(s)[x] >= multiset([s[i]])[x] + multiset([s[j]])[x];
    }
  }

  /** Reordering a list without duplicates leaves it without duplicates. */
  lemma PermutationKeepsNoDuplicates<A>(a: seq<A>, b: seq<A>)
    requires multiset(a) == multiset(b) && NoDuplicates(a)
    ensures NoDuplicates(b)
  {
    forall x ensures multiset(b)[x] <= 1 {
      NoDuplicatesCount(a, x);
    }
    CountAtMostOneIsNoDuplicates(b);
  }

  /** Shuffling an answer-button list yields an answer-button list for the
      same correct answer, which occurs in it exactly once. */
  lemma ShuffleKeepsOptionSet<A>(opts: seq<A>, correct: A, keys: seq<nat>)
    requires IsOptionSet(opts, correct)
    ensures IsOptionSet(Shuffle(opts, keys), correct)
    ensures multiset(Shuffle(opts, keys))[correct] == 1
  {
    var r := Shuffle(opts, keys);
    ShuffleIsPermutation(opts, keys);
    assert correct in multiset(opts);
    PermutationKeepsNoDuplicates(opts, r);
    NoDuplicatesCount(r, correct);
  }

  /** In an answer-button list the correct answer occurs exactly once. */
  lemma CorrectAnswerOnce<A>(opts: seq<A>, correct: A)
    requires IsOptionSet(opts, correct)
    ensures multiset(opts)[correct] == 1
  {
    NoDuplicatesCount(opts, correct);
  }

}
