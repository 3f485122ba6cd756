/** Word Building: six three-letter words to spell from a tray of letters
    (the word's letters plus X, Z and Q, shuffled), 20 points per word.
    Letters are single characters, so joining the selected letters is the
    selected sequence itself. */
module WordBuildingGame {
  import opened Wrappers
  import opened OptionSets

  const Words: seq<string> := ["CAT", "DOG", "SUN", "BAT", "HAT", "CUP"]

  /** The decoy letters; the game uses the first three. */
  const ExtraLetters: seq<char> := ['X', 'Z', 'Q', 'J', 'K', 'V', 'W', 'Y']

  const PointsPerWord: nat := 20

  /** The tray for `word` holds the word's letters and X, Z and Q. */
  predicate IsTrayFor(letters: seq<char>, word: string) {
    multiset(letters) == multiset(word) + multiset{'X', 'Z', 'Q'}
  }

  /** `generateLetters`: the word's letters and the first three decoys,
      shuffled. */
  function GenerateLetters(word: string, keys: seq<nat>): (letters: seq<char>)
    ensures IsTrayFor(letters, word)
    ensures |letters| == |word| + 3
  {
    var all := word + ExtraLetters[..3];
    assert ExtraLetters[..3] == ['X', 'Z', 'Q'];
    ShuffleIsPermutation(all, keys);
    Shuffle(all, keys)
  }

  /** `selectedLetters.filter((_, i) => i !== index)`, walking the list
      head first; `index` is the position to drop, relative to the head. */
  function RemoveAt(s: seq<char>, index: int): (r: seq<char>)
    ensures |r| == if 0 <= index < |s| then |s| - 1 else |s|
    decreases |s|
  {
    if s == [] then []
    else (if index == 0 then [] else [s[0]]) + RemoveAt(s[1..], index - 1)
  }

  /** The filter deletes exactly position `index` and keeps the order of
      the rest; an index outside the list changes nothing. */
  lemma RemoveAtDeletes(s: seq<char>, index: int)
    ensures 0 <= index < |s| ==> RemoveAt(s, index) == s[..index] + s[index + 1..]
    ensures !(0 <= index < |s|) ==> RemoveAt(s, index) == s
  {
    if 0 <= index < |s| {
      RemoveAtInRange(s, index);
    } else {
      RemoveAtOutside(s, index);
    }
  }

  lemma {:induction false} RemoveAtInRange(s: seq<char>, index: int)
    requires 0 <= index < |s|
    ensures RemoveAt(s, index) == s[..index] + s[index + 1..]
    decreases |s|
  {
    var rest := s[1..];
    if index == 0 {
      assert RemoveAt(s, index) == RemoveAt(rest, -1);
      RemoveAtOutside(rest, -1);
      assert s[..0] + s[1..] == rest;
    } else {
      assert RemoveAt(s, index) == [s[0]] + RemoveAt(rest, index - 1);
      RemoveAtInRange(rest, index - 1);
      assert s[..index] == [s[0]] + rest[..index - 1];
      assert s[index + 1..] == rest[index..];
    }
  }

  lemma {:induction false} RemoveAtOutside(s: seq<char>, index: int)
    requires !(0 <= index < |s|)
    ensures RemoveAt(s, index) == s
    decreases |s|
  {
    if s != [] {
      RemoveAtOutside(s[1..], index - 1);
      assert s == [s[0]] + s[1..];
    }
  }

  /** A letter button is disabled when that letter is already selected or
      the tray is full; so a click on an enabled button puts that letter in
      the tray exactly once and does not overfill it. */
  predicate LetterEnabled(selected: seq<char>, word: string, letter: char)
    ensures LetterEnabled(selected, word, letter) ==>
      multiset(selected + [letter])[letter] == 1 && |selected + [letter]| <= |word|
  {
    letter !in selected && |selected| < |word|
  }

  /** The Check button is enabled when the tray is full and no feedback is
      shown. */
  predicate CheckEnabled(selected: seq<char>, word: string, showFeedback: bool) {
    |selected| == |word| && !showFeedback
  }

  /** A word without a repeated letter can be spelled through enabled
      buttons: clicking its letters in order finds each button enabled. */
  lemma SpellableByEnabledClicks(word: string, k: nat)
    requires k <= |word|
    ensures NoDuplicates(word) ==>
      forall j :: 0 <= j < k ==> LetterEnabled(word[..j], word, word[j])
  {
  }

  /** An enabled click never selects a letter twice, so a tray filled
      through enabled buttons can never spell a word with a repeated letter. */
  lemma EnabledClickKeepsNoDuplicates(selected: seq<char>, word: string, letter: char)
    requires NoDuplicates(selected) && LetterEnabled(selected, word, letter)
    ensures NoDuplicates(selected + [letter])
    ensures |selected + [letter]| <= |word|
  {
    var s := selected + [letter];
    forall i, j | 0 <= i < j < |s| ensures s[i] != s[j] {
      if j == |selected| {
        assert s[i] == selected[i];
      } else {
        assert s[i] == selected[i] && s[j] == selected[j];
      }
    }
  }

  /** Every word of the game has no repeated letter, so each can be spelled. */
  lemma WordsSpellable(w: nat)
    requires w < |Words|
    ensures NoDuplicates(Words[w])
    ensures forall j :: 0 <= j < |Words[w]| ==> LetterEnabled(Words[w][..j], Words[w], Words[w][j])
  {
    assert |Words[w]| == 3;
    assert Words[w][0] != Words[w][1] && Words[w][0] != Words[w][2] && Words[w][1] != Words[w][2];
    SpellableByEnabledClicks(Words[w], |Words[w]|);
  }

  class WordBuilder {
    const words: seq<string>

    var index: nat
    var score: nat
    var selected: seq<char>
    var available: seq<char>
    var showFeedback: bool
    /** The pending feedback timer, with the verdict `checkWord` computed
        when it started it. */
    var verdict: Option<bool>
    /** `onComplete()` has been called. */
    var completed: bool

    function Word(): string
      reads this
      requires index < |words|
    {
      words[index]
    }

    ghost predicate Valid()
      reads this
    {
      && 0 < |words| && index < |words|
      && |selected| <= |Word()|
      && IsTrayFor(available, Word())
      && (verdict.Some? ==> showFeedback && !completed)
      && (completed ==> index == |words| - 1 && showFeedback)
      && (showFeedback && verdict.None? ==> completed)
      && score == PointsPerWord * (index + if verdict == Some(true) || completed then 1 else 0)
    }

    /** Mounting the game: first word, empty tray, letters from
        `GenerateLetters`. */
    constructor (words: seq<string>, keys: seq<nat>)
      requires 0 < |words|
      ensures Valid() && this.words == words
      ensures index == 0 && score == 0 && selected == [] && !showFeedback && verdict == None
      ensures available == GenerateLetters(words[0], keys)
    {
      this.words := words;
      index := 0;
      score := 0;
      selected := [];
      available := GenerateLetters(words[0], keys);
      showFeedback := false;
      verdict := None;
      completed := false;
    }

    /** `handleLetterClick`: append the letter unless the tray already holds
        as many letters as the word has. */
    method ClickLetter(letter: char)
      requires Valid()
      modifies this`selected
      ensures Valid()
      ensures |old(selected)| < |Word()| ==> selected == old(selected) + [letter]
      ensures |old(selected)| >= |Word()| ==> selected == old(selected)
    {
      if |selected| < |words[index]| {
        selected := selected + [letter];
      }
    }

    /** `handleRemoveLetter`: delete the letter at position `i`, keeping the
        order of the others. */
    method RemoveLetter(i: int)
      requires Valid()
      modifies this`selected
      ensures Valid()
      ensures 0 <= i < |old(selected)| ==> selected == old(selected)[..i] + old(selected)[i + 1..]
      ensures !(0 <= i < |old(selected)|) ==> selected == old(selected)
    {
      RemoveAtDeletes(selected, i);
      selected := RemoveAt(selected, i);
    }

    /** `clearWord`: empty the tray; score and word are untouched. */
    method Clear()
      requires Valid()
      modifies this`selected
      ensures Valid() && selected == []
    {
      selected := [];
    }

    /** `checkWord`, reached only through the enabled Check button: show
        feedback, add the points when the joined letters are the word, and
        start the timer with that verdict. */
    method Check()
      requires Valid() && CheckEnabled(selected, Word(), showFeedback)
      modifies this`showFeedback, this`score, this`verdict
      ensures Valid() && showFeedback && verdict == Some(selected == Word())
      ensures score == old(score) + if selected == Word() then PointsPerWord else 0
    {
      showFeedback := true;
      if selected == words[index] {
        score := score + PointsPerWord;
        verdict := Some(true);
      } else {
        verdict := Some(false);
      }
    }

    /** The feedback timer fires. On a correct verdict it moves to the next
        word, with an empty tray and the letters the effect generates from
        `keys`, or calls `onComplete()` on the last word; on a wrong verdict
        it only hides the feedback, keeping the selected letters. */
    method FeedbackElapsed(keys: seq<nat>) returns (advanced: bool)
      requires Valid() && verdict.Some?
      modifies this
      ensures Valid() && verdict == None && score == old(score)
      ensures advanced <==> old(verdict) == Some(true) && old(index) + 1 < |words|
      ensures advanced ==>
        index == old(index) + 1 && selected == [] && !showFeedback
        && available == GenerateLetters(words[index], keys) && !completed
      ensures old(verdict) == Some(true) && !advanced ==>
        completed && index == old(index) && selected == old(selected) && available == old(available)
      ensures old(verdict) == Some(false) ==>
        !showFeedback && !completed && index == old(index) && selected == old(selected)
        && available == old(available)
    {
      if !verdict.value {
        assert score == PointsPerWord * index;
        showFeedback := false;
        verdict := None;
        return false;
      }
      if index < |words| - 1 {
        NextWord(keys);
        advanced := true;
      } else {
        completed := true;
        verdict := None;
        advanced := false;
      }
    }

    /** The correct-word branch of the timer when a word follows: the next
        word, an empty tray, fresh letters, no feedback. */
    method NextWord(keys: seq<nat>)
      requires Valid() && verdict == Some(true) && index + 1 < |words|
      modifies this`index, this`selected, this`showFeedback, this`available, this`verdict
      ensures Valid() && verdict == None && index == old(index) + 1
      ensures selected == [] && !showFeedback && available == GenerateLetters(words[index], keys)
    {
      var letters := GenerateLetters(words[index + 1], keys);
      index := index + 1;
      selected := [];
      showFeedback := false;
      available := letters;
      verdict := None;
    }
  }

  /** Mounting the game: a tray on the six words, each of which can be
      spelled through enabled buttons. */
  method Start(keys: seq<nat>) returns (w: WordBuilder)
    ensures fresh(w) && w.Valid() && w.words == Words
    ensures w.index == 0 && w.score == 0 && w.selected == [] && !w.showFeedback
    ensures w.available == GenerateLetters(Words[0], keys)
    ensures forall i :: 0 <= i < |w.words| ==> NoDuplicates(w.words[i])
  {
    w := new WordBuilder(Words, keys);
    forall i | 0 <= i < |Words| ensures NoDuplicates(Words[i]) {
      WordsSpellable(i);
    }
  }

}
