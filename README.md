# Education game platform — a Dafny model

This project models the logic of a children's education platform: a
home page that keeps the player's level and points and lets the player move
between the home screen, two subject screens (language and maths) and a
game. Under the rendering, there are six mini-games:

- five multiple-choice quizzes:
  - Addition Adventure, 15 points per correct answer;
  - Subtraction Safari, 15 points, with a picture of crossed-out items;
  - Counting, 10 points;
  - Alphabet Adventure, 10 points;
  - Shape Explorer, 15 points;
- Word Building: spell a word from a tray of letters, 20 points per word.

The five quizzes share one loop, modelled once as the class
`QuizSession.Session`. It holds:

- the question index and the score;
- the feedback flag and the selected answer;
- the four answer buttons.

Answering records the selection and adds the points when the answer is
correct. When the feedback delay ends, a correct answer advances to the next
question, or calls `onComplete` on the last one. A wrong answer clears the
feedback and the selection and keeps the same question and buttons. The
session invariant ties the score to the number of questions answered
correctly, and keeps the buttons a valid answer set: four values, pairwise
distinct, the correct answer among them.

Each game module (`AdditionGame`, `SubtractionGame`, `CountingGame`,
`AlphabetGame`, `ShapeGame`) supplies:

- its question table and its correct-answer rule;
- the way it draws wrong answers;
- `GenerateOptions`, which produces the shuffled buttons.

The games draw wrong answers in two ways, both in `Sampling`:

- rejection sampling, where a candidate is kept when new;
- sampling without replacement, where a name is spliced out of the pool of
  the other names.

`OptionSets.Shuffle` models the random-comparator sort as a permutation
chosen by a key sequence.

`WordBuildingGame.WordBuilder` models the letter tray: click, remove,
clear and check. `EducationPlatform` models the stats update on completing
a game, `renderGame`, and the navigation between screens.

Randomness is an input. `Math.random()` draws are finite sequences of
naturals (`draws`, `keys`). The 2000 ms feedback timer is an explicit step,
`FeedbackElapsed`. The effect that regenerates the buttons or letters when
the question index changes is folded into that step. In the quiz session it
arrives as the `nextOptions` argument. In the word builder it is computed
from `keys`.

Some facts about the code that shape the model:

- The rejection-sampling loops have no retry cap and loop until four
  options are found. Here a finite draw sequence stands in for the missing
  cap, and `GenerateOptions` returns `None` when it runs out.
- The subtraction game draws its wrong answers from 0..9.
- The shuffle is the random-comparator sort, modelled as some permutation.
- Letter buttons are disabled by letter value (see
  `WordBuildingGame.LetterEnabled`).

## Model

| member | source | states |
|---|---|---|
| OptionSets.ShuffleIsPermutation | components/addition-game.tsx:48 | the random-comparator sort only reorders: the shuffled list has the same values, each as often as before |
| OptionSets.Shuffle | components/addition-game.tsx:48 | the reordered list has as many entries as the list it reorders (that it holds the same values is `ShuffleIsPermutation`) |
| OptionSets.ShuffleKeepsOptionSet | components/subtraction-game.tsx:37-46 | shuffling a four-entry, duplicate-free list holding the correct answer gives such a list again, with the correct answer exactly once |
| OptionSets.CorrectAnswerOnce | components/alphabet-game.tsx:37-45 | in an answer-button list the correct answer occurs exactly once |
| OptionSets.PermutationKeepsNoDuplicates | components/counting-game.tsx:49 | a reordering of a duplicate-free list is duplicate-free |
| Sampling.Fill | components/addition-game.tsx:39-46 | from a starting list, each draw's candidate is appended only when absent; sampling stops at four entries or when the draws run out; the starting list is a prefix of the result, and a list that already has four entries is returned as it is |
| Sampling.FillExtends | components/addition-game.tsx:39-46 | rejection sampling only appends to the list it starts from and never grows it past four entries |
| Sampling.FillKeepsNoDuplicates | components/addition-game.tsx:43-45 | a candidate is pushed only when absent, so a duplicate-free start stays duplicate-free |
| Sampling.FillDrawnFrom | components/counting-game.tsx:42-47 | every entry of the result was in the starting list or is the candidate of some draw |
| Sampling.FillShortKeepsEveryDraw | components/counting-game.tsx:42-47 | when the draws run out before four entries, every drawn candidate is in the list |
| Sampling.RejectionSample | components/addition-game.tsx:38-46 | the `while (options.length < 4)` loop: a result exactly when sampling reaches four entries; it starts with the correct answer, is a valid answer set, and every other entry comes from a draw |
| Sampling.ShuffledSample | components/addition-game.tsx:37-49 | `generateOptions` of the rejection-sampling games: a result exactly when sampling reaches four entries; the shuffled list is a valid answer set with the correct answer once, a permutation of the sampled list, and every other entry the candidate of a draw |
| Sampling.Without | components/shape-game.tsx:76 | the filtered pool holds exactly the names other than the correct one, stays duplicate-free, and draws only on the original names |
| Sampling.SpliceSample | components/shape-game.tsx:74-81 | the splice loop terminates with min(4, 1 + pool size) entries; the first entry is the correct name, the others come from the pool without repetition, and a duplicate-free name list gives a duplicate-free result |
| QuizSession.Session.constructor | components/addition-game.tsx:16-19 | a new session is on question 0 with score 0, no feedback, no selection and the first question's buttons |
| QuizSession.Session.Answer | components/addition-game.tsx:54-59 | answering selects, shows feedback and starts the timer, adds exactly the game's points iff the answer is correct, and keeps the question and buttons |
| QuizSession.Session.FeedbackElapsed | components/addition-game.tsx:60-74 | when the timer fires: a correct answer advances the index by one, with new buttons and cleared feedback, or completes on the last question; a wrong answer keeps index, buttons and score and clears feedback and selection |
| QuizSession.ScoreBounded | components/counting-game.tsx:55-76 | the score is the points times the questions solved, so it never exceeds the points for the whole quiz |
| QuizSession.StartSampled | components/addition-game.tsx:15-52 | mounting a rejection-sampling game: no session exactly when sampling for the first question stops short of four entries; otherwise a valid fresh session on question 0 with score 0, no feedback, and buttons that permute the sampled list, every wrong answer the candidate of a draw |
| QuizSession.AdvanceSampled | components/addition-game.tsx:36-75 | the timer step with the effect in front of it: nothing changes exactly when a correct answer has a next question whose sampling stops short of four entries; otherwise the score is kept and the session stays valid; a wrong answer is a retry that keeps index and buttons and clears feedback and selection; a correct answer with a next question advances the index exactly when its sampling reaches four entries, clears feedback and selection and shows buttons that permute the sampled list; the last correct answer keeps index and buttons, keeps the feedback and finishes |
| AdditionGame.Distractor | components/addition-game.tsx:42 | every wrong-answer candidate lies in 1..15 |
| AdditionGame.CorrectAnswer | components/addition-game.tsx:31 | the correct sum of every question lies in 1..15, the range the wrong answers are drawn from |
| AdditionGame.GenerateOptions | components/addition-game.tsx:36-52 | four distinct buttons with `num1 + num2` exactly once, a permutation of the sampled list, the other answers in 1..15; none when the draws run out |
| AdditionGame.Start | components/addition-game.tsx:15-52 | mounting gives a valid session on the six sums with 15 points per correct answer, through `StartSampled`; no session when the draws run out; every wrong answer on the first buttons lies in the game's distractor range or pool |
| SubtractionGame.Distractor | components/subtraction-game.tsx:40-41 | every wrong-answer candidate lies in 0..9, so the `wrong >= 0` test always passes |
| SubtractionGame.CorrectAnswer | components/subtraction-game.tsx:31 | the correct difference of every question lies in 0..9, the range the wrong answers are drawn from |
| SubtractionGame.GenerateOptions | components/subtraction-game.tsx:34-50 | four distinct buttons with `num1 - num2` exactly once, a permutation of the sampled list, the other answers in 0..9 |
| SubtractionGame.Start | components/subtraction-game.tsx:14-50 | mounting gives a valid session on the six differences with 15 points per correct answer, through `StartSampled`; no session when the draws run out; every wrong answer on the first buttons lies in the game's distractor range or pool |
| SubtractionGame.CountTrueOfSuffix | components/subtraction-game.tsx:82-83 | a mark list that is false below `k` and true from `k` on has `length - k` marks |
| SubtractionGame.CrossedMarks | components/subtraction-game.tsx:83 | the picture has one strike-through mark per item |
| SubtractionGame.CrossedCount | components/subtraction-game.tsx:82-83 | item `i` is struck through iff `i >= total - toRemove`, so exactly `toRemove` items are struck when `toRemove <= total`, and all of them otherwise |
| SubtractionGame.PictureShowsAnswer | components/subtraction-game.tsx:21-28 | in every question `crossed == num2`, so the items left standing number exactly the correct answer |
| CountingGame.Distractor | components/counting-game.tsx:43 | every wrong-answer candidate lies in 1..10 |
| CountingGame.CorrectAnswer | components/counting-game.tsx:59 | the correct count of every question lies in 1..10, the range the wrong answers are drawn from |
| CountingGame.GenerateOptions | components/counting-game.tsx:37-53 | four distinct buttons with `count` exactly once, a permutation of the sampled list, the other answers in 1..10 |
| CountingGame.Start | components/counting-game.tsx:15-53 | mounting gives a valid session on the eight counts with 10 points per correct answer, through `StartSampled`; no session when the draws run out; every wrong answer on the first buttons lies in the game's distractor range or pool |
| AlphabetGame.Distractor | components/alphabet-game.tsx:41 | every wrong-answer candidate is a word of the fixed ten-word pool |
| AlphabetGame.CorrectAnswer | components/alphabet-game.tsx:61 | the word of every letter is outside the wrong-word pool |
| AlphabetGame.PoolAvoidsAnswers | components/alphabet-game.tsx:21-39 | no pool word is the word of any letter, so a draw never repeats the correct answer |
| AlphabetGame.GenerateOptions | components/alphabet-game.tsx:34-51 | four distinct buttons with the letter's word exactly once, a permutation of the sampled list, the other words from the pool |
| AlphabetGame.Start | components/alphabet-game.tsx:15-51 | mounting gives a valid session on the eight words with 10 points per correct answer, through `StartSampled`; no session when the draws run out; every wrong answer on the first buttons lies in the game's distractor range or pool |
| ShapeGame.ShapesDistinct | components/shape-game.tsx:21-66 | the six shape names are pairwise distinct |
| ShapeGame.WithoutLength | components/shape-game.tsx:76 | filtering a name that occurs once out of a duplicate-free list leaves one fewer name, so the pool has five names and the splice loop yields four buttons |
| ShapeGame.WithoutAbsent | components/shape-game.tsx:76 | filtering out a name that is absent leaves the list as it was |
| ShapeGame.GenerateOptions | components/shape-game.tsx:71-89 | four distinct shape names with the current one exactly once, every button a shape name |
| ShapeGame.Start | components/shape-game.tsx:14-89 | mounting gives a valid session on the six names with 15 points per correct answer |
| ShapeGame.Advance | components/shape-game.tsx:71-110 | the timer step with the effect in front of it: the score is kept and the session stays valid; a wrong answer is a retry that keeps index and buttons and clears feedback and selection; a correct answer advances the index exactly when a next shape exists, clears feedback and selection and shows shape-name buttons; the last correct answer keeps index and buttons, keeps the feedback and finishes |
| WordBuildingGame.GenerateLetters | components/word-building-game.tsx:35-39 | the tray is a permutation of the word's letters plus X, Z and Q, so it has three more letters than the word |
| WordBuildingGame.RemoveAt | components/word-building-game.tsx:54 | the filter drops one letter when the index is in range and none otherwise (which one is `RemoveAtDeletes`) |
| WordBuildingGame.RemoveAtDeletes | components/word-building-game.tsx:53-56 | the filter deletes exactly position `i` and keeps the order of the rest; an index outside the list changes nothing |
| WordBuildingGame.LetterEnabled | components/word-building-game.tsx:163 | a letter button is enabled only while its letter is not in the tray and the tray is shorter than the word, so an enabled click puts that letter in the tray exactly once and never overfills it |
| WordBuildingGame.CheckEnabled | components/word-building-game.tsx:144 | the Check button is enabled when the tray is as long as the word and no feedback is shown; `WordBuilder.Check` requires it |
| WordBuildingGame.SpellableByEnabledClicks | components/word-building-game.tsx:163 | for a word without repeated letters, clicking its letters in order finds every letter button enabled |
| WordBuildingGame.EnabledClickKeepsNoDuplicates | components/word-building-game.tsx:163 | a click on an enabled button never selects a letter twice and never overfills the tray |
| WordBuildingGame.WordsSpellable | components/word-building-game.tsx:20-27 | every word of the game has distinct letters, so each can be spelled through enabled buttons |
| WordBuildingGame.WordBuilder.constructor | components/word-building-game.tsx:34-45 | mounting shows the first word with an empty tray, no feedback, score 0 and the letters of `GenerateLetters` |
| WordBuildingGame.WordBuilder.ClickLetter | components/word-building-game.tsx:47-51 | the letter is appended iff the tray is shorter than the word; otherwise nothing changes |
| WordBuildingGame.WordBuilder.RemoveLetter | components/word-building-game.tsx:53-56 | position `i` is removed and the rest keep their order; an out-of-range index changes nothing |
| WordBuildingGame.WordBuilder.Clear | components/word-building-game.tsx:80-82 | the tray is emptied; score and word are untouched |
| WordBuildingGame.WordBuilder.Check | components/word-building-game.tsx:58-63 | reached through the enabled Check button only; shows feedback and adds exactly 20 iff the joined letters equal the word |
| WordBuildingGame.WordBuilder.FeedbackElapsed | components/word-building-game.tsx:64-77 | after a correct word: the next word with an empty tray and fresh letters, or completion on the last word; after a wrong word: only feedback is hidden and the letters stay |
| WordBuildingGame.WordBuilder.NextWord | components/word-building-game.tsx:34-45 | changing the word regenerates the letters and clears the tray and feedback |
| WordBuildingGame.Start | components/word-building-game.tsx:15-45 | mounting gives a valid tray on the six words, first word, empty tray, score 0, the letters of `GenerateLetters`, and every word free of repeated letters, so each is spellable |
| EducationPlatform.CompleteGame | app/page.tsx:298-303 | completing a game adds exactly 50 points, raises the level by one iff the old points plus 50 exceed the old level times 500, and keeps badges and streak |
| EducationPlatform.CompleteGameKeepsLevel | app/page.tsx:302 | when the level is the points divided by 500 and rounded up, it still is after a completion |
| EducationPlatform.CompletedGamesStats | app/page.tsx:44-49 | from the starting stats, `n` completions give 1250 + 50n points, the matching level, and the same badges and streak |
| EducationPlatform.RenderGame | app/page.tsx:295-347 | nothing is rendered when no game is selected (or the id is empty); a known id renders its own game; every other id renders "Game not found" |
| EducationPlatform.RenderGameOfId | app/page.tsx:315-332 | each game component is reached by selecting its own id |
| EducationPlatform.GameId | app/page.tsx:315-332 | the id of a screen is a known game id exactly for the six game screens |
| EducationPlatform.ListedGamesRender | app/page.tsx:58-122 | of the ids listed on the subject screens, exactly "reading" and "stories" reach "Game not found" |
| EducationPlatform.Platform.constructor | app/page.tsx:42-49 | the platform opens on the home screen with no game selected and the starting stats |
| EducationPlatform.Platform.OpenSubject | app/page.tsx:202 | a subject card on the home screen shows that subject |
| EducationPlatform.Platform.BackHome | app/page.tsx:247 | "Back Home" on a subject screen shows the home screen |
| EducationPlatform.Platform.ChooseGame | app/page.tsx:260-263 | a game card selects its id and shows the game screen |
| EducationPlatform.Platform.GameComplete | app/page.tsx:298-307 | completion applies `CompleteGame` to the stats, shows home and clears the selection |
| EducationPlatform.Platform.GameBack | app/page.tsx:309-312 | back shows home and clears the selection; the stats do not change |
| EducationPlatform.Platform.NotFoundGoHome | app/page.tsx:341 | "Go Home" on "Game not found" changes only the view |

## Left out

- Rendering, styling, icons and the UI component library: presentation only.
- Progress percentages: display values in floating point.
- `Math.random()` itself: each draw is an element of a finite `draws` or `keys` sequence. A missing shuffle or splice key reads as 0, a value `Math.random()` may return.
- Sampling.RejectionSample: the games' loops never give up. The model stops when the finite draw sequence runs out and then returns `None`, so termination and output are stated only for draw sequences that reach four entries.
- OptionSets.Shuffle: the random-comparator sort is modelled as a permutation picked by keys. Its actual (non-uniform) distribution is not modelled.
- The 2000 ms delay, and timers that fire after the game is unmounted: the delay is the explicit `FeedbackElapsed` step, and unmounting is not modelled.
- QuizSession.Session.FeedbackElapsed: the effect that regenerates the buttons after the index changes is folded into this step. The brief render between the index change and the effect is not modelled. This includes the shape game's effect-driven reset of selection and feedback.
- The quiz answer buttons and the Check button are disabled while feedback is shown. Their handlers are therefore modelled with that as a precondition, rather than as handlers that may run at any time.
- The audio stubs (`playSound`, `playLetterSound`, `playWordSound`): they only log.
- The static `subjects` table: only its game ids are modelled. Names, descriptions, difficulty, progress and completion flags are display data.
- Letters are single characters, so joining the selected letters is the sequence itself.
- Numbers are unbounded integers. The values involved are small, so no overflow or floating-point rounding arises.
- A game's own Back button calls the platform's `handleGameBack`, which is `EducationPlatform.Platform.GameBack`. The game sessions do not model it separately.
