/** The home page: the player's stats, the switch between the home screen,
    the two subject screens and the game screen, and what completing or
    leaving a game does. */
module EducationPlatform {
  import opened Wrappers

  datatype GameStats = GameStats(level: int, points: int, badges: seq<string>, streakDays: int)

  const InitialStats: GameStats :=
    GameStats(3, 1250, ["First Steps", "Word Master", "Number Hero"], 7)

  const PointsPerGame: int := 50
  const PointsPerLevel: int := 500

  /** The stats update of `handleGameComplete`: 50 more points, and one more
      level when the new points pass the current level times 500. */
  function CompleteGame(prev: GameStats): (next: GameStats)
    ensures next.points == prev.points + PointsPerGame
    ensures next.level == prev.level || next.level == prev.level + 1
    ensures next.level == prev.level + 1 <==> prev.points + PointsPerGame > prev.level * PointsPerLevel
    ensures next.badges == prev.badges && next.streakDays == prev.streakDays
  {
    prev.(points := prev.points + PointsPerGame,
          level := prev.level + if prev.points + PointsPerGame > prev.level * PointsPerLevel then 1 else 0)
  }

  /** The level is the points divided by 500, rounded up. */
  predicate LevelMatchesPoints(s: GameStats) {
    (s.level - 1) * PointsPerLevel < s.points <= s.level * PointsPerLevel
  }

  /** The stats after `n` completed games. */
  function CompleteGames(s: GameStats, n: nat): GameStats {
    if n == 0 then s else CompleteGame(CompleteGames(s, n - 1))
  }

  /** Completing a game keeps the level equal to the points divided by 500,
      rounded up, because 50 points never skip a level. */
  lemma CompleteGameKeepsLevel(s: GameStats)
    requires LevelMatchesPoints(s)
    ensures LevelMatchesPoints(CompleteGame(s))
  {
  }

  /** From the starting stats, `n` completed games give 1250 + 50 n points,
      a level that is those points divided by 500 and rounded up, and the
      same badges and streak. */
  lemma {:induction false} CompletedGamesStats(n: nat)
    ensures CompleteGames(InitialStats, n).points == InitialStats.points + PointsPerGame * n
    ensures LevelMatchesPoints(CompleteGames(InitialStats, n))
    ensures CompleteGames(InitialStats, n).badges == InitialStats.badges
    ensures CompleteGames(InitialStats, n).streakDays == InitialStats.streakDays
  {
    if n > 0 {
      CompletedGamesStats(n - 1);
      CompleteGameKeepsLevel(CompleteGames(InitialStats, n - 1));
    }
  }

  /** The screens `currentView` selects. */
  datatype View = Home | Language | Math | Game

  /** What `renderGame` shows. */
  datatype GameScreen =
    | NoGame
    | AlphabetScreen | WordsScreen | CountingScreen | AdditionScreen | SubtractionScreen | ShapesScreen
    | NotFound

  /** The game ids listed on each subject screen. */
  const LanguageGames: seq<string> := ["alphabet", "words", "reading", "stories"]
  const MathGames: seq<string> := ["counting", "addition", "subtraction", "shapes"]

  /** The ids `renderGame` has a game component for. */
  const KnownGames: set<string> := {"alphabet", "words", "counting", "addition", "subtraction", "shapes"}

  /** The id each game component is selected by. */
  function GameId(screen: GameScreen): (id: string)
    ensures screen != NoGame && screen != NotFound <==> id in KnownGames
  {
    match screen
    case AlphabetScreen => "alphabet"
    case WordsScreen => "words"
    case CountingScreen => "counting"
    case AdditionScreen => "addition"
    case SubtractionScreen => "subtraction"
    case ShapesScreen => "shapes"
    case _ => ""
  }

  /** `renderGame`: nothing when no game is selected (an empty id is falsy
      too), the matching game for a known id, "Game not found" otherwise. */
  function RenderGame(selectedGame: Option<string>): (screen: GameScreen)
    ensures screen == NoGame <==> selectedGame.None? || selectedGame.value == ""
    ensures screen == NotFound <==> selectedGame.Some? && selectedGame.value != "" && selectedGame.value !in KnownGames
    ensures screen != NoGame && screen != NotFound ==> GameId(screen) == selectedGame.value
  {
    match selectedGame
    case None => NoGame
    case Some(id) =>
      if id == "" then NoGame
      else if id == "alphabet" then AlphabetScreen
      else if id == "counting" then CountingScreen
      else if id == "words" then WordsScreen
      else if id == "addition" then AdditionScreen
      else if id == "subtraction" then SubtractionScreen
      else if id == "shapes" then ShapesScreen
      else NotFound
  }

  /** Every game component is reached by selecting its own id. */
  lemma RenderGameOfId(screen: GameScreen)
    requires screen != NoGame && screen != NotFound
    ensures GameId(screen) in KnownGames && RenderGame(Some(GameId(screen))) == screen
  {
  }

  /** Of the ids listed on the subject screens, exactly "reading" and
      "stories" fall to "Game not found". */
  lemma ListedGamesRender(id: string)
    requires id in LanguageGames || id in MathGames
    ensures RenderGame(Some(id)) == NotFound <==> id == "reading" || id == "stories"
  {
  }

  class Platform {
    var view: View
    var selectedGame: Option<string>
    var stats: GameStats

    ghost predicate Valid()
      reads this
    {
      view == Game ==> selectedGame.Some?
    }

    constructor ()
      ensures Valid() && view == Home && selectedGame == None && stats == InitialStats
    {
      view := Home;
      selectedGame := None;
      stats := InitialStats;
    }

    /** A subject card on the home screen: show that subject. */
    method OpenSubject(subject: View)
      requires Valid() && view == Home && (subject == Language || subject == Math)
      modifies this`view
      ensures Valid() && view == subject
    {
      view := subject;
    }

    /** "Back Home" on a subject screen. */
    method BackHome()
      requires Valid() && (view == Language || view == Math)
      modifies this`view
      ensures Valid() && view == Home
    {
      view := Home;
    }

    /** A game card on a subject screen: select the game and show it. */
    method ChooseGame(id: string)
      requires Valid()
      requires (view == Language && id in LanguageGames) || (view == Math && id in MathGames)
      modifies this`view, this`selectedGame
      ensures Valid() && selectedGame == Some(id) && view == Game
    {
      selectedGame := Some(id);
      view := Game;
    }

    /** `handleGameComplete`, called by the running game's `onComplete`:
        update the stats, then return home with no game selected. */
    method GameComplete()
      requires Valid() && view == Game && RenderGame(selectedGame) != NotFound
      modifies this
      ensures Valid() && stats == CompleteGame(old(stats)) && view == Home && selectedGame == None
    {
      stats := CompleteGame(stats);
      view := Home;
      selectedGame := None;
    }

    /** `handleGameBack`, called by the running game's Back button: return
        home with no game selected; the stats do not change. */
    method GameBack()
      requires Valid() && view == Game && RenderGame(selectedGame) != NotFound
      modifies this`view, this`selectedGame
      ensures Valid() && view == Home && selectedGame == None
    {
      view := Home;
      selectedGame := None;
    }

    /** "Go Home" on the "Game not found" screen: only the view changes; the
        unknown id stays selected. */
    method NotFoundGoHome()
      requires Valid() && view == Game && RenderGame(selectedGame) == NotFound
      modifies this`view
      ensures Valid() && view == Home
    {
      view := Home;
    }
  }

}
