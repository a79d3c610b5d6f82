/** "Follow the star": a Simon-says game. The star shows a sequence of
    directions, the child repeats it, and each completed sequence grows by
    one direction, up to level 10. Three lives; a wrong tap costs one and
    replays the same sequence. The pauses between phases are timers in the
    program; here the transition a timer would make follows at once, and
    the end of the show is its own event. */
module StarPath {
  import opened Common
  import opened MiniGames
  import Shuffle

  datatype Direction = Up | Down | Left | Right

  /** `DIRECTIONS`, in the order a draw indexes them. */
  const Directions: seq<Direction> := [Up, Down, Left, Right]

  const MaxLevel: int := 10

  datatype Step = Intro | Showing | Playing | Done

  datatype Game = Game(
    step: Step,
    sequence: seq<Direction>,
    input: seq<Direction>,
    level: int,
    lives: int,
    score: int,
    startedAt: Option<int>)

  const Initial: Game := Game(Intro, [], [], 1, 3, 0, None)

  /** `DIRECTIONS[Math.floor(Math.random() * 4)]`. */
  function RandomDirection(r: real): (d: Direction)
    requires 0.0 <= r < 1.0
    ensures d in Directions
  {
    Directions[Shuffle.Pick(r, |Directions|)]
  }

  /** The points for completing a sequence: 120 per level, since the
      sequence has as many directions as the level number. */
  function LevelPoints(level: int): int
  {
    120 * level
  }

  /** The points collected before reaching `level`: 120 * (1 + ... + (level - 1)). */
  function PointsBefore(level: int): int
  {
    60 * level * (level - 1)
  }

  /** The state of a started game. While the sequence is shown or repeated
      it has one direction per level and the input so far is a prefix of
      it; a finished game ended either with the last life or at level 10. */
  predicate Inv(g: Game)
  {
    && (g.step == Intro ==> g == Initial)
    && (g.step != Intro ==> 1 <= g.level <= MaxLevel && 0 <= g.lives <= 3 && g.startedAt.Some?)
    && ((g.step == Showing || g.step == Playing) ==>
          && |g.sequence| == g.level && g.lives >= 1
          && |g.input| < |g.sequence| && g.input == g.sequence[..|g.input|]
          && g.score == PointsBefore(g.level))
    && (g.step == Showing ==> g.input == [])
    && (g.step == Done ==>
          (g.lives == 0 && g.score == PointsBefore(g.level))
          || (g.level == MaxLevel && g.lives >= 1 && g.score == PointsBefore(g.level) + LevelPoints(g.level)))
  }

  /** `start()`, with its first `showSequence()`: a one-direction sequence. */
  function Start(g: Game, now: int, r: real): (g': Game)
    requires 0.0 <= r < 1.0
    ensures g'.step == Showing && |g'.sequence| == 1 && g'.input == []
    ensures g'.level == 1 && g'.lives == 3 && g'.score == 0 && g'.startedAt == Some(now)
    ensures Inv(g')
  {
    Game(Showing, [RandomDirection(r)], [], 1, 3, 0, Some(now))
  }

  /** The show ends: the child may now tap. Nothing happens in other steps. */
  function ShowDone(g: Game): (g': Game)
    ensures g.step == Showing ==> g' == g.(step := Playing)
    ensures g.step != Showing ==> g' == g
    ensures Inv(g) ==> Inv(g')
  {
    if g.step == Showing then g.(step := Playing) else g
  }

  /** The direction expected next, if the sequence has one there. */
  function Expected(g: Game): Option<Direction>
  {
    if |g.input| < |g.sequence| then Some(g.sequence[|g.input|]) else None
  }

  /** `tapDirection(dir)`. `r` is the draw for the direction appended when a
      level is passed. */
  function Tap(g: Game, dir: Direction, r: real): (g': Game)
    requires 0.0 <= r < 1.0
    ensures g.step != Playing ==> g' == g
    ensures g.step == Playing && Expected(g) != Some(dir) ==>
      && g'.lives == g.lives - 1
      && g'.sequence == g.sequence && g'.level == g.level && g'.score == g.score
      && (g.lives <= 1 ==> g'.step == Done)
      && (g.lives > 1 ==> g'.step == Showing && g'.input == [])
    ensures g.step == Playing && Expected(g) == Some(dir) && |g.input| + 1 < |g.sequence| ==>
      g' == g.(input := g.input + [dir])
    ensures g.step == Playing && Expected(g) == Some(dir) && |g.input| + 1 == |g.sequence| ==>
      && g'.score == g.score + g.level * 100 + |g.sequence| * 20
      && g'.lives == g.lives
      && (g.level >= MaxLevel ==> g'.step == Done && g'.level == g.level && g'.sequence == g.sequence)
      && (g.level < MaxLevel ==>
            && g'.step == Showing && g'.level == g.level + 1 && g'.input == []
            && |g'.sequence| == |g.sequence| + 1 && g'.sequence[..|g.sequence|] == g.sequence)
    ensures g'.startedAt == g.startedAt
    ensures Inv(g) ==> Inv(g')
  {
    if g.step != Playing then g
    else
      var newInput := g.input + [dir];
      if Expected(g) != Some(dir) then
        if g.lives <= 1 then g.(input := newInput, lives := g.lives - 1, step := Done)
        else g.(input := [], lives := g.lives - 1, step := Showing)
      else if |newInput| < |g.sequence| then g.(input := newInput)
      else
        var score := g.score + g.level * 100 + |g.sequence| * 20;
        if g.level >= MaxLevel then g.(input := newInput, score := score, step := Done)
        else
          var sequence := g.sequence + [RandomDirection(r)];
          assert sequence[..|g.sequence|] == g.sequence;
          g.(input := [], score := score, level := g.level + 1, sequence := sequence, step := Showing)
  }

  /** `handleDone()`, offered on the final screen only. */
  function Finish(g: Game, now: int): (r: Option<MiniGameResult>)
    ensures g.step != Done <==> r.None?
    ensures Inv(g) && r.Some? ==>
      && ValidResult(r.value)
      && r.value.score == 40 + 6 * g.level
      && 46 <= r.value.score <= 100
      && (r.value.completed <==> g.level >= MaxLevel)
      && r.value.mistakes == 3 - g.lives && 0 <= r.value.mistakes <= 3
      && r.value.seconds >= 1
  {
    if g.step != Done then None
    else
      var score := Round(40.0 + (g.level as real / MaxLevel as real) * 60.0);
      assert 40.0 + (g.level as real / MaxLevel as real) * 60.0 == (40 + 6 * g.level) as real;
      RoundOfInt(40 + 6 * g.level);
      Some(MiniGameResult(g.level >= MaxLevel, score, 3 - g.lives, ElapsedSeconds(g.startedAt, now)))
  }

  /** Losing the last life at level 10 still reports the game completed:
      the flag looks at the level only. */
  lemma LostAtLastLevelCompleted(now: int)
    ensures var g := Game(Done, [Up], [Down], MaxLevel, 0, PointsBefore(MaxLevel), Some(1));
      Inv(g) && Finish(g, now).Some? && Finish(g, now).value.completed
  {
  }

  datatype Rating = TrulyWise | AlmostThere | GoodProgress | TrainMemory

  /** The rating on the final screen, from the level reached. */
  function RatingOf(level: int): (rt: Rating)
    ensures rt == TrulyWise <==> level >= MaxLevel
    ensures rt == AlmostThere <==> 7 <= level < MaxLevel
    ensures rt == GoodProgress <==> 4 <= level < 7
    ensures rt == TrainMemory <==> level < 4
  {
    if level >= MaxLevel then TrulyWise else if level >= 7 then AlmostThere
    else if level >= 4 then GoodProgress else TrainMemory
  }

  /** The top rating is shown exactly when the result reports the game
      completed, and a higher level never gets a lower rating. */
  lemma RatingMatchesCompleted(g: Game, now: int)
    requires Inv(g) && g.step == Done
    ensures RatingOf(g.level) == TrulyWise <==> Finish(g, now).value.completed
    ensures RatingOf(g.level) == TrainMemory ==> Finish(g, now).value.score < 64
  {
  }

  /** The events of a session after the start. */
  datatype Event = ShowEnds | TapOn(dir: Direction, r: real)

  predicate ValidEvent(e: Event)
  {
    e.TapOn? ==> 0.0 <= e.r < 1.0
  }

  function Apply(g: Game, e: Event): Game
    requires ValidEvent(e)
  {
    match e
    case ShowEnds => ShowDone(g)
    case TapOn(dir, r) => Tap(g, dir, r)
  }

  function Run(g: Game, es: seq<Event>): Game
    requires forall k :: 0 <= k < |es| ==> ValidEvent(es[k])
    decreases |es|
  {
    if es == [] then g else Run(Apply(g, es[0]), es[1..])
  }

  /** Whatever the child does after `start`, the game stays in a consistent
      state, and once it is over its result meets the result contract. */
  lemma {:induction false} SessionResultValid(g: Game, es: seq<Event>, now: int)
    requires Inv(g)
    requires forall k :: 0 <= k < |es| ==> ValidEvent(es[k])
    ensures Inv(Run(g, es))
    ensures Finish(Run(g, es), now).Some? ==> ValidResult(Finish(Run(g, es), now).value)
    decreases |es|
  {
    if es != [] {
      var g' := Apply(g, es[0]);
      assert Inv(g');
      SessionResultValid(g', es[1..], now);
    }
  }
}
