/** "Daniel in the lions' den": a reaction game of 15 rounds. Each round a
    lion appears from one direction and the child taps that direction
    before the reaction window closes. Correct taps score by speed and
    streak and shrink the window; a wrong tap or a timeout costs one of
    three lives.

    The program schedules the next round with timers whose callbacks read
    values captured a render earlier. Here the continuation after a tap or
    a timeout is its own event, `Advance`, and it looks at the current
    round and lives. */
module DanielShields {
  import opened Common
  import opened MiniGames
  import Shuffle

  datatype Direction = Up | Down | Left | Right

  const Directions: seq<Direction> := [Up, Down, Left, Right]

  const TotalRounds: int := 15
  const InitialTime: int := 2000
  const MinTime: int := 600

  datatype Step = Intro | Play | Done
  datatype Shown = Correct | Wrong | Timeout

  datatype Game = Game(
    step: Step,
    round: int,
    score: int,
    streak: int,
    bestStreak: int,
    lives: int,
    currentDir: Option<Direction>,
    reactionTime: int,
    showResult: Option<Shown>,
    startedAt: Option<int>,
    roundStartTime: int,
    canTap: bool)

  const Initial: Game := Game(Intro, 0, 0, 0, 0, 3, None, InitialTime, None, None, 0, false)

  /** The touch classifier: the larger offset picks the axis, ties go to the
      vertical axis, and the sign picks the side (zero counts as left or up). */
  function Classify(dx: real, dy: real): (d: Direction)
    ensures (d == Left || d == Right) <==> Abs(dx) > Abs(dy)
    ensures d == Right ==> dx > 0.0
    ensures d == Left ==> dx <= 0.0
    ensures d == Down ==> dy > 0.0
    ensures d == Up ==> dy <= 0.0
  {
    if Abs(dx) > Abs(dy) then (if dx > 0.0 then Right else Left)
    else (if dy > 0.0 then Down else Up)
  }

  function Opposite(d: Direction): Direction
  {
    match d
    case Up => Down
    case Down => Up
    case Left => Right
    case Right => Left
  }

  /** A touch mirrored through the centre gives the opposite direction. */
  lemma ClassifyMirror(dx: real, dy: real)
    requires dx != 0.0 || dy != 0.0
    ensures Classify(-dx, -dy) == Opposite(Classify(dx, dy))
  {
  }

  /** `start()`. */
  function Start(g: Game, now: int): (g': Game)
    ensures g'.step == Play && g'.startedAt == Some(now)
    ensures g == Initial ==> Inv(g')
  {
    g.(step := Play, startedAt := Some(now))
  }

  /** `nextRound()`: end the game after the last round or the last life,
      otherwise show a lion from a drawn direction and open the window. */
  function NextRound(g: Game, r: real, now: int): (g': Game)
    requires 0.0 <= r < 1.0
    ensures g.round >= TotalRounds || g.lives <= 0 ==> g' == g.(step := Done)
    ensures g.round < TotalRounds && g.lives > 0 ==>
      g'.canTap && g'.currentDir.Some? && g'.showResult == None && g'.roundStartTime == now
      && g'.round == g.round && g'.lives == g.lives && g'.score == g.score
  {
    if g.round >= TotalRounds || g.lives <= 0 then g.(step := Done)
    else
      var dir := Directions[Shuffle.Pick(r, |Directions|)];
      g.(currentDir := Some(dir), showResult := None, canTap := true, roundStartTime := now)
  }

  /** The first round, scheduled by `start`. */
  function Begin(g: Game, r: real, now: int): (g': Game)
    requires 0.0 <= r < 1.0
    ensures !(g.step == Play && !g.canTap && g.currentDir.None?) ==> g' == g
    ensures Inv(g) ==> Inv(g')
  {
    if g.step == Play && !g.canTap && g.currentDir.None? then NextRound(g, r, now) else g
  }

  /** The points of a correct tap: 100, a tenth of the unused window (in
      whole points), and 20 per answer of the current streak. */
  function TapPoints(reactionTime: int, reactionMs: int, streak: int): (p: int)
    requires streak >= 0
    ensures p >= 100
    ensures reactionMs >= reactionTime ==> p == 100 + 20 * streak
  {
    100 + Max(0, reactionTime - reactionMs) / 10 + streak * 20
  }

  /** `tapDirection(dir)` at time `now`, up to the pause before the next
      round. Ignored unless a lion is out and the window is open. */
  function Tap(g: Game, dir: Direction, now: int): (g': Game)
    requires g.streak >= 0
    ensures !g.canTap || g.currentDir.None? ==> g' == g
    ensures g.canTap && g.currentDir == Some(dir) ==>
      && !g'.canTap && g'.showResult == Some(Correct)
      && g'.score == g.score + TapPoints(g.reactionTime, now - g.roundStartTime, g.streak)
      && g'.score >= g.score + 100
      && g'.streak == g.streak + 1 && g'.bestStreak >= g'.streak
      && g'.bestStreak == Max(g.bestStreak, g.streak + 1)
      && g'.reactionTime == Max(MinTime, g.reactionTime - 80)
      && g'.lives == g.lives && g'.round == g.round
    ensures g.canTap && g.currentDir.Some? && g.currentDir != Some(dir) ==>
      && !g'.canTap && g'.showResult == Some(Wrong)
      && g'.lives == g.lives - 1 && g'.streak == 0
      && g'.score == g.score && g'.reactionTime == g.reactionTime && g'.round == g.round
  {
    if !g.canTap || g.currentDir.None? then g
    else if Some(dir) == g.currentDir then
      var points := TapPoints(g.reactionTime, now - g.roundStartTime, g.streak);
      g.(canTap := false, score := g.score + points, streak := g.streak + 1,
         bestStreak := Max(g.bestStreak, g.streak + 1), showResult := Some(Correct),
         reactionTime := Max(MinTime, g.reactionTime - 80))
    else
      g.(canTap := false, lives := g.lives - 1, streak := 0, showResult := Some(Wrong))
  }

  /** A touch on the play area at (x, y), classified around (150, 100). */
  function HandleTouch(g: Game, x: real, y: real, now: int): (g': Game)
    requires g.streak >= 0
    ensures !g.canTap ==> g' == g
    ensures g.canTap ==> g' == Tap(g, Classify(x - 150.0, y - 100.0), now)
  {
    if !g.canTap then g else Tap(g, Classify(x - 150.0, y - 100.0), now)
  }

  /** The reaction window closes without a tap. */
  function TimeUp(g: Game): (g': Game)
    ensures !g.canTap ==> g' == g
    ensures g.canTap ==>
      && !g'.canTap && g'.showResult == Some(Timeout)
      && g'.lives == g.lives - 1 && g'.streak == 0
      && g'.score == g.score && g'.round == g.round
  {
    if !g.canTap then g
    else g.(canTap := false, showResult := Some(Timeout), lives := g.lives - 1, streak := 0)
  }

  /** The pause after a tap or a timeout ends: the round counter moves on and
      the next round starts, or the game ends. */
  function Advance(g: Game, r: real, now: int): (g': Game)
    requires 0.0 <= r < 1.0
    ensures !(g.step == Play && !g.canTap && g.showResult.Some?) ==> g' == g
    ensures g.step == Play && !g.canTap && g.showResult.Some? ==>
      && g'.round == g.round + 1
      && (g'.step == Done <==> g.round + 1 >= TotalRounds || g.lives <= 0)
  {
    if g.step == Play && !g.canTap && g.showResult.Some? then NextRound(g.(round := g.round + 1), r, now)
    else g
  }

  /** A tap or a timeout is waiting for its pause to end. */
  predicate Pending(g: Game)
  {
    g.step == Play && !g.canTap && g.showResult.Some?
  }

  /** The counters of a started game: every lost life belongs to a finished
      round (or to the one whose pause is running), the window stays within
      its bounds, and the best streak is never below the current one. */
  predicate Inv(g: Game)
  {
    && 0 <= g.lives <= 3
    && 0 <= g.round <= TotalRounds
    && 0 <= g.streak <= g.bestStreak
    && g.score >= 0
    && MinTime <= g.reactionTime <= InitialTime
    && 3 - g.lives <= g.round + (if Pending(g) && g.showResult != Some(Correct) then 1 else 0)
    && (g.canTap ==> g.step == Play && g.currentDir.Some? && g.showResult.None? && g.lives > 0 && g.round < TotalRounds)
    && (g.step == Play && !Pending(g) ==> g.lives > 0 && g.round < TotalRounds)
    && (Pending(g) ==> g.round < TotalRounds && g.lives >= (if g.showResult == Some(Correct) then 1 else 0))
    && (g.currentDir.None? ==> g.showResult.None? && g.lives == 3 && g.round == 0)
    && (g.step == Intro ==> g == Initial)
  }

  /** The end test of the tap's continuation as written: it reads the
      `lives`, `round` and `showResult` of the render the tap ran in, that
      is, before the tap's own updates. A tap can only land while the lion
      is showing, when `showResult` is still empty, so the `'wrong'` case
      never applies there. */
  function TapEndsAsWritten(g: Game): (ends: bool)
    ensures g.showResult.None? ==> (ends <==> g.lives <= 0 || g.round + 1 >= TotalRounds)
    ensures g.showResult == Some(Wrong) ==> (ends <==> g.lives <= 1 || g.round + 1 >= TotalRounds)
  {
    g.lives <= (if g.showResult == Some(Wrong) then 1 else 0) || g.round + 1 >= TotalRounds
  }

  /** A wrong tap on the last life: as written, the continuation does not
      end the game and starts another round with no life left, while the
      model's `Advance` ends it. */
  lemma LastLifeWrongTap(g: Game, dir: Direction, r: real, now: int)
    requires Inv(g) && g.canTap && g.lives == 1 && g.round + 1 < TotalRounds
    requires g.currentDir != Some(dir) && 0.0 <= r < 1.0
    ensures g.showResult.None? && !TapEndsAsWritten(g)
    ensures Tap(g, dir, now).lives == 0
    ensures Advance(Tap(g, dir, now), r, now).step == Done
  {
  }

  /** `handleDone()`, offered on the final screen only. */
  function Finish(g: Game, now: int): (r: Option<MiniGameResult>)
    ensures g.step != Done <==> r.None?
    ensures Inv(g) && r.Some? ==>
      && ValidResult(r.value)
      && 50 <= r.value.score <= 100
      && (r.value.completed <==> g.lives > 0)
      && r.value.mistakes == 3 - g.lives && 0 <= r.value.mistakes <= 3
      && r.value.seconds >= 1
  {
    if g.step != Done then None
    else Some(MiniGameResult(g.lives > 0, HalfPlusHalf(Accuracy(g.round, g.lives)), 3 - g.lives, ElapsedSeconds(g.startedAt, now)))
  }

  /** `round > 0 ? Math.max(0, (round - (3 - lives)) / round) : 0`. */
  function Accuracy(round: int, lives: int): (a: real)
    ensures 0.0 <= a
    ensures lives <= 3 ==> a <= 1.0
  {
    if round > 0 then
      AccuracyAtMostOne(round, 3 - lives);
      var a := (round - (3 - lives)) as real / round as real;
      if a < 0.0 then 0.0 else a
    else 0.0
  }

  /** `(round - mistakes) / round` is at most 1 when no mistakes are negative. */
  lemma AccuracyAtMostOne(round: int, mistakes: int)
    requires round > 0
    ensures mistakes >= 0 ==> (round - mistakes) as real / round as real <= 1.0
  {
    if mistakes >= 0 {
      var q := (round - mistakes) as real / round as real;
      assert q * round as real == (round - mistakes) as real;
    }
  }

  datatype Rating = FaithHero | Brave | Survived | TryAgain

  /** The rating on the final screen: surviving, graded by the best streak. */
  function RatingOf(lives: int, bestStreak: int): (rt: Rating)
    ensures rt == FaithHero <==> lives > 0 && bestStreak >= 10
    ensures rt == Brave <==> lives > 0 && 5 <= bestStreak < 10
    ensures rt == Survived <==> lives > 0 && bestStreak < 5
    ensures rt == TryAgain <==> lives <= 0
  {
    if lives > 0 && bestStreak >= 10 then FaithHero
    else if lives > 0 && bestStreak >= 5 then Brave
    else if lives > 0 then Survived
    else TryAgain
  }

  /** Every rating but the last is shown exactly when the result reports
      the game completed. */
  lemma RatingMatchesCompleted(g: Game, now: int)
    requires Inv(g) && g.step == Done
    ensures RatingOf(g.lives, g.bestStreak) != TryAgain <==> Finish(g, now).value.completed
  {
  }

  /** The events after `start`. */
  datatype Event =
    | BeginEv(r: real, now: int)
    | TapEv(dir: Direction, now: int)
    | TouchEv(x: real, y: real, now: int)
    | TimeUpEv
    | AdvanceEv(r: real, now: int)

  predicate ValidEvent(e: Event)
  {
    (e.BeginEv? || e.AdvanceEv?) ==> 0.0 <= e.r < 1.0
  }

  function Apply(g: Game, e: Event): Game
    requires ValidEvent(e) && g.streak >= 0
  {
    match e
    case BeginEv(r, now) => Begin(g, r, now)
    case TapEv(dir, now) => Tap(g, dir, now)
    case TouchEv(x, y, now) => HandleTouch(g, x, y, now)
    case TimeUpEv => TimeUp(g)
    case AdvanceEv(r, now) => Advance(g, r, now)
  }

  /** Every event keeps the invariant. */
  lemma ApplyKeepsInv(g: Game, e: Event)
    requires Inv(g) && ValidEvent(e)
    ensures Inv(Apply(g, e))
  {
    match e
    case TouchEv(x, y, now) =>
      assert HandleTouch(g, x, y, now) == g || HandleTouch(g, x, y, now) == Tap(g, Classify(x - 150.0, y - 100.0), now);
    case _ =>
  }

  function Run(g: Game, es: seq<Event>): Game
    requires Inv(g)
    requires forall k :: 0 <= k < |es| ==> ValidEvent(es[k])
    decreases |es|
  {
    if es == [] then g
    else
      ApplyKeepsInv(g, es[0]);
      Run(Apply(g, es[0]), es[1..])
  }

  /** Whatever happens after `start`, a finished game reports a score in
      [50, 100] and at most three mistakes. */
  lemma {:induction false} SessionResultValid(g: Game, es: seq<Event>, now: int)
    requires Inv(g)
    requires forall k :: 0 <= k < |es| ==> ValidEvent(es[k])
    ensures Inv(Run(g, es))
    ensures Finish(Run(g, es), now).Some? ==> ValidResult(Finish(Run(g, es), now).value)
    decreases |es|
  {
    if es != [] {
      ApplyKeepsInv(g, es[0]);
      SessionResultValid(Apply(g, es[0]), es[1..], now);
    }
  }
}
