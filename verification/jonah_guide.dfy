/** "Jonah at sea": the whale carrying Jonah swims to the shore while
    obstacles drift towards it from the right. The child moves the whale up
    and down; touching an obstacle costs one of three lives. Every tick of
    the game loop advances half a unit of distance and five points; the
    shore is 200 units away.

    Distance is kept in half-units (`halfSteps`), so that the program's
    steps of 0.5 and its test `distance % 20 === 0` are exact. The
    collision check the program runs after every change of the whale or
    the obstacles is `Collide`, applied after each event; the end of the
    half-second after a hit is its own event, `HitOver`. */
module JonahGuide {
  import opened Common
  import opened MiniGames
  import Shuffle

  const GameHeight: real := 300.0
  const WhaleSize: real := 50.0
  const ObstacleSize: real := 40.0
  const WhaleLeft: real := 30.0
  /** `TOTAL_DISTANCE`, 200, in half-units. */
  const GoalHalfSteps: int := 400
  const InitialSpeed: int := 120
  const MinSpeed: int := 15

  datatype Kind = Storm | Rock | Whirlpool

  /** `OBSTACLE_TYPES`, in the order a draw indexes them. */
  const Kinds: seq<Kind> := [Storm, Rock, Whirlpool]

  datatype Obstacle = Obstacle(id: int, x: real, y: real, kind: Kind)

  datatype Direction = Up | Down

  function ClampReal(lo: real, hi: real, v: real): real
  {
    if v < lo then lo else if v > hi then hi else v
  }

  /** `moveWhale(direction)`: 30 up or down, kept within the sea. */
  function MoveWhale(y: real, d: Direction): (y': real)
    ensures WhaleSize / 2.0 <= y' <= GameHeight - WhaleSize / 2.0
    ensures d == Up && y - 30.0 >= WhaleSize / 2.0 && y <= GameHeight - WhaleSize / 2.0 + 30.0 ==> y' == y - 30.0
    ensures d == Down && y + 30.0 <= GameHeight - WhaleSize / 2.0 && y >= WhaleSize / 2.0 - 30.0 ==> y' == y + 30.0
    ensures d == Up && y - 30.0 < WhaleSize / 2.0 ==> y' == WhaleSize / 2.0
    ensures d == Down && y + 30.0 > GameHeight - WhaleSize / 2.0 ==> y' == GameHeight - WhaleSize / 2.0
  {
    var newY := if d == Up then y - 30.0 else y + 30.0;
    ClampReal(WhaleSize / 2.0, GameHeight - WhaleSize / 2.0, newY)
  }

  /** Away from the top edge, a move up followed by a move down puts the
      whale back where it was. */
  lemma UpThenDown(y: real)
    requires 55.0 <= y <= 275.0
    ensures MoveWhale(MoveWhale(y, Up), Down) == y
  {
  }

  /** The whale's box [30, 80] x [y - 25, y + 25] and the obstacle's box
      [x, x + 40] x [oy, oy + 40] overlap, with touching edges not counted. */
  function Overlaps(whaleY: real, o: Obstacle): (b: bool)
    ensures b ==> -ObstacleSize + WhaleLeft < o.x < WhaleLeft + WhaleSize
    ensures b ==> whaleY - WhaleSize / 2.0 - ObstacleSize < o.y < whaleY + WhaleSize / 2.0
  {
    && WhaleLeft + WhaleSize > o.x && WhaleLeft < o.x + ObstacleSize
    && whaleY + WhaleSize / 2.0 > o.y && whaleY - WhaleSize / 2.0 < o.y + ObstacleSize
  }

  /** Only the gap between the whale and the obstacle matters: moving both
      by the same vertical distance keeps an overlap or its absence. */
  lemma OverlapsShift(whaleY: real, o: Obstacle, d: real)
    ensures Overlaps(whaleY + d, o.(y := o.y + d)) <==> Overlaps(whaleY, o)
  {
  }

  /** The position of the first obstacle the whale touches, or -1. */
  function FirstOverlap(whaleY: real, obs: seq<Obstacle>): (k: int)
    ensures -1 <= k < |obs|
    ensures k == -1 <==> forall j :: 0 <= j < |obs| ==> !Overlaps(whaleY, obs[j])
    ensures k >= 0 ==> Overlaps(whaleY, obs[k]) && forall j :: 0 <= j < k ==> !Overlaps(whaleY, obs[j])
  {
    if obs == [] then -1
    else if Overlaps(whaleY, obs[0]) then 0
    else
      var k := FirstOverlap(whaleY, obs[1..]);
      if k == -1 then -1 else k + 1
  }

  /** `checkCollision(whalePos, obs)`: the first obstacle in list order that
      the whale touches, or none when it touches none. */
  function CheckCollision(whaleY: real, obs: seq<Obstacle>): (hit: Option<Obstacle>)
    ensures hit.None? <==> forall j :: 0 <= j < |obs| ==> !Overlaps(whaleY, obs[j])
    ensures hit.Some? ==> hit.value in obs && Overlaps(whaleY, hit.value)
    ensures hit.Some? ==>
      exists k :: 0 <= k < |obs| && obs[k] == hit.value && (forall j :: 0 <= j < k ==> !Overlaps(whaleY, obs[j]))
  {
    var k := FirstOverlap(whaleY, obs);
    if k == -1 then None else Some(obs[k])
  }

  /** Every obstacle moved 3 to the left. */
  function Moved(obs: seq<Obstacle>): (r: seq<Obstacle>)
    ensures |r| == |obs|
    ensures forall k :: 0 <= k < |r| ==> r[k] == obs[k].(x := obs[k].x - 3.0)
  {
    if obs == [] then [] else [obs[0].(x := obs[0].x - 3.0)] + Moved(obs[1..])
  }

  /** Obstacle ids grow along the list. */
  predicate IdsIncreasing(obs: seq<Obstacle>)
  {
    forall i, j :: 0 <= i < j < |obs| ==> obs[i].id < obs[j].id
  }

  predicate IdsBelow(obs: seq<Obstacle>, n: int)
  {
    forall k :: 0 <= k < |obs| ==> obs[k].id < n
  }

  /** The obstacles still on screen: those whose left edge is right of -40. */
  function Visible(obs: seq<Obstacle>): (r: seq<Obstacle>)
    ensures forall o :: o in r <==> o in obs && o.x > -ObstacleSize
    ensures IdsIncreasing(obs) ==> IdsIncreasing(r)
    ensures |r| <= |obs|
  {
    if obs == [] then []
    else if obs[0].x > -ObstacleSize then [obs[0]] + Visible(obs[1..])
    else Visible(obs[1..])
  }

  /** The obstacles without the one with id `id`. */
  function WithoutId(obs: seq<Obstacle>, id: int): (r: seq<Obstacle>)
    ensures forall o :: o in r <==> o in obs && o.id != id
    ensures IdsIncreasing(obs) ==> IdsIncreasing(r)
    ensures |r| <= |obs|
  {
    if obs == [] then []
    else if obs[0].id != id then [obs[0]] + WithoutId(obs[1..], id)
    else WithoutId(obs[1..], id)
  }

  /** With increasing ids, removing the id of an obstacle in the list
      removes exactly one obstacle. */
  lemma {:induction false} WithoutIdRemovesOne(obs: seq<Obstacle>, o: Obstacle)
    requires o in obs
    ensures IdsIncreasing(obs) ==> |WithoutId(obs, o.id)| == |obs| - 1
  {
    if IdsIncreasing(obs) {
      if obs[0] == o {
        NoIdAfter(obs[1..], o.id);
        WithoutIdNone(obs[1..], o.id);
      } else {
        assert o in obs[1..];
        WithoutIdRemovesOne(obs[1..], o);
      }
    }
  }

  lemma NoIdAfter(obs: seq<Obstacle>, id: int)
    requires forall k :: 0 <= k < |obs| ==> obs[k].id > id
    ensures forall k :: 0 <= k < |obs| ==> obs[k].id != id
  {
  }

  lemma {:induction false} WithoutIdNone(obs: seq<Obstacle>, id: int)
    requires forall k :: 0 <= k < |obs| ==> obs[k].id != id
    ensures WithoutId(obs, id) == obs
  {
    if obs != [] {
      WithoutIdNone(obs[1..], id);
    }
  }

  datatype Step = Intro | Play | Done

  datatype Game = Game(
    step: Step,
    whaleY: real,
    obstacles: seq<Obstacle>,
    halfSteps: int,
    lives: int,
    score: int,
    startedAt: Option<int>,
    isHit: bool,
    speed: int,
    nextId: int,
    gameWidth: real)

  const Initial: Game := Game(Intro, GameHeight / 2.0, [], 0, 3, 0, None, false, InitialSpeed, 0, 0.0)

  /** `GAME_WIDTH` for a window of the given width: the window less a
      20-unit margin on each side, but never wider than 350. */
  function GameWidth(windowWidth: real): (w: real)
    ensures w <= 350.0 && w <= windowWidth - 40.0
    ensures w == 350.0 || w == windowWidth - 40.0
    ensures w == 350.0 <==> windowWidth >= 390.0
  {
    if windowWidth - 40.0 <= 350.0 then windowWidth - 40.0 else 350.0
  }

  /** `start()`: the whale in the middle, no obstacles, full lives. The
      obstacle counter is not reset. */
  function Start(g: Game, now: int, windowWidth: real): (g': Game)
    ensures g'.step == Play && g'.whaleY == 150.0 && g'.obstacles == []
    ensures g'.halfSteps == 0 && g'.lives == 3 && g'.score == 0 && g'.startedAt == Some(now)
    ensures g'.nextId == g.nextId && g'.gameWidth <= 350.0
    ensures g.nextId >= 0 && !g.isHit && g.speed == InitialSpeed ==> Inv(g')
  {
    g.(step := Play, startedAt := Some(now), whaleY := GameHeight / 2.0, obstacles := [],
       halfSteps := 0, lives := 3, score := 0, gameWidth := GameWidth(windowWidth))
  }

  /** The collision check run after every change: a hit costs a life,
      removes the obstacle that was hit, and ends the game with the last
      life. Nothing is checked outside play or within half a second of a
      hit. */
  function Collide(g: Game): (g': Game)
    ensures g.step != Play || g.isHit || CheckCollision(g.whaleY, g.obstacles).None? ==> g' == g
    ensures g.step == Play && !g.isHit && CheckCollision(g.whaleY, g.obstacles).Some? ==>
      var o := CheckCollision(g.whaleY, g.obstacles).value;
      && g'.isHit && g'.lives == g.lives - 1
      && (g.lives - 1 <= 0 <==> g'.step == Done)
      && (forall p :: p in g'.obstacles <==> p in g.obstacles && p.id != o.id)
      && (IdsIncreasing(g.obstacles) ==> |g'.obstacles| == |g.obstacles| - 1)
      && g'.score == g.score && g'.halfSteps == g.halfSteps && g'.whaleY == g.whaleY
  {
    if g.step != Play || g.isHit then g
    else
      match CheckCollision(g.whaleY, g.obstacles)
      case None => g
      case Some(o) =>
        WithoutIdRemovesOne(g.obstacles, o);
        var lives := g.lives - 1;
        g.(isHit := true, lives := lives, step := if lives <= 0 then Done else g.step,
           obstacles := WithoutId(g.obstacles, o.id))
  }

  /** The three draws of one tick: whether an obstacle appears (below 0.08),
      its kind, and its height. */
  datatype Draws = Draws(spawn: real, kind: real, height: real)

  predicate ValidDraws(d: Draws)
  {
    0.0 <= d.spawn < 1.0 && 0.0 <= d.kind < 1.0 && 0.0 <= d.height < 1.0
  }

  /** The obstacles after a tick: moved, those off screen dropped, and a new
      one at the right edge when the draw says so. */
  function TickObstacles(g: Game, d: Draws): (r: (seq<Obstacle>, int))
    requires ValidDraws(d)
    ensures d.spawn >= 0.08 ==> r.0 == Visible(Moved(g.obstacles)) && r.1 == g.nextId
    ensures d.spawn < 0.08 ==>
      && r.1 == g.nextId + 1 && |r.0| >= 1
      && r.0[..|r.0| - 1] == Visible(Moved(g.obstacles))
      && r.0[|r.0| - 1].id == g.nextId && r.0[|r.0| - 1].x == g.gameWidth
      && 0.0 <= r.0[|r.0| - 1].y < GameHeight - ObstacleSize
  {
    var moved := Visible(Moved(g.obstacles));
    if d.spawn < 0.08 then
      var o := Obstacle(g.nextId, g.gameWidth, d.height * (GameHeight - ObstacleSize), Kinds[Shuffle.Pick(d.kind, |Kinds|)]);
      assert (moved + [o])[..|moved|] == moved;
      (moved + [o], g.nextId + 1)
    else (moved, g.nextId)
  }

  /** One tick of the game loop, outside the collision check: half a unit
      of distance, five points, the obstacles moved, the end at the shore,
      and one step of speed-up at every 20 units of distance. */
  function Tick(g: Game, d: Draws): (g': Game)
    requires ValidDraws(d)
    ensures g.step != Play ==> g' == g
    ensures g.step == Play ==>
      && g'.halfSteps == g.halfSteps + 1 && g'.score == g.score + 5
      && (g'.halfSteps >= GoalHalfSteps <==> g'.step == Done)
      && g'.lives == g.lives && g'.whaleY == g.whaleY
      && (g'.step == Play && g'.halfSteps % 40 == 0 ==> g'.speed == Max(MinSpeed, g.speed - 3))
      && (g'.step == Play && g'.halfSteps % 40 != 0 ==> g'.speed == g.speed)
  {
    if g.step != Play then g
    else
      var h := g.halfSteps + 1;
      var (obs, nextId) := TickObstacles(g, d);
      var step := if h >= GoalHalfSteps then Done else Play;
      var speed := if step == Play && h % 40 == 0 then Max(MinSpeed, g.speed - 3) else g.speed;
      g.(halfSteps := h, score := g.score + 5, obstacles := obs, nextId := nextId, step := step, speed := speed)
  }

  /** The tick period after `halfSteps` half-units of play, with one step of
      3 ms at every 20 units. */
  function SpeedAt(halfSteps: int): int
  {
    Max(MinSpeed, InitialSpeed - 3 * (halfSteps / 40))
  }

  /** A started game: the whale within the sea, the obstacles in the order
      they appeared with ids below the counter, ten points per unit of
      distance, lives between 0 and 3, and a finished game either at the
      shore with lives left or short of it with none. */
  predicate Inv(g: Game)
  {
    && (g.step == Intro ==> g == Initial)
    && (g.step != Intro ==>
          && WhaleSize / 2.0 <= g.whaleY <= GameHeight - WhaleSize / 2.0
          && IdsIncreasing(g.obstacles) && IdsBelow(g.obstacles, g.nextId)
          && 0 <= g.halfSteps <= GoalHalfSteps
          && g.score == 5 * g.halfSteps
          && 0 <= g.lives <= 3
          && g.startedAt.Some?
          && (g.step == Play ==> g.lives >= 1 && g.halfSteps < GoalHalfSteps && g.speed == SpeedAt(g.halfSteps))
          && (g.step == Done ==> (g.halfSteps >= GoalHalfSteps && g.lives >= 1) || (g.halfSteps < GoalHalfSteps && g.lives == 0)))
  }

  lemma TickKeepsInv(g: Game, d: Draws)
    requires Inv(g) && g.step != Intro && ValidDraws(d)
    ensures Inv(Tick(g, d)) && Tick(g, d).step != Intro
  {
    if g.step == Play {
      TickObstaclesOrdered(g, d);
      SpeedStep(g.halfSteps + 1);
    }
  }

  /** The obstacles after a tick are still in the order they appeared,
      with ids below the counter. */
  lemma TickObstaclesOrdered(g: Game, d: Draws)
    requires IdsIncreasing(g.obstacles) && IdsBelow(g.obstacles, g.nextId) && ValidDraws(d)
    ensures IdsIncreasing(TickObstacles(g, d).0) && IdsBelow(TickObstacles(g, d).0, TickObstacles(g, d).1)
  {
    var r := TickObstacles(g, d);
    var moved := Visible(Moved(g.obstacles));
    assert IdsIncreasing(Moved(g.obstacles));
    assert IdsBelow(moved, g.nextId) by {
      forall k | 0 <= k < |moved| ensures moved[k].id < g.nextId {
        assert moved[k] in Moved(g.obstacles);
      }
    }
    if d.spawn < 0.08 {
      assert r.0[..|r.0| - 1] == moved;
    }
  }

  /** The period drops by one step exactly when the distance reaches a new
      multiple of 20 units. */
  lemma SpeedStep(h: int)
    requires h >= 1
    ensures h % 40 == 0 ==> SpeedAt(h) == Max(MinSpeed, SpeedAt(h - 1) - 3)
    ensures h % 40 != 0 ==> SpeedAt(h) == SpeedAt(h - 1)
  {
    assert h / 40 == (h - 1) / 40 + (if h % 40 == 0 then 1 else 0);
  }

  lemma CollideKeepsInv(g: Game)
    requires Inv(g) && g.step != Intro
    ensures Inv(Collide(g)) && Collide(g).step != Intro
  {
    var g' := Collide(g);
    if g' != g {
      var o := CheckCollision(g.whaleY, g.obstacles).value;
      forall k | 0 <= k < |g'.obstacles| ensures g'.obstacles[k].id < g'.nextId {
        assert g'.obstacles[k] in g.obstacles;
      }
    }
  }

  /** With at most ten steps of speed-up before the shore, the period never
      falls below 93 ms: the floor of 15 ms is not reached. */
  lemma SpeedNeverAtFloor(g: Game)
    requires Inv(g) && g.step == Play
    ensures g.speed >= 93 && g.speed > MinSpeed
  {
  }

  /** `handleDone()`, offered on the final screen only. */
  function Finish(g: Game, now: int): (r: Option<MiniGameResult>)
    ensures g.step != Done <==> r.None?
    ensures r.Some? ==>
      && (r.value.completed <==> g.halfSteps >= GoalHalfSteps)
      && r.value.mistakes == 3 - g.lives
      && r.value.score == (if g.halfSteps >= GoalHalfSteps then 70 else 40) + 10 * g.lives
      && r.value.seconds >= 1
    ensures Inv(g) && r.Some? ==>
      && ValidResult(r.value)
      && 0 <= r.value.mistakes <= 3
      && (r.value.completed ==> 80 <= r.value.score <= 100)
      && (!r.value.completed ==> r.value.score == 40)
  {
    if g.step != Done then None
    else
      var won := g.halfSteps >= GoalHalfSteps;
      var base := if won then 70 else 40;
      assert base as real + (g.lives as real / 3.0) * 30.0 == (base + 10 * g.lives) as real;
      RoundOfInt(base + 10 * g.lives);
      Some(MiniGameResult(won, Round(base as real + (g.lives as real / 3.0) * 30.0), 3 - g.lives,
                          ElapsedSeconds(g.startedAt, now)))
  }

  datatype Rating = Perfect | Arrived | SeaWon

  /** The rating on the final screen. */
  function RatingOf(won: bool, lives: int): (rt: Rating)
    ensures rt == Perfect <==> won && lives == 3
    ensures rt == Arrived <==> won && lives != 3
    ensures rt == SeaWon <==> !won
  {
    if won && lives == 3 then Perfect else if won then Arrived else SeaWon
  }

  /** "Perfect" is shown exactly for the top score of 100, and the sea wins
      exactly when the result is not completed. */
  lemma RatingMatchesResult(g: Game, now: int)
    requires Inv(g) && g.step == Done
    ensures var r := Finish(g, now).value;
      && (RatingOf(g.halfSteps >= GoalHalfSteps, g.lives) == Perfect <==> r.score == 100)
      && (RatingOf(g.halfSteps >= GoalHalfSteps, g.lives) == SeaWon <==> !r.completed)
  {
  }

  /** The events after `start`. */
  datatype Event = TickEv(d: Draws) | MoveEv(dir: Direction) | HitOver

  predicate ValidEvent(e: Event)
  {
    e.TickEv? ==> ValidDraws(e.d)
  }

  function Apply(g: Game, e: Event): Game
    requires ValidEvent(e)
  {
    match e
    case TickEv(d) => Collide(Tick(g, d))
    case MoveEv(dir) => Collide(g.(whaleY := MoveWhale(g.whaleY, dir)))
    case HitOver => Collide(g.(isHit := false))
  }

  lemma ApplyKeepsInv(g: Game, e: Event)
    requires Inv(g) && g.step != Intro && ValidEvent(e)
    ensures Inv(Apply(g, e)) && Apply(g, e).step != Intro
  {
    match e
    case TickEv(d) =>
      TickKeepsInv(g, d);
      CollideKeepsInv(Tick(g, d));
    case MoveEv(dir) =>
      CollideKeepsInv(g.(whaleY := MoveWhale(g.whaleY, dir)));
    case HitOver =>
      CollideKeepsInv(g.(isHit := false));
  }

  function Run(g: Game, es: seq<Event>): Game
    requires forall k :: 0 <= k < |es| ==> ValidEvent(es[k])
    decreases |es|
  {
    if es == [] then g else Run(Apply(g, es[0]), es[1..])
  }

  /** Whatever happens after `start`, the game stays consistent and its
      result meets the result contract. */
  lemma {:induction false} SessionResultValid(g: Game, es: seq<Event>, now: int)
    requires Inv(g) && g.step != Intro
    requires forall k :: 0 <= k < |es| ==> ValidEvent(es[k])
    ensures Inv(Run(g, es)) && Run(g, es).step != Intro
    ensures Finish(Run(g, es), now).Some? ==> ValidResult(Finish(Run(g, es), now).value)
    decreases |es|
  {
    if es != [] {
      ApplyKeepsInv(g, es[0]);
      SessionResultValid(Apply(g, es[0]), es[1..], now);
    }
  }

  /** The speed-up effect as written: it runs again whenever `speed`
      changes, and while the distance is still a positive multiple of 20
      each run takes off another 3 ms, until the floor stops the change. */
  function SpeedEffectAsWritten(halfSteps: int, speed: int): (s: int)
    ensures !(halfSteps > 0 && halfSteps % 40 == 0) ==> s == speed
    ensures MinSpeed <= speed ==> MinSpeed <= s <= speed
    ensures halfSteps > 0 && halfSteps % 40 == 0 ==> s == MinSpeed
    decreases if speed > MinSpeed then speed - MinSpeed + 1 else if speed == MinSpeed then 0 else 1
  {
    if halfSteps > 0 && halfSteps % 40 == 0 && Max(MinSpeed, speed - 3) != speed then
      SpeedEffectAsWritten(halfSteps, Max(MinSpeed, speed - 3))
    else speed
  }

  /** As written, the period reaches 15 ms at the first 20 units of
      distance instead of dropping to 117 ms. */
  lemma {:induction false} SpeedCollapses(speed: int)
    requires MinSpeed <= speed
    ensures SpeedEffectAsWritten(40, speed) == MinSpeed
    decreases speed
  {
    if speed > MinSpeed {
      SpeedCollapses(Max(MinSpeed, speed - 3));
    }
  }

  /** The first step of speed-up: 117 ms in the model, 15 ms as written. */
  lemma SpeedCollapseWitness()
    ensures SpeedAt(40) == 117
    ensures SpeedEffectAsWritten(40, InitialSpeed) == MinSpeed
  {
    SpeedCollapses(InitialSpeed);
  }
}
