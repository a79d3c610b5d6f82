/** "David and Goliath": five throws at a target. A cursor swings across
    the target, the throw lands where the cursor is, and the distance from
    the centre picks the zone and its points. Each throw is followed by an
    animation; its end is its own event, `Settle`, which moves to the next
    throw and lowers the `speed` state, or moves to the final screen. The
    swing restarted there uses the `speed` captured at the throw, one step
    behind the state; the cursor position is a parameter of the throw, so
    the period of the swing does not enter the model. */
module DavidStone {
  import opened Common
  import opened MiniGames

  const Rounds: int := 5
  const InitialSpeed: int := 2000
  const MinSpeed: int := 800

  datatype HitZone = Bullseye | Inner | Outer | Miss

  /** `calculateHitZone(position)`: the zone from the distance to the centre
      0.5 of the swing, with the bands 0.08, 0.18 and 0.35. */
  function HitZoneOf(position: real): (z: HitZone)
    ensures z == Bullseye <==> Abs(position - 0.5) < 0.08
    ensures z == Inner <==> 0.08 <= Abs(position - 0.5) < 0.18
    ensures z == Outer <==> 0.18 <= Abs(position - 0.5) < 0.35
    ensures z == Miss <==> 0.35 <= Abs(position - 0.5)
  {
    var d := Abs(position - 0.5);
    if d < 0.08 then Bullseye
    else if d < 0.18 then Inner
    else if d < 0.35 then Outer
    else Miss
  }

  /** The target is symmetric: mirrored positions land in the same zone. */
  lemma HitZoneSymmetric(position: real)
    ensures HitZoneOf(position) == HitZoneOf(1.0 - position)
  {
    assert Abs(position - 0.5) == Abs((1.0 - position) - 0.5);
  }

  /** `getPoints(zone)`. */
  function Points(z: HitZone): (p: int)
    ensures 0 <= p <= 500
    ensures p == 0 <==> z == Miss
    ensures p == 500 <==> z == Bullseye
  {
    match z
    case Bullseye => 500
    case Inner => 300
    case Outer => 100
    case Miss => 0
  }

  /** A throw closer to the centre never earns fewer points. */
  lemma PointsMonotone(p: real, q: real)
    requires Abs(p - 0.5) <= Abs(q - 0.5)
    ensures Points(HitZoneOf(p)) >= Points(HitZoneOf(q))
  {
  }

  datatype Step = Intro | Play | Done

  datatype LastHit = LastHit(zone: HitZone, points: int)

  datatype Game = Game(
    step: Step,
    round: int,
    score: int,
    hits: seq<HitZone>,
    lastHit: Option<LastHit>,
    animating: bool,
    startedAt: Option<int>,
    speed: int)

  const Initial: Game := Game(Intro, 0, 0, [], None, false, None, InitialSpeed)

  /** The points of a sequence of throws. */
  function SumPoints(hits: seq<HitZone>): (s: int)
    ensures 0 <= s <= 500 * |hits|
  {
    if hits == [] then 0 else SumPoints(hits[..|hits| - 1]) + Points(hits[|hits| - 1])
  }

  /** How many throws of `hits` landed in zone `z`. */
  function CountZone(hits: seq<HitZone>, z: HitZone): (n: nat)
    ensures n <= |hits|
  {
    if hits == [] then 0 else CountZone(hits[..|hits| - 1], z) + (if hits[|hits| - 1] == z then 1 else 0)
  }

  /** The `speed` state before throw number `round` (counting from 0). */
  function SpeedAt(round: int): int
  {
    Max(MinSpeed, InitialSpeed - 200 * round)
  }

  /** A started game: one zone per throw made, the score their points, and
      the `speed` state lowered once per throw settled. */
  predicate Inv(g: Game)
  {
    && (g.step == Intro ==> g == Initial)
    && (g.step != Intro ==>
          && 0 <= g.round <= Rounds
          && g.score == SumPoints(g.hits)
          && g.startedAt.Some?
          && (g.step == Play ==>
                g.round < Rounds && |g.hits| == g.round + (if g.animating then 1 else 0)
                && g.speed == SpeedAt(g.round))
          && (g.step == Done ==> g.round == Rounds && |g.hits| == Rounds && g.animating))
  }

  /** `start()`: only the step and the start time change; the counters are
      those of the intro screen. */
  function Start(g: Game, now: int): (g': Game)
    ensures g'.step == Play && g'.startedAt == Some(now)
    ensures g'.round == g.round && g'.hits == g.hits && g'.score == g.score && g'.speed == g.speed
    ensures g == Initial ==> g'.round == 0 && g'.hits == [] && g'.score == 0 && !g'.animating
    ensures g == Initial ==> Inv(g')
  {
    g.(step := Play, startedAt := Some(now))
  }

  /** `throwStone()` with the cursor at `position`: ignored while a throw
      is animating and once all five throws are made; otherwise the zone is
      recorded and its points added. */
  function Throw(g: Game, position: real): (g': Game)
    ensures g.animating || g.round >= Rounds ==> g' == g
    ensures !g.animating && g.round < Rounds ==>
      && g'.hits == g.hits + [HitZoneOf(position)]
      && g'.score == g.score + Points(HitZoneOf(position))
      && g'.animating
      && g'.lastHit == Some(LastHit(HitZoneOf(position), Points(HitZoneOf(position))))
      && g'.round == g.round && g'.step == g.step && g'.speed == g.speed
    ensures Inv(g) && g.step != Intro ==> Inv(g')
  {
    if g.animating || g.round >= Rounds then g
    else
      var zone := HitZoneOf(position);
      var points := Points(zone);
      assert (g.hits + [zone])[..|g.hits|] == g.hits;
      g.(animating := true, lastHit := Some(LastHit(zone, points)),
         hits := g.hits + [zone], score := g.score + points)
  }

  /** The end of a throw's animation: the next throw, with the `speed`
      state 200 ms lower (never below 800 ms), or the final screen after
      the fifth. Nothing happens when no throw is animating. */
  function Settle(g: Game): (g': Game)
    ensures !g.animating || g.step != Play ==> g' == g
    ensures g.animating && g.step == Play ==>
      && g'.round == g.round + 1 && g'.lastHit.None? && g'.hits == g.hits && g'.score == g.score
      && (g.round + 1 >= Rounds ==> g'.step == Done && g'.speed == g.speed)
      && (g.round + 1 < Rounds ==> g'.step == Play && !g'.animating && g'.speed == Max(MinSpeed, g.speed - 200))
    ensures Inv(g) ==> Inv(g')
  {
    if !g.animating || g.step != Play then g
    else
      var next := g.round + 1;
      if next >= Rounds then g.(lastHit := None, round := next, step := Done)
      else g.(lastHit := None, round := next, speed := Max(MinSpeed, g.speed - 200), animating := false)
  }

  /** With five throws the `speed` state never goes below 1200 ms: the
      floor of 800 ms is never reached. */
  lemma SpeedNeverAtFloor(g: Game)
    requires Inv(g) && g.step == Play
    ensures g.speed >= 1200 && g.speed > MinSpeed
  {
  }

  /** The score of a started game is at most 2500, five bullseyes. */
  lemma ScoreBounded(g: Game)
    requires Inv(g) && g.step != Intro
    ensures 0 <= g.score <= 500 * Rounds
  {
  }

  /** Each throw adds at most 300 points unless it is a bullseye. */
  lemma {:induction false} SumPointsByBullseyes(hits: seq<HitZone>)
    ensures SumPoints(hits) <= 300 * |hits| + 200 * CountZone(hits, Bullseye)
    ensures SumPoints(hits) >= 500 * CountZone(hits, Bullseye)
  {
    if hits != [] {
      SumPointsByBullseyes(hits[..|hits| - 1]);
    }
  }

  datatype Rating = Legendary | Excellent | GoodJob | KeepTraining

  /** The rating on the final screen. */
  function RatingOf(score: int): (rt: Rating)
    ensures rt == Legendary <==> score >= 2000
    ensures rt == Excellent <==> 1500 <= score < 2000
    ensures rt == GoodJob <==> 1000 <= score < 1500
    ensures rt == KeepTraining <==> score < 1000
  {
    if score >= 2000 then Legendary else if score >= 1500 then Excellent
    else if score >= 1000 then GoodJob else KeepTraining
  }

  /** "Legendary" takes at least three bullseyes out of five. */
  lemma LegendaryNeedsThreeBullseyes(g: Game)
    requires Inv(g) && g.step == Done && RatingOf(g.score) == Legendary
    ensures CountZone(g.hits, Bullseye) >= 3
  {
    SumPointsByBullseyes(g.hits);
  }

  /** The throws that missed and the throws that did not add up to all. */
  lemma {:induction false} MissesAndHits(hits: seq<HitZone>)
    ensures CountZone(hits, Miss) + CountZone(hits, Bullseye) + CountZone(hits, Inner) + CountZone(hits, Outer) == |hits|
  {
    if hits != [] {
      MissesAndHits(hits[..|hits| - 1]);
    }
  }

  /** The share of throws that hit the target, 0 before any throw. */
  function Accuracy(hits: seq<HitZone>): (a: real)
    ensures 0.0 <= a <= 1.0
    ensures hits != [] && CountZone(hits, Miss) == 0 ==> a == 1.0
    ensures CountZone(hits, Miss) == |hits| ==> a == 0.0
  {
    if |hits| > 0 then
      MissesAndHits(hits);
      (|hits| - CountZone(hits, Miss)) as real / |hits| as real
    else 0.0
  }

  /** `handleDone()`, offered on the final screen only: always completed,
      one mistake per miss, and the score from the share of hits. */
  function Finish(g: Game, now: int): (r: Option<MiniGameResult>)
    ensures g.step != Done <==> r.None?
    ensures r.Some? ==>
      && ValidResult(r.value)
      && r.value.completed
      && 50 <= r.value.score <= 100
      && r.value.mistakes == CountZone(g.hits, Miss)
      && (g.hits != [] && CountZone(g.hits, Miss) == 0 ==> r.value.score == 100)
      && (CountZone(g.hits, Miss) == |g.hits| ==> r.value.score == 50)
      && r.value.seconds >= 1
  {
    if g.step != Done then None
    else Some(MiniGameResult(true, HalfPlusHalf(Accuracy(g.hits)), CountZone(g.hits, Miss), ElapsedSeconds(g.startedAt, now)))
  }

  /** The events after `start`. */
  datatype Event = ThrowAt(position: real) | SettleEv

  function Apply(g: Game, e: Event): Game
  {
    match e
    case ThrowAt(p) => Throw(g, p)
    case SettleEv => Settle(g)
  }

  function Run(g: Game, es: seq<Event>): Game
    decreases |es|
  {
    if es == [] then g else Run(Apply(g, es[0]), es[1..])
  }

  /** Whatever the child does after `start`, the game stays consistent, the
      score stays within 2500, and the result meets the result contract. */
  lemma {:induction false} SessionResultValid(g: Game, es: seq<Event>, now: int)
    requires Inv(g) && g.step != Intro
    ensures Inv(Run(g, es)) && Run(g, es).step != Intro
    ensures Run(g, es).score <= 500 * Rounds
    ensures Finish(Run(g, es), now).Some? ==> ValidResult(Finish(Run(g, es), now).value)
    decreases |es|
  {
    if es != [] {
      var g' := Apply(g, es[0]);
      assert Inv(g') && g'.step != Intro;
      SessionResultValid(g', es[1..], now);
    }
  }
}
