/** "The parable of the sower": ten descriptions, drawn from a table of
    twelve, each to be matched with one of the four soils of the parable
    within 90 seconds. Correct answers score with a streak bonus and a time
    bonus. The pause after each answer is its own event, `FeedbackDone`, and
    so is each tick of the one-second timer. */
module ParablesSeed {
  import opened Common
  import opened MiniGames
  import Shuffle

  datatype Soil = Road | Rocks | Thorns | Good

  datatype Question = Question(text: string, correctSoil: Soil)

  /** The entries of `QUESTIONS`, one constant each. */
  const Q0: Question := Question("Uma pessoa ouve a Palavra mas não entende, e o Maligno rouba", Road)
  const Q1: Question := Question("Recebe com alegria mas não tem raiz, desiste na dificuldade", Rocks)
  const Q2: Question := Question("As preocupações e riquezas sufocam a Palavra", Thorns)
  const Q3: Question := Question("Ouve, entende e produz frutos: 30, 60 ou 100 vezes mais", Good)
  const Q4: Question := Question("A semente é pisoteada e os pássaros comem", Road)
  const Q5: Question := Question("A planta seca porque o solo é raso", Rocks)
  const Q6: Question := Question("Os espinhos crescem junto e sufocam", Thorns)
  const Q7: Question := Question("A semente cai em terra fértil e germina", Good)
  const Q8: Question := Question("A fé é superficial e temporária", Rocks)
  const Q9: Question := Question("O amor ao dinheiro impede o crescimento espiritual", Thorns)
  const Q10: Question := Question("A pessoa pratica o que aprendeu", Good)
  const Q11: Question := Question("A distração impede de guardar a Palavra no coração", Road)

  /** `QUESTIONS`. */
  const Questions: seq<Question> := [Q0, Q1, Q2, Q3, Q4, Q5, Q6, Q7, Q8, Q9, Q10, Q11]

  const TimeLimit: int := 90
  const Rounds: int := 10

  function SoilOf(q: Question): Soil { q.correctSoil }

  /** The four soils, once each. */
  const Soils: seq<Soil> := [Road, Rocks, Thorns, Good]

  lemma SoilsOnce(s: Soil)
    ensures multiset(Soils)[s] == 1
    ensures multiset([Rocks, Thorns, Good, Road])[s] == 1
  {
  }

  /** The answers of the table, in its order: three rounds of the four soils. */
  lemma TableSoils()
    ensures Shuffle.MapSeq(SoilOf, Questions) == Soils + Soils + [Rocks, Thorns, Good, Road]
  {
  }

  /** The table has twelve entries and every soil is the answer exactly
      three times. */
  lemma TableBalanced(s: Soil)
    ensures |Questions| == 12
    ensures multiset(Shuffle.MapSeq(SoilOf, Questions))[s] == 3
  {
    TableSoils();
    SoilsOnce(s);
    var last := [Rocks, Thorns, Good, Road];
    assert multiset(Soils + Soils + last) == multiset(Soils) + multiset(Soils) + multiset(last);
  }

  /** No question appears twice in the table. */
  lemma TableDistinct()
    ensures Shuffle.Distinct(Questions)
  {
  }

  datatype Step = Intro | Playing | Done
  datatype Feedback = Right | Wrong

  datatype Game = Game(
    step: Step,
    currentQuestion: int,
    questions: seq<Question>,
    timeLeft: int,
    score: int,
    streak: int,
    mistakes: int,
    correct: int,
    startedAt: Option<int>,
    feedback: Option<Feedback>)

  const Initial: Game := Game(Intro, 0, [], TimeLimit, 0, 0, 0, 0, None, None)

  /** `start()`: the first ten questions of a shuffle of the table, and all
      counters reset. */
  function Start(g: Game, now: int, rs: seq<real>): (g': Game)
    requires |rs| >= Shuffle.DrawsNeeded(|Questions|) && Shuffle.ValidDraws(rs)
    ensures g'.step == Playing && |g'.questions| == Rounds
    ensures Shuffle.Distinct(g'.questions)
    ensures forall k :: 0 <= k < |g'.questions| ==> g'.questions[k] in Questions
    ensures g'.currentQuestion == 0 && g'.correct == 0 && g'.mistakes == 0 && g'.score == 0
    ensures g'.timeLeft == TimeLimit && g'.startedAt == Some(now)
    ensures Inv(g')
  {
    TableDistinct();
    Shuffle.FisherYatesPrefix(Questions, rs, Rounds);
    Game(Playing, 0, Shuffle.FisherYates(Questions, rs)[..Rounds], TimeLimit, 0, 0, 0, 0, Some(now), None)
  }

  /** One tick of the timer: the clock stops at 0 and ends the game. */
  function Tick(g: Game): (g': Game)
    ensures g.step != Playing || g.timeLeft <= 0 ==> g' == g
    ensures g.step == Playing && g.timeLeft > 0 ==>
      && (g.timeLeft <= 1 ==> g'.timeLeft == 0 && g'.step == Done)
      && (g.timeLeft > 1 ==> g'.timeLeft == g.timeLeft - 1 && g'.step == Playing)
      && g'.correct == g.correct && g'.mistakes == g.mistakes && g'.score == g.score
  {
    if g.step != Playing || g.timeLeft <= 0 then g
    else if g.timeLeft <= 1 then g.(timeLeft := 0, step := Done)
    else g.(timeLeft := g.timeLeft - 1)
  }

  /** The points of a correct answer: 100, a streak bonus of 25 per answer
      of the streak from a streak of two, and 5 per full five seconds left. */
  function AnswerPoints(streak: int, timeLeft: int): (p: int)
    requires streak >= 0 && timeLeft >= 0
    ensures p >= 100
    ensures streak < 2 ==> p == 100 + timeLeft / 5 * 5
  {
    100 + (if streak >= 2 then streak * 25 else 0) + timeLeft / 5 * 5
  }

  /** `selectSoil(soil)`: ignored outside play and while feedback shows. */
  function SelectSoil(g: Game, soil: Soil): (g': Game)
    requires g.streak >= 0 && g.timeLeft >= 0
    ensures g.step != Playing || g.feedback.Some? || g.currentQuestion >= |g.questions| ==> g' == g
    ensures g.step == Playing && g.feedback.None? && 0 <= g.currentQuestion < |g.questions| ==>
      var right := soil == g.questions[g.currentQuestion].correctSoil;
      && g'.feedback == Some(if right then Right else Wrong)
      && (right ==> g'.correct == g.correct + 1 && g'.streak == g.streak + 1 && g'.mistakes == g.mistakes
                    && g'.score == g.score + AnswerPoints(g.streak, g.timeLeft))
      && (!right ==> g'.mistakes == g.mistakes + 1 && g'.streak == 0 && g'.correct == g.correct
                     && g'.score == g.score)
      && g'.currentQuestion == g.currentQuestion && g'.step == g.step
  {
    if g.step != Playing || g.feedback.Some? || g.currentQuestion >= |g.questions| || g.currentQuestion < 0 then g
    else if soil == g.questions[g.currentQuestion].correctSoil then
      g.(correct := g.correct + 1, streak := g.streak + 1,
         score := g.score + AnswerPoints(g.streak, g.timeLeft), feedback := Some(Right))
    else
      g.(mistakes := g.mistakes + 1, streak := 0, feedback := Some(Wrong))
  }

  /** The pause after an answer ends: the next question, or the end after
      the last one. */
  function FeedbackDone(g: Game): (g': Game)
    ensures g.feedback.None? ==> g' == g
    ensures g.feedback.Some? ==> g'.feedback.None?
    ensures g.feedback.Some? && g.currentQuestion + 1 >= |g.questions| ==> g'.step == Done
    ensures g.feedback.Some? && g.currentQuestion + 1 < |g.questions| ==>
      g'.currentQuestion == g.currentQuestion + 1 && g'.step == g.step
  {
    if g.feedback.None? then g
    else if g.currentQuestion + 1 >= |g.questions| then g.(feedback := None, step := Done)
    else g.(feedback := None, currentQuestion := g.currentQuestion + 1)
  }

  /** A started game: ten distinct questions from the table, the clock
      within its range, and one answer counted per question answered. */
  predicate Inv(g: Game)
  {
    && (g.step == Intro ==> g == Initial)
    && (g.step != Intro ==>
          && |g.questions| == Rounds
          && 0 <= g.currentQuestion < Rounds
          && 0 <= g.timeLeft <= TimeLimit
          && g.streak >= 0 && g.correct >= 0 && g.mistakes >= 0 && g.score >= 0
          && g.startedAt.Some?
          && (g.step == Playing ==> g.correct + g.mistakes == g.currentQuestion + (if g.feedback.Some? then 1 else 0))
          && (g.step == Playing ==> g.timeLeft > 0)
          && g.correct + g.mistakes <= g.currentQuestion + 1)
  }

  /** `handleDone()`, offered on the final screen only. */
  function Finish(g: Game, now: int): (r: Option<MiniGameResult>)
    ensures g.step != Done <==> r.None?
    ensures Inv(g) && r.Some? ==>
      && ValidResult(r.value)
      && r.value.score == 40 + 6 * g.correct
      && 40 <= r.value.score <= 100
      && (r.value.completed <==> g.correct >= 7)
      && r.value.mistakes == g.mistakes
      && r.value.seconds >= 1
  {
    if g.step != Done then None
    else
      assert 40.0 + (g.correct as real / Rounds as real) * 60.0 == (40 + 6 * g.correct) as real;
      RoundOfInt(40 + 6 * g.correct);
      Some(MiniGameResult(g.correct >= 7, Round(40.0 + (g.correct as real / Rounds as real) * 60.0),
                          g.mistakes, ElapsedSeconds(g.startedAt, now)))
  }

  datatype Rating = Master | Great | GoodJob | Study

  /** The rating on the final screen, on `pct = Math.round(correct / 10 * 100)`. */
  function RatingOf(correct: int): (rt: Rating)
    ensures rt == Master <==> correct >= 9
    ensures rt == Great <==> 7 <= correct < 9
    ensures rt == GoodJob <==> 5 <= correct < 7
    ensures rt == Study <==> correct < 5
  {
    var pct := Round(correct as real / Rounds as real * 100.0);
    assert correct as real / Rounds as real * 100.0 == (10 * correct) as real;
    RoundOfInt(10 * correct);
    if pct >= 90 then Master else if pct >= 70 then Great else if pct >= 50 then GoodJob else Study
  }

  /** A completed game is rated at least "great". */
  lemma CompletedRatedGreat(g: Game, now: int)
    requires Inv(g) && g.step == Done && Finish(g, now).value.completed
    ensures RatingOf(g.correct) == Master || RatingOf(g.correct) == Great
  {
  }

  datatype Event = TickEv | Select(soil: Soil) | Pause

  function Apply(g: Game, e: Event): Game
    requires g.streak >= 0 && g.timeLeft >= 0
  {
    match e
    case TickEv => Tick(g)
    case Select(s) => SelectSoil(g, s)
    case Pause => FeedbackDone(g)
  }

  lemma ApplyKeepsInv(g: Game, e: Event)
    requires Inv(g) && g.step != Intro
    ensures Inv(Apply(g, e)) && Apply(g, e).step != Intro
  {
  }

  function Run(g: Game, es: seq<Event>): Game
    requires Inv(g) && g.step != Intro
    decreases |es|
  {
    if es == [] then g
    else
      ApplyKeepsInv(g, es[0]);
      Run(Apply(g, es[0]), es[1..])
  }

  /** Whatever happens after `start`, the final result meets the result
      contract and counts at most ten correct answers. */
  lemma {:induction false} SessionResultValid(g: Game, es: seq<Event>, now: int)
    requires Inv(g) && g.step != Intro
    ensures Inv(Run(g, es))
    ensures Finish(Run(g, es), now).Some? ==> ValidResult(Finish(Run(g, es), now).value)
    decreases |es|
  {
    if es != [] {
      ApplyKeepsInv(g, es[0]);
      SessionResultValid(Apply(g, es[0]), es[1..], now);
    }
  }
}
