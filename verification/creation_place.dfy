/** "The days of creation": a timed quiz of seven questions, one per day of
    creation, asked in a shuffled order. Each answer names a day; correct
    answers score by streak and by the time left. The pause after an
    answer is its own event, `FeedbackDone`, and so is each tick of the
    one-second timer. */
module CreationPlace {
  import opened Common
  import opened MiniGames
  import Shuffle

  datatype Question = Question(item: string, correctDay: int, hint: string)

  /** `QUESTIONS`, without the emoji shown next to each item. */
  const Questions: seq<Question> := [
    Question("Luz", 1, "Deus disse: Haja luz!"),
    Question("Céu (Firmamento)", 2, "Separou as águas"),
    Question("Terra e Plantas", 3, "A terra seca apareceu"),
    Question("Sol, Lua e Estrelas", 4, "Governar dia e noite"),
    Question("Peixes e Aves", 5, "Encham as águas e os céus"),
    Question("Animais e o Homem", 6, "À imagem de Deus"),
    Question("Descanso de Deus", 7, "Deus abençoou este dia")
  ]

  const TotalTime: int := 45

  function DayOf(q: Question): int { q.correctDay }

  /** The seven questions answer the seven days, one each, in order. */
  lemma DaysAreAWeek()
    ensures |Questions| == 7
    ensures forall k :: 0 <= k < |Questions| ==> Questions[k].correctDay == k + 1
  {
  }

  /** Whatever order the shuffle gives, the questions still answer each of
      the seven days exactly once. */
  lemma ShuffledDaysAreAWeek(rs: seq<real>)
    requires |rs| >= Shuffle.DrawsNeeded(|Questions|) && Shuffle.ValidDraws(rs)
    ensures multiset(Shuffle.MapSeq(DayOf, Shuffle.FisherYates(Questions, rs))) == multiset([1, 2, 3, 4, 5, 6, 7])
  {
    Shuffle.FisherYatesPreservesProjection(DayOf, Questions, rs);
    TableDays();
  }

  lemma TableDays()
    ensures Shuffle.MapSeq(DayOf, Questions) == [1, 2, 3, 4, 5, 6, 7]
  {
    var days := Shuffle.MapSeq(DayOf, Questions);
    DaysAreAWeek();
    assert days[0] == 1 && days[1] == 2 && days[2] == 3 && days[3] == 4;
    assert days[4] == 5 && days[5] == 6 && days[6] == 7;
  }

  datatype Step = Intro | Play | Done
  datatype Shown = Correct | Wrong

  datatype Game = Game(
    step: Step,
    questions: seq<Question>,
    currentIdx: int,
    score: int,
    streak: int,
    bestStreak: int,
    mistakes: int,
    timeLeft: int,
    showResult: Option<Shown>,
    startedAt: Option<int>)

  /** The game as the screen mounts: the questions are shuffled once, here. */
  function Mount(rs: seq<real>): (g: Game)
    requires |rs| >= Shuffle.DrawsNeeded(|Questions|) && Shuffle.ValidDraws(rs)
    ensures g.step == Intro && multiset(g.questions) == multiset(Questions) && |g.questions| == 7
    ensures Inv(g)
  {
    Game(Intro, Shuffle.FisherYates(Questions, rs), 0, 0, 0, 0, 0, TotalTime, None, None)
  }

  /** `start()`: the clock starts; nothing else changes. */
  function Start(g: Game, now: int): (g': Game)
    ensures g'.step == Play && g'.startedAt == Some(now)
    ensures g'.questions == g.questions && g'.currentIdx == g.currentIdx && g'.timeLeft == g.timeLeft
    ensures Inv(g) && g.step == Intro ==> Inv(g')
  {
    g.(step := Play, startedAt := Some(now))
  }

  /** One tick of the timer: the clock stops at 0, and at 0 the game ends. */
  function Tick(g: Game): (g': Game)
    ensures g.step != Play ==> g' == g
    ensures g.step == Play && g.timeLeft <= 1 ==> g'.timeLeft == 0 && g'.step == Done
    ensures g.step == Play && g.timeLeft > 1 ==> g'.timeLeft == g.timeLeft - 1 && g'.step == Play
    ensures g'.score == g.score && g'.mistakes == g.mistakes && g'.currentIdx == g.currentIdx
  {
    if g.step != Play then g
    else if g.timeLeft <= 1 then g.(timeLeft := 0, step := Done)
    else g.(timeLeft := g.timeLeft - 1)
  }

  /** The points of a correct answer: 100, 25 per answer of the streak so
      far, and 2 per second left. */
  function AnswerPoints(streak: int, timeLeft: int): (p: int)
    ensures streak >= 0 && timeLeft >= 0 ==> p >= 100
    ensures streak == 0 ==> p == 100 + 2 * timeLeft
  {
    100 + streak * 25 + Floor2(timeLeft)
  }

  /** `Math.floor(timeLeft * 2)` on a whole number of seconds. */
  function Floor2(t: int): int { ((2 * t) as real).Floor }

  /** `selectDay(day)`: ignored while a result shows, past the last
      question, and once the time is up. */
  function SelectDay(g: Game, day: int): (g': Game)
    ensures g.showResult.Some? || g.currentIdx >= |g.questions| || g.timeLeft <= 0 ==> g' == g
    ensures g.showResult.None? && 0 <= g.currentIdx < |g.questions| && g.timeLeft > 0 ==>
      var right := day == g.questions[g.currentIdx].correctDay;
      && g'.showResult == Some(if right then Correct else Wrong)
      && (right ==>
            && g'.streak == g.streak + 1 && g'.bestStreak == Max(g.bestStreak, g.streak + 1)
            && g'.score == g.score + AnswerPoints(g.streak, g.timeLeft) && g'.mistakes == g.mistakes)
      && (!right ==>
            && g'.mistakes == g.mistakes + 1 && g'.streak == 0
            && g'.score == g.score && g'.bestStreak == g.bestStreak)
      && g'.currentIdx == g.currentIdx && g'.step == g.step && g'.timeLeft == g.timeLeft
  {
    if g.showResult.Some? || g.currentIdx >= |g.questions| || g.currentIdx < 0 || g.timeLeft <= 0 then g
    else if day == g.questions[g.currentIdx].correctDay then
      var newStreak := g.streak + 1;
      g.(score := g.score + AnswerPoints(g.streak, g.timeLeft), streak := newStreak,
         bestStreak := if newStreak > g.bestStreak then newStreak else g.bestStreak,
         showResult := Some(Correct))
    else
      g.(mistakes := g.mistakes + 1, streak := 0, showResult := Some(Wrong))
  }

  /** The pause after an answer ends: the next question, or the end after
      the last. It runs even when the clock ended the game meanwhile. */
  function FeedbackDone(g: Game): (g': Game)
    ensures g.showResult.None? ==> g' == g
    ensures g.showResult.Some? ==> g'.showResult.None? && g'.score == g.score && g'.mistakes == g.mistakes
    ensures g.showResult.Some? && g.currentIdx + 1 >= |g.questions| ==> g'.step == Done && g'.currentIdx == g.currentIdx
    ensures g.showResult.Some? && g.currentIdx + 1 < |g.questions| ==>
      g'.currentIdx == g.currentIdx + 1 && g'.step == g.step
  {
    if g.showResult.None? then g
    else if g.currentIdx + 1 >= |g.questions| then g.(showResult := None, step := Done)
    else g.(showResult := None, currentIdx := g.currentIdx + 1)
  }

  /** The seven questions in some order, the clock within its range and
      running during play, and no more mistakes than answers given. */
  predicate Inv(g: Game)
  {
    && |g.questions| == 7 && multiset(g.questions) == multiset(Questions)
    && 0 <= g.currentIdx < 7
    && 0 <= g.timeLeft <= TotalTime
    && 0 <= g.streak <= g.bestStreak
    && g.score >= 0
    && 0 <= g.mistakes <= g.currentIdx + (if g.showResult.Some? || g.step == Done then 1 else 0)
    && (g.step == Intro ==>
          g.currentIdx == 0 && g.mistakes == 0 && g.showResult.None? && g.score == 0 && g.timeLeft == TotalTime)
    && (g.step != Intro ==> g.startedAt.Some?)
    && (g.step == Play ==> g.timeLeft >= 1)
  }

  /** The rating on the final screen. */
  datatype Rating = Master | Excellent | GoodJob | StudyMore

  function RatingOf(score: int): (rt: Rating)
    ensures rt == Master <==> score >= 1200
    ensures rt == Excellent <==> 800 <= score < 1200
    ensures rt == GoodJob <==> 500 <= score < 800
    ensures rt == StudyMore <==> score < 500
  {
    if score >= 1200 then Master else if score >= 800 then Excellent
    else if score >= 500 then GoodJob else StudyMore
  }

  /** `Math.max(0, 1 - mistakes / 7)`. */
  function Accuracy(mistakes: int): (a: real)
    ensures 0.0 <= a
    ensures mistakes >= 0 ==> a <= 1.0
    ensures mistakes == 0 <==> a == 1.0
    ensures mistakes >= 7 ==> a == 0.0
  {
    var a := 1.0 - mistakes as real / 7.0;
    if a < 0.0 then 0.0 else a
  }

  /** `handleDone()`, offered on the final screen only: always completed,
      with a score from 50 (seven mistakes) to 100 (none). */
  function Finish(g: Game, now: int): (r: Option<MiniGameResult>)
    ensures g.step != Done <==> r.None?
    ensures r.Some? ==>
      && r.value.completed && r.value.mistakes == g.mistakes && r.value.seconds >= 1
      && (g.mistakes == 0 ==> r.value.score == 100)
      && (g.mistakes >= 7 ==> r.value.score == 50)
    ensures Inv(g) && r.Some? ==> ValidResult(r.value) && 50 <= r.value.score <= 100
  {
    if g.step != Done then None
    else Some(MiniGameResult(true, HalfPlusHalf(Accuracy(g.mistakes)), g.mistakes, ElapsedSeconds(g.startedAt, now)))
  }

  /** The events after `start`; the day buttons exist only on the play screen. */
  datatype Event = TickEv | Select(day: int) | Pause

  function Apply(g: Game, e: Event): Game
  {
    match e
    case TickEv => Tick(g)
    case Select(day) => if g.step == Play then SelectDay(g, day) else g
    case Pause => FeedbackDone(g)
  }

  lemma ApplyKeepsInv(g: Game, e: Event)
    requires Inv(g) && g.step != Intro
    ensures Inv(Apply(g, e)) && Apply(g, e).step != Intro
  {
  }

  function Run(g: Game, es: seq<Event>): Game
    decreases |es|
  {
    if es == [] then g else Run(Apply(g, es[0]), es[1..])
  }

  /** Whatever happens after `start`, the game stays consistent and its
      result meets the result contract with a score of at least 50. */
  lemma {:induction false} SessionResultValid(g: Game, es: seq<Event>, now: int)
    requires Inv(g) && g.step != Intro
    ensures Inv(Run(g, es)) && Run(g, es).step != Intro
    ensures Finish(Run(g, es), now).Some? ==>
      ValidResult(Finish(Run(g, es), now).value) && Finish(Run(g, es), now).value.score >= 50
    decreases |es|
  {
    if es != [] {
      ApplyKeepsInv(g, es[0]);
      SessionResultValid(Apply(g, es[0]), es[1..], now);
    }
  }
}
