/** The quiz of a level: the question order, the tally kept while the child
    picks answers, and the star grading done when the last question is
    left. The grading here has four bands (0 to 3), unlike the
    three-band grading of the state utilities. */
module QuizScreen {
  import opened Common
  import StateUtils
  import Shuffle

  datatype Question = Question(prompt: string, options: seq<string>, answerIndex: int, explain: string, ref: string)

  /** The screen's state: the question order fixed on entry, the current
      position, the two counters and the option picked for the current
      question, if any. `levelId` and `stickerId` come from the level. */
  datatype Quiz = Quiz(
    levelId: string,
    stickerId: Option<string>,
    questions: seq<Question>,
    i: nat,
    correct: nat,
    wrong: nat,
    chosen: Option<int>)

  /** Where `next` leads: the same screen with a new state, or the reward
      screen with the stars and the sticker of the level. `doneCorrect` is
      the count the stars were computed from. */
  datatype Outcome =
    | Stay(quiz: Quiz)
    | ToReward(levelId: string, stars: int, stickerId: Option<string>, doneCorrect: int)

  /** The order of the questions: shuffled when the setting is on, the
      catalog order otherwise. A question is moved as a whole, so its
      options and answer index stay together. */
  function OrderQuestions(base: seq<Question>, shuffleOn: bool, rs: seq<real>): (r: seq<Question>)
    requires |rs| >= Shuffle.DrawsNeeded(|base|) && Shuffle.ValidDraws(rs)
    ensures !shuffleOn ==> r == base
    ensures multiset(r) == multiset(base)
    ensures forall k :: 0 <= k < |r| ==> r[k] in base
  {
    if shuffleOn then
      var r := Shuffle.FisherYates(base, rs);
      assert forall k :: 0 <= k < |r| ==> r[k] in multiset(base);
      r
    else base
  }

  /** The screen as it opens. */
  function Open(levelId: string, stickerId: Option<string>, base: seq<Question>, shuffleOn: bool, rs: seq<real>): (q: Quiz)
    requires |rs| >= Shuffle.DrawsNeeded(|base|) && Shuffle.ValidDraws(rs)
    ensures Tally(q) && q.i == 0 && q.correct == 0 && q.wrong == 0 && q.chosen == None
    ensures multiset(q.questions) == multiset(base)
  {
    Quiz(levelId, stickerId, OrderQuestions(base, shuffleOn, rs), 0, 0, 0, None)
  }

  /** The tally the screen keeps: one count per answered question, and a
      choice only while a question is on screen. */
  predicate Tally(q: Quiz)
  {
    && q.i <= |q.questions|
    && (q.chosen.Some? ==> q.i < |q.questions|)
    && q.correct + q.wrong == q.i + (if q.chosen.Some? then 1 else 0)
  }

  /** `onPick(idx)`: ignored once an option is chosen (and when there is no
      question, where the screen renders nothing). Otherwise the choice is
      recorded and exactly one counter goes up. */
  function OnPick(q: Quiz, idx: int): (r: Quiz)
    ensures q.chosen.Some? || q.i >= |q.questions| ==> r == q
    ensures q.chosen.None? && q.i < |q.questions| ==>
      && r.chosen == Some(idx)
      && r.i == q.i && r.questions == q.questions
      && r.levelId == q.levelId && r.stickerId == q.stickerId
      && (idx == q.questions[q.i].answerIndex ==> r.correct == q.correct + 1 && r.wrong == q.wrong)
      && (idx != q.questions[q.i].answerIndex ==> r.wrong == q.wrong + 1 && r.correct == q.correct)
    ensures Tally(q) ==> Tally(r)
  {
    if q.chosen.Some? || q.i >= |q.questions| then q
    else if idx == q.questions[q.i].answerIndex then q.(chosen := Some(idx), correct := q.correct + 1)
    else q.(chosen := Some(idx), wrong := q.wrong + 1)
  }

  /** The stars of the quiz screen: 3 from 90%, 2 from 60%, 1 from 30%,
      otherwise 0, on the exact ratio `doneCorrect / total`. */
  function QuizStars(doneCorrect: int, total: nat): (stars: int)
    requires total > 0
    ensures 0 <= stars <= 3
    ensures stars == 3 <==> 10 * doneCorrect >= 9 * total
    ensures stars == 2 <==> 6 * total <= 10 * doneCorrect < 9 * total
    ensures stars == 1 <==> 3 * total <= 10 * doneCorrect < 6 * total
    ensures stars == 0 <==> 10 * doneCorrect < 3 * total
  {
    if 10 * doneCorrect >= 9 * total then 3
    else if 10 * doneCorrect >= 6 * total then 2
    else if 10 * doneCorrect >= 3 * total then 1
    else 0
  }

  /** More correct answers never give fewer stars. */
  lemma QuizStarsMonotone(c1: int, c2: int, total: nat)
    requires total > 0 && c1 <= c2
    ensures QuizStars(c1, total) <= QuizStars(c2, total)
  {
  }

  /** The two gradings agree from 30% up; below it this one gives 0 where
      `calculateStars` gives 1. */
  lemma GradingsCompared(c: nat, total: nat)
    requires total > 0
    ensures 10 * c >= 3 * total ==> QuizStars(c, total) == StateUtils.CalculateStars(c, total)
    ensures 10 * c < 3 * total ==> QuizStars(c, total) == 0 && StateUtils.CalculateStars(c, total) == 1
  {
  }

  /** `next()` as the screen has it. It needs a choice (the button is
      disabled before one). On the last question the stars are computed from
      `correct + lastOk`, although `onPick` has already counted that answer
      in `correct`; otherwise the screen moves on and clears the choice. */
  function Next(q: Quiz): (o: Outcome)
    ensures q.chosen.None? || q.i >= |q.questions| ==> o == Stay(q)
    ensures q.chosen.Some? && q.i + 1 < |q.questions| ==>
      o == Stay(q.(i := q.i + 1, chosen := None))
    ensures q.chosen.Some? && q.i + 1 == |q.questions| ==>
      && o.ToReward?
      && o.levelId == q.levelId && o.stickerId == q.stickerId
      && o.doneCorrect == q.correct + (if q.chosen.value == q.questions[q.i].answerIndex then 1 else 0)
      && o.stars == QuizStars(o.doneCorrect, |q.questions|)
  {
    if q.chosen.None? || q.i >= |q.questions| then Stay(q)
    else if q.i + 1 >= |q.questions| then
      var lastOk := if q.chosen.value == q.questions[q.i].answerIndex then 1 else 0;
      var doneCorrect := q.correct + lastOk;
      ToReward(q.levelId, QuizStars(doneCorrect, |q.questions|), q.stickerId, doneCorrect)
    else Stay(q.(i := q.i + 1, chosen := None))
  }

  /** `next()` with the final count taken as `correct` alone, which already
      holds the last answer. */
  function NextFixed(q: Quiz): (o: Outcome)
    ensures q.chosen.None? || q.i >= |q.questions| ==> o == Stay(q)
    ensures q.chosen.Some? && q.i + 1 < |q.questions| ==> o == Next(q)
    ensures q.chosen.Some? && q.i + 1 == |q.questions| ==>
      && o.ToReward?
      && o.levelId == q.levelId && o.stickerId == q.stickerId
      && o.doneCorrect == q.correct
      && o.stars == QuizStars(q.correct, |q.questions|)
  {
    if q.chosen.None? || q.i >= |q.questions| then Stay(q)
    else if q.i + 1 >= |q.questions| then
      ToReward(q.levelId, QuizStars(q.correct, |q.questions|), q.stickerId, q.correct)
    else Stay(q.(i := q.i + 1, chosen := None))
  }

  /** `next()` keeps the tally. */
  lemma NextKeepsTally(q: Quiz)
    requires Tally(q)
    ensures Next(q).Stay? ==> Tally(Next(q).quiz)
    ensures NextFixed(q).Stay? ==> Tally(NextFixed(q).quiz)
  {
  }

  /** In any reachable state the count the screen grades can exceed the
      number of questions by one, and no more. */
  lemma DoneCorrectBound(q: Quiz)
    requires Tally(q)
    ensures Next(q).ToReward? ==> 0 <= Next(q).doneCorrect <= |q.questions| + 1
    ensures NextFixed(q).ToReward? ==> 0 <= NextFixed(q).doneCorrect <= |q.questions|
  {
  }

  /** The number of picks that match the answer of their question. */
  function CountCorrect(qs: seq<Question>, picks: seq<int>): (n: nat)
    requires |qs| == |picks|
    ensures n <= |qs|
  {
    if qs == [] then 0
    else (if picks[0] == qs[0].answerIndex then 1 else 0) + CountCorrect(qs[1..], picks[1..])
  }

  /** A whole visit: for each pick, `onPick` and then `next`, with the as
      written (`fixed == false`) or the corrected `next`. */
  function Play(q: Quiz, picks: seq<int>, fixed: bool): Outcome
    decreases |picks|
  {
    if picks == [] then Stay(q)
    else
      var q' := OnPick(q, picks[0]);
      var o := if fixed then NextFixed(q') else Next(q');
      if o.ToReward? then o else Play(o.quiz, picks[1..], fixed)
  }

  /** Counting from position i: the pick for i, then the rest. */
  lemma CountCorrectStep(qs: seq<Question>, i: nat, picks: seq<int>)
    requires i < |qs| && i + |picks| == |qs|
    ensures CountCorrect(qs[i..], picks)
      == (if picks[0] == qs[i].answerIndex then 1 else 0) + CountCorrect(qs[i + 1..], picks[1..])
  {
    assert qs[i..][0] == qs[i];
    assert qs[i..][1..] == qs[i + 1..];
  }

  /** Answering every remaining question from a state without a choice, the
      corrected `next` grades the true number of correct answers. */
  lemma {:induction false} PlayFixedCounts(q: Quiz, picks: seq<int>)
    requires q.chosen.None? && q.i < |q.questions| && q.i + |picks| == |q.questions|
    ensures Play(q, picks, true)
      == ToReward(q.levelId, QuizStars(q.correct + CountCorrect(q.questions[q.i..], picks), |q.questions|),
                  q.stickerId, q.correct + CountCorrect(q.questions[q.i..], picks))
    decreases |picks|
  {
    CountCorrectStep(q.questions, q.i, picks);
    var q' := OnPick(q, picks[0]);
    if q.i + 1 < |q.questions| {
      var q2 := q'.(i := q'.i + 1, chosen := None);
      assert Play(q, picks, true) == Play(q2, picks[1..], true);
      PlayFixedCounts(q2, picks[1..]);
    } else {
      assert picks[1..] == [];
      assert CountCorrect(q.questions[q.i + 1..], picks[1..]) == 0;
    }
  }

  /** The same visit with `next` as written: one more whenever the last
      answer is right. */
  lemma {:induction false} PlayAsWrittenCounts(q: Quiz, picks: seq<int>)
    requires q.chosen.None? && q.i < |q.questions| && q.i + |picks| == |q.questions|
    ensures var n := q.correct + CountCorrect(q.questions[q.i..], picks)
        + (if picks[|picks| - 1] == q.questions[|q.questions| - 1].answerIndex then 1 else 0);
      Play(q, picks, false) == ToReward(q.levelId, QuizStars(n, |q.questions|), q.stickerId, n)
    decreases |picks|
  {
    CountCorrectStep(q.questions, q.i, picks);
    var q' := OnPick(q, picks[0]);
    if q.i + 1 < |q.questions| {
      var q2 := q'.(i := q'.i + 1, chosen := None);
      assert Play(q, picks, false) == Play(q2, picks[1..], false);
      PlayAsWrittenCounts(q2, picks[1..]);
      assert picks[1..][|picks[1..]| - 1] == picks[|picks| - 1];
    } else {
      assert picks[1..] == [];
      assert CountCorrect(q.questions[q.i + 1..], picks[1..]) == 0;
    }
  }

  /** A fresh quiz answered in full is graded on the true count by the
      corrected `next`, and on that count plus one by the screen as written
      whenever the last answer is right. */
  lemma SessionCounts(q: Quiz, picks: seq<int>)
    requires q.i == 0 && q.correct == 0 && q.wrong == 0 && q.chosen.None?
    requires |picks| == |q.questions| > 0
    ensures Play(q, picks, true).ToReward? && Play(q, picks, false).ToReward?
    ensures Play(q, picks, true).doneCorrect == CountCorrect(q.questions, picks)
    ensures Play(q, picks, false).doneCorrect
      == CountCorrect(q.questions, picks) + (if picks[|picks| - 1] == q.questions[|q.questions| - 1].answerIndex then 1 else 0)
  {
    PlayFixedCounts(q, picks);
    PlayAsWrittenCounts(q, picks);
    assert q.questions[0..] == q.questions;
  }

  /** The double count changes the grade: five questions, four right
      including the last, is 80% and two stars, but the screen grades five
      right and gives three. */
  lemma DoubleCountWitness()
    ensures var qs := seq(5, k => Question("", ["a", "b"], 0, "", ""));
      var picks := [0, 0, 0, 1, 0];
      && CountCorrect(qs, picks) == 4
      && Play(Quiz("l", None, qs, 0, 0, 0, None), picks, true).stars == 2
      && Play(Quiz("l", None, qs, 0, 0, 0, None), picks, false).stars == 3
  {
    var qs := seq(5, k => Question("", ["a", "b"], 0, "", ""));
    var picks := [0, 0, 0, 1, 0];
    SessionCounts(Quiz("l", None, qs, 0, 0, 0, None), picks);
    assert CountCorrect(qs, picks) == 4;
  }
}
