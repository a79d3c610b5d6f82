/** "Noah's ark memory": sixteen face-down cards, two of each of eight
    animals. The child turns two cards per move; a pair stays face up, a
    mismatch is turned back after a pause. The game ends when all eight
    pairs are found or the 60 seconds run out.

    A card names its animal by its index in `Animals`; the names are all
    different, so comparing indices compares names. The end of the pause
    after a mismatch is its own event, `FlipBack`, and so is each tick of
    the one-second timer; the check for the end of the game runs after
    every event. */
module NoePairs {
  import opened Common
  import opened MiniGames
  import Shuffle

  /** `ANIMALS`, without their emoji. */
  const Animals: seq<string> := ["Leão", "Elefante", "Girafa", "Zebra", "Macaco", "Urso", "Coelho", "Raposa"]

  const TotalPairs: int := 8
  const TotalTime: int := 60

  lemma AnimalNamesDistinct()
    ensures |Animals| == TotalPairs && Shuffle.Distinct(Animals)
  {
  }

  datatype CardData = CardData(id: int, pair: int, matched: bool)

  function PairOf(c: CardData): int { c.pair }
  function IdOf(c: CardData): int { c.id }

  /** The cards before the shuffle: ids 0 to 15, cards 2p and 2p + 1
      showing animal p. */
  function Deck(): (d: seq<CardData>)
    ensures |d| == 2 * TotalPairs
  {
    seq(2 * TotalPairs, k => CardData(k, k / 2, false))
  }

  /** 0, 0, 1, 1, ..., n - 1, n - 1. */
  function PairsUpTo(n: nat): (s: seq<int>)
    ensures |s| == 2 * n
  {
    if n == 0 then [] else PairsUpTo(n - 1) + [n - 1, n - 1]
  }

  /** Position k of 0, 0, 1, 1, ... holds k / 2. */
  lemma {:induction false} PairsUpToAt(n: nat, k: nat)
    requires k < 2 * n
    ensures PairsUpTo(n)[k] == k / 2
  {
    if k < 2 * (n - 1) {
      PairsUpToAt(n - 1, k);
    }
  }

  /** In 0, 0, 1, 1, ..., every value below n appears twice and no other
      value appears. */
  lemma {:induction false} PairsUpToCounts(n: nat, p: int)
    ensures multiset(PairsUpTo(n))[p] == if 0 <= p < n then 2 else 0
  {
    if n > 0 {
      var prev := PairsUpTo(n - 1);
      var last := [n - 1, n - 1];
      PairsUpToCounts(n - 1, p);
      assert PairsUpTo(n) == prev + last;
      assert multiset(prev + last) == multiset(prev) + multiset(last);
      assert multiset(last)[p] == if p == n - 1 then 2 else 0;
    }
  }

  function Range(n: nat): (s: seq<int>)
    ensures |s| == n
    ensures forall k :: 0 <= k < n ==> s[k] == k
  {
    seq(n, k => k)
  }

  /** `createCards()`: the deck shuffled. */
  function CreateCards(rs: seq<real>): (cards: seq<CardData>)
    requires |rs| >= Shuffle.DrawsNeeded(2 * TotalPairs) && Shuffle.ValidDraws(rs)
    ensures |cards| == 2 * TotalPairs
    ensures multiset(cards) == multiset(Deck())
  {
    Shuffle.FisherYates(Deck(), rs)
  }

  /** The ids before the shuffle are 0 to 15 in order. */
  lemma DeckIds()
    ensures Shuffle.MapSeq(IdOf, Deck()) == Range(2 * TotalPairs)
  {
    var ids := Shuffle.MapSeq(IdOf, Deck());
    forall k | 0 <= k < 2 * TotalPairs ensures ids[k] == k {
      assert Deck()[k] == CardData(k, k / 2, false);
    }
  }

  /** The animals before the shuffle are 0, 0, 1, 1, ..., 7, 7. */
  lemma DeckPairs()
    ensures Shuffle.MapSeq(PairOf, Deck()) == PairsUpTo(TotalPairs)
  {
    var pairs := Shuffle.MapSeq(PairOf, Deck());
    forall k | 0 <= k < 2 * TotalPairs ensures pairs[k] == PairsUpTo(TotalPairs)[k] {
      assert Deck()[k] == CardData(k, k / 2, false);
      PairsUpToAt(TotalPairs, k);
    }
  }

  lemma RangeDistinct(n: nat)
    ensures Shuffle.Distinct(Range(n))
  {
  }

  /** The cards come out with the ids 0 to 15, each once. */
  lemma DealIds(rs: seq<real>)
    requires |rs| >= Shuffle.DrawsNeeded(2 * TotalPairs) && Shuffle.ValidDraws(rs)
    ensures multiset(Shuffle.MapSeq(IdOf, CreateCards(rs))) == multiset(Range(2 * TotalPairs))
    ensures Shuffle.Distinct(Shuffle.MapSeq(IdOf, CreateCards(rs)))
  {
    var ids := Shuffle.MapSeq(IdOf, CreateCards(rs));
    Shuffle.FisherYatesPreservesProjection(IdOf, Deck(), rs);
    DeckIds();
    var range := Range(2 * TotalPairs);
    assert multiset(ids) == multiset(range);
    RangeDistinct(2 * TotalPairs);
    forall x ensures multiset(ids)[x] <= 1 {
      Shuffle.DistinctCount(range, x);
    }
    Shuffle.CountDistinct(ids);
  }

  /** Every animal is on exactly two of the cards. */
  lemma DealPairs(rs: seq<real>)
    requires |rs| >= Shuffle.DrawsNeeded(2 * TotalPairs) && Shuffle.ValidDraws(rs)
    ensures forall p :: PairCount(CreateCards(rs), p) == if 0 <= p < TotalPairs then 2 else 0
  {
    Shuffle.FisherYatesPreservesProjection(PairOf, Deck(), rs);
    DeckPairs();
    forall p ensures PairCount(CreateCards(rs), p) == if 0 <= p < TotalPairs then 2 else 0 {
      PairsUpToCounts(TotalPairs, p);
    }
  }

  /** No card starts matched, and every card shows one of the eight animals. */
  lemma DealFresh(rs: seq<real>)
    requires |rs| >= Shuffle.DrawsNeeded(2 * TotalPairs) && Shuffle.ValidDraws(rs)
    ensures forall k :: 0 <= k < 2 * TotalPairs ==> !CreateCards(rs)[k].matched && 0 <= CreateCards(rs)[k].pair < TotalPairs
  {
    var cards := CreateCards(rs);
    forall k | 0 <= k < |cards| ensures !cards[k].matched && 0 <= cards[k].pair < TotalPairs {
      assert cards[k] in multiset(Deck());
    }
  }

  datatype Step = Intro | Play | Done

  datatype Game = Game(
    step: Step,
    cards: seq<CardData>,
    flipped: seq<int>,
    matched: set<int>,
    moves: int,
    timeLeft: int,
    startedAt: Option<int>,
    canFlip: bool)

  const Initial: Game := Game(Intro, [], [], {}, 0, TotalTime, None, true)

  /** The cards after a match of the cards at `i` and `j`. */
  function MarkMatched(cards: seq<CardData>, i: int, j: int): (r: seq<CardData>)
    ensures |r| == |cards|
    ensures forall k :: 0 <= k < |r| ==>
      r[k] == if k == i || k == j then cards[k].(matched := true) else cards[k]
  {
    seq(|cards|, k requires 0 <= k < |cards| => if k == i || k == j then cards[k].(matched := true) else cards[k])
  }

  /** `flipCard(index)`. Ignored while flipping is blocked, for a card
      already turned this move, and for a matched card; `None` for an index
      outside the cards, where the program fails reading the card. The
      second card of a move counts the move and blocks flipping; a pair is
      marked matched and unblocks it, a mismatch waits for `FlipBack`. */
  function FlipCard(g: Game, index: int): (r: Option<Game>)
    ensures g.canFlip && index !in g.flipped && !(0 <= index < |g.cards|) ==> r.None?
    ensures 0 <= index < |g.cards| && (forall k :: 0 <= k < |g.flipped| ==> 0 <= g.flipped[k] < |g.cards|) ==> r.Some?
    ensures !g.canFlip || index in g.flipped ==> r == Some(g)
    ensures g.canFlip && index !in g.flipped && 0 <= index < |g.cards| && g.cards[index].matched ==> r == Some(g)
    ensures g.canFlip && index !in g.flipped && 0 <= index < |g.cards| && !g.cards[index].matched ==>
      && (|g.flipped| != 1 ==> r == Some(g.(flipped := g.flipped + [index])))
      && (|g.flipped| == 1 && 0 <= g.flipped[0] < |g.cards| ==>
            var first := g.flipped[0];
            var same := g.cards[first].pair == g.cards[index].pair;
            && r.Some? && r.value.moves == g.moves + 1 && r.value.step == g.step && r.value.timeLeft == g.timeLeft
            && (same ==> r.value.matched == g.matched + {g.cards[index].pair} && r.value.flipped == []
                         && r.value.canFlip && r.value.cards == MarkMatched(g.cards, first, index))
            && (!same ==> r.value.matched == g.matched && r.value.flipped == [first, index]
                          && !r.value.canFlip && r.value.cards == g.cards))
  {
    if !g.canFlip || index in g.flipped then Some(g)
    else if !(0 <= index < |g.cards|) then None
    else if g.cards[index].matched then Some(g)
    else if |g.flipped| == 1 then
      var first := g.flipped[0];
      if !(0 <= first < |g.cards|) then None
      else if g.cards[first].pair == g.cards[index].pair then
        Some(g.(moves := g.moves + 1, matched := g.matched + {g.cards[index].pair},
                cards := MarkMatched(g.cards, first, index), flipped := [], canFlip := true))
      else
        Some(g.(moves := g.moves + 1, canFlip := false, flipped := g.flipped + [index]))
    else Some(g.(flipped := g.flipped + [index]))
  }

  /** The pause after a mismatch ends: both cards turn back. */
  function FlipBack(g: Game): (g': Game)
    ensures |g.flipped| == 2 && !g.canFlip ==> g' == g.(flipped := [], canFlip := true)
    ensures !(|g.flipped| == 2 && !g.canFlip) ==> g' == g
  {
    if |g.flipped| == 2 && !g.canFlip then g.(flipped := [], canFlip := true) else g
  }

  /** One tick of the timer: the clock stops at 0. */
  function Tick(g: Game): (g': Game)
    ensures g.step != Play ==> g' == g
    ensures g.step == Play ==> g'.timeLeft == (if g.timeLeft <= 1 then 0 else g.timeLeft - 1)
    ensures g'.matched == g.matched && g'.moves == g.moves && g'.step == g.step
  {
    if g.step != Play then g
    else if g.timeLeft <= 1 then g.(timeLeft := 0)
    else g.(timeLeft := g.timeLeft - 1)
  }

  /** The end check: during play, all pairs found or no time left ends the game. */
  function CheckEnd(g: Game): (g': Game)
    ensures g.step == Play && (|g.matched| >= TotalPairs || g.timeLeft <= 0) ==> g' == g.(step := Done)
    ensures !(g.step == Play && (|g.matched| >= TotalPairs || g.timeLeft <= 0)) ==> g' == g
  {
    if g.step == Play && (|g.matched| >= TotalPairs || g.timeLeft <= 0) then g.(step := Done) else g
  }

  /** `start()`: the cards are dealt and the clock starts. */
  function Start(g: Game, now: int, rs: seq<real>): (g': Game)
    requires |rs| >= Shuffle.DrawsNeeded(2 * TotalPairs) && Shuffle.ValidDraws(rs)
    ensures g'.step == Play && g'.cards == CreateCards(rs) && g'.startedAt == Some(now)
    ensures g'.matched == g.matched && g'.moves == g.moves && g'.flipped == g.flipped
    ensures g == Initial ==> Inv(g')
  {
    DealPairs(rs);
    DealFresh(rs);
    g.(cards := CreateCards(rs), startedAt := Some(now), step := Play)
  }

  /** How often pair `p` appears on the cards. */
  function PairCount(cards: seq<CardData>, p: int): nat
  {
    multiset(Shuffle.MapSeq(PairOf, cards))[p]
  }

  /** Sixteen cards, every animal on exactly two of them. */
  predicate Dealt(cards: seq<CardData>)
  {
    && |cards| == 2 * TotalPairs
    && (forall p :: 0 <= p < TotalPairs ==> PairCount(cards, p) == 2)
    && (forall k :: 0 <= k < |cards| ==> 0 <= cards[k].pair < TotalPairs)
  }

  /** A card is matched exactly when its animal is in the matched set. */
  predicate MatchedAgrees(cards: seq<CardData>, matched: set<int>)
  {
    && (forall k :: 0 <= k < |cards| ==> (cards[k].matched <==> cards[k].pair in matched))
    && (forall p :: p in matched ==> 0 <= p < TotalPairs)
  }

  /** The cards turned this move: at most two, different, not matched, and
      two of them are a mismatch waiting to turn back. */
  predicate TurnedOk(cards: seq<CardData>, flipped: seq<int>, canFlip: bool)
  {
    && |flipped| <= 2 && (canFlip <==> |flipped| < 2)
    && (forall k :: 0 <= k < |flipped| ==> 0 <= flipped[k] < |cards| && !cards[flipped[k]].matched)
    && (|flipped| == 2 ==> flipped[0] != flipped[1] && cards[flipped[0]].pair != cards[flipped[1]].pair)
  }

  /** The state of a started game: the cards as dealt, the matched set in
      agreement with them, the turned cards in order, and every found pair
      paid for with a move. */
  predicate Inv(g: Game)
  {
    && (g.step == Intro ==> g == Initial)
    && (g.step != Intro ==>
          && Dealt(g.cards)
          && MatchedAgrees(g.cards, g.matched)
          && TurnedOk(g.cards, g.flipped, g.canFlip)
          && |g.matched| <= g.moves
          && 0 <= g.timeLeft <= TotalTime
          && g.startedAt.Some?
          && (g.step == Play ==> |g.matched| < TotalPairs && g.timeLeft >= 1))
  }

  /** A set of values below n has at most n elements. */
  lemma {:induction false} BoundedSetSize(s: set<int>, n: nat)
    requires forall p :: p in s ==> 0 <= p < n
    ensures |s| <= n
  {
    if n > 0 {
      var t := s - {n - 1};
      BoundedSetSize(t, n - 1);
    } else {
      assert forall p :: p !in s;
      assert s == {};
    }
  }

  /** Three cards showing the same animal would make it appear three times. */
  lemma ThreeOfAPair(cards: seq<CardData>, i: int, j: int, k: int)
    requires 0 <= i < j < k < |cards|
    requires cards[i].pair == cards[j].pair == cards[k].pair
    ensures PairCount(cards, cards[i].pair) >= 3
  {
    var s := Shuffle.MapSeq(PairOf, cards);
    assert s == s[..k] + s[k..];
    Shuffle.RepeatCounts(s[..k], i, j);
    assert s[k] in s[k..];
  }

  /** Only the two cards of a found pair show its animal. */
  lemma OnlyTwoOfAPair(cards: seq<CardData>, i: int, j: int, k: int)
    requires 0 <= i < |cards| && 0 <= j < |cards| && 0 <= k < |cards| && i != j
    requires PairCount(cards, cards[i].pair) == 2
    requires cards[i].pair == cards[j].pair && k != i && k != j
    ensures cards[k].pair != cards[i].pair
  {
    if cards[k].pair == cards[i].pair {
      var a := if i < j then i else j;
      var b := if i < j then j else i;
      if k < a {
        ThreeOfAPair(cards, k, a, b);
      } else if k < b {
        ThreeOfAPair(cards, a, k, b);
      } else {
        ThreeOfAPair(cards, a, b, k);
      }
    }
  }

  lemma MarkMatchedKeepsPairs(cards: seq<CardData>, i: int, j: int)
    ensures Shuffle.MapSeq(PairOf, MarkMatched(cards, i, j)) == Shuffle.MapSeq(PairOf, cards)
  {
  }

  /** Marking two cards keeps the animals on every card. */
  lemma MarkMatchedKeepsDeal(cards: seq<CardData>, first: int, second: int)
    requires Dealt(cards)
    ensures Dealt(MarkMatched(cards, first, second))
  {
    var cards' := MarkMatched(cards, first, second);
    MarkMatchedKeepsPairs(cards, first, second);
    assert forall p :: PairCount(cards', p) == PairCount(cards, p);
  }

  /** Marking a found pair keeps the agreement with the matched set once
      its animal joins the set. */
  lemma MatchKeepsAgreement(cards: seq<CardData>, matched: set<int>, first: int, second: int)
    requires Dealt(cards) && MatchedAgrees(cards, matched)
    requires 0 <= first < |cards| && 0 <= second < |cards| && first != second
    requires cards[first].pair == cards[second].pair
    ensures MatchedAgrees(MarkMatched(cards, first, second), matched + {cards[second].pair})
  {
    var cards' := MarkMatched(cards, first, second);
    var p := cards[second].pair;
    forall k | 0 <= k < |cards'| ensures cards'[k].matched <==> cards'[k].pair in matched + {p} {
      if k != first && k != second {
        OnlyTwoOfAPair(cards, first, second, k);
        assert cards'[k] == cards[k];
      }
    }
  }

  /** The animal of a found pair was not matched before: the set grows by one. */
  lemma MatchGrowsSet(cards: seq<CardData>, matched: set<int>, first: int)
    requires MatchedAgrees(cards, matched)
    requires 0 <= first < |cards| && !cards[first].matched
    ensures |matched + {cards[first].pair}| == |matched| + 1
  {
    assert cards[first].pair !in matched;
  }

  /** Every turn of a card during play, followed by the end check, keeps
      the game consistent; a move that finds a pair adds one new animal to
      the matched set. */
  lemma FlipKeepsInv(g: Game, index: int)
    requires Inv(g) && g.step == Play && 0 <= index < |g.cards|
    ensures FlipCard(g, index).Some? && Inv(CheckEnd(FlipCard(g, index).value))
  {
    var r := FlipCard(g, index).value;
    if g.canFlip && index !in g.flipped && !g.cards[index].matched {
      if |g.flipped| == 1 {
        var first := g.flipped[0];
        if g.cards[first].pair == g.cards[index].pair {
          MarkMatchedKeepsDeal(g.cards, first, index);
          MatchKeepsAgreement(g.cards, g.matched, first, index);
          MatchGrowsSet(g.cards, g.matched, first);
          BoundedSetSize(r.matched, TotalPairs);
        }
      }
    }
  }

  /** The events after `start`; the cards can be turned on the play screen only. */
  datatype Event = FlipEv(index: int) | FlipBackEv | TickEv

  predicate ValidEvent(e: Event)
  {
    e.FlipEv? ==> 0 <= e.index < 2 * TotalPairs
  }

  function Apply(g: Game, e: Event): Game
  {
    var g' := match e
      case FlipEv(i) =>
        if g.step != Play then g
        else (match FlipCard(g, i) case Some(h) => h case None => g)
      case FlipBackEv => FlipBack(g)
      case TickEv => Tick(g);
    CheckEnd(g')
  }

  lemma ApplyKeepsInv(g: Game, e: Event)
    requires Inv(g) && g.step != Intro && ValidEvent(e)
    ensures Inv(Apply(g, e)) && Apply(g, e).step != Intro
  {
    match e
    case FlipEv(i) =>
      if g.step == Play {
        FlipKeepsInv(g, i);
      }
    case FlipBackEv =>
    case TickEv =>
  }

  function Run(g: Game, es: seq<Event>): Game
    decreases |es|
  {
    if es == [] then g else Run(Apply(g, es[0]), es[1..])
  }

  /** `moves > 0 ? Math.max(0, 1 - (moves - 8) / 16) : 1`. */
  function Efficiency(moves: int): (e: real)
    ensures 0.0 <= e
    ensures moves >= TotalPairs ==> e <= 1.0
    ensures 0 < moves <= TotalPairs ==> e == 1.0 + (TotalPairs - moves) as real / 16.0
  {
    if moves > 0 then
      var e := 1.0 - (moves - TotalPairs) as real / (TotalPairs * 2) as real;
      if e < 0.0 then 0.0 else e
    else 1.0
  }

  /** The score before the floor of 50: the base of 50, the efficiency and
      the time bonus, scaled by the share of pairs found. Nothing found
      scores 0, and a perfect game in time scores 91. */
  function RawScore(moves: int, timeLeft: int, found: int): (r: real)
    ensures found == 0 ==> r == 0.0
    ensures found >= 0 ==> r >= 0.0
    ensures found == TotalPairs && moves == TotalPairs && timeLeft > 0 ==> r == 91.0
  {
    var timeBonus := if timeLeft > 0 then 0.1 else 0.0;
    (50.0 + Efficiency(moves) * 40.0 + timeBonus * 10.0) * (found as real / TotalPairs as real)
  }

  lemma MulBound(a: real, b: real, x: real, y: real)
    requires 0.0 <= a <= x && 0.0 <= b <= y
    ensures a * b <= x * y
  {
    assert a * b <= x * b;
    assert x * b <= x * y;
  }

  /** With every pair found (so at least eight moves) the raw score is at
      most 91; with fewer found it stays below 98. */
  lemma RawScoreBound(moves: int, timeLeft: int, found: int)
    requires 0 <= found <= TotalPairs && found <= moves
    ensures RawScore(moves, timeLeft, found) <= 97.2
    ensures moves >= TotalPairs ==> RawScore(moves, timeLeft, found) <= 91.0
  {
    var base := 50.0 + Efficiency(moves) * 40.0 + (if timeLeft > 0 then 0.1 else 0.0) * 10.0;
    var share := found as real / TotalPairs as real;
    assert 0.0 <= share <= 1.0;
    if moves >= TotalPairs {
      MulBound(base, share, 91.0, 1.0);
    } else if moves > 0 {
      assert found <= 7;
      assert share <= 0.875;
      assert Efficiency(moves) <= 1.5;
      MulBound(base, share, 111.0, 0.875);
    } else {
      assert share == 0.0;
    }
  }

  /** The rounded raw score of a consistent game: at most 97, at most 91
      with every pair found, and exactly 91 for a perfect game in time. */
  lemma ScoreFacts(g: Game)
    ensures Inv(g) && g.step != Intro ==>
      var score := Round(RawScore(g.moves, g.timeLeft, |g.matched|));
      && score <= 98
      && (|g.matched| >= TotalPairs ==> score <= 91)
      && (|g.matched| >= TotalPairs && g.moves == TotalPairs && g.timeLeft > 0 ==> score == 91)
  {
    if Inv(g) && g.step != Intro {
      var found := |g.matched|;
      BoundedSetSize(g.matched, TotalPairs);
      RawScoreBound(g.moves, g.timeLeft, found);
      RoundBetween(RawScore(g.moves, g.timeLeft, found), 0, 98);
      if found >= TotalPairs {
        RoundBetween(RawScore(g.moves, g.timeLeft, found), 0, 91);
        if g.moves == TotalPairs && g.timeLeft > 0 {
          assert RawScore(g.moves, g.timeLeft, found) == 91.0;
          RoundOfInt(91);
        }
      }
    }
  }

  /** `handleDone()`, offered on the final screen only. */
  function Finish(g: Game, now: int): (r: Option<MiniGameResult>)
    ensures g.step != Done <==> r.None?
    ensures r.Some? ==>
      && (r.value.completed <==> |g.matched| >= TotalPairs)
      && r.value.score >= 50
      && r.value.mistakes == g.moves - |g.matched|
      && r.value.seconds >= 1
    ensures Inv(g) && r.Some? ==>
      && ValidResult(r.value) && r.value.mistakes >= 0
      && (r.value.completed ==> r.value.score <= 91)
      && (r.value.completed && g.moves == TotalPairs && g.timeLeft > 0 ==> r.value.score == 91)
  {
    if g.step != Done then None
    else
      var found := |g.matched|;
      var score := Round(RawScore(g.moves, g.timeLeft, found));
      ScoreFacts(g);
      Some(MiniGameResult(found >= TotalPairs, Max(50, score), g.moves - found, ElapsedSeconds(g.startedAt, now)))
  }

  datatype Rating = Perfect | Great | GoodJob | TimeUp

  /** The rating on the final screen. */
  function RatingOf(won: bool, moves: int): (rt: Rating)
    ensures rt == Perfect <==> won && moves <= 12
    ensures rt == Great <==> won && 12 < moves <= 16
    ensures rt == GoodJob <==> won && moves > 16
    ensures rt == TimeUp <==> !won
  {
    if won && moves <= 12 then Perfect else if won && moves <= 16 then Great
    else if won then GoodJob else TimeUp
  }

  /** Whatever the child turns after `start`, the game stays consistent,
      no more pairs are found than moves made, and the result meets the
      result contract. */
  lemma {:induction false} SessionResultValid(g: Game, es: seq<Event>, now: int)
    requires Inv(g) && g.step != Intro
    requires forall k :: 0 <= k < |es| ==> ValidEvent(es[k])
    ensures Inv(Run(g, es)) && Run(g, es).step != Intro
    ensures |Run(g, es).matched| <= Run(g, es).moves
    ensures Finish(Run(g, es), now).Some? ==>
      ValidResult(Finish(Run(g, es), now).value) && Finish(Run(g, es), now).value.mistakes >= 0
    decreases |es|
  {
    if es != [] {
      ApplyKeepsInv(g, es[0]);
      SessionResultValid(Apply(g, es[0]), es[1..], now);
    }
  }
}
