/** The reward screen shown after a quiz: on mount it records the stars
    (and the level's sticker, only for a run with stars) in the app state
    and picks a sound; it shows a message, an emoji and a banner chosen by
    the star count. */
module RewardScreen {
  import opened Common
  import AppState
  import P = Progress

  /** The mount-time action: the sticker travels with the stars only when
      there is at least one star. */
  function MountAction(levelId: string, stars: int, newStickerId: Option<string>): (a: AppState.Action)
    ensures a.SetStars? && a.levelId == levelId && a.stars == stars
    ensures stars > 0 ==> a.stickerId == newStickerId
    ensures stars <= 0 ==> a.stickerId == None
  {
    AppState.SetStars(levelId, stars, if stars > 0 then newStickerId else None)
  }

  datatype Sound = Perfect | Success | Silent

  /** The sound played on mount. */
  function MountSound(stars: int): (snd: Sound)
    ensures snd == Perfect <==> stars >= 3
    ensures snd == Success <==> 0 < stars < 3
    ensures snd == Silent <==> stars <= 0
  {
    if stars >= 3 then Perfect else if stars > 0 then Success else Silent
  }

  /** The app state after the screen has mounted. */
  function Mount(s: AppState.State, levelId: string, stars: int, newStickerId: Option<string>): (r: AppState.State)
    ensures stars <= 0 ==> r.progress.stickers == s.progress.stickers
    ensures forall id :: P.Owned(r.progress.stickers, id) <==>
      P.Owned(s.progress.stickers, id) || (stars > 0 && P.Given(newStickerId) && id == newStickerId.value)
  {
    AppState.Reduce(s, MountAction(levelId, stars, newStickerId))
  }

  /** One visit of the reward screen. */
  datatype Reward = Reward(levelId: string, stars: int, newStickerId: Option<string>)

  /** A sequence of visits, in order. */
  function MountAll(s: AppState.State, rewards: seq<Reward>): AppState.State
    decreases |rewards|
  {
    if rewards == [] then s
    else MountAll(Mount(s, rewards[0].levelId, rewards[0].stars, rewards[0].newStickerId), rewards[1..])
  }

  /** A visit that hands over sticker `id`. */
  predicate Hands(w: Reward, id: string)
  {
    w.stars > 0 && P.Given(w.newStickerId) && w.newStickerId.value == id
  }

  /** However many reward screens are shown, a sticker owned at the end was
      owned at the start or was handed over by a visit with stars, and every
      sticker owned at the start is still owned. */
  lemma {:induction false} StickersOnlyFromStars(s: AppState.State, rewards: seq<Reward>, id: string)
    ensures P.Owned(MountAll(s, rewards).progress.stickers, id) <==>
      P.Owned(s.progress.stickers, id) || exists k :: 0 <= k < |rewards| && Hands(rewards[k], id)
    decreases |rewards|
  {
    if rewards != [] {
      var s' := Mount(s, rewards[0].levelId, rewards[0].stars, rewards[0].newStickerId);
      StickersOnlyFromStars(s', rewards[1..], id);
      if exists k :: 0 <= k < |rewards[1..]| && Hands(rewards[1..][k], id) {
        var k :| 0 <= k < |rewards[1..]| && Hands(rewards[1..][k], id);
        assert Hands(rewards[k + 1], id);
      }
      if exists k :: 0 <= k < |rewards| && Hands(rewards[k], id) {
        var k :| 0 <= k < |rewards| && Hands(rewards[k], id);
        if k > 0 {
          assert Hands(rewards[1..][k - 1], id);
        }
      }
    }
  }

  /** The message and the emoji every count outside 1..3 gets. */
  const TryAgain: string := "Tudo bem! Você pode tentar de novo quando quiser. ❤️"
  const Heart: string := "\U{1F496}"

  /** The text under the stars: one message each for 3, 2 and 1 stars, and
      the try-again message for every other count. */
  function Message(stars: int): (m: string)
    ensures m == TryAgain <==> !(1 <= stars <= 3)
  {
    if stars == 3 then "Uau! Você mandou muito bem! \U{1F389}"
    else if stars == 2 then "Muito bom! Continue assim! \U{1F4AA}"
    else if stars == 1 then "Boa! Vamos tentar melhorar na próxima! \U{1F60A}"
    else TryAgain
  }

  /** The four messages are different from each other, and only 0 among
      them gets the try-again message. */
  lemma MessagesDistinct(a: int, b: int)
    requires 0 <= a <= 3 && 0 <= b <= 3 && a != b
    ensures Message(a) != Message(b)
    ensures Message(a) == TryAgain <==> a == 0
  {
    assert Message(0) != Message(1) && Message(0) != Message(2) && Message(0) != Message(3);
    assert Message(1) != Message(2) && Message(1) != Message(3) && Message(2) != Message(3);
  }

  /** Every count outside 1..3 shows what 0 shows. */
  lemma OtherCountsAsNone(n: int)
    ensures !(1 <= n <= 3) ==> Message(n) == Message(0) && Emoji(n) == Emoji(0)
  {
  }

  /** The emoji above the title: a trophy, a glowing star, a rocket, or, for
      every other count, a heart. */
  function Emoji(stars: int): (e: string)
    ensures e == Heart <==> !(1 <= stars <= 3)
  {
    if stars == 3 then "\U{1F3C6}" else if stars == 2 then "\U{1F31F}" else if stars == 1 then "\U{1F680}" else Heart
  }

  /** The band a count falls in: 1, 2 and 3 are their own, anything else
      counts as 0. */
  function Band(stars: int): int { if 1 <= stars <= 3 then stars else 0 }

  /** The emoji and the message always pick the same band: two counts show
      the same emoji exactly when they show the same message. */
  lemma EmojiMatchesMessage(a: int, b: int)
    ensures Emoji(a) == Emoji(b) <==> Message(a) == Message(b)
    ensures Emoji(a) == Emoji(b) <==> Band(a) == Band(b)
  {
    assert Message(a) == Message(Band(a)) && Message(b) == Message(Band(b));
    assert Emoji(a) == Emoji(Band(a)) && Emoji(b) == Emoji(Band(b));
    if Band(a) != Band(b) {
      MessagesDistinct(Band(a), Band(b));
      assert Emoji(Band(a)) != Emoji(Band(b)) by {
        assert Emoji(0)[0] != Emoji(1)[0] && Emoji(0)[0] != Emoji(2)[0] && Emoji(0)[0] != Emoji(3)[0];
        assert Emoji(1)[0] != Emoji(2)[0] && Emoji(1)[0] != Emoji(3)[0] && Emoji(2)[0] != Emoji(3)[0];
      }
    }
  }

  /** The "you earned a sticker" banner, shown exactly when a sticker was
      handed to the reducer (for a level that has one). */
  function BannerShown(stars: int): (shown: bool)
    ensures shown <==> MountAction("", stars, Some("s")).stickerId.Some?
  {
    stars > 0
  }
}
