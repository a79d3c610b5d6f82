/** The app-wide store: the avatar, the progress maps and the settings in
    one record, with the reducer the screens dispatch to. This reducer and
    the progress reducer differ on one point: here a sticker id is recorded
    whenever it is given, whatever the stars. The file also has its own,
    shorter, unlock rule, which only looks at the level just before. */
module AppState {
  import opened Common
  import opened StateUtils
  import Settings
  import P = Progress
  import Shuffle

  datatype Skin = Clara | Media | Escura
  datatype Outfit = Laranja | Azul | Verde | Rosa
  datatype Avatar = Avatar(name: string, skin: Skin, outfit: Outfit)

  /** `avatar` is `null` until the child has made one. */
  datatype State = State(avatar: Option<Avatar>, progress: P.Progress, settings: Settings.Settings)

  /** `initialState`. */
  const Initial: State := State(None, P.Initial, Settings.Initial)

  datatype Action =
    | SetAvatar(avatar: Avatar)
    | SetStars(levelId: string, stars: int, stickerId: Option<string>)
    | SetSetting(key: Settings.Key, value: bool)
    | Reset
    | Hydrate(state: State)
    | Other

  /** The `reducer` of the app state. */
  function Reduce(s: State, a: Action): (r: State)
    ensures a.SetAvatar? ==>
      r.avatar == Some(a.avatar) && r.progress == s.progress && r.settings == s.settings
    ensures a.SetStars? ==>
      && StarsOf(r.progress.starsByLevel, a.levelId) == Max(StarsOf(s.progress.starsByLevel, a.levelId), a.stars)
      && a.levelId in r.progress.starsByLevel
      && (forall id :: id != a.levelId ==>
            (id in r.progress.starsByLevel <==> id in s.progress.starsByLevel)
            && StarsOf(r.progress.starsByLevel, id) == StarsOf(s.progress.starsByLevel, id))
    ensures a.SetStars? ==>
      && s.progress.stickers.Keys <= r.progress.stickers.Keys
      && (forall id :: P.Owned(r.progress.stickers, id) <==>
            P.Owned(s.progress.stickers, id) || (P.Given(a.stickerId) && id == a.stickerId.value))
    ensures a.SetStars? ==> r.avatar == s.avatar && r.settings == s.settings
    ensures a.SetSetting? ==>
      && Settings.Get(r.settings, a.key) == a.value
      && (forall k :: k != a.key ==> Settings.Get(r.settings, k) == Settings.Get(s.settings, k))
      && r.avatar == s.avatar && r.progress == s.progress
    ensures a.Reset? ==>
      && r.avatar == None
      && r.progress.starsByLevel == map[] && r.progress.stickers == map[]
      && (forall k :: Settings.Get(r.settings, k))
    ensures a.Hydrate? ==> r == a.state
    ensures a.Other? ==> r == s
  {
    match a
    case SetAvatar(av) => s.(avatar := Some(av))
    case SetStars(levelId, stars, stickerId) =>
      s.(progress := P.Progress(Best(s.progress.starsByLevel, levelId, stars), Award(s.progress.stickers, stickerId)))
    case SetSetting(k, v) => s.(settings := Settings.With(s.settings, k, v))
    case Reset => Initial
    case Hydrate(h) => h
    case Other => s
  }

  /** `{ ...starsByLevel, [levelId]: Math.max(prev ?? 0, stars) }`. */
  function Best(m: map<string, int>, levelId: string, stars: int): map<string, int>
  {
    m[levelId := Max(StarsOf(m, levelId), stars)]
  }

  /** `if (stickerId) stickers[stickerId] = true` on a copy. */
  function Award(stickers: map<string, bool>, stickerId: Option<string>): map<string, bool>
  {
    if P.Given(stickerId) then stickers[stickerId.value := true] else stickers
  }

  lemma BestCommutes(m: map<string, int>, l1: string, v1: int, l2: string, v2: int)
    ensures Best(Best(m, l1, v1), l2, v2) == Best(Best(m, l2, v2), l1, v1)
  {
  }

  lemma AwardCommutes(st: map<string, bool>, k1: Option<string>, k2: Option<string>)
    ensures Award(Award(st, k1), k2) == Award(Award(st, k2), k1)
  {
  }

  /** Repeating a SET_STARS changes nothing. */
  lemma SetStarsIdempotent(s: State, a: Action)
    requires a.SetStars?
    ensures Reduce(Reduce(s, a), a) == Reduce(s, a)
  {
  }

  /** Any two SET_STARS give the same state in either order: on one level
      both leave the maximum, on two levels they touch different entries,
      and the sticker flags are only ever set to true. */
  lemma SetStarsCommute(s: State, a: Action, b: Action)
    requires a.SetStars? && b.SetStars?
    ensures Reduce(Reduce(s, a), b) == Reduce(Reduce(s, b), a)
  {
    BestCommutes(s.progress.starsByLevel, a.levelId, a.stars, b.levelId, b.stars);
    AwardCommutes(s.progress.stickers, a.stickerId, b.stickerId);
  }

  /** Two SET_STARS on one level leave the larger of the two counts (or the
      earlier record, if that is larger still). */
  lemma SetStarsMaxMerge(s: State, level: string, s1: int, s2: int, k1: Option<string>, k2: Option<string>)
    ensures StarsOf(Reduce(Reduce(s, SetStars(level, s1, k1)), SetStars(level, s2, k2)).progress.starsByLevel, level)
      == Max(StarsOf(s.progress.starsByLevel, level), Max(s1, s2))
  {
  }

  /** Unlike the progress reducer, this one records the sticker of a run
      that earned no stars. */
  lemma StickerWithoutStars()
    ensures P.Owned(Reduce(Initial, SetStars("l", 0, Some("s"))).progress.stickers, "s")
    ensures !P.Owned(P.Reduce(P.Initial, P.SetStars("l", 0, Some("s"))).0.stickers, "s")
  {
  }

  /** The progress part of both reducers agrees on star counts; they differ
      on stickers only for a run without stars. */
  lemma ReducersAgreeOnStars(s: State, levelId: string, stars: int, stickerId: Option<string>)
    ensures Reduce(s, SetStars(levelId, stars, stickerId)).progress.starsByLevel
      == P.Reduce(s.progress, P.SetStars(levelId, stars, stickerId)).0.starsByLevel
    ensures stars > 0 ==>
      Reduce(s, SetStars(levelId, stars, stickerId)).progress
      == P.Reduce(s.progress, P.SetStars(levelId, stars, stickerId)).0
  {
  }

  /** The `shuffle` exported by this file is the same loop as the one of the
      state utilities. */
  function ShuffleQuestions<T>(a: seq<T>, rs: seq<real>): (r: seq<T>)
    requires |rs| >= Shuffle.DrawsNeeded(|a|) && Shuffle.ValidDraws(rs)
    ensures multiset(r) == multiset(a)
    ensures |a| <= 1 ==> r == a
  {
    Shuffle.FisherYates(a, rs)
  }

  /** `isLevelUnlocked` of the app state: the first level and unknown ids are
      open, an empty predecessor id counts as open, and otherwise only the
      predecessor's count is consulted. */
  function UnlockedPrev(catalog: seq<string>, stars: map<string, int>, id: string): (u: bool)
    ensures FindIndex(catalog, id) <= 0 ==> u
    ensures FindIndex(catalog, id) > 0 && catalog[FindIndex(catalog, id) - 1] == "" ==> u
    ensures FindIndex(catalog, id) > 0 && catalog[FindIndex(catalog, id) - 1] != "" ==>
      (u <==> StarsOf(stars, catalog[FindIndex(catalog, id) - 1]) > 0)
  {
    var idx := FindIndex(catalog, id);
    if idx <= 0 then true
    else
      var prevId := catalog[idx - 1];
      if prevId == "" then true else StarsOf(stars, prevId) > 0
  }

  /** Only the predecessor's entry matters: two star maps that agree on it
      give the same answer, however much they differ elsewhere. */
  lemma UnlockedPrevLocal(catalog: seq<string>, s: map<string, int>, t: map<string, int>, id: string)
    requires FindIndex(catalog, id) > 0
    requires StarsOf(s, catalog[FindIndex(catalog, id) - 1]) == StarsOf(t, catalog[FindIndex(catalog, id) - 1])
    ensures UnlockedPrev(catalog, s, id) == UnlockedPrev(catalog, t, id)
  {
  }

  /** The two rules can disagree on a state no trace of the app reaches:
      here level 2 is open under the predecessor rule although level 0 has
      no stars, which the full-chain rule refuses. */
  lemma UnlockRulesDiffer()
    ensures UnlockedPrev(["a", "b", "c"], map["b" := 1], "c")
    ensures !ChainComplete(["a", "b", "c"], map["b" := 1], "c")
  {
    assert FindIndex(["a", "b", "c"], "c") == 2;
  }

  /** Every entry is non-negative. */
  predicate NonNegative(stars: map<string, int>)
  {
    forall id :: id in stars ==> stars[id] >= 0
  }

  /** A level has stars only when the level before it has stars. */
  predicate Chained(catalog: seq<string>, stars: map<string, int>)
  {
    forall k :: 0 < k < |catalog| && StarsOf(stars, catalog[k]) > 0 ==> StarsOf(stars, catalog[k - 1]) > 0
  }

  /** The level ids are distinct and none is empty. */
  predicate WellFormedCatalog(catalog: seq<string>)
  {
    Shuffle.Distinct(catalog) && forall k :: 0 <= k < |catalog| ==> catalog[k] != ""
  }

  /** What the screens dispatch in a session: no HYDRATE, and SET_STARS only
      for a level the predecessor rule shows as open. */
  predicate Allowed(catalog: seq<string>, s: State, a: Action)
  {
    match a
    case Hydrate(_) => false
    case SetStars(levelId, _, _) => UnlockedPrev(catalog, s.progress.starsByLevel, levelId)
    case _ => true
  }

  /** The state after dispatching the actions in order. */
  function Run(s: State, actions: seq<Action>): (r: State)
    ensures actions == [] ==> r == s
    decreases |actions|
  {
    if actions == [] then s else Run(Reduce(s, actions[0]), actions[1..])
  }

  /** Every action of the sequence is allowed in the state it meets. */
  predicate Legal(catalog: seq<string>, s: State, actions: seq<Action>)
    decreases |actions|
  {
    actions == [] || (Allowed(catalog, s, actions[0]) && Legal(catalog, Reduce(s, actions[0]), actions[1..]))
  }

  /** The invariant of a session. */
  predicate Inv(catalog: seq<string>, s: State)
  {
    NonNegative(s.progress.starsByLevel) && Chained(catalog, s.progress.starsByLevel)
  }

  /** One allowed action keeps the invariant. */
  lemma AllowedKeepsInv(catalog: seq<string>, s: State, a: Action)
    requires WellFormedCatalog(catalog)
    requires Inv(catalog, s) && Allowed(catalog, s, a)
    ensures Inv(catalog, Reduce(s, a))
  {
    if a.SetStars? {
      var before := s.progress.starsByLevel;
      var after := Reduce(s, a).progress.starsByLevel;
      forall k | 0 < k < |catalog| && StarsOf(after, catalog[k]) > 0
        ensures StarsOf(after, catalog[k - 1]) > 0
      {
        if catalog[k] == a.levelId {
          DistinctIndex(catalog, k);
          assert catalog[k - 1] != a.levelId;
        }
      }
    }
  }

  /** A whole legal session keeps the invariant. */
  lemma {:induction false} LegalKeepsInv(catalog: seq<string>, s: State, actions: seq<Action>)
    requires WellFormedCatalog(catalog)
    requires Inv(catalog, s) && Legal(catalog, s, actions)
    ensures Inv(catalog, Run(s, actions))
    decreases |actions|
  {
    if actions != [] {
      AllowedKeepsInv(catalog, s, actions[0]);
      LegalKeepsInv(catalog, Reduce(s, actions[0]), actions[1..]);
    }
  }

  /** Along a chained map, stars at position j mean stars at every earlier
      position. */
  lemma {:induction false} ChainedDown(catalog: seq<string>, stars: map<string, int>, j: nat, i: nat)
    requires Chained(catalog, stars)
    requires i <= j < |catalog| && StarsOf(stars, catalog[j]) > 0
    ensures StarsOf(stars, catalog[i]) > 0
    decreases j - i
  {
    if i < j {
      ChainedDown(catalog, stars, j - 1, i);
    }
  }

  /** Under the invariant the two unlock rules give the same answer. */
  lemma RulesAgreeUnderInv(catalog: seq<string>, stars: map<string, int>, id: string)
    requires WellFormedCatalog(catalog)
    requires NonNegative(stars) && Chained(catalog, stars)
    ensures UnlockedPrev(catalog, stars, id) <==> ChainComplete(catalog, stars, id)
  {
    var idx := FindIndex(catalog, id);
    if idx > 0 {
      if StarsOf(stars, catalog[idx - 1]) > 0 {
        forall i | 0 <= i < idx ensures StarsOf(stars, catalog[i]) != 0 {
          ChainedDown(catalog, stars, idx - 1, i);
        }
      }
    }
  }

  /** In every session that starts from the initial state, never hydrates,
      and only records stars for levels the map shows as open, the
      predecessor rule of this file and the full-chain rule of the state
      utilities agree on every level. */
  lemma UnlockRulesAgree(catalog: seq<string>, actions: seq<Action>, id: string)
    requires WellFormedCatalog(catalog)
    requires Legal(catalog, Initial, actions)
    ensures UnlockedPrev(catalog, Run(Initial, actions).progress.starsByLevel, id)
      <==> ChainComplete(catalog, Run(Initial, actions).progress.starsByLevel, id)
  {
    LegalKeepsInv(catalog, Initial, actions);
    RulesAgreeUnderInv(catalog, Run(Initial, actions).progress.starsByLevel, id);
  }
}
