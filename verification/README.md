# BibliaKids progression, scoring and mini-games in Dafny

BibliaKids is a Bible-quiz app for children. A child plays the quiz of a
level and earns up to three stars and the level's sticker. The next level
opens once the earlier ones have stars. Each level can also offer one of
seven mini-games, and each mini-game reports a result (completed, a score
from 0 to 100, mistakes, seconds).

This project models the app's progression and scoring layer and the
logic of the seven mini-games:

- the pure state helpers: the Fisher–Yates shuffle, the level-unlock
  check over the catalog, and the star grading;
- the three reducers: the app state, progress and settings. The progress
  reducer also makes analytics calls.
- the in-memory analytics buffer: two capped logs, an on/off switch and
  summary statistics;
- the quiz screen's tally and final grading;
- the reward screen's mount-time dispatch and its choice of sound,
  message, emoji and banner;
- the star row's clamp;
- the mini-game contract;
- the seven mini-games. Each is a record, a set of pure transition
  functions and its `handleDone` result.

Every value is immutable and every operation is a pure function.
`Math.random()` becomes a sequence of reals in [0, 1) passed as a
parameter, and `Date.now()` becomes a `now: int` parameter.
`Math.round(x)` is `floor(x + 1/2)` on reals.

Each timer callback of a game becomes an event of its own: the end of an
animation, the pause after an answer, or one tick of a clock. For each
game, the lemma `SessionResultValid` shows that any sequence of events
keeps the game's invariant. It also shows that the final result meets the
result contract (a score in 0..100).

The shuffle is defined once (`Shuffle.FisherYates`), because the program
has five copies of the same loop. Each copy is modelled by calling it.
Arrays are values, so the caller's array is never changed. This covers
the copy the program makes before swapping.

Some consequences of the code, proved about the model:

- StarPath: losing the last life at level 10 still reports the game as
  completed, because the flag looks only at the level
  (`StarPath.LostAtLastLevelCompleted`).
- NoePairs: a won game scores at most 91, because the time bonus adds only
  0.1 · 10 = 1 point. A perfect game in time scores exactly 91
  (`NoePairs.ScoreFacts`).
- DavidStone: the `speed` state never goes below 1200 ms in five throws,
  so its floor of 800 ms is never used (`DavidStone.SpeedNeverAtFloor`).
- JonahGuide: with one speed-up per 20 units, the tick period never goes
  below 93 ms (`JonahGuide.SpeedNeverAtFloor`).
- DavidStone and CreationPlace: `start` does not reset the counters.
  JonahGuide's `start` does not reset the obstacle id counter.
- CreationPlace: the pause after an answer still runs after the clock has
  ended the game.
- NoePairs: an index outside the cards makes `flipCard` fail. The model
  returns `None` there.
- The two unlock rules and the two sticker rules differ on states no
  session reaches. `AppState.UnlockRulesAgree` shows that the unlock rules
  agree on every state reachable from a reset without a HYDRATE.

Where the documentation describes HYDRATE as filling in defaults, the
model follows the code: HYDRATE takes the snapshot as it is.

## Model

| member | source | states |
|---|---|---|
| Common.Round | src/minigames/games/StarPathGame.tsx:166 | `Math.round` lands within half a unit of its argument |
| Common.RoundOfInt | src/minigames/games/ParablesSeedGame.tsx:166 | rounding a whole number gives that number |
| Common.RoundBetween | src/minigames/games/NoePairsGame.tsx:167-168 | rounding keeps a value between two whole bounds |
| Common.HalfPlusHalf | src/minigames/games/DanielShieldsGame.tsx:186 | `round(50 + accuracy·50)` lies in 50..100 for an accuracy in [0, 1]; 50 at accuracy 0 and 100 at accuracy 1 |
| Common.ElapsedSeconds | src/minigames/games/StarPathGame.tsx:165 | the reported seconds are at least 1; a missing start (or a start time of 0, which is falsy) gives 1 |
| Shuffle.Pick | src/state/utils.ts:14 | `floor(r·(i+1))` is an index in 0..i for a draw r in [0, 1) |
| Shuffle.Swap | src/state/utils.ts:15 | the destructuring swap exchanges the two positions and leaves every other one alone |
| Shuffle.SwapPermutes | src/state/utils.ts:15 | a swap keeps the multiset of elements |
| Shuffle.ShuffleFrom | src/state/utils.ts:13-16 | the loop from index i down to 1 keeps the length and the multiset |
| Shuffle.FisherYates | src/state/utils.ts:11-18 | the shuffle is a permutation of its input: same length, same multiset; empty and one-element arrays come back unchanged |
| Shuffle.SameElements | src/state/utils.ts:11-18 | an element is in the shuffle exactly when it is in the input |
| Shuffle.ShufflePreservesProjection | src/state/utils.ts:13-16 | every projection of the elements keeps its multiset through the loop |
| Shuffle.MapSwap | src/state/utils.ts:15 | projecting after a swap equals swapping after the projection |
| Shuffle.FisherYatesPreservesProjection | src/state/utils.ts:11-18 | the value counts of any field are the same before and after the shuffle |
| Shuffle.DistinctCount | src/minigames/games/ParablesSeedGame.tsx:97 | in a sequence without repeats, every value occurs at most once |
| Shuffle.RepeatCounts | src/minigames/games/NoePairsGame.tsx:36-39 | two equal entries make their value occur at least twice |
| Shuffle.CountDistinct | src/minigames/games/ParablesSeedGame.tsx:97 | a sequence whose values all occur at most once has no repeats |
| Shuffle.FisherYatesKeepsDistinct | src/minigames/games/ParablesSeedGame.tsx:87-97 | a shuffle of distinct elements has distinct elements |
| Shuffle.FisherYatesPrefix | src/minigames/games/ParablesSeedGame.tsx:97 | the first n of a shuffle of distinct elements are distinct and all come from the input |
| StateUtils.FindIndex | src/state/utils.ts:25 | `findIndex`: -1 exactly for an id not in the catalog; otherwise the first position that holds the id |
| StateUtils.IsLevelUnlocked | src/state/utils.ts:24-36 | open for position 0 and unknown ids; otherwise open iff every earlier level has a non-zero entry, a missing entry counting as 0 |
| StateUtils.ChainCompleteMonotone | src/state/utils.ts:29-35 | raising star counts, with no entry raised to exactly 0 from elsewhere, never locks a level |
| StateUtils.ChainCompletePrefix | src/state/utils.ts:29-35 | if level k is open, so is level k-1 |
| StateUtils.DistinctIndex | src/state/utils.ts:25 | in a catalog without repeats, the id at position k is found at k |
| StateUtils.FindIndexAtMost | src/state/utils.ts:25 | the id at position k is found at k or earlier |
| StateUtils.CalculateStars | src/state/utils.ts:41-45 | 0 for an empty quiz; otherwise 3 iff 10c ≥ 9t, 2 iff 6t ≤ 10c < 9t, 1 iff 10c < 6t |
| StateUtils.CalculateStarsNeverZero | src/state/utils.ts:43-44 | a non-empty quiz never gets 0 stars from this grading |
| StateUtils.CalculateStarsMonotone | src/state/utils.ts:44 | more correct answers never give fewer stars |
| Settings.With | src/state/SettingsContext.tsx:27 | the spread update sets the named switch and leaves the other four unchanged |
| Settings.Extensional | src/state/SettingsContext.tsx:3-9 | two records that agree on all five switches are equal |
| Settings.Reduce | src/state/SettingsContext.tsx:24-35 | SET_SETTING sets exactly the named switch; RESET turns all five on; HYDRATE returns the given settings; any other action changes nothing |
| Settings.SetSettingIdempotent | src/state/SettingsContext.tsx:26-27 | repeating a SET_SETTING changes nothing |
| Settings.SetSettingCommutes | src/state/SettingsContext.tsx:26-27 | SET_SETTING on two different switches gives the same record in either order |
| Settings.SetSettingOverwrites | src/state/SettingsContext.tsx:26-27 | setting one switch twice keeps only the later value |
| Settings.ResetForgets | src/state/SettingsContext.tsx:16-22 | RESET gives the all-on record whatever came before |
| Analytics.PushCapped | src/utils/analytics.ts:62-67 | push and cap: the length becomes min(length + 1, cap), the new entry is last, and the rest are the most recent earlier entries in order |
| Analytics.SetEnabled | src/utils/analytics.ts:43-48 | only the switch changes; both logs are kept |
| Analytics.Track | src/utils/analytics.ts:53-75 | does nothing while disabled; otherwise appends the event at the end and keeps the newest 100 |
| Analytics.TrackLevelStart | src/utils/analytics.ts:80-82 | records `level_started` with exactly `{levelId}` |
| Analytics.TrackLevelComplete | src/utils/analytics.ts:87-89 | records `level_completed` with `{levelId, stars, timeSpent}`; an omitted time is an undefined field |
| Analytics.TrackMiniGameStart | src/utils/analytics.ts:94-96 | records `minigame_started` with `{levelId, gameType}` |
| Analytics.TrackMiniGameComplete | src/utils/analytics.ts:101-103 | records `minigame_completed` with `{levelId, gameType, score, mistakes}` |
| Analytics.TrackQuizComplete | src/utils/analytics.ts:108-110 | records `quiz_completed` with `{levelId, correct, total, stars}` |
| Analytics.TrackStickerEarned | src/utils/analytics.ts:115-117 | records `sticker_earned` with `{stickerId, levelId}` |
| Analytics.TrackSettingChanged | src/utils/analytics.ts:122-124 | records `settings_changed` with `{setting, value}` |
| Analytics.LogError | src/utils/analytics.ts:129-152 | the error log grows even while disabled and keeps the newest 50; an `error` event is then tracked, which happens only while enabled |
| Analytics.SliceLast | src/utils/analytics.ts:158 | `slice(-count)`: the last `count` entries for a positive count; the whole log for 0 |
| Analytics.GetRecentEvents | src/utils/analytics.ts:157-159 | for n ≥ 1, the last min(n, length) events in order; for n = 0, the whole log |
| Analytics.GetRecentErrors | src/utils/analytics.ts:164-166 | the same for the error log |
| Analytics.Clear | src/utils/analytics.ts:171-174 | both logs emptied; the switch is kept |
| Analytics.CountCompleted | src/utils/analytics.ts:180 | the `level_completed` filter's length: at most the log's length, 0 exactly when no event has that kind, the full length exactly when every event has it |
| Analytics.CountCompletedAppend | src/utils/analytics.ts:180 | the count over two logs joined is the sum of their counts |
| Analytics.GetStats | src/utils/analytics.ts:179-192 | the totals are the two log lengths; `levelsCompleted` counts `level_completed` events; `totalStars` sums what each of them adds: a number as it is, `true` as 1, anything falsy as 0 (a non-empty string is admitted under "## Left out") |
| Analytics.StarsField | src/utils/analytics.ts:182 | the cast-and-default of the stars field: a numeric field is added as it is, `true` as 1, `false` or a missing field as 0 |
| Analytics.SumCompletedStars | src/utils/analytics.ts:180-184 | 0 when no event is `level_completed`; with every stars field a grade of 0..3, between 0 and three times the count of completed levels |
| Analytics.TrueStarsCountOne | src/utils/analytics.ts:182 | one completed level tracked with `stars: true` gives a star total of 1 |
| Analytics.TrackCompletedAddsField | src/utils/analytics.ts:179-192 | below the cap, tracking any `level_completed` event raises the star total by exactly what its stars field adds |
| Analytics.TrackLevelCompleteStats | src/utils/analytics.ts:87-89 | below the cap, tracking a completed level adds one to the completed count and its stars to the total |
| Analytics.TrackOtherStats | src/utils/analytics.ts:53-75 | below the cap, tracking any other kind of event leaves the completed count and the star total alone |
| Progress.Reduce | src/state/ProgressContext.tsx:19-52 | SET_STARS stores max(previous or 0, stars) for the level and changes no other entry; it adds the sticker only for a truthy id with stars > 0 and never removes one. It emits `sticker_earned` exactly for a sticker that is new and `level_completed` exactly when stars beat the previous count. RESET empties both maps; HYDRATE returns the given progress |
| Progress.Notify | src/state/ProgressContext.tsx:29-37 | the reducer's notices reach the analytics buffer in order: nothing while disabled; while enabled the log becomes the newest 100 of the old log followed by each notice's event, in the order of the notices, and below the cap exactly the old log followed by those events; the error log is untouched |
| Progress.NoticeEvents | src/state/ProgressContext.tsx:29-37 | one event per notice, in the same order, each the one its helper records |
| Progress.NotifyStep | src/state/ProgressContext.tsx:29-37 | delivering the first notice and then the rest gives the newest 100 of the old log followed by all the notices' events |
| Progress.Deliver | src/state/ProgressContext.tsx:29-37 | each notice records its own event and payload |
| Progress.DeliverAppends | src/utils/analytics.ts:62-67 | while enabled, one delivery leaves the newest 100 of the log followed by the notice's event |
| Progress.NewestTwice | src/utils/analytics.ts:62-67 | capping, appending and capping again equals appending and capping once |
| Progress.Dispatch | src/state/ProgressContext.tsx:19-52 | the progress after a dispatch is the reducer's; only SET_STARS touches analytics |
| Progress.SetStarsNeverRegresses | src/state/ProgressContext.tsx:22-27 | a level's stars never go down and an owned sticker stays owned |
| Progress.SetStarsMaxMerge | src/state/ProgressContext.tsx:22-23 | two SET_STARS on one level leave the larger count, in either order |
| Progress.SetStarsIdempotent | src/state/ProgressContext.tsx:22-43 | repeating a SET_STARS changes nothing and emits no further event |
| Progress.SumValuesRemove | src/state/ProgressContext.tsx:81 | the sum of a map's values is any one entry plus the sum of the rest |
| Progress.SumValuesUpdate | src/state/ProgressContext.tsx:81 | overwriting one entry changes the sum by the difference |
| Progress.SumValues | src/state/ProgressContext.tsx:81 | the sum of a map's values: 0 for the empty map, not negative when no value is |
| Progress.TotalStars | src/state/ProgressContext.tsx:80-82 | `getTotalStars`: 0 before any level is played; with counts that are not negative, not negative and at least the count of every single level |
| Progress.TotalStickers | src/state/ProgressContext.tsx:84-86 | `getTotalStickers`: at most the number of entries, and 0 exactly when no entry is true |
| Progress.SubsetCard | src/state/ProgressContext.tsx:85 | a subset has no more elements than its superset |
| Progress.TotalStarsAfterSetStars | src/state/ProgressContext.tsx:80-82 | SET_STARS raises `getTotalStars` by exactly the level's improvement, never lowering it |
| Progress.TotalStickersAfterSetStars | src/state/ProgressContext.tsx:84-86 | SET_STARS adds one to `getTotalStickers` exactly when it awards a sticker that was not owned |
| AppState.Reduce | src/state/AppState.tsx:52-87 | SET_AVATAR replaces only the avatar. SET_STARS stores the best count for the level, adds any truthy sticker id even with 0 stars, and leaves avatar and settings alone. SET_SETTING sets one switch. RESET restores the initial state; HYDRATE returns the snapshot as it is |
| AppState.BestCommutes | src/state/AppState.tsx:59-67 | best-count updates commute |
| AppState.AwardCommutes | src/state/AppState.tsx:61-62 | sticker awards commute |
| AppState.SetStarsIdempotent | src/state/AppState.tsx:57-73 | repeating a SET_STARS changes nothing |
| AppState.SetStarsCommute | src/state/AppState.tsx:57-73 | any two SET_STARS give the same state in either order |
| AppState.SetStarsMaxMerge | src/state/AppState.tsx:59-60 | two SET_STARS on one level leave the larger count, or the previous one if higher |
| AppState.StickerWithoutStars | src/state/AppState.tsx:61-62 | this reducer records a sticker for a 0-star run, where the progress reducer does not |
| AppState.ReducersAgreeOnStars | src/state/AppState.tsx:57-73 | the two reducers store the same star counts, and the same stickers when stars > 0 |
| AppState.ShuffleQuestions | src/state/AppState.tsx:164-171 | this file's shuffle is a permutation, like the one of the utilities |
| AppState.UnlockedPrev | src/state/AppState.tsx:153-162 | open for the first level, unknown ids and an empty predecessor id (which is falsy); otherwise open iff the level just before has more than 0 stars |
| AppState.UnlockedPrevLocal | src/state/AppState.tsx:156-159 | only the level just before matters: star maps that agree on it give the same answer |
| AppState.UnlockRulesDiffer | src/state/AppState.tsx:153-162 | the two unlock rules disagree on a star map with a gap |
| AppState.Run | src/state/AppState.tsx:52-87 | no actions leave the state as it was |
| AppState.AllowedKeepsInv | src/state/AppState.tsx:57-73 | a SET_STARS on an open level keeps "stars at k imply stars at k-1" |
| AppState.LegalKeepsInv | src/state/AppState.tsx:52-87 | a session without HYDRATE that sets stars only on open levels keeps the invariant |
| AppState.ChainedDown | src/state/AppState.tsx:153-162 | under the invariant, stars at position j imply stars at every earlier position |
| AppState.RulesAgreeUnderInv | src/state/AppState.tsx:153-162 | under the invariant the two unlock rules give the same answer |
| AppState.UnlockRulesAgree | src/state/AppState.tsx:153-162 | in every session from the initial state, the predecessor rule and the all-earlier rule agree |
| QuizScreen.OrderQuestions | src/screens/QuizScreen.tsx:23-26 | shuffled exactly when the setting is on, otherwise catalog order; always the same questions, each kept whole with its options and answer |
| QuizScreen.Open | src/screens/QuizScreen.tsx:23-33 | the screen opens on the first question with an empty tally |
| QuizScreen.OnPick | src/screens/QuizScreen.tsx:45-65 | ignored once an option is chosen; otherwise records the choice and adds one to exactly one of correct or wrong, so the tally counts the answered questions |
| QuizScreen.QuizStars | src/screens/QuizScreen.tsx:72-73 | 3 iff 10c ≥ 9t, 2 iff 6t ≤ 10c < 9t, 1 iff 3t ≤ 10c < 6t, 0 below 30% |
| QuizScreen.QuizStarsMonotone | src/screens/QuizScreen.tsx:73 | more correct answers never give fewer stars |
| QuizScreen.GradingsCompared | src/screens/QuizScreen.tsx:73 | from 30% up this grading equals the utilities' one; below it this one gives 0 where the other gives 1 |
| QuizScreen.Next | src/screens/QuizScreen.tsx:67-80 | as written: without a choice nothing happens; before the last question it moves on and clears the choice; on the last it leads to the reward with the level's sticker and stars graded on `correct + lastOk` |
| QuizScreen.NextFixed | src/screens/QuizScreen.tsx:67-80 | the same, graded on the true count |
| QuizScreen.NextKeepsTally | src/screens/QuizScreen.tsx:67-80 | moving on keeps the tally |
| QuizScreen.DoneCorrectBound | src/screens/QuizScreen.tsx:69-70 | as written the graded count can reach total + 1; corrected it stays within the total |
| QuizScreen.CountCorrect | src/screens/QuizScreen.tsx:49 | no more correct picks than questions |
| QuizScreen.CountCorrectStep | src/screens/QuizScreen.tsx:49 | counting from position i is the pick at i plus the rest |
| QuizScreen.PlayFixedCounts | src/screens/QuizScreen.tsx:45-80 | answering the remaining questions, the corrected grading counts exactly the correct picks |
| QuizScreen.PlayAsWrittenCounts | src/screens/QuizScreen.tsx:45-80 | the grading as written counts one more whenever the last pick is correct |
| QuizScreen.SessionCounts | src/screens/QuizScreen.tsx:45-80 | a fresh quiz answered in full: corrected grades the true count, as written grades it plus the last answer again |
| QuizScreen.DoubleCountWitness | src/screens/QuizScreen.tsx:69-73 | five questions with four right, including the last: two stars corrected, three as written |
| RewardScreen.MountAction | src/screens/RewardScreen.tsx:23-25 | SET_STARS for the level and stars, carrying the sticker only when stars > 0 |
| RewardScreen.MountSound | src/screens/RewardScreen.tsx:27-28 | the perfect sound iff stars ≥ 3, the success sound iff 0 < stars < 3, silence otherwise |
| RewardScreen.Mount | src/screens/RewardScreen.tsx:23-25 | after mounting, a sticker is owned iff it was owned or was handed over for a run with stars |
| RewardScreen.StickersOnlyFromStars | src/screens/RewardScreen.tsx:25 | over any number of reward screens, a sticker is owned at the end iff it was owned at the start or came with a reward of at least one star |
| RewardScreen.MessagesDistinct | src/screens/RewardScreen.tsx:36-43 | the four messages differ, and among 0..3 only 0 gets the try-again message |
| RewardScreen.Message | src/screens/RewardScreen.tsx:36-43 | the try-again message is shown exactly for a count outside 1..3 |
| RewardScreen.Emoji | src/screens/RewardScreen.tsx:45 | the heart is shown exactly for a count outside 1..3 |
| RewardScreen.OtherCountsAsNone | src/screens/RewardScreen.tsx:36-45 | every count outside 1..3 shows the message and emoji of 0 |
| RewardScreen.EmojiMatchesMessage | src/screens/RewardScreen.tsx:36-45 | two counts show the same emoji exactly when they show the same message, and exactly when they fall in the same band (3, 2, 1, other) |
| RewardScreen.BannerShown | src/screens/RewardScreen.tsx:71 | the sticker banner shows exactly when the mount action carried the sticker |
| StarsRow.Clamp | src/components/StarsRow.tsx:5 | the clamped count lies in 0..3 and is the identity on 0..3 |
| StarsRow.Glyphs | src/components/StarsRow.tsx:8-12 | slot i is filled iff i ≤ the clamped count |
| StarsRow.FilledMatchesClamp | src/components/StarsRow.tsx:5-12 | exactly the clamped count of slots is filled, and filled slots come first |
| StarsRow.ClampIdempotent | src/components/StarsRow.tsx:5 | clamping twice is clamping once |
| StarsRow.GlyphsMonotone | src/components/StarsRow.tsx:5-12 | more stars never show fewer filled slots, slot by slot |
| MiniGames.Parse | src/minigames/types.ts:1-8 | reading a tag back gives a type whose key is that tag |
| MiniGames.ParseKey | src/minigames/types.ts:1-8 | every tag reads back as itself |
| MiniGames.SevenTypes | src/minigames/types.ts:1-8 | there are exactly seven tags |
| MiniGames.PairsToMatch | src/minigames/types.ts:10-17 | only the `noe_pairs` config carries `pairsToMatch` |
| MiniGames.ConfigForEveryType | src/minigames/types.ts:10-17 | every tag has a config carrying it |
| StarPath.RandomDirection | src/minigames/games/StarPathGame.tsx:45 | a draw picks one of the four directions |
| StarPath.Start | src/minigames/games/StarPathGame.tsx:89-97 | level 1, three lives, score 0, a one-direction sequence and empty input |
| StarPath.ShowDone | src/minigames/games/StarPathGame.tsx:80-86 | the end of the show lets the child tap; nothing else changes |
| StarPath.Tap | src/minigames/games/StarPathGame.tsx:99-162 | ignored outside play. A tap is wrong iff it differs from the next expected direction: it costs a life and ends the game at the last life, otherwise replays the same sequence. Completing the sequence adds level·100 + length·20 and either ends the game at level 10 or appends exactly one direction. The invariant is kept |
| StarPath.Finish | src/minigames/games/StarPathGame.tsx:164-168 | completed iff level ≥ 10; score 40 + 6·level in 46..100; mistakes 3 − lives; seconds ≥ 1 |
| StarPath.LostAtLastLevelCompleted | src/minigames/games/StarPathGame.tsx:122-167 | a game lost at level 10 reports completed |
| StarPath.RatingOf | src/minigames/games/StarPathGame.tsx:198-199 | the four rating bands on the level: 10, 7, 4 |
| StarPath.RatingMatchesCompleted | src/minigames/games/StarPathGame.tsx:164-199 | the top rating is shown exactly for a completed result |
| StarPath.SessionResultValid | src/minigames/games/StarPathGame.tsx:99-168 | any sequence of events keeps the invariant, and the result is valid |
| DanielShields.Classify | src/minigames/games/DanielShieldsGame.tsx:255-269 | horizontal iff |dx| > |dy|, right for dx > 0; otherwise down for dy > 0 and up otherwise; ties go vertical |
| DanielShields.ClassifyMirror | src/minigames/games/DanielShieldsGame.tsx:260-269 | a touch mirrored through the centre gives the opposite direction |
| DanielShields.Start | src/minigames/games/DanielShieldsGame.tsx:109-114 | play begins and the clock starts |
| DanielShields.NextRound | src/minigames/games/DanielShieldsGame.tsx:66-107 | ends the game after the last round or life; otherwise shows a new lion and opens the window |
| DanielShields.Begin | src/minigames/games/DanielShieldsGame.tsx:113 | the first round follows `start`, keeping the invariant |
| DanielShields.TapPoints | src/minigames/games/DanielShieldsGame.tsx:127-128 | at least 100; with no time left in the window, 100 + 20·streak |
| DanielShields.Tap | src/minigames/games/DanielShieldsGame.tsx:116-165 | ignored unless the window is open and a lion is showing. A right tap adds the points, grows the streak and best streak, and shrinks the window by 80 down to 600. A wrong tap costs a life and resets the streak |
| DanielShields.HandleTouch | src/minigames/games/DanielShieldsGame.tsx:255-269 | a touch is a tap in the classified direction around (150, 100) |
| DanielShields.TimeUp | src/minigames/games/DanielShieldsGame.tsx:83-88 | a timeout costs a life and resets the streak |
| DanielShields.Advance | src/minigames/games/DanielShieldsGame.tsx:97-176 | after the pause the round counter moves on, and the game ends or the next round starts |
| DanielShields.TapEndsAsWritten | src/minigames/games/DanielShieldsGame.tsx:167-176 | as written, the continuation ends the game iff the pre-tap `lives` is at most 0 (or at most 1 under a `'wrong'` result) or the round was the last |
| DanielShields.LastLifeWrongTap | src/minigames/games/DanielShieldsGame.tsx:153-176 | after a wrong tap on the last life before the last round, the continuation as written does not end the game though no life is left, and the model's `Advance` ends it |
| DanielShields.Finish | src/minigames/games/DanielShieldsGame.tsx:183-188 | completed iff lives > 0; score in 50..100; mistakes 3 − lives |
| DanielShields.Accuracy | src/minigames/games/DanielShieldsGame.tsx:185 | the accuracy lies in [0, 1] |
| DanielShields.AccuracyAtMostOne | src/minigames/games/DanielShieldsGame.tsx:185 | (round − mistakes)/round ≤ 1 when mistakes ≥ 0 |
| DanielShields.RatingOf | src/minigames/games/DanielShieldsGame.tsx:219-220 | the four ratings: surviving, banded by best streak 10 and 5 |
| DanielShields.RatingMatchesCompleted | src/minigames/games/DanielShieldsGame.tsx:183-220 | every rating but the last is shown exactly for a completed result |
| DanielShields.ApplyKeepsInv | src/minigames/games/DanielShieldsGame.tsx:66-188 | every event keeps the invariant |
| DanielShields.SessionResultValid | src/minigames/games/DanielShieldsGame.tsx:66-188 | any sequence of events keeps the invariant, and the result is valid |
| ParablesSeed.SoilsOnce | src/minigames/games/ParablesSeedGame.tsx:33-38 | each soil occurs once among the four |
| ParablesSeed.TableSoils | src/minigames/games/ParablesSeedGame.tsx:18-31 | the answers of the table are three rounds of the four soils |
| ParablesSeed.TableBalanced | src/minigames/games/ParablesSeedGame.tsx:18-31 | the table has twelve entries and each soil is the answer exactly three times |
| ParablesSeed.TableDistinct | src/minigames/games/ParablesSeedGame.tsx:18-31 | no entry repeats |
| ParablesSeed.Start | src/minigames/games/ParablesSeedGame.tsx:96-110 | ten distinct questions from the table, all counters reset, 90 seconds |
| ParablesSeed.Tick | src/minigames/games/ParablesSeedGame.tsx:70-85 | one second less; at 1 or less the clock shows 0 and the game ends |
| ParablesSeed.AnswerPoints | src/minigames/games/ParablesSeedGame.tsx:125-126 | at least 100; below a streak of 2 there is no streak bonus |
| ParablesSeed.SelectSoil | src/minigames/games/ParablesSeedGame.tsx:112-139 | ignored outside play and while feedback shows; right iff the soil is the answer; right adds to correct and streak, wrong adds a mistake and resets the streak |
| ParablesSeed.FeedbackDone | src/minigames/games/ParablesSeedGame.tsx:149-161 | the next question, or the end after the last |
| ParablesSeed.Finish | src/minigames/games/ParablesSeedGame.tsx:164-168 | score 40 + 6·correct in 40..100; completed iff correct ≥ 7 |
| ParablesSeed.RatingOf | src/minigames/games/ParablesSeedGame.tsx:210-211 | the bands on round(10·correct): 90, 70, 50 |
| ParablesSeed.CompletedRatedGreat | src/minigames/games/ParablesSeedGame.tsx:211-212 | a completed game is rated at least great |
| ParablesSeed.ApplyKeepsInv | src/minigames/games/ParablesSeedGame.tsx:70-162 | every event keeps the invariant |
| ParablesSeed.SessionResultValid | src/minigames/games/ParablesSeedGame.tsx:70-168 | any sequence of events keeps the invariant, and the result is valid |
| DavidStone.HitZoneOf | src/minigames/games/DavidStoneGame.tsx:69-76 | bullseye, inner, outer and miss exactly on the distance bands 0.08, 0.18 and 0.35 from 0.5 |
| DavidStone.HitZoneSymmetric | src/minigames/games/DavidStoneGame.tsx:71 | the zones are symmetric about 0.5 |
| DavidStone.Points | src/minigames/games/DavidStoneGame.tsx:78-85 | 0..500; 0 exactly for a miss, 500 exactly for a bullseye |
| DavidStone.PointsMonotone | src/minigames/games/DavidStoneGame.tsx:69-85 | a throw closer to the centre never earns fewer points |
| DavidStone.SumPoints | src/minigames/games/DavidStoneGame.tsx:101 | at most 500 per throw |
| DavidStone.CountZone | src/minigames/games/DavidStoneGame.tsx:163-166 | no more throws in a zone than throws |
| DavidStone.Start | src/minigames/games/DavidStoneGame.tsx:62-67 | only the step and start time change |
| DavidStone.Throw | src/minigames/games/DavidStoneGame.tsx:87-101 | ignored while animating or after five throws; otherwise appends the zone and adds its points |
| DavidStone.Settle | src/minigames/games/DavidStoneGame.tsx:136-153 | the next throw with the `speed` state 200 lower (floor 800), or the end after the fifth |
| DavidStone.SpeedNeverAtFloor | src/minigames/games/DavidStoneGame.tsx:149 | the `speed` state stays at 1200 or more |
| DavidStone.ScoreBounded | src/minigames/games/DavidStoneGame.tsx:17-101 | the score stays within 2500 |
| DavidStone.SumPointsByBullseyes | src/minigames/games/DavidStoneGame.tsx:78-85 | each non-bullseye adds at most 300, each bullseye exactly 500 |
| DavidStone.RatingOf | src/minigames/games/DavidStoneGame.tsx:198 | the bands 2000, 1500 and 1000 |
| DavidStone.LegendaryNeedsThreeBullseyes | src/minigames/games/DavidStoneGame.tsx:78-198 | the top rating takes at least three bullseyes |
| DavidStone.MissesAndHits | src/minigames/games/DavidStoneGame.tsx:164 | the four zone counts add up to the throws |
| DavidStone.Accuracy | src/minigames/games/DavidStoneGame.tsx:164 | in [0, 1]; 1 with no miss, 0 with only misses |
| DavidStone.Finish | src/minigames/games/DavidStoneGame.tsx:161-167 | always completed; score in 50..100; mistakes the number of misses |
| DavidStone.SessionResultValid | src/minigames/games/DavidStoneGame.tsx:87-167 | any sequence of events keeps the invariant, the score within 2500, and the result valid |
| JonahGuide.MoveWhale | src/minigames/games/JonahGuideGame.tsx:62-68 | 30 up or down, clamped to [25, 275] |
| JonahGuide.UpThenDown | src/minigames/games/JonahGuideGame.tsx:62-68 | away from the top edge, up then down returns the whale |
| JonahGuide.FirstOverlap | src/minigames/games/JonahGuideGame.tsx:76-87 | the first overlapping obstacle's position, or -1 when none overlaps |
| JonahGuide.Overlaps | src/minigames/games/JonahGuideGame.tsx:71-83 | the strict box test: an overlapping obstacle lies strictly within the whale's reach on both axes |
| JonahGuide.OverlapsShift | src/minigames/games/JonahGuideGame.tsx:71-83 | the test depends only on the vertical gap: shifting whale and obstacle together keeps its answer |
| JonahGuide.CheckCollision | src/minigames/games/JonahGuideGame.tsx:70-88 | none iff no obstacle overlaps the whale's box (strictly); otherwise the first one in list order |
| JonahGuide.Moved | src/minigames/games/JonahGuideGame.tsx:108 | every obstacle 3 to the left, order kept |
| JonahGuide.Visible | src/minigames/games/JonahGuideGame.tsx:108 | keeps exactly the obstacles right of -40, in order |
| JonahGuide.WithoutId | src/minigames/games/JonahGuideGame.tsx:145 | keeps exactly the obstacles with other ids |
| JonahGuide.WithoutIdRemovesOne | src/minigames/games/JonahGuideGame.tsx:145 | with increasing ids, a hit removes exactly one obstacle |
| JonahGuide.GameWidth | src/minigames/games/JonahGuideGame.tsx:16 | `GAME_WIDTH` is the smaller of the window width less 40 and 350; it is 350 exactly for windows of 390 or more |
| JonahGuide.Start | src/minigames/games/JonahGuideGame.tsx:158-169 | the whale in the middle, no obstacles, distance 0, three lives, score 0; the id counter kept |
| JonahGuide.Collide | src/minigames/games/JonahGuideGame.tsx:129-156 | outside play or during a hit nothing changes; a collision costs a life, removes the obstacle hit and ends the game at the last life |
| JonahGuide.TickObstacles | src/minigames/games/JonahGuideGame.tsx:107-122 | the moved visible obstacles, plus a new one at the right edge with the next id when the draw is below 0.08 |
| JonahGuide.Tick | src/minigames/games/JonahGuideGame.tsx:97-185 | half a unit and 5 points per tick, the end at 200 units, and one 3 ms speed-up at each new multiple of 20 units |
| JonahGuide.TickKeepsInv | src/minigames/games/JonahGuideGame.tsx:97-126 | a tick keeps the invariant |
| JonahGuide.TickObstaclesOrdered | src/minigames/games/JonahGuideGame.tsx:108-118 | obstacle ids stay increasing and below the counter |
| JonahGuide.SpeedStep | src/minigames/games/JonahGuideGame.tsx:179-181 | the period drops by one step exactly at each new multiple of 20 units |
| JonahGuide.CollideKeepsInv | src/minigames/games/JonahGuideGame.tsx:129-156 | a collision keeps the invariant |
| JonahGuide.SpeedNeverAtFloor | src/minigames/games/JonahGuideGame.tsx:181 | during play the period stays at 93 ms or more |
| JonahGuide.Finish | src/minigames/games/JonahGuideGame.tsx:187-192 | completed iff the distance reached 200; score (won ? 70 : 40) + 10·lives; mistakes 3 − lives |
| JonahGuide.RatingOf | src/minigames/games/JonahGuideGame.tsx:224 | perfect for a win with three lives, arrived for another win, otherwise lost |
| JonahGuide.RatingMatchesResult | src/minigames/games/JonahGuideGame.tsx:187-224 | perfect exactly for a score of 100; lost exactly for a result not completed |
| JonahGuide.ApplyKeepsInv | src/minigames/games/JonahGuideGame.tsx:97-169 | every event, followed by the collision check, keeps the invariant |
| JonahGuide.SessionResultValid | src/minigames/games/JonahGuideGame.tsx:97-192 | any sequence of events keeps the invariant, and the result is valid |
| JonahGuide.SpeedEffectAsWritten | src/minigames/games/JonahGuideGame.tsx:177-185 | the effect as written, re-run on each change of `speed` it causes: at a positive multiple of 20 units it ends at the 15 ms floor; at any other distance it leaves the speed alone; from a speed at or above the floor it never rises |
| JonahGuide.SpeedCollapses | src/minigames/games/JonahGuideGame.tsx:177-185 | as written, the effect re-runs on its own speed change until the period reaches 15 ms at distance 20 |
| JonahGuide.SpeedCollapseWitness | src/minigames/games/JonahGuideGame.tsx:177-185 | at 20 units the model's period is 117 ms, and 15 ms as written |
| CreationPlace.DaysAreAWeek | src/minigames/games/CreationPlaceGame.tsx:22-30 | seven questions answering days 1 to 7 in order |
| CreationPlace.TableDays | src/minigames/games/CreationPlaceGame.tsx:22-30 | the days of the table are 1, ..., 7 |
| CreationPlace.ShuffledDaysAreAWeek | src/minigames/games/CreationPlaceGame.tsx:34-54 | after the shuffle every day is still answered exactly once |
| CreationPlace.Mount | src/minigames/games/CreationPlaceGame.tsx:53-63 | the seven questions in shuffled order, full time, no answers |
| CreationPlace.Start | src/minigames/games/CreationPlaceGame.tsx:98-103 | play begins and the clock starts; nothing else changes |
| CreationPlace.Tick | src/minigames/games/CreationPlaceGame.tsx:86-159 | one second less; at 1 or less the clock shows 0 and the game ends |
| CreationPlace.AnswerPoints | src/minigames/games/CreationPlaceGame.tsx:112 | at least 100; with no streak, 100 + 2 per second left |
| CreationPlace.SelectDay | src/minigames/games/CreationPlaceGame.tsx:105-145 | ignored while a result shows, past the last question or at 0 seconds; right iff the day matches; right grows the streak and best streak, wrong adds a mistake and resets the streak |
| CreationPlace.FeedbackDone | src/minigames/games/CreationPlaceGame.tsx:147-154 | the next question, or the end after the last |
| CreationPlace.RatingOf | src/minigames/games/CreationPlaceGame.tsx:197 | the bands 1200, 800 and 500 |
| CreationPlace.Accuracy | src/minigames/games/CreationPlaceGame.tsx:167 | in [0, 1]; 1 iff no mistakes, 0 from seven mistakes |
| CreationPlace.Finish | src/minigames/games/CreationPlaceGame.tsx:165-170 | always completed; score in 50..100, 100 with no mistake |
| CreationPlace.ApplyKeepsInv | src/minigames/games/CreationPlaceGame.tsx:86-159 | every event keeps the invariant |
| CreationPlace.SessionResultValid | src/minigames/games/CreationPlaceGame.tsx:86-170 | any sequence of events keeps the invariant, and the result is valid |
| NoePairs.AnimalNamesDistinct | src/minigames/games/NoePairsGame.tsx:17-26 | eight different animal names |
| NoePairs.PairsUpToAt | src/minigames/games/NoePairsGame.tsx:36-39 | card k shows animal k / 2 |
| NoePairs.PairsUpToCounts | src/minigames/games/NoePairsGame.tsx:36-39 | each of the first n animals appears twice and no other value appears |
| NoePairs.Range | src/minigames/games/NoePairsGame.tsx:35-39 | the ids 0 to n − 1 in order |
| NoePairs.CreateCards | src/minigames/games/NoePairsGame.tsx:32-46 | sixteen cards, a permutation of the deck |
| NoePairs.DeckIds | src/minigames/games/NoePairsGame.tsx:35-39 | the ids before the shuffle are 0 to 15 |
| NoePairs.DeckPairs | src/minigames/games/NoePairsGame.tsx:36-39 | the animals before the shuffle are 0, 0, 1, 1, ..., 7, 7 |
| NoePairs.RangeDistinct | src/minigames/games/NoePairsGame.tsx:35 | the ids 0 to n − 1 are distinct |
| NoePairs.DealIds | src/minigames/games/NoePairsGame.tsx:32-46 | the dealt cards carry the ids 0 to 15, each once |
| NoePairs.DealPairs | src/minigames/games/NoePairsGame.tsx:32-46 | each animal is on exactly two dealt cards |
| NoePairs.DealFresh | src/minigames/games/NoePairsGame.tsx:37-38 | no dealt card is matched, and each shows one of the eight animals |
| NoePairs.MarkMatched | src/minigames/games/NoePairsGame.tsx:136-138 | exactly the two cards of the pair become matched |
| NoePairs.FlipCard | src/minigames/games/NoePairsGame.tsx:110-161 | ignored while blocked, for a card already turned, and for a matched card; fails for an index outside the cards. The second card counts one move: a pair marks both cards, joins the matched set and unblocks; a mismatch stays turned and blocks |
| NoePairs.FlipBack | src/minigames/games/NoePairsGame.tsx:150-158 | after a mismatch both cards turn back and flipping is allowed again |
| NoePairs.Tick | src/minigames/games/NoePairsGame.tsx:99-107 | one second less, stopping at 0 |
| NoePairs.CheckEnd | src/minigames/games/NoePairsGame.tsx:81-85 | play ends exactly when eight pairs are found or the time is up |
| NoePairs.Start | src/minigames/games/NoePairsGame.tsx:91-108 | the cards are dealt and the clock starts |
| NoePairs.BoundedSetSize | src/minigames/games/NoePairsGame.tsx:73 | a set of values below n has at most n elements |
| NoePairs.ThreeOfAPair | src/minigames/games/NoePairsGame.tsx:132 | three cards with one animal would make it appear three times |
| NoePairs.OnlyTwoOfAPair | src/minigames/games/NoePairsGame.tsx:132-138 | only the two cards of a found pair show its animal |
| NoePairs.MarkMatchedKeepsPairs | src/minigames/games/NoePairsGame.tsx:136-138 | marking keeps the animal on every card |
| NoePairs.MarkMatchedKeepsDeal | src/minigames/games/NoePairsGame.tsx:136-138 | marking keeps the deal: sixteen cards, two per animal |
| NoePairs.MatchKeepsAgreement | src/minigames/games/NoePairsGame.tsx:135-138 | a card is matched exactly when its animal is in the matched set |
| NoePairs.MatchGrowsSet | src/minigames/games/NoePairsGame.tsx:135 | a found pair adds one new animal to the set |
| NoePairs.FlipKeepsInv | src/minigames/games/NoePairsGame.tsx:110-161 | every turn of a card keeps the invariant, including one move per found pair |
| NoePairs.ApplyKeepsInv | src/minigames/games/NoePairsGame.tsx:81-161 | every event, followed by the end check, keeps the invariant |
| NoePairs.Efficiency | src/minigames/games/NoePairsGame.tsx:165 | non-negative, at most 1 from eight moves |
| NoePairs.MulBound | src/minigames/games/NoePairsGame.tsx:167 | products of bounded non-negative factors are bounded |
| NoePairs.RawScoreBound | src/minigames/games/NoePairsGame.tsx:165-167 | the raw score is at most 97.2, and at most 91 from eight moves |
| NoePairs.RawScore | src/minigames/games/NoePairsGame.tsx:165-167 | the unrounded score is never negative, 0 with no pair found, and 91 for eight pairs in eight moves in time |
| NoePairs.ScoreFacts | src/minigames/games/NoePairsGame.tsx:165-168 | the rounded score is at most 98, at most 91 for a won game, and exactly 91 for a perfect game in time |
| NoePairs.Finish | src/minigames/games/NoePairsGame.tsx:163-169 | completed iff eight pairs are found; score at least 50; mistakes = moves − pairs ≥ 0 |
| NoePairs.RatingOf | src/minigames/games/NoePairsGame.tsx:198 | perfect for a win in at most 12 moves, great within 16, good for another win, time up otherwise |
| NoePairs.SessionResultValid | src/minigames/games/NoePairsGame.tsx:81-169 | any sequence of events keeps the invariant, and the result is valid |

## Left out

- Analytics.GetStats: a `stars` field that is a non-empty string is added as 0. In the program `sum + "…"` concatenates, so from that event on `totalStars` is a string, which an integer total cannot hold. The typed helpers `trackLevelComplete` and `trackQuizComplete` always pass a number.
- Storage: loading and saving the app state (src/state/AppState.tsx:97-145) is asynchronous I/O with JSON. It is not modelled.
- React plumbing: providers, context hooks, `useMemo`/`useCallback` and rendering. The reducers and handlers are modelled as pure functions.
- Randomness and time: `Math.random()` draws and `Date.now()` are parameters, not sources.
- Timers and animations: each timer callback is an explicit event. Races between callbacks and renders are not modelled.
- DanielShields.Advance: reads the current `lives`, `round` and `showResult`, where the source's continuations read values captured earlier. After a timeout (DanielShieldsGame.tsx:97-105), the test at line 100 and the `nextRound` called at line 101 both use the `lives` and `round` captured when that `nextRound` was created, and line 67 reads the same values. So in the source a run of timeouts with no tap never ends the game: `lives` falls below 0, `round` passes 15, and when a later tap does end it, `mistakes = 3 - lives` (line 187) exceeds 3. The model ends the game at the last life or round; its `DanielShields.Inv` (lives at least 0) and the bound `mistakes <= 3` of `DanielShields.Finish` hold only for the model. The tap continuation at line 171 reads `lives` and `showResult` from the render the tap ran in, where `showResult` is still empty, so its `'wrong'` case never applies. A wrong tap on the last life therefore starts one more round with no lives left. That round ends the game with 3 mistakes after a right tap, or 4 after a timeout or a wrong tap. This is the third row under "## Findings"; the model's `Advance` ends the game at once.
- DavidStone.Settle: sets the `speed` state only. The swing restarted at DavidStoneGame.tsx:151 is the `startOscillation` captured at the throw (its dependencies, lines 47-56, include `speed`), so the swing runs one step behind the state: 2000, 2000, 1800, 1600 and 1400 ms for the five throws. The cursor position is a parameter of `DavidStone.Throw`, so the swing period does not enter the model.
- JonahGuide: the speed-up is modelled as one step per 20 units (the corrected behaviour); the effect as written is `JonahGuide.SpeedEffectAsWritten`.
- StarPath.Tap: the 1 s pauses before a replay (StarPathGame.tsx:127-131) or the next sequence (lines 155-157) follow the tap at once, and taps during them are not modelled. In the source `step` stays `'playing'` through both pauses. A tap after a completed sequence is compared with `sequence[sequence.length]`, which is undefined, so it always costs a life. The pending `showSequence` (line 50) or replay then sets `step` back to `'showing'`, even after such a tap ended the game, so play resumes with 0 lives and a later wrong tap takes them below 0. `StarPath.Inv` (lives at least 0) and the bound `mistakes <= 3` of `StarPath.Finish` therefore hold only for the model. The per-direction highlight steps of the show are not modelled either.
- Floating point: reals stand for JavaScript numbers. Claims are bounds, not IEEE rounding.
- DavidStone: the cursor position read through `_value` is a parameter of the throw.
- JonahGuide: the obstacle height is a draw times 260, and the game width comes from the window width.
- The level catalog (`levels.json`) is not part of this model. It is a parameter: a sequence of level ids.
- Audio, narration, sticker emoji, the obstacle emoji and all visual components are not modelled.
- The `MiniGameProps` callback is represented by the result value a game returns.
- NoePairs: `pairsToMatch` is ignored by the game, which always uses eight pairs. The model does the same.
- Progress.TotalStars: `getTotalStars` is a ghost sum over the map, because a map has no order; it cannot be compiled, and its changes are stated by `Progress.TotalStarsAfterSetStars`.

## Findings

| source | as written | input that shows it | evidently intended | confidence | as-written member | corrected member |
|---|---|---|---|---|---|---|
| src/screens/QuizScreen.tsx:49-73 | the final count adds `lastOk` to `correct`, which `onPick` has already raised for the last answer | five questions, four right including the last: graded as five right, three stars instead of two | grade on `correct` alone, the true number of right answers | high, not executed | QuizScreen.DoubleCountWitness | QuizScreen.SessionCounts |
| src/minigames/games/JonahGuideGame.tsx:177-185 | the speed-up effect lists `speed` among its dependencies, so each speed change re-runs it while the distance is still a multiple of 20 | distance 20: the period falls from 120 to 15 ms in one cascade instead of to 117 ms | one 3 ms step at each multiple of 20 units | medium, not executed | JonahGuide.SpeedCollapseWitness | JonahGuide.SpeedNeverAtFloor |
| src/minigames/games/DanielShieldsGame.tsx:167-176 | the continuation after a tap tests `lives <= (showResult === 'wrong' ? 1 : 0)` with the values of the render the tap ran in, where `showResult` is still empty and `lives` is still the count before the tap | 1 life left, a wrong tap in round 3 of 15: the test reads `lives` 1 and an empty result, so another round starts with no life; a timeout there ends the game with 4 mistakes | end the game when the wrong tap takes the last life | high, not executed | DanielShields.LastLifeWrongTap | DanielShields.Advance |
