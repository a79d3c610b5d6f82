/** The progress store: the best star count per level and the set of earned
    stickers, with the progress reducer. The reducer of the program calls
    the analytics buffer while it computes the new state; here it returns
    the new state together with the notices it raised, and `Dispatch`
    delivers those notices to the buffer in the same order. */
module Progress {
  import opened Common
  import opened StateUtils
  import Analytics

  /** `starsByLevel` maps level ids to star counts; `stickers` maps sticker
      ids to a flag (only `true` is ever written). */
  datatype Progress = Progress(starsByLevel: map<string, int>, stickers: map<string, bool>)

  /** `initialProgress`. */
  const Initial: Progress := Progress(map[], map[])

  datatype Action =
    | SetStars(levelId: string, stars: int, stickerId: Option<string>)
    | Reset
    | Hydrate(progress: Progress)
    | Other

  /** A sticker id is acted on only when it is truthy: present and not "". */
  predicate Given(stickerId: Option<string>)
  {
    stickerId.Some? && stickerId.value != ""
  }

  /** `stickers[id]` is truthy. */
  predicate Owned(stickers: map<string, bool>, id: string)
  {
    id in stickers && stickers[id]
  }

  /** The analytics calls the reducer makes. */
  datatype Notice =
    | StickerEarnedNotice(stickerId: string, levelId: string)
    | LevelCompletedNotice(levelId: string, stars: int)

  /** This reducer awards a sticker only for a run with at least one star. */
  predicate Awards(a: Action)
    requires a.SetStars?
  {
    Given(a.stickerId) && a.stars > 0
  }

  /** The sticker is being added and was not owned before. */
  predicate EarnsNew(p: Progress, a: Action)
    requires a.SetStars?
  {
    Awards(a) && !Owned(p.stickers, a.stickerId.value)
  }

  /** `progressReducer`, returning the notices it raised. */
  function Reduce(p: Progress, a: Action): (r: (Progress, seq<Notice>))
    ensures a.SetStars? ==>
      && StarsOf(r.0.starsByLevel, a.levelId) == Max(StarsOf(p.starsByLevel, a.levelId), a.stars)
      && a.levelId in r.0.starsByLevel
      && (forall id :: id != a.levelId ==>
            (id in r.0.starsByLevel <==> id in p.starsByLevel) && StarsOf(r.0.starsByLevel, id) == StarsOf(p.starsByLevel, id))
    ensures a.SetStars? ==>
      && p.stickers.Keys <= r.0.stickers.Keys
      && (forall id :: Owned(r.0.stickers, id) <==> Owned(p.stickers, id) || (Awards(a) && id == a.stickerId.value))
    ensures a.SetStars? ==>
      |r.1| == (if EarnsNew(p, a) then 1 else 0) + (if a.stars > StarsOf(p.starsByLevel, a.levelId) then 1 else 0)
    ensures a.SetStars? ==> forall n :: n in r.1 ==>
      && (n.StickerEarnedNotice? ==> EarnsNew(p, a) && n == StickerEarnedNotice(a.stickerId.value, a.levelId))
      && (n.LevelCompletedNotice? ==> a.stars > StarsOf(p.starsByLevel, a.levelId) && n == LevelCompletedNotice(a.levelId, a.stars))
    ensures a.SetStars? && EarnsNew(p, a) ==> r.1[0] == StickerEarnedNotice(a.stickerId.value, a.levelId)
    ensures a.SetStars? && a.stars > StarsOf(p.starsByLevel, a.levelId) ==>
      r.1[|r.1| - 1] == LevelCompletedNotice(a.levelId, a.stars)
    ensures a.SetStars? ==> |r.1| <= 2
    ensures a.Reset? ==> r == (Initial, [])
    ensures a.Hydrate? ==> r == (a.progress, [])
    ensures a.Other? ==> r == (p, [])
  {
    match a
    case SetStars(levelId, stars, stickerId) =>
      var prev := StarsOf(p.starsByLevel, levelId);
      var best := Max(prev, stars);
      var award := Given(stickerId) && stars > 0;
      var stickers := if award then p.stickers[stickerId.value := true] else p.stickers;
      var earned := if award && !Owned(p.stickers, stickerId.value)
        then [StickerEarnedNotice(stickerId.value, levelId)] else [];
      var completed := if stars > prev then [LevelCompletedNotice(levelId, stars)] else [];
      (Progress(p.starsByLevel[levelId := best], stickers), earned + completed)
    case Reset => (Initial, [])
    case Hydrate(q) => (q, [])
    case Other => (p, [])
  }

  /** The event the analytics helper of a notice records. */
  function NoticeEvent(now: int, n: Notice): Analytics.Event
  {
    match n
    case StickerEarnedNotice(s, l) =>
      Analytics.Event(Analytics.StickerEarned, now, Some(map["stickerId" := Analytics.Str(s), "levelId" := Analytics.Str(l)]))
    case LevelCompletedNotice(l, st) =>
      Analytics.Event(Analytics.LevelCompleted, now,
        Some(map["levelId" := Analytics.Str(l), "stars" := Analytics.Num(st), "timeSpent" := Analytics.Undefined]))
  }

  /** The events of a list of notices, one each, in the same order. */
  function NoticeEvents(now: int, ns: seq<Notice>): (es: seq<Analytics.Event>)
    ensures |es| == |ns|
    ensures forall k :: 0 <= k < |ns| ==> es[k] == NoticeEvent(now, ns[k])
  {
    seq(|ns|, k requires 0 <= k < |ns| => NoticeEvent(now, ns[k]))
  }

  /** Hands each notice to the matching analytics helper, in order: while
      tracking is on, the log ends with the notices' events in the order of
      the notices, and keeps the newest 100 events of the whole. */
  function Notify(an: Analytics.Analytics, now: int, notices: seq<Notice>): (r: Analytics.Analytics)
    ensures r.errors == an.errors && r.enabled == an.enabled
    ensures !an.enabled ==> r.events == an.events
    ensures Analytics.Bounded(an) ==> Analytics.Bounded(r)
    ensures an.enabled && Analytics.Bounded(an) ==> |r.events| == Min(|an.events| + |notices|, Analytics.MaxEvents)
    ensures an.enabled && |an.events| <= Analytics.MaxEvents ==>
      r.events == Analytics.SliceLast(an.events + NoticeEvents(now, notices), Analytics.MaxEvents)
    ensures an.enabled && |an.events| + |notices| <= Analytics.MaxEvents ==>
      r.events == an.events + NoticeEvents(now, notices)
    decreases |notices|
  {
    if notices == [] then
      assert an.events + NoticeEvents(now, notices) == an.events;
      assert an.events[0..] == an.events;
      an
    else
      var an' := Deliver(an, now, notices[0]);
      assert an.enabled ==> |an'.events| == Min(|an.events| + 1, Analytics.MaxEvents);
      var r := Notify(an', now, notices[1..]);
      if an.enabled && |an.events| <= Analytics.MaxEvents then
        NotifyStep(an, now, notices, r.events);
        r
      else r
  }

  /** One step of `Notify`: delivering the first notice and then the rest
      leaves the newest 100 of the log followed by all the notices' events. */
  lemma NotifyStep(an: Analytics.Analytics, now: int, notices: seq<Notice>, rest: seq<Analytics.Event>)
    requires an.enabled && |an.events| <= Analytics.MaxEvents && notices != []
    requires rest == Analytics.SliceLast(Deliver(an, now, notices[0]).events + NoticeEvents(now, notices[1..]), Analytics.MaxEvents)
    ensures rest == Analytics.SliceLast(an.events + NoticeEvents(now, notices), Analytics.MaxEvents)
    ensures |an.events| + |notices| <= Analytics.MaxEvents ==> rest == an.events + NoticeEvents(now, notices)
  {
    DeliverAppends(an, now, notices[0]);
    NoticeEventsCons(now, notices);
    AppendThenNewest(an.events, NoticeEvent(now, notices[0]), NoticeEvents(now, notices[1..]), Analytics.MaxEvents);
  }

  lemma NoticeEventsCons(now: int, notices: seq<Notice>)
    requires notices != []
    ensures NoticeEvents(now, notices) == [NoticeEvent(now, notices[0])] + NoticeEvents(now, notices[1..])
  {
  }

  /** Appending one entry and keeping the newest m, then appending more and
      keeping the newest m, keeps the newest m of everything appended; when
      everything fits, nothing is dropped. */
  lemma AppendThenNewest<T>(x: seq<T>, e: T, ys: seq<T>, m: nat)
    requires m > 0
    ensures Analytics.SliceLast(Analytics.SliceLast(x + [e], m) + ys, m) == Analytics.SliceLast(x + ([e] + ys), m)
    ensures |x| + 1 + |ys| <= m ==> Analytics.SliceLast(x + ([e] + ys), m) == x + ([e] + ys)
  {
    NewestTwice(x + [e], ys, m);
    assert (x + [e]) + ys == x + ([e] + ys);
    var all := x + ([e] + ys);
    assert all[0..] == all;
  }

  /** The analytics helper one notice calls. */
  function Deliver(an: Analytics.Analytics, now: int, n: Notice): (r: Analytics.Analytics)
    ensures Analytics.Recorded(an, r, NoticeEvent(now, n))
    ensures n.StickerEarnedNotice? ==> Analytics.Recorded(an, r, Analytics.Event(Analytics.StickerEarned, now,
      Some(map["stickerId" := Analytics.Str(n.stickerId), "levelId" := Analytics.Str(n.levelId)])))
    ensures n.LevelCompletedNotice? ==> Analytics.Recorded(an, r, Analytics.Event(Analytics.LevelCompleted, now,
      Some(map["levelId" := Analytics.Str(n.levelId), "stars" := Analytics.Num(n.stars), "timeSpent" := Analytics.Undefined])))
  {
    match n
    case StickerEarnedNotice(s, l) => Analytics.TrackStickerEarned(an, now, s, l)
    case LevelCompletedNotice(l, st) => Analytics.TrackLevelComplete(an, now, l, st, None)
  }

  /** While tracking is on, one delivery leaves the newest 100 of the log
      followed by the notice's event. */
  lemma DeliverAppends(an: Analytics.Analytics, now: int, n: Notice)
    requires an.enabled && |an.events| <= Analytics.MaxEvents
    ensures Deliver(an, now, n).events == Analytics.SliceLast(an.events + [NoticeEvent(now, n)], Analytics.MaxEvents)
  {
    var r := Deliver(an, now, n);
    RecordedIsNewest(r.events, an.events, NoticeEvent(now, n), Analytics.MaxEvents);
  }

  /** A log whose last entry is `e` and whose earlier entries are the newest
      of `x` is the newest m of `x + [e]`. */
  lemma RecordedIsNewest<T>(r: seq<T>, x: seq<T>, e: T, m: nat)
    requires m > 0 && |x| <= m && |r| == Min(|x| + 1, m)
    requires r[|r| - 1] == e && r[..|r| - 1] == x[|x| + 1 - |r|..]
    ensures r == Analytics.SliceLast(x + [e], m)
  {
    var l := x + [e];
    assert r == r[..|r| - 1] + [r[|r| - 1]];
    assert l[|l| - |r|..] == x[|x| + 1 - |r|..] + [e];
  }

  /** Keeping the newest m of a log, appending, and keeping the newest m
      again is the same as appending and keeping the newest m once. */
  lemma NewestTwice<T>(x: seq<T>, y: seq<T>, m: nat)
    requires m > 0
    ensures Analytics.SliceLast(Analytics.SliceLast(x, m) + y, m) == Analytics.SliceLast(x + y, m)
  {
    var x' := Analytics.SliceLast(x, m);
    if |x| > m {
      assert x' + y == (x + y)[|x| - m..];
      var s := x + y;
      var i := |x| - m;
      var k := |s[i..]| - Min(m, |s[i..]|);
      assert s[i..][k..] == s[i + k..];
    } else {
      assert x' == x;
    }
  }

  /** One dispatch: the new progress and the analytics buffer after the
      reducer's calls. */
  function Dispatch(p: Progress, an: Analytics.Analytics, now: int, a: Action): (r: (Progress, Analytics.Analytics))
    ensures r.0 == Reduce(p, a).0
    ensures !a.SetStars? ==> r.1 == an
  {
    var (p', notices) := Reduce(p, a);
    (p', Notify(an, now, notices))
  }

  /** Stars never go down under SET_STARS, and a sticker once owned stays owned. */
  lemma SetStarsNeverRegresses(p: Progress, a: Action, id: string)
    requires a.SetStars?
    ensures StarsOf(Reduce(p, a).0.starsByLevel, id) >= StarsOf(p.starsByLevel, id)
    ensures Owned(p.stickers, id) ==> Owned(Reduce(p, a).0.stickers, id)
  {
  }

  /** Two SET_STARS on the same level leave the maximum of the two, whatever
      their order. */
  lemma SetStarsMaxMerge(p: Progress, level: string, s1: int, s2: int, k1: Option<string>, k2: Option<string>)
    ensures StarsOf(Reduce(Reduce(p, SetStars(level, s1, k1)).0, SetStars(level, s2, k2)).0.starsByLevel, level)
      == Max(StarsOf(p.starsByLevel, level), Max(s1, s2))
    ensures Reduce(Reduce(p, SetStars(level, s1, k1)).0, SetStars(level, s2, k2)).0.starsByLevel
      == Reduce(Reduce(p, SetStars(level, s2, k2)).0, SetStars(level, s1, k1)).0.starsByLevel
  {
  }

  /** Repeating a SET_STARS changes nothing and raises no further notice. */
  lemma SetStarsIdempotent(p: Progress, a: Action)
    requires a.SetStars?
    ensures Reduce(Reduce(p, a).0, a).0 == Reduce(p, a).0
    ensures Reduce(Reduce(p, a).0, a).1 == []
  {
  }

  /** The sum of all entries of a map, the `Object.values(m).reduce(+, 0)`
      of `getTotalStars`. The order of summation does not matter. */
  ghost function SumValues(m: map<string, int>): (s: int)
    ensures m == map[] ==> s == 0
    ensures (forall k :: k in m ==> m[k] >= 0) ==> s >= 0
    decreases |m|
  {
    if m == map[] then 0
    else
      var k :| k in m;
      m[k] + SumValues(m - {k})
  }

  /** Taking out any one key first gives the same sum. */
  lemma {:induction false} SumValuesRemove(m: map<string, int>, k: string)
    requires k in m
    ensures SumValues(m) == m[k] + SumValues(m - {k})
    decreases |m|
  {
    var k' :| k' in m && SumValues(m) == m[k'] + SumValues(m - {k'});
    if k' != k {
      assert |m - {k'}| < |m| by { assert k' in m; }
      SumValuesRemove(m - {k'}, k);
      assert |m - {k}| < |m| by { assert k in m; }
      SumValuesRemove(m - {k}, k');
      assert m - {k'} - {k} == m - {k} - {k'};
    }
  }

  /** Overwriting one entry changes the sum by the difference. */
  lemma SumValuesUpdate(m: map<string, int>, k: string, v: int)
    ensures SumValues(m[k := v]) == SumValues(m) - StarsOf(m, k) + v
  {
    var m' := m[k := v];
    SumValuesRemove(m', k);
    if k in m {
      SumValuesRemove(m, k);
      assert m' - {k} == m - {k};
    } else {
      assert m' - {k} == m;
    }
  }

  /** `getTotalStars()`: 0 with no level played; with counts that are not
      negative, at least the count of any one level. */
  ghost function TotalStars(p: Progress): (t: int)
    ensures p.starsByLevel == map[] ==> t == 0
    ensures (forall id :: id in p.starsByLevel ==> p.starsByLevel[id] >= 0) ==>
      t >= 0 && forall id :: id in p.starsByLevel ==> t >= p.starsByLevel[id]
  {
    forall id | id in p.starsByLevel && (forall k :: k in p.starsByLevel ==> p.starsByLevel[k] >= 0)
      ensures SumValues(p.starsByLevel) >= p.starsByLevel[id]
    {
      SumValuesRemove(p.starsByLevel, id);
    }
    SumValues(p.starsByLevel)
  }

  /** `getTotalStickers()`: the number of entries equal to true, so at most
      the number of entries, and 0 exactly when no entry is true. */
  function TotalStickers(p: Progress): (n: nat)
    ensures n <= |p.stickers|
    ensures n == 0 <==> forall id :: id in p.stickers ==> !p.stickers[id]
  {
    var owned := set id | id in p.stickers && p.stickers[id];
    SubsetCard(owned, p.stickers.Keys);
    assert forall id :: id in p.stickers && p.stickers[id] ==> id in owned;
    |owned|
  }

  lemma SubsetCard<T>(a: set<T>, b: set<T>)
    requires a <= b
    ensures |a| <= |b|
  {
    assert b == a + (b - a);
  }

  /** SET_STARS raises the star total by exactly the level's improvement, so
      the total never goes down. */
  lemma TotalStarsAfterSetStars(p: Progress, a: Action)
    requires a.SetStars?
    ensures TotalStars(Reduce(p, a).0)
      == TotalStars(p) + Max(StarsOf(p.starsByLevel, a.levelId), a.stars) - StarsOf(p.starsByLevel, a.levelId)
    ensures TotalStars(Reduce(p, a).0) >= TotalStars(p)
  {
    SumValuesUpdate(p.starsByLevel, a.levelId, Max(StarsOf(p.starsByLevel, a.levelId), a.stars));
  }

  /** SET_STARS adds one to the sticker count exactly when it raises a
      sticker-earned notice, and otherwise leaves the count alone. */
  lemma TotalStickersAfterSetStars(p: Progress, a: Action)
    requires a.SetStars?
    ensures TotalStickers(Reduce(p, a).0)
      == TotalStickers(p) + (if EarnsNew(p, a) then 1 else 0)
  {
    var r := Reduce(p, a).0;
    var before := set id | id in p.stickers && p.stickers[id];
    var after := set id | id in r.stickers && r.stickers[id];
    if EarnsNew(p, a) {
      assert after == before + {a.stickerId.value};
    } else {
      assert after == before;
    }
  }
}
