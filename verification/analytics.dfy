/** The analytics buffer: a passive, in-memory log of app events (the last
    100) and of errors (the last 50), with an on/off switch. The program
    keeps one global instance; here it is an explicit value that every
    operation takes and returns, and the clock reading `Date.now()` is the
    parameter `now`. */
module Analytics {
  import opened Common

  datatype EventType =
    | LevelStarted | LevelCompleted | MiniGameStarted | MiniGameCompleted
    | QuizStarted | QuizCompleted | StickerEarned | SettingsChanged
    | Error | AppOpened | AvatarCreated

  /** A payload field value. `Undefined` is an optional argument that was
      not passed, which still appears as a key of the payload. */
  datatype Value = Str(s: string) | Num(n: int) | Bool(b: bool) | Undefined

  type Payload = map<string, Value>

  datatype Event = Event(kind: EventType, timestamp: int, data: Option<Payload>)

  datatype ErrorLog = ErrorLog(message: string, stack: Option<string>, context: Option<string>, timestamp: int)

  datatype Analytics = Analytics(events: seq<Event>, errors: seq<ErrorLog>, enabled: bool)

  const MaxEvents: nat := 100
  const MaxErrors: nat := 50

  /** A new instance: both logs empty, tracking on. */
  const Fresh: Analytics := Analytics([], [], true)

  /** Both logs within their caps. */
  predicate Bounded(a: Analytics)
  {
    |a.events| <= MaxEvents && |a.errors| <= MaxErrors
  }

  /** `push` followed by `if (length > cap) log = log.slice(-cap)`. */
  function PushCapped<T>(log: seq<T>, x: T, cap: nat): (r: seq<T>)
    requires cap > 0
    ensures |r| == Min(|log| + 1, cap)
    ensures r[|r| - 1] == x
    ensures r == (log + [x])[|log| + 1 - |r|..]
  {
    var l := log + [x];
    if |l| > cap then l[|l| - cap..] else l
  }

  /** `setEnabled`. */
  function SetEnabled(a: Analytics, enabled: bool): (r: Analytics)
    ensures r.enabled == enabled && r.events == a.events && r.errors == a.errors
  {
    a.(enabled := enabled)
  }

  /** What tracking `ev` does to the buffer: nothing while disabled;
      otherwise `ev` becomes the last event and the events before it are the
      most recent ones of the old log, in their old order. */
  predicate Recorded(a: Analytics, r: Analytics, ev: Event)
  {
    && r.errors == a.errors
    && r.enabled == a.enabled
    && (!a.enabled ==> r.events == a.events)
    && (a.enabled ==>
          && |r.events| == Min(|a.events| + 1, MaxEvents)
          && r.events[|r.events| - 1] == ev
          && r.events[..|r.events| - 1] == a.events[|a.events| + 1 - |r.events|..])
  }

  /** `track(type, data)`. */
  function Track(a: Analytics, now: int, kind: EventType, data: Option<Payload>): (r: Analytics)
    ensures Recorded(a, r, Event(kind, now, data))
    ensures Bounded(a) ==> Bounded(r)
  {
    if !a.enabled then a
    else
      var r := a.(events := PushCapped(a.events, Event(kind, now, data), MaxEvents));
      assert r.events[..|r.events| - 1] == a.events[|a.events| + 1 - |r.events|..];
      r
  }

  /** `trackLevelStart(levelId)`. */
  function TrackLevelStart(a: Analytics, now: int, levelId: string): (r: Analytics)
    ensures Recorded(a, r, Event(LevelStarted, now, Some(map["levelId" := Str(levelId)])))
  {
    Track(a, now, LevelStarted, Some(map["levelId" := Str(levelId)]))
  }

  /** An optional numeric argument as a payload value. */
  function OptNum(x: Option<int>): Value
  {
    match x
    case Some(n) => Num(n)
    case None => Undefined
  }

  function OptStr(x: Option<string>): Value
  {
    match x
    case Some(s) => Str(s)
    case None => Undefined
  }

  /** `trackLevelComplete(levelId, stars, timeSpent?)`. */
  function TrackLevelComplete(a: Analytics, now: int, levelId: string, stars: int, timeSpent: Option<int>): (r: Analytics)
    ensures Recorded(a, r, Event(LevelCompleted, now,
      Some(map["levelId" := Str(levelId), "stars" := Num(stars), "timeSpent" := OptNum(timeSpent)])))
  {
    Track(a, now, LevelCompleted,
      Some(map["levelId" := Str(levelId), "stars" := Num(stars), "timeSpent" := OptNum(timeSpent)]))
  }

  /** `trackMiniGameStart(levelId, gameType)`. */
  function TrackMiniGameStart(a: Analytics, now: int, levelId: string, gameType: string): (r: Analytics)
    ensures Recorded(a, r, Event(MiniGameStarted, now,
      Some(map["levelId" := Str(levelId), "gameType" := Str(gameType)])))
  {
    Track(a, now, MiniGameStarted, Some(map["levelId" := Str(levelId), "gameType" := Str(gameType)]))
  }

  /** `trackMiniGameComplete(levelId, gameType, score, mistakes)`. */
  function TrackMiniGameComplete(a: Analytics, now: int, levelId: string, gameType: string, score: int, mistakes: int): (r: Analytics)
    ensures Recorded(a, r, Event(MiniGameCompleted, now,
      Some(map["levelId" := Str(levelId), "gameType" := Str(gameType), "score" := Num(score), "mistakes" := Num(mistakes)])))
  {
    Track(a, now, MiniGameCompleted,
      Some(map["levelId" := Str(levelId), "gameType" := Str(gameType), "score" := Num(score), "mistakes" := Num(mistakes)]))
  }

  /** `trackQuizComplete(levelId, correct, total, stars)`. */
  function TrackQuizComplete(a: Analytics, now: int, levelId: string, correct: int, total: int, stars: int): (r: Analytics)
    ensures Recorded(a, r, Event(QuizCompleted, now,
      Some(map["levelId" := Str(levelId), "correct" := Num(correct), "total" := Num(total), "stars" := Num(stars)])))
  {
    Track(a, now, QuizCompleted,
      Some(map["levelId" := Str(levelId), "correct" := Num(correct), "total" := Num(total), "stars" := Num(stars)]))
  }

  /** `trackStickerEarned(stickerId, levelId)`. */
  function TrackStickerEarned(a: Analytics, now: int, stickerId: string, levelId: string): (r: Analytics)
    ensures Recorded(a, r, Event(StickerEarned, now,
      Some(map["stickerId" := Str(stickerId), "levelId" := Str(levelId)])))
  {
    Track(a, now, StickerEarned, Some(map["stickerId" := Str(stickerId), "levelId" := Str(levelId)]))
  }

  /** `trackSettingChanged(setting, value)`. */
  function TrackSettingChanged(a: Analytics, now: int, setting: string, value: bool): (r: Analytics)
    ensures Recorded(a, r, Event(SettingsChanged, now,
      Some(map["setting" := Str(setting), "value" := Bool(value)])))
  {
    Track(a, now, SettingsChanged, Some(map["setting" := Str(setting), "value" := Bool(value)]))
  }

  /** `logError(error, context?)`: the error log grows whether or not
      tracking is on; an `error` event follows only when it is on. */
  function LogError(a: Analytics, now: int, message: string, stack: Option<string>, context: Option<string>): (r: Analytics)
    ensures |r.errors| == Min(|a.errors| + 1, MaxErrors)
    ensures r.errors[|r.errors| - 1] == ErrorLog(message, stack, context, now)
    ensures r.errors[..|r.errors| - 1] == a.errors[|a.errors| + 1 - |r.errors|..]
    ensures r.enabled == a.enabled
    ensures Recorded(a.(errors := r.errors), r,
      Event(Error, now, Some(map["message" := Str(message), "context" := OptStr(context)])))
    ensures Bounded(a) ==> Bounded(r)
  {
    var errors := PushCapped(a.errors, ErrorLog(message, stack, context, now), MaxErrors);
    assert errors[..|errors| - 1] == a.errors[|a.errors| + 1 - |errors|..];
    Track(a.(errors := errors), now, Error, Some(map["message" := Str(message), "context" := OptStr(context)]))
  }

  /** `log.slice(-count)`: a positive count keeps the last `count` entries
      (all of them when there are fewer); a count of 0 keeps everything,
      since -0 is 0; a negative count drops the first `-count` entries. */
  function SliceLast<T>(log: seq<T>, count: int): (r: seq<T>)
    ensures count > 0 ==> r == log[|log| - Min(count, |log|)..]
    ensures count == 0 ==> r == log
    ensures count < 0 ==> r == log[Min(-count, |log|)..]
  {
    var start := -count;
    if start < 0 then log[Max(|log| + start, 0)..] else log[Min(start, |log|)..]
  }

  /** `getRecentEvents(count)`; the program's default count is 10. */
  function GetRecentEvents(a: Analytics, count: int): (r: seq<Event>)
    ensures count >= 1 ==> |r| == Min(count, |a.events|) && r == a.events[|a.events| - |r|..]
    ensures count == 0 ==> r == a.events
  {
    SliceLast(a.events, count)
  }

  /** `getRecentErrors(count)`; the program's default count is 10. */
  function GetRecentErrors(a: Analytics, count: int): (r: seq<ErrorLog>)
    ensures count >= 1 ==> |r| == Min(count, |a.errors|) && r == a.errors[|a.errors| - |r|..]
    ensures count == 0 ==> r == a.errors
  {
    SliceLast(a.errors, count)
  }

  /** `clear()`: both logs emptied, the switch left as it was. */
  function Clear(a: Analytics): (r: Analytics)
    ensures r.events == [] && r.errors == [] && r.enabled == a.enabled
  {
    Analytics([], [], a.enabled)
  }

  datatype Stats = Stats(totalEvents: nat, totalErrors: nat, levelsCompleted: nat, totalStars: int)

  /** `(e.data?.stars as number) || 0`, the amount `getStats` adds to its
      running total. The cast checks nothing: a number is added as it is,
      `true` is added as 1, and a falsy value (a missing field, `false`,
      `undefined`, `0`, the empty string) as 0. A non-empty string would
      turn the total into a string; the model adds 0 for it. */
  function StarsField(e: Event): (v: int)
    ensures v != 0 ==> e.data.Some? && "stars" in e.data.value
    ensures e.data.Some? && "stars" in e.data.value && e.data.value["stars"].Num? ==> v == e.data.value["stars"].n
    ensures e.data.Some? && "stars" in e.data.value && e.data.value["stars"].Bool? ==>
      (v == 1 <==> e.data.value["stars"].b) && (v == 0 <==> !e.data.value["stars"].b)
  {
    if e.data.None? || "stars" !in e.data.value then 0
    else
      match e.data.value["stars"]
      case Num(n) => n
      case Bool(b) => if b then 1 else 0
      case _ => 0
  }

  /** The number of `level_completed` events in a log: none exactly when
      no event has that kind, all exactly when every event has it. */
  function CountCompleted(events: seq<Event>): (n: nat)
    ensures n <= |events|
    ensures n == 0 <==> forall i :: 0 <= i < |events| ==> events[i].kind != LevelCompleted
    ensures n == |events| <==> forall i :: 0 <= i < |events| ==> events[i].kind == LevelCompleted
  {
    if events == [] then 0
    else CountCompleted(events[..|events| - 1]) + (if events[|events| - 1].kind == LevelCompleted then 1 else 0)
  }

  /** The count of a log is the count of its first part plus that of the
      rest, so the count does not depend on how the log was built up. */
  lemma {:induction false} CountCompletedAppend(a: seq<Event>, b: seq<Event>)
    ensures CountCompleted(a + b) == CountCompleted(a) + CountCompleted(b)
    decreases |b|
  {
    if b == [] {
      assert a + b == a;
    } else {
      var b' := b[..|b| - 1];
      assert (a + b)[..|a + b| - 1] == a + b';
      assert (a + b)[|a + b| - 1] == b[|b| - 1];
      CountCompletedAppend(a, b');
    }
  }

  /** The sum of the stars fields of the `level_completed` events of a log:
      0 when there is none, and, when every stars field is a grade of 0..3,
      between 0 and three times the number of completed levels. */
  function SumCompletedStars(events: seq<Event>): (s: int)
    ensures (forall i :: 0 <= i < |events| ==> events[i].kind != LevelCompleted) ==> s == 0
    ensures (forall i :: 0 <= i < |events| ==> 0 <= StarsField(events[i]) <= 3) ==>
      0 <= s <= 3 * CountCompleted(events)
  {
    if events == [] then 0
    else
      var e := events[|events| - 1];
      SumCompletedStars(events[..|events| - 1]) + (if e.kind == LevelCompleted then StarsField(e) else 0)
  }

  /** A `stars: true` payload counts as one star, as `true || 0` is added
      to the running number. */
  lemma TrueStarsCountOne(now: int)
    ensures GetStats(Track(Fresh, now, LevelCompleted, Some(map["stars" := Bool(true)]))).totalStars == 1
  {
    var data := Some(map["stars" := Bool(true)]);
    TrackCompletedAddsField(Fresh, now, data);
    assert StarsField(Event(LevelCompleted, now, data)) == 1;
  }

  /** Below the cap, tracking a `level_completed` event adds what its stars
      field adds to the star total. */
  lemma TrackCompletedAddsField(a: Analytics, now: int, data: Option<Payload>)
    requires a.enabled && |a.events| < MaxEvents
    ensures GetStats(Track(a, now, LevelCompleted, data)).totalStars
      == GetStats(a).totalStars + StarsField(Event(LevelCompleted, now, data))
  {
    var r := Track(a, now, LevelCompleted, data);
    assert r.events[..|r.events| - 1] == a.events;
  }

  /** `getStats()`. */
  function GetStats(a: Analytics): (st: Stats)
    ensures st.totalEvents == |a.events| && st.totalErrors == |a.errors|
    ensures st.levelsCompleted == CountCompleted(a.events) <= st.totalEvents
    ensures st.totalStars == SumCompletedStars(a.events)
  {
    Stats(|a.events|, |a.errors|, CountCompleted(a.events), SumCompletedStars(a.events))
  }

  /** While the log is below its cap, tracking a completed level adds one to
      the completed count and its stars to the star total, and leaves the
      error count alone. */
  lemma {:induction false} TrackLevelCompleteStats(a: Analytics, now: int, levelId: string, stars: int, timeSpent: Option<int>)
    requires a.enabled && |a.events| < MaxEvents
    ensures GetStats(TrackLevelComplete(a, now, levelId, stars, timeSpent)).levelsCompleted
      == GetStats(a).levelsCompleted + 1
    ensures GetStats(TrackLevelComplete(a, now, levelId, stars, timeSpent)).totalStars
      == GetStats(a).totalStars + stars
    ensures GetStats(TrackLevelComplete(a, now, levelId, stars, timeSpent)).totalErrors
      == GetStats(a).totalErrors
  {
    var e := Event(LevelCompleted, now, Some(map["levelId" := Str(levelId), "stars" := Num(stars), "timeSpent" := OptNum(timeSpent)]));
    var r := TrackLevelComplete(a, now, levelId, stars, timeSpent);
    assert r.events == a.events + [e];
    assert r.events[..|r.events| - 1] == a.events;
    assert r.events[|r.events| - 1] == e;
    assert StarsField(e) == stars;
    assert SumCompletedStars(r.events) == SumCompletedStars(a.events) + stars;
  }

  /** Tracking any other kind of event leaves the completed count and the
      star total as they were, below the cap. */
  lemma {:induction false} TrackOtherStats(a: Analytics, now: int, kind: EventType, data: Option<Payload>)
    requires |a.events| < MaxEvents && kind != LevelCompleted
    ensures GetStats(Track(a, now, kind, data)).levelsCompleted == GetStats(a).levelsCompleted
    ensures GetStats(Track(a, now, kind, data)).totalStars == GetStats(a).totalStars
  {
    var r := Track(a, now, kind, data);
    if a.enabled {
      assert r.events[..|r.events| - 1] == a.events;
    }
  }
}
