/** The parental settings store: five independent switches, all on by
    default, and the reducer that changes them. The app state reuses the
    same record and the same single-switch update. */
module Settings {

  datatype Settings = Settings(
    shuffleQuestions: bool,
    narration: bool,
    sound: bool,
    animations: bool,
    music: bool)

  /** `keyof Settings`. */
  datatype Key = ShuffleQuestions | Narration | Sound | Animations | Music

  /** Reading one switch by name, `settings[key]`. */
  function Get(s: Settings, k: Key): bool
  {
    match k
    case ShuffleQuestions => s.shuffleQuestions
    case Narration => s.narration
    case Sound => s.sound
    case Animations => s.animations
    case Music => s.music
  }

  /** `{ ...settings, [key]: value }`. */
  function With(s: Settings, k: Key, v: bool): (r: Settings)
    ensures Get(r, k) == v
    ensures forall k' :: k' != k ==> Get(r, k') == Get(s, k')
  {
    Settings(
      if k == ShuffleQuestions then v else s.shuffleQuestions,
      if k == Narration then v else s.narration,
      if k == Sound then v else s.sound,
      if k == Animations then v else s.animations,
      if k == Music then v else s.music)
  }

  /** Two records that agree on every switch are the same record. */
  lemma Extensional(s: Settings, t: Settings)
    requires forall k :: Get(s, k) == Get(t, k)
    ensures s == t
  {
    assert Get(s, ShuffleQuestions) == Get(t, ShuffleQuestions);
    assert Get(s, Narration) == Get(t, Narration);
    assert Get(s, Sound) == Get(t, Sound);
    assert Get(s, Animations) == Get(t, Animations);
    assert Get(s, Music) == Get(t, Music);
  }

  /** `initialSettings`: every switch on. */
  const Initial: Settings := Settings(true, true, true, true, true)

  /** The settings actions. `Other` stands for any action object whose type
      the reducer does not recognise. */
  datatype Action =
    | SetSetting(key: Key, value: bool)
    | Reset
    | Hydrate(settings: Settings)
    | Other

  /** `settingsReducer`. */
  function Reduce(s: Settings, a: Action): (r: Settings)
    ensures a.SetSetting? ==> Get(r, a.key) == a.value
    ensures a.SetSetting? ==> forall k :: k != a.key ==> Get(r, k) == Get(s, k)
    ensures a.Reset? ==> forall k :: Get(r, k)
    ensures a.Hydrate? ==> r == a.settings
    ensures a.Other? ==> r == s
  {
    match a
    case SetSetting(k, v) => With(s, k, v)
    case Reset => Initial
    case Hydrate(h) => h
    case Other => s
  }

  /** Setting a switch twice to the same value is the same as setting it once. */
  lemma SetSettingIdempotent(s: Settings, k: Key, v: bool)
    ensures Reduce(Reduce(s, SetSetting(k, v)), SetSetting(k, v)) == Reduce(s, SetSetting(k, v))
  {
    Extensional(Reduce(Reduce(s, SetSetting(k, v)), SetSetting(k, v)), Reduce(s, SetSetting(k, v)));
  }

  /** Setting two different switches gives the same record in either order. */
  lemma SetSettingCommutes(s: Settings, k1: Key, v1: bool, k2: Key, v2: bool)
    requires k1 != k2
    ensures Reduce(Reduce(s, SetSetting(k1, v1)), SetSetting(k2, v2))
      == Reduce(Reduce(s, SetSetting(k2, v2)), SetSetting(k1, v1))
  {
    var a1 := With(s, k1, v1);
    var b1 := With(s, k2, v2);
    var a := With(a1, k2, v2);
    var b := With(b1, k1, v1);
    forall k ensures Get(a, k) == Get(b, k) {
      if k == k1 {
        assert Get(a, k) == Get(a1, k) == v1 == Get(b, k);
      } else if k == k2 {
        assert Get(b, k) == Get(b1, k) == v2 == Get(a, k);
      } else {
        assert Get(a, k) == Get(a1, k) == Get(s, k) == Get(b1, k) == Get(b, k);
      }
    }
    Extensional(a, b);
  }

  /** Setting the same switch twice keeps the later value. */
  lemma SetSettingOverwrites(s: Settings, k: Key, v1: bool, v2: bool)
    ensures Reduce(Reduce(s, SetSetting(k, v1)), SetSetting(k, v2)) == Reduce(s, SetSetting(k, v2))
  {
    Extensional(With(With(s, k, v1), k, v2), With(s, k, v2));
  }

  /** Reset ignores the prior record entirely. */
  lemma ResetForgets(s: Settings, t: Settings)
    ensures Reduce(s, Reset) == Reduce(t, Reset) == Initial
  {
  }
}
