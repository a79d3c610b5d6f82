/** The contract between the mini-game screen and the seven games: the
    game tags, the per-tag configuration, the properties a game receives
    and the result it hands back. */
module MiniGames {
  import opened Common

  datatype MiniGameType =
    | CreationPlace
    | NoePairs
    | DavidStone
    | DanielShields
    | JonahGuide
    | StarPath
    | ParablesSeed

  /** The tag as written in level data. */
  function Key(t: MiniGameType): string
  {
    match t
    case CreationPlace => "creation_place"
    case NoePairs => "noe_pairs"
    case DavidStone => "david_stone"
    case DanielShields => "daniel_shields"
    case JonahGuide => "jonah_guide"
    case StarPath => "star_path"
    case ParablesSeed => "parables_seed"
  }

  /** Reading a tag back; any other string is not a mini-game. */
  function Parse(s: string): (t: Option<MiniGameType>)
    ensures t.Some? ==> Key(t.value) == s
  {
    if s == "creation_place" then Some(CreationPlace)
    else if s == "noe_pairs" then Some(NoePairs)
    else if s == "david_stone" then Some(DavidStone)
    else if s == "daniel_shields" then Some(DanielShields)
    else if s == "jonah_guide" then Some(JonahGuide)
    else if s == "star_path" then Some(StarPath)
    else if s == "parables_seed" then Some(ParablesSeed)
    else None
  }

  /** Every tag reads back as itself, so no two tags share a key. */
  lemma ParseKey(t: MiniGameType)
    ensures Parse(Key(t)) == Some(t)
  {
  }

  /** The seven tags. */
  const AllTypes: seq<MiniGameType> :=
    [CreationPlace, NoePairs, DavidStone, DanielShields, JonahGuide, StarPath, ParablesSeed]

  /** There are exactly seven tags: the list holds each one once. */
  lemma SevenTypes(t: MiniGameType)
    ensures t in AllTypes
    ensures |AllTypes| == 7
    ensures forall i, j :: 0 <= i < j < |AllTypes| ==> AllTypes[i] != AllTypes[j]
  {
  }

  /** `MiniGameConfig`: only the pairs game carries a parameter. */
  datatype MiniGameConfig =
    | CreationPlaceConfig
    | NoePairsConfig(pairsToMatch: int)
    | DavidStoneConfig
    | DanielShieldsConfig
    | JonahGuideConfig
    | StarPathConfig
    | ParablesSeedConfig

  function TypeOf(c: MiniGameConfig): MiniGameType
  {
    match c
    case CreationPlaceConfig => CreationPlace
    case NoePairsConfig(_) => NoePairs
    case DavidStoneConfig => DavidStone
    case DanielShieldsConfig => DanielShields
    case JonahGuideConfig => JonahGuide
    case StarPathConfig => StarPath
    case ParablesSeedConfig => ParablesSeed
  }

  /** The `pairsToMatch` a config carries, if any. */
  function PairsToMatch(c: MiniGameConfig): (n: Option<int>)
    ensures n.Some? <==> TypeOf(c) == NoePairs
  {
    if c.NoePairsConfig? then Some(c.pairsToMatch) else None
  }

  /** Every tag has a config and the config carries its tag. */
  lemma ConfigForEveryType(t: MiniGameType)
    ensures exists c :: TypeOf(c) == t
  {
    var c := match t
      case CreationPlace => CreationPlaceConfig
      case NoePairs => NoePairsConfig(8)
      case DavidStone => DavidStoneConfig
      case DanielShields => DanielShieldsConfig
      case JonahGuide => JonahGuideConfig
      case StarPath => StarPathConfig
      case ParablesSeed => ParablesSeedConfig;
    assert TypeOf(c) == t;
  }

  /** `MiniGameResult`: exactly these four fields reach `onDone`. */
  datatype MiniGameResult = MiniGameResult(completed: bool, score: int, mistakes: int, seconds: int)

  /** The documented range of a score. */
  predicate ValidResult(r: MiniGameResult)
  {
    0 <= r.score <= 100
  }

  /** `MiniGameProps` without the callback: the result a game returns stands
      for the value it passes to `onDone`. */
  datatype MiniGameProps = MiniGameProps(narrationEnabled: bool, pairsToMatch: Option<int>)
}
