/**
 * Shared data model of the Warrenwalker game engine: the records the engine
 * passes between its parts. Built from how the engine uses them (the game
 * state set up in src/App.tsx and the three content tables under src/data/),
 * which is richer than the declarations in src/types/game.ts.
 */
module GameTypes {

  datatype Option<+T> = None | Some(value: T)

  /** The eight warren types that occur anywhere in the engine. */
  datatype WarrenType = Memory | Shadow | Pain | Dream | Entropy | Time | Echo | Void

  /** `WARREN_TYPES` (src/constants/gameConstants.ts:9), in its order. */
  const AllWarrenTypes: seq<WarrenType> := [Memory, Shadow, Pain, Dream, Entropy, Time, Echo, Void]

  /** The lower-case name a warren type carries in the source. */
  function TypeName(t: WarrenType): string
  {
    match t
    case Memory => "memory"
    case Shadow => "shadow"
    case Pain => "pain"
    case Dream => "dream"
    case Entropy => "entropy"
    case Time => "time"
    case Echo => "echo"
    case Void => "void"
  }

  /** The three player stats; the engine keeps each in [0, 10]. */
  datatype Stats = Stats(sanity: int, memory: int, perception: int)

  const MinStat := 0
  const MaxStat := 10

  predicate StatsInRange(s: Stats)
  {
    MinStat <= s.sanity <= MaxStat && MinStat <= s.memory <= MaxStat && MinStat <= s.perception <= MaxStat
  }

  datatype StatName = Sanity | MemoryStat | Perception

  function StatValue(s: Stats, n: StatName): int
  {
    match n
    case Sanity => s.sanity
    case MemoryStat => s.memory
    case Perception => s.perception
  }

  datatype Difficulty = Easy | Normal | Hard

  /** Player settings; a restart keeps them. */
  datatype Settings = Settings(
    textSpeed: real,
    difficulty: Difficulty,
    autoAdvance: bool,
    showStats: bool,
    soundEnabled: bool)

  /** A choice's optional stat deltas; an absent delta is `None`. */
  datatype StatEffect = StatEffect(sanity: Option<int>, memory: Option<int>, perception: Option<int>)

  datatype Choice = Choice(
    text: string,
    result: string,
    fragmentChance: Option<real>,
    statEffect: Option<StatEffect>)

  /** A warren as the engine reads it (its cosmetic style is not part of this model). */
  datatype Warren = Warren(name: string, wtype: WarrenType, description: string, choices: seq<Choice>)

  datatype Fragment = Fragment(name: string, source: string, layer: int, description: string)

  /**
   * A discovery of the content table. `requiresStats` maps a stat to the
   * least value it must have; a discovery without thresholds has the empty map.
   */
  datatype Discovery = Discovery(
    id: string,
    name: string,
    description: string,
    warrenType: WarrenType,
    requiresStats: map<StatName, int>)
}
