/** Fixed parameters of the routing game: grid size, arrow deltas, timing
    constants and the per-difficulty tables. */
module Config {

  const GridRows: int := 4
  const GridCols: int := 4

  /** Length of a session in seconds (the countdown clock starts here). */
  const SessionSeconds: real := 60.0
  /** Life a session starts with. */
  const StartLife: int := 3
  /** Seconds a freshly spawned token is shown in front of the entry before its entry cooldown starts. */
  const StartDisplaySeconds: real := 1.2
  /** Seconds after the showcase before a token is eligible to enter. */
  const EntryCooldownSeconds: real := 0.4

  datatype Direction = N | E | S | W

  /** The rotation order used by the switches. */
  const Directions: seq<Direction> := [N, E, S, W]

  /** Unit (row, column) step of each arrow. */
  function Delta(d: Direction): (rc: (int, int))
    ensures -1 <= rc.0 <= 1 && -1 <= rc.1 <= 1 && (rc.0 == 0) != (rc.1 == 0)
  {
    match d
    case N => (-1, 0)
    case E => (0, 1)
    case S => (1, 0)
    case W => (0, -1)
  }

  datatype Difficulty = Easy | Normal | Hard

  datatype ArrowInit = RandomArrows | BiasedArrows

  /** One row of the difficulty table. `tickSeconds` is carried but never read
      by the simulation. */
  datatype Settings = Settings(tickSeconds: real, maxTokens: nat, spawnIntervals: seq<int>, arrowInit: ArrowInit)

  /** The difficulty table. Every row has three spawn tiers that never widen,
      and room for at least two tokens. */
  function DifficultySettings(d: Difficulty): (s: Settings)
    ensures |s.spawnIntervals| == 3
    ensures 0 < s.spawnIntervals[2] <= s.spawnIntervals[1] <= s.spawnIntervals[0]
    ensures 2 <= s.maxTokens
  {
    match d
    case Easy => Settings(1.2, 2, [9, 8, 7], BiasedArrows)
    case Normal => Settings(1.0, 3, [8, 7, 6], RandomArrows)
    case Hard => Settings(0.9, 3, [7, 6, 5], BiasedArrows)
  }

  /** Edge travel time at the start and at the end of a session. */
  datatype Ramp = Ramp(base: real, min: real)

  function SpeedRamp(d: Difficulty): (r: Ramp)
    ensures 0.0 < r.min < r.base
  {
    match d
    case Easy => Ramp(1.2, 0.95)
    case Normal => Ramp(1.05, 0.65)
    case Hard => Ramp(0.95, 0.50)
  }

  function Min(a: real, b: real): real { if a <= b then a else b }
  function Max(a: real, b: real): real { if a >= b then a else b }
}
