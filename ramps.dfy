/** How a session speeds up: the spawn interval drops a tier at 20 and at 40
    seconds, and the time to travel one edge shrinks linearly over the 60
    seconds of a session. */
module Ramps {
  import opened Config

  /** The spawn interval after `elapsed` seconds of play. */
  function SpawnIntervalAt(d: Difficulty, elapsed: real): (interval: int)
    ensures interval in DifficultySettings(d).spawnIntervals
    ensures 0 < interval
  {
    var tiers := DifficultySettings(d).spawnIntervals;
    if elapsed >= 40.0 then tiers[2]
    else if elapsed >= 20.0 then tiers[1]
    else tiers[0]
  }

  /** Spawning never slows down as a session goes on. */
  lemma SpawnIntervalNeverWidens(d: Difficulty, a: real, b: real)
    requires a <= b
    ensures SpawnIntervalAt(d, b) <= SpawnIntervalAt(d, a)
  {
  }

  /** The first tier holds for the first 20 seconds, the last from 40 on. */
  lemma SpawnTiers(d: Difficulty, elapsed: real)
    ensures elapsed < 20.0 ==> SpawnIntervalAt(d, elapsed) == DifficultySettings(d).spawnIntervals[0]
    ensures elapsed >= 40.0 ==> SpawnIntervalAt(d, elapsed) == DifficultySettings(d).spawnIntervals[2]
  {
  }

  /** Seconds to travel one edge after `elapsed` seconds of play: the
      ramp's base at the start, its minimum from 60 seconds on, and in
      between the straight line from one to the other. */
  function LineMoveSeconds(d: Difficulty, elapsed: real): (secs: real)
    ensures SpeedRamp(d).min <= secs
    ensures 0.0 <= elapsed ==> secs <= SpeedRamp(d).base
    ensures elapsed >= SessionSeconds ==> secs == SpeedRamp(d).min
    ensures elapsed == 0.0 ==> secs == SpeedRamp(d).base
  {
    var cfg := SpeedRamp(d);
    var progress := Min(1.0, elapsed / SessionSeconds);
    cfg.base - (cfg.base - cfg.min) * progress
  }

  /** Edges never take longer as a session goes on. */
  lemma LineMoveSecondsNeverGrow(d: Difficulty, a: real, b: real)
    requires a <= b
    ensures LineMoveSeconds(d, b) <= LineMoveSeconds(d, a)
  {
    var cfg := SpeedRamp(d);
    var pa := Min(1.0, a / SessionSeconds);
    var pb := Min(1.0, b / SessionSeconds);
    assert pa <= pb;
    assert (cfg.base - cfg.min) * pa <= (cfg.base - cfg.min) * pb;
  }

  /** The fraction of an edge a travelling token covers in a step of
      `deltaSec` seconds. */
  function EdgeStep(d: Difficulty, elapsed: real, deltaSec: real): (step: real)
    requires 0.0 <= deltaSec
    ensures 0.0 <= step
    ensures step * LineMoveSeconds(d, elapsed) == deltaSec
  {
    deltaSec / LineMoveSeconds(d, elapsed)
  }
}
