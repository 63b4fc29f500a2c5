/** The state of one session, the record the game keeps while a round is
    on: score and life, the two token lists, the grid, the clocks and the
    countdown; and the steps of a frame that work on it. */
module Sessions {
  import opened Config
  import opened Grid
  import opened Scoring
  import opened Tokens
  import opened TokenLists
  import opened EntryGate
  import opened Ramps
  import opened Movement

  class GameState {
    var score: int
    var life: int
    var timeLeft: real
    var combo: nat
    var maxCombo: nat
    var correctCount: nat
    var wrongCount: nat
    var stuckCount: nat
    var outsideQueue: seq<Token>
    var tokensInGrid: seq<Token>
    var grid: array2<Cell>
    var lastSpawnTime: real
    var spawnInterval: int
    var elapsedTime: real
    var countdownActive: bool
    var countdownValue: int
    var countdownTimer: real

    /** Tokens spawned in this session. */
    ghost var spawned: nat

    /** A fresh session on grid `g`: full life, the clock at 60 seconds, the
        countdown at 3, both lists empty. */
    constructor(g: array2<Cell>, firstInterval: int)
      ensures grid == g && CurrentTally() == Fresh && timeLeft == SessionSeconds
      ensures outsideQueue == [] && tokensInGrid == [] && spawned == 0
      ensures lastSpawnTime == 0.0 && spawnInterval == firstInterval && elapsedTime == 0.0
      ensures countdownActive && countdownValue == 3 && countdownTimer == 0.0
    {
      score, life, timeLeft, combo := 0, StartLife, SessionSeconds, 0;
      outsideQueue, tokensInGrid, grid := [], [], g;
      lastSpawnTime, spawnInterval, elapsedTime := 0.0, firstInterval, 0.0;
      correctCount, wrongCount, stuckCount, maxCombo := 0, 0, 0, 0;
      countdownActive, countdownValue, countdownTimer := true, 3, 0.0;
      spawned := 0;
    }

    function CurrentTally(): Tally
      reads this`score, this`life, this`combo, this`maxCombo, this`correctCount, this`wrongCount, this`stuckCount
    {
      Tally(score, life, combo, maxCombo, correctCount, wrongCount, stuckCount)
    }

    /** The grid keeps its shape and every node its outlets. */
    ghost predicate GridOk()
      reads this`grid, grid
    {
      && grid.Length0 == GridRows && grid.Length1 == GridCols
      && (forall r, c :: 0 <= r < GridRows && 0 <= c < GridCols ==> grid[r, c].validDirections == ValidDirections(r, c))
    }

    /** The two lists keep the list invariant, the grid list is in spawn
        order, and no more tokens are out than the difficulty allows. */
    ghost predicate ListsOk(d: Difficulty, bound: nat)
      reads this`outsideQueue, this`tokensInGrid
    {
      && ListsInvariant(Lists(outsideQueue, tokensInGrid), bound)
      && StrictlySorted(tokensInGrid)
      && |outsideQueue| + |tokensInGrid| <= DifficultySettings(d).maxTokens
    }

    /** The counters are consistent, and every token spawned is either still
        out or counted once as correct, wrong or stuck. */
    ghost predicate TallyOk()
      reads this`score, this`life, this`combo, this`maxCombo, this`correctCount, this`wrongCount, this`stuckCount,
            this`spawned, this`outsideQueue, this`tokensInGrid
    {
      && Consistent(CurrentTally())
      && spawned == |outsideQueue| + |tokensInGrid| + correctCount + wrongCount + stuckCount
    }

    /** The clocks: time left is 60 seconds less play time, the spawn
        interval is the tier for the play time, the spawn timer is below the
        interval, and during the countdown play time has not started. */
    ghost predicate ClockOk(d: Difficulty)
      reads this`elapsedTime, this`timeLeft, this`spawnInterval, this`lastSpawnTime,
            this`countdownActive, this`countdownValue, this`countdownTimer
    {
      && 0.0 <= elapsedTime
      && timeLeft == Max(0.0, SessionSeconds - elapsedTime)
      && spawnInterval == SpawnIntervalAt(d, elapsedTime)
      && 0.0 <= lastSpawnTime < spawnInterval as real
      && (countdownActive ==>
            elapsedTime == 0.0 && lastSpawnTime == 0.0 && 1 <= countdownValue <= 3 && 0.0 <= countdownTimer < 1.0)
    }

    /** What holds of a session between frames, under difficulty `d` with
        `bound` identities handed out. */
    ghost predicate Inv(d: Difficulty, bound: nat)
      reads this, grid
    {
      GridOk() && ListsOk(d, bound) && TallyOk() && ClockOk(d)
    }

    /** A session as a round starts, holding only its first token, keeps
        the invariant. */
    lemma StartsValid(d: Difficulty, id: nat, numberDraw: real)
      requires grid.Length0 == GridRows && grid.Length1 == GridCols
      requires forall r, c :: 0 <= r < GridRows && 0 <= c < GridCols ==> grid[r, c].validDirections == ValidDirections(r, c)
      requires 0.0 <= numberDraw < 1.0
      requires CurrentTally() == Fresh && timeLeft == SessionSeconds
      requires outsideQueue == [NewToken(id, TokenNumber(numberDraw))] && tokensInGrid == [] && spawned == 1
      requires lastSpawnTime == 0.0 && spawnInterval == DifficultySettings(d).spawnIntervals[0] && elapsedTime == 0.0
      requires countdownActive && countdownValue == 3 && countdownTimer == 0.0
      ensures Inv(d, id + 1)
    {
      NewTokenIsWaiting(id, numberDraw);
    }

    /** The countdown before play: a second passes each time the timer
        reaches 1, and when the count reaches 0 play starts with the clock
        and the spawn timer at 0. */
    method RunCountdown(deltaSec: real)
      modifies this`countdownTimer, this`countdownValue, this`countdownActive, this`elapsedTime, this`lastSpawnTime
      ensures old(countdownTimer) + deltaSec < 1.0 ==>
        && countdownTimer == old(countdownTimer) + deltaSec && countdownValue == old(countdownValue)
        && countdownActive == old(countdownActive)
        && elapsedTime == old(elapsedTime) && lastSpawnTime == old(lastSpawnTime)
      ensures old(countdownTimer) + deltaSec >= 1.0 ==>
        && countdownTimer == 0.0 && countdownValue == old(countdownValue) - 1
        && countdownActive == (old(countdownActive) && countdownValue > 0)
        && (countdownValue <= 0 ==> elapsedTime == 0.0 && lastSpawnTime == 0.0)
        && (countdownValue > 0 ==> elapsedTime == old(elapsedTime) && lastSpawnTime == old(lastSpawnTime))
    {
      countdownTimer := countdownTimer + deltaSec;
      if countdownTimer >= 1.0 {
        countdownTimer := 0.0;
        countdownValue := countdownValue - 1;
        if countdownValue <= 0 {
          countdownActive := false;
          elapsedTime := 0.0;
          lastSpawnTime := 0.0;
        }
      }
    }

    /** The session clock: play time grows by `deltaSec`, the time left is
        60 seconds less play time (never below 0), and the spawn interval
        steps down a tier at 20 and 40 seconds. */
    method Tick(d: Difficulty, deltaSec: real)
      requires 0.0 <= deltaSec && spawnInterval == SpawnIntervalAt(d, elapsedTime)
      modifies this`elapsedTime, this`timeLeft, this`spawnInterval
      ensures elapsedTime == old(elapsedTime) + deltaSec
      ensures timeLeft == Max(0.0, SessionSeconds - elapsedTime)
      ensures spawnInterval == SpawnIntervalAt(d, elapsedTime)
    {
      elapsedTime := elapsedTime + deltaSec;
      timeLeft := Max(0.0, SessionSeconds - elapsedTime);
      if elapsedTime >= 40.0 {
        spawnInterval := DifficultySettings(d).spawnIntervals[2];
      } else if elapsedTime >= 20.0 {
        spawnInterval := DifficultySettings(d).spawnIntervals[1];
      }
    }

    /** Writes a tally back to the session's counters. */
    method SetTally(t: Tally)
      modifies this`score, this`life, this`combo, this`maxCombo, this`correctCount, this`wrongCount, this`stuckCount
      ensures CurrentTally() == t
    {
      score, life, combo, maxCombo := t.score, t.life, t.combo, t.maxCombo;
      correctCount, wrongCount, stuckCount := t.correctCount, t.wrongCount, t.stuckCount;
    }

    /** The routing part of a frame: the gate, the ordering of the grid
        tokens by spawn order, and the movement engine. The invariant is
        kept; every departure is scored in turn; no token appears or
        vanishes except by departing. */
    method Route(d: Difficulty, deltaSec: real, ghost bound: nat)
      returns (feedback: seq<Feedback>, ghost moved: seq<Token>, ghost removed: seq<nat>)
      requires Inv(d, bound) && 0.0 <= deltaSec
      modifies this`outsideQueue, this`tokensInGrid, this`score, this`life, this`combo, this`maxCombo,
               this`correctCount, this`wrongCount, this`stuckCount
      ensures Routed(grid, old(outsideQueue), old(tokensInGrid), deltaSec, EdgeStep(d, elapsedTime, deltaSec),
                     outsideQueue, tokensInGrid, moved, feedback, removed)
      ensures Inv(d, bound)
      ensures CurrentTally() == ApplyAll(old(CurrentTally()), feedback)
      ensures |outsideQueue| + |tokensInGrid| + |feedback| == old(|outsideQueue| + |tokensInGrid|)
    {
      var step := EdgeStep(d, elapsedTime, deltaSec);
      var q, g, tally;
      q, g, tally, feedback, moved, removed := RouteLists(outsideQueue, tokensInGrid, grid, CurrentTally(), deltaSec, step, bound);
      Store(d, bound, q, g, tally);
    }

    /** Writes back lists and a tally that keep the invariant, with every
        token that left the lists counted in the tally. */
    method Store(d: Difficulty, ghost bound: nat, q: seq<Token>, g: seq<Token>, tally: Tally)
      requires Inv(d, bound)
      requires ListsInvariant(Lists(q, g), bound) && StrictlySorted(g) && Consistent(tally)
      requires |q| + |g| <= |outsideQueue| + |tokensInGrid|
      requires |q| + |g| + tally.correctCount + tally.wrongCount + tally.stuckCount
               == |outsideQueue| + |tokensInGrid| + correctCount + wrongCount + stuckCount
      modifies this`outsideQueue, this`tokensInGrid, this`score, this`life, this`combo, this`maxCombo,
               this`correctCount, this`wrongCount, this`stuckCount
      ensures outsideQueue == q && tokensInGrid == g && CurrentTally() == tally
      ensures Inv(d, bound)
    {
      outsideQueue, tokensInGrid := q, g;
      SetTally(tally);
    }
  }

  /** What the routing part of a frame does to the lists `q0` and `g0`: the
      queue becomes the gate's queue; the grid list with the gate's entrant
      is put in spawn order and makes the movement engine's pass (`moved`,
      with the departures `feedback` and their identities `removed`); the
      grid list then keeps the tokens that did not depart. */
  ghost predicate Routed(grid: array2<Cell>, q0: seq<Token>, g0: seq<Token>, deltaSec: real, step: real,
                         q: seq<Token>, g: seq<Token>, moved: seq<Token>, feedback: seq<Feedback>, removed: seq<nat>)
    reads grid
  {
    && q == Admit(q0, g0, deltaSec).queue
    && Pass(grid, SortBySpawnOrder(Admit(q0, g0, deltaSec).inGrid), moved, feedback, removed, deltaSec, step)
    && g == Without(moved, removed)
  }

  /** The routing part of a frame on the lists and the tally: the entry
      gate, then the grid tokens in spawn order, then the movement engine.
      The lists keep their invariant, each departure is scored in turn and
      takes one token off the lists. */
  method RouteLists(queue: seq<Token>, inGrid: seq<Token>, grid: array2<Cell>, t0: Tally, deltaSec: real, step: real, ghost bound: nat)
    returns (outsideQueue: seq<Token>, tokensInGrid: seq<Token>, tally: Tally, feedback: seq<Feedback>,
             ghost moved: seq<Token>, ghost removed: seq<nat>)
    requires ListsInvariant(Lists(queue, inGrid), bound) && StrictlySorted(inGrid)
    requires Consistent(t0) && 0.0 <= deltaSec && 0.0 <= step
    ensures Routed(grid, queue, inGrid, deltaSec, step, outsideQueue, tokensInGrid, moved, feedback, removed)
    ensures tally == ApplyAll(t0, feedback)
    ensures Consistent(tally)
    ensures Resolved(tally) == Resolved(t0) + |feedback|
    ensures ListsInvariant(Lists(outsideQueue, tokensInGrid), bound) && StrictlySorted(tokensInGrid)
    ensures |outsideQueue| + |tokensInGrid| + |feedback| == |queue| + |inGrid|
  {
    AdmitKeepsInvariant(queue, inGrid, deltaSec, bound);
    var admittedGrid;
    outsideQueue, admittedGrid := ScanQueue(queue, inGrid, deltaSec);
    SortKeepsInvariant(outsideQueue, admittedGrid, bound);
    var sorted := SortBySpawnOrder(admittedGrid);
    tokensInGrid, tally, feedback, moved, removed := MoveAll(outsideQueue, sorted, grid, t0, deltaSec, step, bound);
    ApplyAllConsistent(t0, feedback);
  }

  /** The entry gate: the queue is scanned from the back; a token on show
      or cooling down has its timer run down, and a ready token enters at
      node (1, 0) when nobody holds it. */
  method ScanQueue(queue: seq<Token>, inGrid: seq<Token>, deltaSec: real) returns (outsideQueue: seq<Token>, tokensInGrid: seq<Token>)
    ensures Lists(outsideQueue, tokensInGrid) == Admit(queue, inGrid, deltaSec)
  {
    outsideQueue, tokensInGrid := queue, inGrid;
    ghost var k := LastReady(queue);
    ghost var entered := false;
    for i := |queue| downto 0
      invariant entered ==>
        && 0 <= i <= k < |queue| && CanEnterGrid(inGrid)
        && tokensInGrid == inGrid + [Enter(queue[k])]
        && |outsideQueue| == |queue| - 1
        && (forall m :: i <= m < k ==> outsideQueue[m] == Showcase(queue[m], deltaSec))
        && (forall m :: k <= m < |queue| - 1 ==> outsideQueue[m] == Showcase(queue[m + 1], deltaSec))
      invariant !entered ==>
        && tokensInGrid == inGrid
        && |outsideQueue| == |queue|
        && (forall m :: i <= m < |queue| ==> outsideQueue[m] == Showcase(queue[m], deltaSec))
        && (k >= i ==> !CanEnterGrid(inGrid))
      invariant forall m :: 0 <= m < i ==> outsideQueue[m] == queue[m]
    {
      var token := outsideQueue[i];
      if token.displayAtStart {
        token := token.(displayDuration := token.displayDuration - deltaSec);
        if token.displayDuration > 0.0 {
          outsideQueue := outsideQueue[i := token];
          continue;
        }
        token := token.(displayAtStart := false);
        outsideQueue := outsideQueue[i := token];
        continue;
      }
      if token.entryCooldown > 0.0 {
        token := token.(entryCooldown := token.entryCooldown - deltaSec);
        outsideQueue := outsideQueue[i := token];
        continue;
      }
      if entered {
        assert Occupies(tokensInGrid[|inGrid|], EntryNode);
      }
      if CanEnterGrid(tokensInGrid) {
        assert !entered && i == k;
        tokensInGrid := tokensInGrid + [Enter(token)];
        outsideQueue := outsideQueue[..i] + outsideQueue[i + 1..];
        entered := true;
      }
    }
    if entered {
      assert outsideQueue == Showcased(RemoveAt(queue, k), deltaSec);
    } else {
      assert outsideQueue == Showcased(queue, deltaSec);
    }
  }
}
