/** The game object: the chosen difficulty, whether a round is running, the
    identity counter that outlives rounds, the time of the last frame, and
    the current session. Its methods are the game's entry points: starting
    a round, the per-frame loop and update, turning an arrow, ending and
    resetting. */
module Game {
  import opened Config
  import opened Grid
  import opened Scoring
  import opened Tokens
  import opened TokenLists
  import opened EntryGate
  import opened Ramps
  import opened Movement
  import opened Sessions

  /** The longest step a frame may take, in seconds. */
  const MaxFrameSeconds: real := 0.05

  /** What the clock part of a frame touches: play time, the spawn timer,
      the queue and the next identity to hand out. */
  datatype Clock = Clock(elapsed: real, lastSpawn: real, queue: seq<Token>, nextId: nat)

  /** The clock part of a frame of `deltaSec` at difficulty `d`, with
      `inGrid` tokens on the grid: play time grows by `deltaSec`; once the
      spawn timer reaches the spawn interval for the new play time it
      restarts at 0, and then a token with the next identity and a room
      drawn from `numberDraw` is queued if fewer than the difficulty's
      maximum are out; otherwise the timer just grows. */
  predicate Clocked(d: Difficulty, deltaSec: real, numberDraw: real, inGrid: nat, c0: Clock, c: Clock)
    requires 0.0 <= numberDraw < 1.0
  {
    var due := c0.lastSpawn + deltaSec >= SpawnIntervalAt(d, c.elapsed) as real;
    var made := due && |c0.queue| + inGrid < DifficultySettings(d).maxTokens;
    && c.elapsed == c0.elapsed + deltaSec
    && c.lastSpawn == (if due then 0.0 else c0.lastSpawn + deltaSec)
    && c.queue == c0.queue + (if made then [NewToken(c0.nextId, TokenNumber(numberDraw))] else [])
    && c.nextId == c0.nextId + (if made then 1 else 0)
  }

  class Game {
    var difficultyKey: Difficulty
    var gameRunning: bool
    var tokenId: nat
    var lastFrameTime: Option<real>
    var gameState: GameState?

    /** A running round has a session; a session keeps its invariant, with
        the identities handed out so far as the bound; and while the round
        runs there is life and time left. */
    ghost predicate Valid()
      reads this, gameState, if gameState != null then {gameState.grid} else {}
    {
      && (gameRunning ==> gameState != null)
      && (gameState != null ==>
            && gameState.Inv(difficultyKey, tokenId)
            && (gameRunning ==> gameState.life > 0 && gameState.timeLeft > 0.0))
    }

    /** The clock part of the state, with `queue` for the queue. */
    function ClockWith(queue: seq<Token>): Clock
      requires gameState != null
      reads this`tokenId, this`gameState, gameState`elapsedTime, gameState`lastSpawnTime
    {
      Clock(gameState.elapsedTime, gameState.lastSpawnTime, queue, tokenId)
    }

    /** Before any round: easy difficulty, nothing running, no session. */
    constructor()
      ensures Valid() && !gameRunning && gameState == null
      ensures tokenId == 0 && lastFrameTime == None && difficultyKey == Easy
    {
      difficultyKey, gameRunning, tokenId, lastFrameTime, gameState := Easy, false, 0, None, null;
    }

    /** A new token for the session's queue, with the next identity and a
        room drawn from `numberDraw`. */
    method EnqueueToken(numberDraw: real)
      requires gameState != null && 0.0 <= numberDraw < 1.0
      modifies this`tokenId, gameState`outsideQueue, gameState`spawned
      ensures gameState.outsideQueue == old(gameState.outsideQueue) + [NewToken(old(tokenId), TokenNumber(numberDraw))]
      ensures tokenId == old(tokenId) + 1 && gameState.spawned == old(gameState.spawned) + 1
    {
      var tokenNum := TokenNumber(numberDraw);
      var id := tokenId;
      tokenId := tokenId + 1;
      gameState.outsideQueue := gameState.outsideQueue + [NewToken(id, tokenNum)];
      gameState.spawned := gameState.spawned + 1;
    }

    /** A new round at difficulty `d`: a fresh grid drawn from `arrowDraws`,
        a fresh session with the countdown at 3, and the first token already
        in the queue. */
    method StartGame(d: Difficulty, arrowDraws: seq<ArrowDraw>, numberDraw: real)
      requires |arrowDraws| == GridRows * GridCols && forall k :: 0 <= k < |arrowDraws| ==> arrowDraws[k].Valid()
      requires 0.0 <= numberDraw < 1.0
      modifies this
      ensures Valid() && gameRunning && difficultyKey == d && lastFrameTime == None
      ensures fresh(gameState) && fresh(gameState.grid)
      ensures forall r, c :: 0 <= r < GridRows && 0 <= c < GridCols ==>
        gameState.grid[r, c] == InitialCell(DifficultySettings(d).arrowInit, arrowDraws, r, c)
      ensures gameState.CurrentTally() == Fresh && gameState.timeLeft == SessionSeconds
      ensures gameState.outsideQueue == [NewToken(old(tokenId), TokenNumber(numberDraw))] && gameState.tokensInGrid == []
      ensures tokenId == old(tokenId) + 1
      ensures gameState.countdownActive && gameState.countdownValue == 3 && gameState.countdownTimer == 0.0
    {
      difficultyKey := d;
      gameRunning := true;
      var grid := InitializeGrid(DifficultySettings(d).arrowInit, arrowDraws);
      gameState := new GameState(grid, DifficultySettings(d).spawnIntervals[0]);
      EnqueueToken(numberDraw);
      lastFrameTime := None;
      gameState.StartsValid(d, old(tokenId), numberDraw);
    }

    /** The spawn timer: it runs by `deltaSec`; once it reaches the spawn
        interval it restarts, and a token is queued if fewer than the
        difficulty's maximum are out. */
    method Spawn(deltaSec: real, numberDraw: real)
      requires gameState != null && 0.0 <= numberDraw < 1.0
      modifies this`tokenId, gameState`outsideQueue, gameState`spawned, gameState`lastSpawnTime
      ensures var due := old(gameState.lastSpawnTime) + deltaSec >= gameState.spawnInterval as real;
        var made := due && |old(gameState.outsideQueue)| + |gameState.tokensInGrid| < DifficultySettings(difficultyKey).maxTokens;
        && gameState.lastSpawnTime == (if due then 0.0 else old(gameState.lastSpawnTime) + deltaSec)
        && gameState.outsideQueue == old(gameState.outsideQueue) + (if made then [NewToken(old(tokenId), TokenNumber(numberDraw))] else [])
        && tokenId == old(tokenId) + (if made then 1 else 0)
        && gameState.spawned == old(gameState.spawned) + (if made then 1 else 0)
    {
      gameState.lastSpawnTime := gameState.lastSpawnTime + deltaSec;
      if gameState.lastSpawnTime >= gameState.spawnInterval as real {
        if |gameState.outsideQueue| + |gameState.tokensInGrid| < DifficultySettings(difficultyKey).maxTokens {
          EnqueueToken(numberDraw);
        }
        gameState.lastSpawnTime := 0.0;
      }
    }

    /** The clock part of a frame after the countdown: play time runs on
        (`Tick`) and the spawn timer may queue a token (`Spawn`), measured
        against the spawn interval for the new play time. The session
        invariant holds again afterwards, with one more identity handed out
        if a token was queued. */
    method AdvanceClock(deltaSec: real, numberDraw: real)
      requires gameState != null && gameState.Inv(difficultyKey, tokenId) && !gameState.countdownActive
      requires 0.0 <= deltaSec && 0.0 <= numberDraw < 1.0
      modifies this`tokenId, gameState`elapsedTime, gameState`timeLeft, gameState`spawnInterval,
               gameState`lastSpawnTime, gameState`outsideQueue, gameState`spawned
      ensures gameState.Inv(difficultyKey, tokenId)
      ensures gameState.CurrentTally() == old(gameState.CurrentTally()) && gameState.tokensInGrid == old(gameState.tokensInGrid)
      ensures Clocked(difficultyKey, deltaSec, numberDraw, |gameState.tokensInGrid|,
                      old(ClockWith(gameState.outsideQueue)), ClockWith(gameState.outsideQueue))
    {
      gameState.Tick(difficultyKey, deltaSec);
      EnqueueKeepsInvariant(gameState.outsideQueue, gameState.tokensInGrid, tokenId, numberDraw);
      Spawn(deltaSec, numberDraw);
    }

    /** A frame during the countdown: only the countdown runs. Below a
        second the timer grows and the count stays; at a second the count
        drops by one, and when it reaches 0 play starts with the play clock
        and the spawn timer at 0. */
    method Countdown(deltaSec: real)
      requires Valid() && gameState != null && gameState.countdownActive && 0.0 <= deltaSec
      modifies gameState`countdownActive, gameState`countdownValue, gameState`countdownTimer,
               gameState`elapsedTime, gameState`lastSpawnTime
      ensures Valid()
      ensures old(gameState.countdownTimer) + deltaSec < 1.0 ==>
        && gameState.countdownTimer == old(gameState.countdownTimer) + deltaSec
        && gameState.countdownValue == old(gameState.countdownValue) && gameState.countdownActive
      ensures old(gameState.countdownTimer) + deltaSec >= 1.0 ==>
        && gameState.countdownTimer == 0.0 && gameState.countdownValue == old(gameState.countdownValue) - 1
        && gameState.countdownActive == (gameState.countdownValue > 0)
      ensures gameState.elapsedTime == 0.0 && gameState.lastSpawnTime == 0.0
    {
      gameState.RunCountdown(deltaSec);
    }

    /** A frame of play: the clock and the routing (`ClockAndRoute`), then
        the round ends when life or time has run out. */
    method Play(deltaSec: real, numberDraw: real)
      returns (feedback: seq<Feedback>, ghost queued: seq<Token>, ghost moved: seq<Token>, ghost removed: seq<nat>)
      requires gameState != null && gameState.Inv(difficultyKey, tokenId) && !gameState.countdownActive
      requires 0.0 <= deltaSec && 0.0 <= numberDraw < 1.0
      modifies this`tokenId, this`gameRunning, gameState`elapsedTime, gameState`timeLeft, gameState`spawnInterval,
               gameState`lastSpawnTime, gameState`outsideQueue, gameState`tokensInGrid, gameState`spawned,
               gameState`score, gameState`life, gameState`combo, gameState`maxCombo,
               gameState`correctCount, gameState`wrongCount, gameState`stuckCount
      ensures Valid()
      ensures gameRunning == (old(gameRunning) && gameState.life > 0 && gameState.timeLeft > 0.0)
      ensures Clocked(difficultyKey, deltaSec, numberDraw, old(|gameState.tokensInGrid|),
                      old(ClockWith(gameState.outsideQueue)), ClockWith(queued))
      ensures Routed(gameState.grid, queued, old(gameState.tokensInGrid), deltaSec, EdgeStep(difficultyKey, gameState.elapsedTime, deltaSec),
                     gameState.outsideQueue, gameState.tokensInGrid, moved, feedback, removed)
      ensures gameState.CurrentTally() == ApplyAll(old(gameState.CurrentTally()), feedback)
      ensures |gameState.outsideQueue| + |gameState.tokensInGrid| + |feedback|
              == old(|gameState.outsideQueue| + |gameState.tokensInGrid|) + tokenId - old(tokenId)
    {
      feedback, queued, moved, removed := ClockAndRoute(deltaSec, numberDraw);
      EndIfOver();
    }

    /** The clock advances and the spawn timer may queue a token (`queued`
        is the queue after that); then the tokens are routed through the
        gate and the movement engine as `Route` states. */
    method ClockAndRoute(deltaSec: real, numberDraw: real)
      returns (feedback: seq<Feedback>, ghost queued: seq<Token>, ghost moved: seq<Token>, ghost removed: seq<nat>)
      requires gameState != null && gameState.Inv(difficultyKey, tokenId) && !gameState.countdownActive
      requires 0.0 <= deltaSec && 0.0 <= numberDraw < 1.0
      modifies this`tokenId, gameState`elapsedTime, gameState`timeLeft, gameState`spawnInterval,
               gameState`lastSpawnTime, gameState`outsideQueue, gameState`tokensInGrid, gameState`spawned,
               gameState`score, gameState`life, gameState`combo, gameState`maxCombo,
               gameState`correctCount, gameState`wrongCount, gameState`stuckCount
      ensures gameState.Inv(difficultyKey, tokenId)
      ensures Clocked(difficultyKey, deltaSec, numberDraw, old(|gameState.tokensInGrid|),
                      old(ClockWith(gameState.outsideQueue)), ClockWith(queued))
      ensures Routed(gameState.grid, queued, old(gameState.tokensInGrid), deltaSec, EdgeStep(difficultyKey, gameState.elapsedTime, deltaSec),
                     gameState.outsideQueue, gameState.tokensInGrid, moved, feedback, removed)
      ensures gameState.CurrentTally() == ApplyAll(old(gameState.CurrentTally()), feedback)
      ensures |gameState.outsideQueue| + |gameState.tokensInGrid| + |feedback|
              == old(|gameState.outsideQueue| + |gameState.tokensInGrid|) + tokenId - old(tokenId)
    {
      ghost var inGrid, tally := gameState.tokensInGrid, gameState.CurrentTally();
      AdvanceClock(deltaSec, numberDraw);
      assert gameState.tokensInGrid == inGrid && gameState.CurrentTally() == tally;
      queued := gameState.outsideQueue;
      ghost var clock := ClockWith(queued);
      feedback, moved, removed := gameState.Route(difficultyKey, deltaSec, tokenId);
      assert ClockWith(queued) == clock;
    }

    /** The round ends once life or time has run out. */
    method EndIfOver()
      requires gameState != null && gameState.Inv(difficultyKey, tokenId)
      modifies this`gameRunning
      ensures Valid()
      ensures gameRunning == (old(gameRunning) && gameState.life > 0 && gameState.timeLeft > 0.0)
    {
      if gameState.life <= 0 || gameState.timeLeft <= 0.0 {
        EndGame();
      }
    }

    /** One frame: the countdown while it runs, play otherwise, each as
        `Countdown` and `Play` state it. Every departure is scored in turn,
        and the game stays valid. */
    method UpdateGame(deltaSec: real, numberDraw: real)
      returns (feedback: seq<Feedback>, ghost queued: seq<Token>, ghost moved: seq<Token>, ghost removed: seq<nat>)
      requires Valid() && gameState != null
      requires 0.0 <= deltaSec && 0.0 <= numberDraw < 1.0
      modifies this`tokenId, this`gameRunning, gameState`elapsedTime, gameState`timeLeft, gameState`spawnInterval,
               gameState`lastSpawnTime, gameState`outsideQueue, gameState`tokensInGrid, gameState`spawned,
               gameState`score, gameState`life, gameState`combo, gameState`maxCombo,
               gameState`correctCount, gameState`wrongCount, gameState`stuckCount,
               gameState`countdownActive, gameState`countdownValue, gameState`countdownTimer
      ensures Valid()
      ensures gameRunning == (old(gameRunning) && gameState.life > 0 && gameState.timeLeft > 0.0)
      ensures gameState.CurrentTally() == ApplyAll(old(gameState.CurrentTally()), feedback)
      ensures old(gameState.countdownActive) ==>
        && feedback == [] && tokenId == old(tokenId)
        && gameState.outsideQueue == old(gameState.outsideQueue) && gameState.tokensInGrid == old(gameState.tokensInGrid)
        && gameState.elapsedTime == 0.0 && gameState.lastSpawnTime == 0.0
        && (old(gameState.countdownTimer) + deltaSec < 1.0 ==>
              && gameState.countdownTimer == old(gameState.countdownTimer) + deltaSec
              && gameState.countdownValue == old(gameState.countdownValue) && gameState.countdownActive)
        && (old(gameState.countdownTimer) + deltaSec >= 1.0 ==>
              && gameState.countdownTimer == 0.0 && gameState.countdownValue == old(gameState.countdownValue) - 1
              && gameState.countdownActive == (gameState.countdownValue > 0))
      ensures !old(gameState.countdownActive) ==>
        && !gameState.countdownActive
        && gameState.countdownValue == old(gameState.countdownValue)
        && gameState.countdownTimer == old(gameState.countdownTimer)
        && Clocked(difficultyKey, deltaSec, numberDraw, old(|gameState.tokensInGrid|),
                   old(ClockWith(gameState.outsideQueue)), ClockWith(queued))
        && Routed(gameState.grid, queued, old(gameState.tokensInGrid), deltaSec, EdgeStep(difficultyKey, gameState.elapsedTime, deltaSec),
                  gameState.outsideQueue, gameState.tokensInGrid, moved, feedback, removed)
        && |gameState.outsideQueue| + |gameState.tokensInGrid| + |feedback|
           == old(|gameState.outsideQueue| + |gameState.tokensInGrid|) + tokenId - old(tokenId)
    {
      if gameState.countdownActive {
        Countdown(deltaSec);
        feedback, queued, moved, removed := [], gameState.outsideQueue, [], [];
      } else {
        feedback, queued, moved, removed := Play(deltaSec, numberDraw);
      }
    }

    /** The frame callback: nothing at all changes unless a round is
        running. The first frame (no previous time, or a previous time of 0)
        takes a step of 0; otherwise the step is the time since the last
        frame in seconds, at most 50 milliseconds. The frame itself is
        `UpdateGame` with that step. */
    method GameLoop(timestamp: real, numberDraw: real)
      returns (deltaSec: real, feedback: seq<Feedback>, ghost queued: seq<Token>, ghost moved: seq<Token>, ghost removed: seq<nat>)
      requires Valid() && 0.0 <= numberDraw < 1.0
      requires lastFrameTime.Some? ==> lastFrameTime.value <= timestamp
      modifies this, gameState
      ensures Valid() && gameState == old(gameState) && difficultyKey == old(difficultyKey)
      ensures 0.0 <= deltaSec <= MaxFrameSeconds
      ensures !old(gameRunning) ==>
        && feedback == [] && deltaSec == 0.0
        && unchanged(this) && (gameState != null ==> unchanged(gameState))
      ensures old(gameRunning) ==>
        && lastFrameTime == Some(timestamp)
        && deltaSec == (if old(lastFrameTime) == None || old(lastFrameTime) == Some(0.0) then 0.0
                        else Min(MaxFrameSeconds, (timestamp - old(lastFrameTime).value) / 1000.0))
      ensures old(gameRunning) ==>
        && gameRunning == (gameState.life > 0 && gameState.timeLeft > 0.0)
        && gameState.CurrentTally() == ApplyAll(old(gameState.CurrentTally()), feedback)
      ensures old(gameRunning) && old(gameState.countdownActive) ==>
        && feedback == [] && tokenId == old(tokenId)
        && gameState.outsideQueue == old(gameState.outsideQueue) && gameState.tokensInGrid == old(gameState.tokensInGrid)
        && gameState.elapsedTime == 0.0 && gameState.lastSpawnTime == 0.0
        && (old(gameState.countdownTimer) + deltaSec < 1.0 ==>
              && gameState.countdownTimer == old(gameState.countdownTimer) + deltaSec
              && gameState.countdownValue == old(gameState.countdownValue) && gameState.countdownActive)
        && (old(gameState.countdownTimer) + deltaSec >= 1.0 ==>
              && gameState.countdownTimer == 0.0 && gameState.countdownValue == old(gameState.countdownValue) - 1
              && gameState.countdownActive == (gameState.countdownValue > 0))
      ensures old(gameRunning) && !old(gameState.countdownActive) ==>
        && !gameState.countdownActive
        && gameState.countdownValue == old(gameState.countdownValue)
        && gameState.countdownTimer == old(gameState.countdownTimer)
        && Clocked(difficultyKey, deltaSec, numberDraw, old(|gameState.tokensInGrid|),
                   old(ClockWith(gameState.outsideQueue)), ClockWith(queued))
        && Routed(gameState.grid, queued, old(gameState.tokensInGrid), deltaSec, EdgeStep(difficultyKey, gameState.elapsedTime, deltaSec),
                  gameState.outsideQueue, gameState.tokensInGrid, moved, feedback, removed)
        && |gameState.outsideQueue| + |gameState.tokensInGrid| + |feedback|
           == old(|gameState.outsideQueue| + |gameState.tokensInGrid|) + tokenId - old(tokenId)
    {
      deltaSec, feedback, queued, moved, removed := 0.0, [], [], [], [];
      if !gameRunning {
        return;
      }
      if lastFrameTime == None || lastFrameTime == Some(0.0) {
        lastFrameTime := Some(timestamp);
      }
      deltaSec := Min(MaxFrameSeconds, (timestamp - lastFrameTime.value) / 1000.0);
      lastFrameTime := Some(timestamp);
      feedback, queued, moved, removed := UpdateGame(deltaSec, numberDraw);
    }

    /** A tap on a node turns its arrow one quarter clockwise; nothing else
        on the grid changes. */
    method RotateArrow(r: int, c: int)
      requires Valid() && gameState != null && 0 <= r < GridRows && 0 <= c < GridCols
      modifies gameState.grid
      ensures Valid()
      ensures gameState.grid[r, c] == old(gameState.grid[r, c]).(currentDirection := Rotate(old(gameState.grid[r, c].currentDirection)))
      ensures forall i, j :: 0 <= i < GridRows && 0 <= j < GridCols && (i != r || j != c) ==>
        gameState.grid[i, j] == old(gameState.grid[i, j])
    {
      var cell := gameState.grid[r, c];
      gameState.grid[r, c] := cell.(currentDirection := Rotate(cell.currentDirection));
    }

    /** The end of a round. */
    method EndGame()
      modifies this`gameRunning
      ensures !gameRunning
    {
      gameRunning := false;
    }

    /** Back to the difficulty choice: the session is dropped. */
    method ResetGame()
      requires Valid() && !gameRunning
      modifies this`gameState
      ensures Valid() && gameState == null
    {
      gameState := null;
    }
  }
}
