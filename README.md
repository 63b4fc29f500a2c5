# Routing game core: a Dafny model

This project models the simulation at the heart of `main.js`, a browser routing game. Tokens carry case numbers (rooms 1 to 8). They wait in an outside queue, enter a 4×4 grid of switches at node (1, 0), and follow the switch arrows to one of eight rooms on the east and south edges. The player rotates the arrows. A token delivered to its own room scores; one delivered elsewhere, or stuck too long, costs score and life. A round lasts 60 seconds, or until life runs out.

What is modelled, module by module:

- `Config`: the constants. Grid size, arrow deltas, the session length, start life, the showcase and cooldown seconds, and the difficulty table and speed ramp.
- `Grid`: the switches.
  - The valid directions of a cell.
  - Rotation N→E→S→W.
  - Where an arrow leads: a room, a neighbouring node, or nowhere.
  - The random and the outlet-biased initial arrow, and building the grid.
- `Scoring`: the session's score, life, combo, best combo and the three counters.
  - The effect of a correct delivery, a wrong delivery and a stall.
  - The consistency of these counters over any run of departures.
- `Tokens`: the token record and its states.
  - Waiting outside, or moving on the grid.
  - Node occupancy and the entry check.
  - The three-stage move cycle (0 deciding, 1 on an edge, 2 arrived).
  - The stall rule, and why a token leaves the grid.
- `TokenLists`: ordering the grid tokens by spawn order, and dropping the collected identities.
- `EntryGate`: the backwards scan of the queue.
  - The showcase, then the cooldown, then entry at (1, 0) when that node is free.
  - The invariant the two lists keep.
- `Ramps`: the spawn interval tiers, and the shrinking time to travel an edge.
- `Movement`: the pass over the grid tokens, in the list order the source uses. Each token steps against the list as the earlier steps left it; departures are scored in turn and collected for removal.
- `Sessions`: the per-round record (`gameState`) as a class, and its invariant:
  - the grid shape;
  - the list invariant;
  - the token cap;
  - tally consistency and token accounting;
  - the clocks and the countdown.
  It also holds the countdown, the clock and the routing part of a frame. `Routed` states what the routing part does to the two lists.
- `Game`: the game object as a class.
  - Starting a round, the spawn timer, the frame callback and the per-frame update.
  - `Clocked` states what the clock part of a frame does: play time, the spawn timer, the queue and the next identity. The frame contracts are stated through `Clocked` and `Routed`.
  - Rotating an arrow, ending a round and resetting.

Randomness (`Math.random`) becomes parameters:
- an `ArrowDraw` pair per cell for the initial arrows;
- a real in [0, 1) for the room of each new token.

Time is a Dafny `real`. Two behaviours of the code are worth stating plainly:
- The entry scan runs from the back of the queue, so when several queued tokens are ready, the one queued last enters, not the first-queued. `EntryGate.LatestReadyEnters` states this.
- A token whose arrow leaves the grid away from a room does not move: it waits at its node and accumulates stuck time.

## Model

| member | source | states |
|---|---|---|
| Config.Delta | main.js:8-13 | each arrow moves one step along exactly one axis |
| Config.DifficultySettings | main.js:53-57 | every difficulty has three spawn tiers that never widen and room for at least two tokens |
| Config.SpeedRamp | main.js:18-22 | every ramp ends faster than it starts, and stays positive |
| Grid.ValidDirections | main.js:237-244 | an arrow is valid exactly when its neighbour is on the grid; the list is in N, E, S, W order and has 2 to 4 entries |
| Grid.Rotate | main.js:465-472 | a press moves the arrow to the next place in N, E, S, W, wrapping from W to N |
| Grid.RotateTimesIndex | main.js:465-472 | k presses move the arrow k places round the cycle |
| Grid.RotationPeriod | main.js:465-472 | k presses restore the arrow exactly when k is a multiple of 4 |
| Grid.NextPosition | main.js:420-443 | an arrow leads to a room exactly when it points east from column 3 or south from row 3, east from row r to room r + 1 and south from column c to room c + 5, and it leads to a node exactly when the arrow is valid, that node being the neighbour |
| Grid.RoomExitsAreUnique | main.js:429-435 | no two (node, arrow) pairs lead to the same room |
| Grid.EveryRoomHasAnExit | main.js:429-435 | each of the eight rooms is reachable from some node and arrow |
| Grid.Pick | main.js:228 | `floor(u * n)` for a draw u in [0, 1) is an index below n |
| Grid.OutletBiasedDirection | main.js:246-256 | under a biased draw (below 0.8) a cell on the east column points east and one on the bottom row south, east first at the corner, so the arrow leads out to a room; the other draws are covered by `Grid.BiasedFallbackIsValid` |
| Grid.BiasedFallbackIsValid | main.js:246-256 | when the bias draw fails, or the cell is on neither the east column nor the bottom row, the biased choice is one of the cell's valid arrows |
| Grid.InitialArrowIsNoDeadEnd | main.js:222-228 | random initialisation picks a valid arrow, and neither mode starts a switch pointing nowhere |
| Grid.BiasedArrowMayLeaveValidList | main.js:246-256 | biased initialisation can point an east-column cell east, outside its valid list |
| Grid.InitializeGrid | main.js:218-235 | a fresh 4×4 grid whose cell (r, c) holds the valid directions and the initial arrow drawn for it |
| Scoring.FreshIsConsistent | main.js:191-208 | a fresh tally is consistent and has resolved no token |
| Scoring.CreditRewards | main.js:345-351 | a correct delivery raises the combo by one, keeps the best combo at least the combo, adds 10 plus the new combo capped at 5, keeps life |
| Scoring.MisroutePenalises | main.js:352-358 | a wrong delivery costs 5 points and one life, resets the combo, and counts one wrong delivery |
| Scoring.StallPenalises | main.js:388-395 | a stall costs 3 points and one life, resets the combo, and counts one stall |
| Scoring.LifeRunsOutAfterThreeFailures | main.js:400-402 | life reaches 0 exactly when wrong deliveries and stalls add up to 3 |
| Scoring.ApplyAllConsistent | main.js:339-396 | any run of departures keeps the tally consistent and counts each departure once |
| Tokens.TokenNumber | main.js:511 | a new token's room is between 1 and 8 |
| Tokens.NewTokenIsWaiting | main.js:510-529 | a new token is a well-formed waiting token on show, with spawn order one above its identity |
| Tokens.IsNodeOccupied | main.js:413-418 | a node is occupied exactly when some token of the grid list holds it: it stands there deciding, or travels or has arrived towards it; `Tokens.MovingHoldsOneNode` and `Tokens.AdvanceChoosesFreeNode` build on it |
| Tokens.CanEnterGrid | main.js:409-411 | the gate is open exactly when no grid token holds node (1, 0); `EntryGate.EnterKeepsExclusive` shows that an entrant then keeps the holdings exclusive and closes the gate |
| Tokens.MovingHoldsOneNode | main.js:413-418 | a grid token holds exactly one node, and it is on the grid |
| Tokens.ExclusiveSubset | main.js:398 | dropping tokens keeps every node held by at most one token |
| Tokens.UpdateKeepsExclusive | main.js:361-367 | a step that only takes a node nobody held keeps the holdings exclusive |
| Tokens.Advance | main.js:341-387 | the engine's step keeps the token's identity, and a deciding token commits only to a node that no token of the live list holds; `Tokens.AdvanceCycle` and `Tokens.AdvanceChoosesFreeNode` state the whole stage cycle |
| Tokens.AdvanceCycle | main.js:341-386 | a step moves the stage only 0→1 (commit: one more edge, stuck time and progress cleared), 1→2 (progress reached 1, reset) and 2→0 (target adopted, cleared); the token stays well formed |
| Tokens.AdvanceChoosesFreeNode | main.js:361-370 | a deciding token commits exactly when its arrow leads to a node that nobody holds |
| Tokens.OutcomeReasons | main.js:343-360 | a token leaves for exactly one reason: correct delivery, wrong delivery, or stall after its step; a delivered token is never also stalled, and a token that stays is not stale |
| Tokens.SettledBounds | main.js:388 | a token that stays has taken at most 30 edges and been stuck under 8 seconds |
| TokenLists.SortBySpawnOrder | main.js:337 | sorting rearranges the grid list without adding or losing tokens |
| TokenLists.SortedBySpawnOrder | main.js:337 | with distinct spawn orders, the sorted list is strictly increasing in spawn order |
| TokenLists.SortedHasUniqueIds | main.js:510-516 | a list sorted by spawn order, with spawn order one above the identity, has distinct identities |
| TokenLists.Without | main.js:398 | a token survives the filter exactly when it was in the list and its identity was not collected |
| TokenLists.WithoutLength | main.js:398 | the filter drops exactly the tokens whose identities were collected |
| TokenLists.WithoutSorted | main.js:398 | the filter keeps the spawn order |
| EntryGate.ShowcaseKeepsWaiting | main.js:314-323 | a showcase or cooldown step keeps a token waiting and the same token; a token on show cannot enter in that step |
| EntryGate.LastReady | main.js:312-323 | the entry candidate is the last ready token in the queue; none behind it is ready |
| EntryGate.EnterIsMoving | main.js:324-331 | an entering token becomes a well-formed grid token deciding at (1, 0) |
| EntryGate.EnterKeepsExclusive | main.js:324-334 | an entrant keeps the holdings exclusive and blocks any second entrant in the same step |
| EntryGate.Admit | main.js:311-335 | one pass of the gate loses no token; the grid list grows exactly when some queued token is ready and (1, 0) is free, and then by the last ready token entering, which leaves the queue without it and with the others' timers run down; otherwise the grid list is unchanged and every queued token only runs down its showcase or cooldown |
| EntryGate.AdmitKeepsInvariant | main.js:311-335 | the gate keeps both lists well formed and apart, moves at most one token, and loses none |
| EntryGate.LatestReadyEnters | main.js:311-334 | of two ready tokens, the one later in the queue wins the entry |
| EntryGate.EnqueueKeepsInvariant | main.js:510-529 | queueing a token with the next identity keeps the lists well formed |
| EntryGate.SortKeepsInvariant | main.js:337 | sorting keeps the lists well formed and the length, and leaves the grid list strictly sorted |
| Ramps.SpawnIntervalAt | main.js:297-301 | the spawn interval is one of the difficulty's three tiers, and positive |
| Ramps.SpawnIntervalNeverWidens | main.js:297-301 | spawning never slows down as play time grows |
| Ramps.SpawnTiers | main.js:297-301 | the first tier holds before 20 seconds, the last from 40 seconds |
| Ramps.LineMoveSeconds | main.js:754-760 | edge time lies between the ramp's minimum and base; it is the base at 0 and the minimum from 60 seconds |
| Ramps.LineMoveSecondsNeverGrow | main.js:754-760 | edges never take longer as play time grows |
| Ramps.EdgeStep | main.js:372-373 | the progress step times the edge time is the elapsed step |
| Movement.StepToken | main.js:341-396 | one loop iteration yields the engine's step for the token and its reason for leaving, if any |
| Movement.Sweep | main.js:339-396 | the loop steps each token against the list as it stands, scores the departures in order, and collects exactly the departed identities; tokens stay well formed and holdings exclusive |
| Movement.SurvivorsSettle | main.js:388-398 | the tokens left after the filter are settled, hold distinct nodes, are in spawn order, and are not in the queue |
| Movement.MoveAll | main.js:339-398 | the movement phase keeps the lists well formed and sorted, scores each departure in turn, and loses one token per departure |
| Sessions.GameState.constructor | main.js:191-209 | a session starts with the fresh tally, 60 seconds, empty lists and the countdown at 3 |
| Sessions.GameState.StartsValid | main.js:191-212 | a new session holding only its first token satisfies the session invariant |
| Sessions.GameState.RunCountdown | main.js:274-292 | the countdown drops by one each time its timer reaches 1 second, and at 0 play starts with both play clocks at 0 |
| Sessions.GameState.Tick | main.js:294-301 | play time grows by the step, time left is 60 less play time but never below 0, and the spawn interval is that play time's tier |
| Sessions.GameState.Route | main.js:311-398 | gate, sort and movement on the session: the queue is the gate's result, the grid list is the movement pass over the sorted admitted list minus the departures; the invariant holds; each departure is scored in turn |
| Sessions.RouteLists | main.js:311-398 | the same on values: the lists stay well formed and sorted, the tally stays consistent, and each departure takes one token off the lists |
| Sessions.ScanQueue | main.js:311-335 | the backwards scan of the queue computes the gate's result |
| Game.Game.constructor | main.js:60-91 | before any round: no session, nothing running, identity counter 0, easy difficulty |
| Game.Game.EnqueueToken | main.js:510-529 | the queue gains a token with the next identity and a drawn room, and the counter advances |
| Game.Game.StartGame | main.js:185-216 | a new round: a fresh grid as drawn, a fresh session with the countdown at 3 and its timer at 0, a fresh tally and full time, the first token queued and the grid list empty, and the game valid |
| Game.Game.Spawn | main.js:303-309 | the spawn timer resets whenever it reaches the interval, and a token is queued then only if fewer than the cap are out |
| Game.Game.AdvanceClock | main.js:294-309 | play time grows by the step; once the spawn timer reaches the interval for the new play time it restarts at 0, and only then is a token with the next identity queued, and only if fewer than the cap are out; otherwise the timer grows; the session invariant holds again |
| Game.Game.Countdown | main.js:274-292 | below a second the timer grows and the count stays put; at a second the timer restarts and the count drops by one, and play starts when it reaches 0; play time and the spawn timer are 0 afterwards; the game stays valid |
| Game.Game.Play | main.js:294-402 | a frame of play: the clock part exactly as `Game.Game.AdvanceClock` states it, then gate, sort and movement on the new queue exactly as `Sessions.GameState.Route` states them; each departure is scored in turn, no token is lost except by departing, and the round runs on only while life and time remain |
| Game.Game.ClockAndRoute | main.js:294-398 | the same frame as `Game.Game.Play` up to the end-of-round check, with the session invariant kept |
| Game.Game.EndIfOver | main.js:400-402 | the round ends exactly when life or time has run out |
| Game.Game.UpdateGame | main.js:272-407 | one frame: during the countdown exactly what `Game.Game.Countdown` states, with lists, tally and identities untouched; otherwise exactly what `Game.Game.Play` states, with the countdown value and timer untouched; the game stays valid |
| Game.Game.GameLoop | main.js:258-270 | when no round runs nothing at all changes; otherwise the step is 0 on the first frame and else the elapsed seconds capped at 0.05, the frame time is recorded, and the frame is exactly what `Game.Game.UpdateGame` states for that step, including the token count relation of a played frame |
| Game.Game.RotateArrow | main.js:465-472 | the tapped cell's arrow turns one place and nothing else on the grid changes |
| Game.Game.EndGame | main.js:486-497 | the round stops running |
| Game.Game.ResetGame | main.js:499-508 | the session is dropped and the game stays valid |

## Left out

- Rendering, layout and hit-testing (`render`, `drawArrow`, `drawDirectionIndicator`, `calculateLayout`, `getNodePos`, `getStartPos`, `getRoomInfo`, `handleCanvasClick`, `resizeCanvas`, `checkOrientation`, `getCanvasSize`) are not modelled. They are canvas drawing, floating-point geometry and window plumbing. The tap is modelled as a call to `Game.Game.RotateArrow` with cell coordinates.
- DOM writes and sounds are left out. This covers the header updates in `updateGame`, the result screen in `endGame`, the screens in `resetGame`, and `showFeedback` with its `setTimeout` and `playSE`. A departure is reported instead as a `Feedback` value (correct, wrong, stuck) in the returned sequence.
- `requestAnimationFrame` scheduling is left out. `Game.Game.GameLoop` is one callback, driven by the caller with the frame's timestamp.
- `Math.random` becomes parameters: one `ArrowDraw` per cell, and one draw in [0, 1) for each token's room. The distribution is not modelled.
- `LINE_MOVE_SECONDS` and the `tick_seconds` column are never read by the game. The model carries `tickSeconds` but uses neither.
- The fallback `|| SPEED_RAMP.normal` in `getLineMoveSeconds` cannot trigger, because the difficulty is an enumeration.
- Token objects are mutated in place in the source. The model uses token values in sequences that the methods reassign. No token object is shared outside the two lists, so no aliasing is lost.
- During the movement loop the source updates the session's counters directly. The model carries the counters as a `Tally` value during the pass and writes them back once. The order and effect of the updates are the same.
- Game.Game.GameLoop: requires timestamps that never go backwards, as `requestAnimationFrame` supplies them. A negative step is not modelled.
- Game.Game.ResetGame: requires that no round is running. The restart button is only shown after a round has ended, and a reset during play would leave the frame loop on a missing session.
- Game.Game.RotateArrow: requires a session and in-range coordinates. The source is only reached from a tap on a node while a round runs.
- Floating-point rounding is not modelled; time and progress are exact reals.
