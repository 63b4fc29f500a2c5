/** A token's life: spawned into the outside queue, shown at the entry,
    cooled down, admitted at node (1, 0), moved edge by edge in a three-stage
    cycle, and finally delivered or removed for stalling. */
module Tokens {
  import opened Config
  import opened Grid
  import opened Scoring

  datatype Option<T> = None | Some(value: T)

  /** Which list a token lives in. */
  datatype Place = Outside | InGrid

  /** `moveStage`: 0 deciding at a node, 1 travelling an edge, 2 arrived at
      the end of the edge and about to adopt it. */
  datatype Stage = Deciding | Transit | Arrived

  datatype Token = Token(
    id: nat,
    number: int,             // the room the token must reach, 1..8
    place: Place,
    moveSteps: nat,          // edges committed to so far
    stuckTime: real,         // seconds spent deciding without moving
    spawnOrder: nat,
    displayAtStart: bool,
    displayDuration: real,
    entryCooldown: real,
    moveStage: Stage,
    moveProgress: real,      // fraction of the current edge travelled
    current: Option<Pos>,    // the node the token is at or has just left
    next: Option<Pos>)       // the node it is travelling to

  /** The node every token enters the grid at. */
  const EntryNode: Pos := Pos(1, 0)

  /** `Math.floor(u * 8) + 1` for a draw `u` in [0, 1): the token's room. */
  function TokenNumber(u: real): (n: int)
    requires 0.0 <= u < 1.0
    ensures 1 <= n <= 8
  {
    Pick(u, 8) + 1
  }

  /** A freshly spawned token with identity `id` (its spawn order is one
      more, the counter's value after the increment). */
  function NewToken(id: nat, number: int): Token {
    Token(id, number, Outside, 0, 0.0, id + 1, true, StartDisplaySeconds,
          EntryCooldownSeconds, Deciding, 0.0, None, None)
  }

  /** What every token keeps for its whole life: a spawn order one more than
      its identity, an identity already handed out, and a room number. */
  predicate Identified(t: Token, bound: nat) {
    t.spawnOrder == t.id + 1 && t.id < bound && 1 <= t.number <= 8
  }

  /** A token waiting outside the grid: it has no position and has not moved;
      its cooldown only starts to run once its showcase is over. */
  predicate Waiting(t: Token, bound: nat) {
    && Identified(t, bound)
    && t.place == Outside
    && t.current.None? && t.next.None?
    && t.moveStage == Deciding && t.moveProgress == 0.0
    && t.moveSteps == 0 && t.stuckTime == 0.0
    && (t.displayAtStart ==> t.entryCooldown == EntryCooldownSeconds)
  }

  /** A token on the grid: it is at a node, travelling to an adjacent node
      exactly when it is not deciding, with progress in [0, 1) that is only
      non-zero in transit, and stuck time that only builds up while deciding. */
  predicate Moving(t: Token, bound: nat) {
    && Identified(t, bound)
    && t.place == InGrid
    && !t.displayAtStart && t.entryCooldown <= 0.0
    && t.current.Some? && InBounds(t.current.value)
    && (t.moveStage == Deciding <==> t.next.None?)
    && (t.next.Some? ==> InBounds(t.next.value) && IsAdjacent(t.current.value, t.next.value))
    && 0.0 <= t.moveProgress < 1.0
    && (t.moveStage != Transit ==> t.moveProgress == 0.0)
    && 0.0 <= t.stuckTime
    && (t.moveStage != Deciding ==> t.stuckTime == 0.0)
  }

  /** Same token, whatever its timers and position. */
  predicate SameIdentity(a: Token, b: Token) {
    a.id == b.id && a.spawnOrder == b.spawnOrder && a.number == b.number
  }

  lemma NewTokenIsWaiting(id: nat, u: real)
    requires 0.0 <= u < 1.0
    ensures Waiting(NewToken(id, TokenNumber(u)), id + 1)
    ensures NewToken(id, TokenNumber(u)).displayAtStart
  {
  }

  // ---------------------------------------------------------------------
  // Occupancy
  // ---------------------------------------------------------------------

  /** The node a grid token holds: where it stands while deciding, where it
      is heading while travelling or arriving. */
  predicate Occupies(t: Token, p: Pos) {
    || (t.moveStage == Deciding && t.current == Some(p))
    || ((t.moveStage == Transit || t.moveStage == Arrived) && t.next == Some(p))
  }

  /** Whether some token of the grid list holds node `p`. */
  predicate IsNodeOccupied(ts: seq<Token>, p: Pos): (occupied: bool)
    ensures occupied <==> exists t :: t in ts && Occupies(t, p)
  {
    exists k :: 0 <= k < |ts| && Occupies(ts[k], p)
  }

  /** The entry gate is open when nobody holds the entry node (1, 0). */
  predicate CanEnterGrid(ts: seq<Token>): (open: bool)
    ensures open <==> forall t :: t in ts ==> !Occupies(t, EntryNode)
  {
    !IsNodeOccupied(ts, EntryNode)
  }

  /** No two distinct grid tokens hold the same node. */
  ghost predicate Exclusive(ts: seq<Token>) {
    forall i, j, p :: 0 <= i < |ts| && 0 <= j < |ts| && ts[i].id != ts[j].id && Occupies(ts[i], p) ==> !Occupies(ts[j], p)
  }

  /** A grid token holds exactly one node, and it is on the grid. */
  lemma MovingHoldsOneNode(t: Token, bound: nat, p: Pos, q: Pos)
    requires Moving(t, bound) && Occupies(t, p)
    ensures InBounds(p)
    ensures Occupies(t, q) ==> p == q
  {
  }

  /** Exclusive holding only depends on which tokens are in the list. */
  lemma ExclusiveSubset(a: seq<Token>, b: seq<Token>)
    requires Exclusive(a)
    requires forall t :: t in b ==> t in a
    ensures Exclusive(b)
  {
    forall i, j, p | 0 <= i < |b| && 0 <= j < |b| && b[i].id != b[j].id && Occupies(b[i], p)
      ensures !Occupies(b[j], p)
    {
      assert b[i] in a && b[j] in a;
      var i' :| 0 <= i' < |a| && a[i'] == b[i];
      var j' :| 0 <= j' < |a| && a[j'] == b[j];
    }
  }

  /** Replacing one grid token by a step of itself keeps the holdings
      exclusive as long as every node it now holds is one it held before or
      one nobody held. */
  lemma UpdateKeepsExclusive(ts: seq<Token>, i: nat, t': Token)
    requires Exclusive(ts) && i < |ts| && t'.id == ts[i].id
    requires forall p :: Occupies(t', p) ==> Occupies(ts[i], p) || !IsNodeOccupied(ts, p)
    ensures Exclusive(ts[i := t'])
  {
    var ts' := ts[i := t'];
    forall j, k, p | 0 <= j < |ts'| && 0 <= k < |ts'| && ts'[j].id != ts'[k].id && Occupies(ts'[j], p)
      ensures !Occupies(ts'[k], p)
    {
      if j == i {
        assert Occupies(ts[i], p) || !Occupies(ts[k], p);
      } else if k == i {
        assert Occupies(ts[j], p);
      }
    }
  }

  // ---------------------------------------------------------------------
  // The three-stage move cycle and the stall rule
  // ---------------------------------------------------------------------

  /** Stage 0 to 1: take the edge to `target`. */
  function Commit(t: Token, target: Pos): Token {
    t.(next := Some(target), moveSteps := t.moveSteps + 1, stuckTime := 0.0,
       moveStage := Transit, moveProgress := 0.0)
  }

  /** Stage 0, no way on: the token waits another `deltaSec`. */
  function Wait(t: Token, deltaSec: real): Token {
    t.(stuckTime := t.stuckTime + deltaSec)
  }

  /** Stage 1: travel a further `step` of the edge; at the end of the edge
      the progress resets and the token has arrived (stage 2). */
  function Travel(t: Token, step: real): Token {
    var progress := t.moveProgress + step;
    if progress >= 1.0 then t.(moveProgress := 0.0, moveStage := Arrived)
    else t.(moveProgress := progress)
  }

  /** Stage 2 to 0: the end of the edge becomes the token's node. */
  function Arrive(t: Token): Token {
    t.(current := t.next, next := None, moveStage := Deciding, moveProgress := 0.0)
  }

  /** Too long on the grid or stuck too long. */
  predicate Stale(t: Token) {
    t.moveSteps as real + t.stuckTime > 30.0 || t.stuckTime >= 8.0
  }

  /** The room a deciding token leaves the grid for, if its arrow points out. */
  function Delivery(t: Token, dir: Direction): Option<int> {
    if t.moveStage == Deciding && t.next.None? && t.current.Some? then
      match NextPosition(t.current.value.r, t.current.value.c, dir)
      case ToRoom(room) => Some(room)
      case _ => None
    else None
  }

  /** What one step may do to a grid token whose node shows arrow `dir`: a
      deciding token about to leave for a room is left as it is (and then
      removed); one whose arrow leads to a node commits to it or, if it is
      held, waits; one whose arrow leads nowhere waits. A travelling token
      advances by `step`; an arrived one adopts its target. */
  predicate Advanced(t: Token, t': Token, dir: Direction, deltaSec: real, step: real) {
    match t.moveStage
    case Deciding =>
      if t.next.Some? || t.current.None? then t' == t
      else (match NextPosition(t.current.value.r, t.current.value.c, dir)
            case ToRoom(_) => t' == t
            case ToNode(p) => t' == Commit(t, p) || t' == Wait(t, deltaSec)
            case NoMove => t' == Wait(t, deltaSec))
    case Transit => t' == Travel(t, step)
    case Arrived => t' == Arrive(t)
  }

  /** One step keeps a grid token well formed and the same token, keeps it
      on the node it holds unless it commits to a new edge, and moves the
      stage only along 0 -> 1 -> 2 -> 0: 0 -> 1 counts the edge and clears
      stuck time and progress, 1 -> 2 happens once the progress reaches 1
      and resets it, 2 -> 0 adopts the target. */
  lemma AdvanceCycle(t: Token, t': Token, dir: Direction, deltaSec: real, step: real, bound: nat)
    requires Moving(t, bound) && 0.0 <= deltaSec && 0.0 <= step
    requires Advanced(t, t', dir, deltaSec, step)
    ensures Moving(t', bound) && SameIdentity(t, t')
    ensures t.moveStage == Deciding ==>
      if t'.moveStage == Transit then
        && NextPosition(t.current.value.r, t.current.value.c, dir) == ToNode(t'.next.value)
        && t'.moveSteps == t.moveSteps + 1 && t'.stuckTime == 0.0 && t'.moveProgress == 0.0
      else t'.moveStage == Deciding && t'.current == t.current
    ensures t.moveStage == Transit ==>
      if t.moveProgress + step >= 1.0 then t'.moveStage == Arrived && t'.moveProgress == 0.0
      else t'.moveStage == Transit && t'.moveProgress == t.moveProgress + step
    ensures t.moveStage == Arrived ==>
      t'.moveStage == Deciding && t'.current == t.next && t'.next.None? && t'.moveProgress == 0.0
    ensures t'.moveStage == Deciding || t'.moveStage == Transit ==> t'.moveSteps >= t.moveSteps
    ensures forall p :: t'.moveStage != Transit || t.moveStage != Deciding ==> (Occupies(t', p) <==> Occupies(t, p))
  {
    if t.moveStage == Deciding {
      var here := t.current.value;
      match NextPosition(here.r, here.c, dir)
      case ToNode(p) => {
        if t' == Commit(t, p) {
          assert IsAdjacent(here, p);
        }
      }
      case _ =>
    }
  }

  /** The step the movement engine takes for grid token `t` under arrow
      `dir`, where `ts` is the grid list as it stands at that moment: a
      deciding token commits to the node its arrow leads to unless a token of
      `ts` holds it, and otherwise waits. */
  function Advance(t: Token, dir: Direction, deltaSec: real, step: real, ts: seq<Token>): (u: Token)
    ensures SameIdentity(t, u)
    ensures t.moveStage == Deciding && u.moveStage == Transit ==> u.next.Some? && !IsNodeOccupied(ts, u.next.value)
  {
    match t.moveStage
    case Deciding =>
      if t.next.Some? || t.current.None? then t
      else (match NextPosition(t.current.value.r, t.current.value.c, dir)
            case ToRoom(_) => t
            case ToNode(p) => if IsNodeOccupied(ts, p) then Wait(t, deltaSec) else Commit(t, p)
            case NoMove => Wait(t, deltaSec))
    case Transit => Travel(t, step)
    case Arrived => Arrive(t)
  }

  /** The engine's step is one of the steps the cycle allows, and a token
      commits to a node exactly when its arrow leads there and nobody holds
      it. */
  lemma AdvanceChoosesFreeNode(t: Token, dir: Direction, deltaSec: real, step: real, ts: seq<Token>, bound: nat)
    requires Moving(t, bound)
    ensures Advanced(t, Advance(t, dir, deltaSec, step, ts), dir, deltaSec, step)
    ensures t.moveStage == Deciding ==>
      (Advance(t, dir, deltaSec, step, ts).moveStage == Transit <==>
        exists p :: NextPosition(t.current.value.r, t.current.value.c, dir) == ToNode(p) && !IsNodeOccupied(ts, p))
    ensures Advance(t, dir, deltaSec, step, ts).moveStage == Transit && t.moveStage == Deciding ==>
      !IsNodeOccupied(ts, Advance(t, dir, deltaSec, step, ts).next.value)
  {
    if t.moveStage == Deciding {
      match NextPosition(t.current.value.r, t.current.value.c, dir)
      case ToNode(p) =>
      case _ =>
    }
  }

  /** Why a grid token leaves the grid in this step, if it does: a deciding
      token whose arrow points out is delivered, to its own room or another;
      any other token is removed once it is stale after its step. */
  function Outcome(t: Token, t': Token, dir: Direction): Option<Feedback> {
    match Delivery(t, dir)
    case Some(room) => Some(if room == t.number then Correct else Wrong)
    case None => if Stale(t') then Some(Stuck) else None
  }

  /** A settled grid token that takes a step either stays settled or leaves
      for exactly one reason: a correct delivery when its arrow points out to
      its own room, a wrong one when it points out to another room, and a
      stall otherwise. A delivered token is left as it was, so it is never
      also penalised for stalling. */
  lemma OutcomeReasons(t: Token, t': Token, dir: Direction, deltaSec: real, step: real, bound: nat)
    requires Moving(t, bound) && !Stale(t) && Advanced(t, t', dir, deltaSec, step)
    ensures Outcome(t, t', dir).None? ==> !Stale(t')
    ensures Outcome(t, t', dir) == Some(Correct) <==>
      t.moveStage == Deciding && NextPosition(t.current.value.r, t.current.value.c, dir) == ToRoom(t.number)
    ensures Outcome(t, t', dir) == Some(Wrong) <==>
      t.moveStage == Deciding && exists room :: room != t.number && NextPosition(t.current.value.r, t.current.value.c, dir) == ToRoom(room)
    ensures Outcome(t, t', dir) == Some(Stuck) <==>
      Stale(t') && !(t.moveStage == Deciding && NextPosition(t.current.value.r, t.current.value.c, dir).ToRoom?)
    ensures Outcome(t, t', dir) != Some(Stuck) && Outcome(t, t', dir).Some? ==> t' == t
  {
    if t.moveStage == Deciding {
      match NextPosition(t.current.value.r, t.current.value.c, dir)
      case ToRoom(room) => assert t' == t;
      case _ =>
    }
  }

  /** A settled grid token has taken at most 30 edges and been stuck for
      less than 8 seconds. */
  lemma SettledBounds(t: Token)
    requires !Stale(t) && 0.0 <= t.stuckTime
    ensures t.moveSteps <= 30 && t.stuckTime < 8.0
  {
  }
}
