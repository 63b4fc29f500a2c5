/** The movement engine: one pass over the grid tokens in which each takes
    one step of its move cycle, deliveries and stalls are scored, and the
    tokens that left are collected for removal. */
module Movement {
  import opened Config
  import opened Grid
  import opened Scoring
  import opened Tokens
  import opened TokenLists
  import opened EntryGate

  /** The arrow on the node a token stands on. */
  function ArrowAt(grid: array2<Cell>, t: Token): Direction
    reads grid
  {
    if t.current.Some? && 0 <= t.current.value.r < grid.Length0 && 0 <= t.current.value.c < grid.Length1
    then grid[t.current.value.r, t.current.value.c].currentDirection
    else N
  }

  function OutcomeSeq(o: Option<Feedback>): seq<Feedback> {
    match o
    case None => []
    case Some(f) => [f]
  }

  /** Why each token of `g0` left the grid, in list order, when the pass
      took it to the matching token of `moved`. */
  ghost function Outcomes(grid: array2<Cell>, g0: seq<Token>, moved: seq<Token>): seq<Feedback>
    requires |g0| == |moved|
    reads grid
    decreases |g0|
  {
    if g0 == [] then []
    else
      var n := |g0| - 1;
      Outcomes(grid, g0[..n], moved[..n]) + OutcomeSeq(Outcome(g0[n], moved[n], ArrowAt(grid, g0[n])))
  }

  /** One grid token's step, the body of the movement loop: a deciding
      token whose arrow points out is delivered, to its own room or
      another; one whose arrow leads to a node nobody in `ts` holds commits
      to it, otherwise it waits; a travelling token advances by `step` of
      the edge; an arrived one adopts its target. A token that is then stale
      is removed for stalling. */
  method StepToken(ts: seq<Token>, i: nat, grid: array2<Cell>, deltaSec: real, step: real)
    returns (token: Token, outcome: Option<Feedback>)
    requires i < |ts|
    ensures token == Advance(ts[i], ArrowAt(grid, ts[i]), deltaSec, step, ts)
    ensures outcome == Outcome(ts[i], token, ArrowAt(grid, ts[i]))
  {
    token := ts[i];
    if token.moveStage == Deciding {
      if token.next.None? && token.current.Some? {
        var nextPos := NextPosition(token.current.value.r, token.current.value.c, ArrowAt(grid, token));
        if nextPos.ToRoom? {
          outcome := Some(if nextPos.room == token.number then Correct else Wrong);
          return;
        } else if nextPos.ToNode? && !IsNodeOccupied(ts, nextPos.at) {
          token := Commit(token, nextPos.at);
        } else {
          token := Wait(token, deltaSec);
        }
      }
    } else if token.moveStage == Transit {
      token := Travel(token, step);
    } else {
      token := Arrive(token);
    }
    outcome := if Stale(token) then Some(Stuck) else None;
  }

  /** What the pass does to the grid list `g0`: token `k` takes the
      engine's step against the list as the earlier steps left it; the
      departures are recorded in order, and the identities collected are
      exactly those of the tokens that left. */
  ghost predicate Pass(grid: array2<Cell>, g0: seq<Token>, moved: seq<Token>, feedback: seq<Feedback>, removed: seq<nat>,
                       deltaSec: real, step: real)
    reads grid
  {
    && |moved| == |g0|
    && (forall k :: 0 <= k < |g0| ==>
          moved[k] == Advance(g0[k], ArrowAt(grid, g0[k]), deltaSec, step, moved[..k] + g0[k..]))
    && feedback == Outcomes(grid, g0, moved)
    && (forall k :: 0 <= k < |g0| ==>
          (moved[k].id in removed <==> Outcome(g0[k], moved[k], ArrowAt(grid, g0[k])).Some?))
  }

  /** The tokens of the pass after the first `i` have stepped: each of
      those took the engine's step against the list as the earlier steps
      left it, the rest are untouched, all are well formed and the same
      tokens, and the holdings are exclusive. */
  ghost predicate SweptTokens(grid: array2<Cell>, g0: seq<Token>, i: nat, moved: seq<Token>,
                              deltaSec: real, step: real, bound: nat)
    reads grid
  {
    && i <= |g0| && |moved| == |g0|
    && (forall k :: i <= k < |g0| ==> moved[k] == g0[k])
    && (forall k :: 0 <= k < i ==>
          moved[k] == Advance(g0[k], ArrowAt(grid, g0[k]), deltaSec, step, moved[..k] + g0[k..]))
    && (forall k :: 0 <= k < |g0| ==> Moving(moved[k], bound) && SameIdentity(moved[k], g0[k]))
    && Exclusive(moved)
  }

  /** The record of the pass after the first `i` tokens have stepped: the
      departures so far in order, and the identities of exactly those
      tokens. */
  ghost predicate SweptRecord(grid: array2<Cell>, g0: seq<Token>, i: nat, moved: seq<Token>,
                              feedback: seq<Feedback>, removed: seq<nat>)
    reads grid
  {
    && i <= |g0| && |moved| == |g0|
    && feedback == Outcomes(grid, g0[..i], moved[..i])
    && (forall k :: 0 <= k < |g0| ==>
          (moved[k].id in removed <==> k < i && Outcome(g0[k], moved[k], ArrowAt(grid, g0[k])).Some?))
    && CountIn(moved[..i], removed) == |removed| == |feedback|
  }

  /** The pass over the grid list: token `k` steps against the list as the
      earlier steps left it, each departure is applied to the tally in
      turn and its identity collected. Every token stays well formed and the
      same token, and the holdings stay exclusive. */
  method Sweep(g0: seq<Token>, grid: array2<Cell>, t0: Tally, deltaSec: real, step: real, ghost bound: nat)
    returns (moved: seq<Token>, tally: Tally, feedback: seq<Feedback>, removed: seq<nat>)
    requires 0.0 <= deltaSec && 0.0 <= step
    requires forall t :: t in g0 ==> Moving(t, bound)
    requires Exclusive(g0) && UniqueIds(g0)
    ensures Pass(grid, g0, moved, feedback, removed, deltaSec, step)
    ensures tally == ApplyAll(t0, feedback)
    ensures CountIn(moved, removed) == |removed| == |feedback|
    ensures forall k :: 0 <= k < |g0| ==> Moving(moved[k], bound) && SameIdentity(moved[k], g0[k])
    ensures Exclusive(moved)
  {
    var n := |g0|;
    moved, tally, feedback, removed := g0, t0, [], [];
    for i := 0 to n
      invariant SweptTokens(grid, g0, i, moved, deltaSec, step, bound)
      invariant SweptRecord(grid, g0, i, moved, feedback, removed)
      invariant tally == ApplyAll(t0, feedback)
    {
      var t', outcome := StepToken(moved, i, grid, deltaSec, step);
      assert moved[i] == g0[i];
      StepKeepsShape(grid, g0, moved, i, t', deltaSec, step, bound);
      StepKeepsRecord(grid, g0, moved, i, t', outcome, feedback, removed);
      moved := moved[i := t'];
      if outcome.Some? {
        ApplyAllSnoc(t0, feedback, outcome.value);
        tally := Apply(tally, outcome.value);
        feedback := feedback + [outcome.value];
        removed := removed + [t'.id];
      }
    }
    assert moved[..n] == moved && g0[..n] == g0;
  }

  /** One step of the pass keeps the tokens well formed and the same
      tokens, keeps the holdings exclusive, and extends the stepped prefix
      by one. */
  lemma StepKeepsShape(grid: array2<Cell>, g0: seq<Token>, moved: seq<Token>, i: nat, t': Token,
                       deltaSec: real, step: real, bound: nat)
    requires 0.0 <= deltaSec && 0.0 <= step
    requires SweptTokens(grid, g0, i, moved, deltaSec, step, bound) && i < |g0|
    requires t' == Advance(moved[i], ArrowAt(grid, moved[i]), deltaSec, step, moved)
    ensures SweptTokens(grid, g0, i + 1, moved[i := t'], deltaSec, step, bound)
    ensures t'.id == g0[i].id
  {
    var t := moved[i];
    PrefixExtends(grid, g0, moved, i, t', deltaSec, step);
    AdvanceChoosesFreeNode(t, ArrowAt(grid, t), deltaSec, step, moved, bound);
    AdvanceCycle(t, t', ArrowAt(grid, t), deltaSec, step, bound);
    UpdateKeepsExclusive(moved, i, t');
  }

  /** The stepped prefix grows by the token just stepped. */
  lemma PrefixExtends(grid: array2<Cell>, g0: seq<Token>, moved: seq<Token>, i: nat, t': Token,
                      deltaSec: real, step: real)
    requires |moved| == |g0| && i < |g0|
    requires forall k :: i <= k < |g0| ==> moved[k] == g0[k]
    requires forall k :: 0 <= k < i ==>
      moved[k] == Advance(g0[k], ArrowAt(grid, g0[k]), deltaSec, step, moved[..k] + g0[k..])
    requires t' == Advance(moved[i], ArrowAt(grid, moved[i]), deltaSec, step, moved)
    ensures forall k :: i + 1 <= k < |g0| ==> moved[i := t'][k] == g0[k]
    ensures forall k :: 0 <= k < i + 1 ==>
      moved[i := t'][k] == Advance(g0[k], ArrowAt(grid, g0[k]), deltaSec, step, moved[i := t'][..k] + g0[k..])
  {
    var after := moved[i := t'];
    assert moved == moved[..i] + g0[i..];
    forall k | 0 <= k < i + 1
      ensures after[k] == Advance(g0[k], ArrowAt(grid, g0[k]), deltaSec, step, after[..k] + g0[k..])
    {
      assert after[..k] == moved[..k];
    }
  }

  /** One step of the pass keeps the record of departures in step: the
      feedback grows by the step's outcome, and the step's token is
      collected exactly when it left. */
  lemma StepKeepsRecord(grid: array2<Cell>, g0: seq<Token>, moved: seq<Token>, i: nat, t': Token,
                        outcome: Option<Feedback>, feedback: seq<Feedback>, removed: seq<nat>)
    requires SweptRecord(grid, g0, i, moved, feedback, removed) && i < |g0| && UniqueIds(g0)
    requires moved[i] == g0[i] && t'.id == g0[i].id
    requires forall k :: 0 <= k < |g0| ==> moved[k].id == g0[k].id
    requires outcome == Outcome(g0[i], t', ArrowAt(grid, g0[i]))
    ensures SweptRecord(grid, g0, i + 1, moved[i := t'], feedback + OutcomeSeq(outcome),
                        if outcome.Some? then removed + [t'.id] else removed)
  {
    var after := moved[i := t'];
    assert after[..i] == moved[..i];
    assert after[..i + 1] == moved[..i] + [t'];
    assert g0[..i + 1][..i] == g0[..i];
    assert after[..i + 1][..i] == moved[..i];
    forall u | u in moved[..i] ensures u.id != t'.id {
      var m :| 0 <= m < i && moved[m] == u;
    }
    if outcome.Some? {
      CountInIgnoresOthers(moved[..i], removed, t'.id);
    } else {
      assert t'.id !in removed;
    }
  }

  /** After the pass, the tokens that were not collected are settled grid
      tokens, still one per node, in spawn order, and none of them is in
      the queue. */
  lemma SurvivorsSettle(grid: array2<Cell>, queue: seq<Token>, g0: seq<Token>, moved: seq<Token>,
                        feedback: seq<Feedback>, removed: seq<nat>,
                        deltaSec: real, step: real, bound: nat)
    requires forall t :: t in g0 ==> Moving(t, bound) && !Stale(t)
    requires StrictlySorted(g0) && Separate(queue, g0)
    requires Pass(grid, g0, moved, feedback, removed, deltaSec, step)
    requires forall k :: 0 <= k < |g0| ==> Moving(moved[k], bound) && SameIdentity(moved[k], g0[k])
    requires Exclusive(moved)
    ensures forall t :: t in Without(moved, removed) ==> Moving(t, bound) && !Stale(t)
    ensures Exclusive(Without(moved, removed))
    ensures StrictlySorted(Without(moved, removed))
    ensures Separate(queue, Without(moved, removed))
  {
    var w := Without(moved, removed);
    forall u | u in w ensures Moving(u, bound) && !Stale(u) {
      var k :| 0 <= k < |moved| && moved[k] == u;
      assert g0[k] in g0;
      AdvanceChoosesFreeNode(g0[k], ArrowAt(grid, g0[k]), deltaSec, step, moved[..k] + g0[k..], bound);
      OutcomeReasons(g0[k], u, ArrowAt(grid, g0[k]), deltaSec, step, bound);
    }
    ExclusiveSubset(moved, w);
    assert StrictlySorted(moved);
    WithoutSorted(moved, removed);
    forall t, u | t in queue && u in w ensures t.id != u.id {
      var k :| 0 <= k < |moved| && moved[k] == u;
      assert g0[k] in g0;
    }
  }

  /** The whole movement phase on the two lists: the pass over the grid
      list, then the grid list without the tokens that left. Only settled
      tokens stay, one per node and in spawn order; one token fewer per
      departure. */
  method MoveAll(queue: seq<Token>, g0: seq<Token>, grid: array2<Cell>, t0: Tally, deltaSec: real, step: real, ghost bound: nat)
    returns (survivors: seq<Token>, tally: Tally, feedback: seq<Feedback>, ghost moved: seq<Token>, ghost removed: seq<nat>)
    requires 0.0 <= deltaSec && 0.0 <= step
    requires ListsInvariant(Lists(queue, g0), bound) && StrictlySorted(g0)
    ensures Pass(grid, g0, moved, feedback, removed, deltaSec, step)
    ensures survivors == Without(moved, removed)
    ensures tally == ApplyAll(t0, feedback)
    ensures ListsInvariant(Lists(queue, survivors), bound) && StrictlySorted(survivors)
    ensures |survivors| + |feedback| == |g0|
  {
    SortedHasUniqueIds(g0);
    var stepped, rm;
    stepped, tally, feedback, rm := Sweep(g0, grid, t0, deltaSec, step, bound);
    SurvivorsSettle(grid, queue, g0, stepped, feedback, rm, deltaSec, step, bound);
    WithoutLength(stepped, rm);
    moved, removed := stepped, rm;
    survivors := Without(stepped, rm);
  }
}
