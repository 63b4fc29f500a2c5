/** The entry gate: waiting tokens are shown, cool down, and then one at a
    time enter the grid at node (1, 0) when nobody holds it. */
module EntryGate {
  import opened Config
  import opened Grid
  import opened Tokens
  import opened TokenLists

  /** A waiting token's timers after one step that does not admit it: the
      showcase runs down first (and ends without entering), then the
      cooldown; once both are over nothing changes. */
  function Showcase(t: Token, deltaSec: real): Token {
    if t.displayAtStart then
      var left := t.displayDuration - deltaSec;
      if left > 0.0 then t.(displayDuration := left)
      else t.(displayDuration := left, displayAtStart := false)
    else if t.entryCooldown > 0.0 then t.(entryCooldown := t.entryCooldown - deltaSec)
    else t
  }

  /** Eligible to enter at the start of this step. */
  predicate ReadyToEnter(t: Token) {
    !t.displayAtStart && t.entryCooldown <= 0.0
  }

  /** The queue after one step in which nobody entered. */
  function Showcased(q: seq<Token>, deltaSec: real): (r: seq<Token>)
    ensures |r| == |q|
    ensures forall k :: 0 <= k < |q| ==> r[k] == Showcase(q[k], deltaSec)
  {
    seq(|q|, k requires 0 <= k < |q| => Showcase(q[k], deltaSec))
  }

  /** Index of the last token in the queue that is ready to enter, or -1.
      The gate scans the queue from the back, so this is the one it admits. */
  function LastReady(q: seq<Token>): (k: int)
    ensures -1 <= k < |q|
    ensures k >= 0 ==> ReadyToEnter(q[k])
    ensures forall m :: k < m < |q| ==> !ReadyToEnter(q[m])
  {
    if q == [] then -1
    else if ReadyToEnter(q[|q| - 1]) then |q| - 1
    else LastReady(q[..|q| - 1])
  }

  /** A token as it is admitted at the entry node. */
  function Enter(t: Token): Token {
    t.(place := InGrid, current := Some(EntryNode), moveStage := Deciding,
       moveProgress := 0.0, next := None)
  }

  /** One step of showcase keeps a token waiting, never shortens its
      cooldown while it is on show, and a token that was on show at the start
      of the step is never ready at its end. */
  lemma ShowcaseKeepsWaiting(t: Token, deltaSec: real, bound: nat)
    requires Waiting(t, bound) && 0.0 <= deltaSec
    ensures Waiting(Showcase(t, deltaSec), bound) && SameIdentity(t, Showcase(t, deltaSec))
    ensures t.displayAtStart ==> !ReadyToEnter(Showcase(t, deltaSec))
    ensures !t.displayAtStart ==> Showcase(t, deltaSec).entryCooldown <= t.entryCooldown
    ensures ReadyToEnter(t) ==> Showcase(t, deltaSec) == t
  {
  }

  /** A ready waiting token enters as a settled grid token that occupies the
      entry node. */
  lemma EnterIsMoving(t: Token, bound: nat)
    requires Waiting(t, bound) && ReadyToEnter(t)
    ensures Moving(Enter(t), bound) && !Stale(Enter(t)) && SameIdentity(t, Enter(t))
    ensures Occupies(Enter(t), EntryNode)
  {
  }


  /** Admitting a token with a fresh identity at a free entry node keeps the
      holdings exclusive, and closes the entry to everyone else. */
  lemma EnterKeepsExclusive(ts: seq<Token>, t: Token, bound: nat)
    requires Exclusive(ts) && CanEnterGrid(ts)
    requires Waiting(t, bound) && ReadyToEnter(t)
    requires forall u :: u in ts ==> u.id != t.id
    ensures Exclusive(ts + [Enter(t)])
    ensures !CanEnterGrid(ts + [Enter(t)])
  {
    var ts' := ts + [Enter(t)];
    assert ts'[|ts|] == Enter(t);
    forall i, j, p | 0 <= i < |ts'| && 0 <= j < |ts'| && ts'[i].id != ts'[j].id && Occupies(ts'[i], p)
      ensures !Occupies(ts'[j], p)
    {
      if i == |ts| {
        assert p == EntryNode;
        assert j < |ts| && ts'[j] == ts[j];
      } else if j == |ts| {
        assert ts'[i] == ts[i];
        assert Occupies(ts'[j], p) ==> p == EntryNode;
      }
    }
  }

  /** The queue with the token at `k` taken out, the others in order. */
  function RemoveAt(q: seq<Token>, k: nat): (r: seq<Token>)
    requires k < |q|
    ensures |r| == |q| - 1
    ensures forall m :: 0 <= m < |r| ==> r[m] == if m < k then q[m] else q[m + 1]
  {
    q[..k] + q[k + 1..]
  }

  /** The two token lists. */
  datatype Lists = Lists(queue: seq<Token>, inGrid: seq<Token>)

  /** One pass of the gate over the queue: the last ready token in queue
      order enters when the entry node is free; every other token runs down
      its showcase or cooldown. */
  function Admit(q: seq<Token>, g: seq<Token>, deltaSec: real): (l: Lists)
    ensures |l.queue| + |l.inGrid| == |q| + |g|
    ensures |l.inGrid| == |g| + 1 <==> LastReady(q) >= 0 && CanEnterGrid(g)
    ensures |l.inGrid| == |g| + 1 ==> l.inGrid == g + [Enter(q[LastReady(q)])]
    ensures |l.inGrid| == |g| + 1 ==> l.queue == Showcased(RemoveAt(q, LastReady(q)), deltaSec)
    ensures |l.inGrid| != |g| + 1 ==> l.inGrid == g && l.queue == Showcased(q, deltaSec)
  {
    var k := LastReady(q);
    if k >= 0 && CanEnterGrid(g) then Lists(Showcased(RemoveAt(q, k), deltaSec), g + [Enter(q[k])])
    else Lists(Showcased(q, deltaSec), g)
  }

  /** What holds of the two lists between steps, apart from the order of the
      grid list. */
  ghost predicate ListsInvariant(l: Lists, bound: nat) {
    && (forall t :: t in l.queue ==> Waiting(t, bound))
    && UniqueIds(l.queue)
    && (forall t :: t in l.inGrid ==> Moving(t, bound) && !Stale(t))
    && Exclusive(l.inGrid)
    && Separate(l.queue, l.inGrid)
  }

  /** Taking a token out of a queue with distinct identities leaves distinct
      identities, none of them the removed token's. */
  lemma RemoveAtKeepsUniqueIds(q: seq<Token>, k: nat)
    requires k < |q| && UniqueIds(q)
    ensures UniqueIds(RemoveAt(q, k))
    ensures forall t :: t in RemoveAt(q, k) ==> t in q && t.id != q[k].id
  {
    var r := RemoveAt(q, k);
    forall t | t in r ensures t in q && t.id != q[k].id {
      var m :| 0 <= m < |r| && r[m] == t;
      if m < k {
        assert q[m] == t;
      } else {
        assert q[m + 1] == t;
      }
    }
  }

  /** A step of showcase keeps a queue of waiting tokens waiting, with the
      same identities in the same places. */
  lemma ShowcasedKeepsWaiting(q: seq<Token>, deltaSec: real, bound: nat)
    requires forall t :: t in q ==> Waiting(t, bound)
    requires UniqueIds(q) && 0.0 <= deltaSec
    ensures forall t :: t in Showcased(q, deltaSec) ==> Waiting(t, bound)
    ensures forall m :: 0 <= m < |q| ==> Showcased(q, deltaSec)[m].id == q[m].id
    ensures UniqueIds(Showcased(q, deltaSec))
  {
    var r := Showcased(q, deltaSec);
    forall t | t in r ensures Waiting(t, bound) {
      var m :| 0 <= m < |r| && r[m] == t;
      assert q[m] in q;
      ShowcaseKeepsWaiting(q[m], deltaSec, bound);
    }
  }

  /** Two lists keep apart when the queue keeps its identities in place and
      the grid only gains tokens with identities outside the queue. */
  lemma SeparateAfterStep(q: seq<Token>, g: seq<Token>, q': seq<Token>, g': seq<Token>)
    requires Separate(q, g)
    requires forall t :: t in q' ==> exists m :: 0 <= m < |q| && q[m].id == t.id
    requires forall u :: u in g' ==> u in g || forall t :: t in q' ==> t.id != u.id
    ensures Separate(q', g')
  {
    forall t, u | t in q' && u in g' ensures t.id != u.id {
      if u in g {
        var m :| 0 <= m < |q| && q[m].id == t.id;
        assert q[m] in q;
      }
    }
  }

  /** A pass of the gate keeps the lists well formed, moves at most one token
      across, loses none, and leaves the grid list with distinct spawn orders
      ready to be sorted. */
  lemma AdmitKeepsInvariant(q: seq<Token>, g: seq<Token>, deltaSec: real, bound: nat)
    requires ListsInvariant(Lists(q, g), bound) && StrictlySorted(g) && 0.0 <= deltaSec
    ensures ListsInvariant(Admit(q, g, deltaSec), bound)
    ensures DistinctSpawnOrders(Admit(q, g, deltaSec).inGrid)
    ensures |Admit(q, g, deltaSec).queue| + |Admit(q, g, deltaSec).inGrid| == |q| + |g|
    ensures |g| <= |Admit(q, g, deltaSec).inGrid| <= |g| + 1
  {
    var k := LastReady(q);
    if k >= 0 && CanEnterGrid(g) {
      EnterStep(q, g, k, deltaSec, bound);
    } else {
      var l := Admit(q, g, deltaSec);
      ShowcasedKeepsWaiting(q, deltaSec, bound);
      forall t | t in l.queue ensures exists m :: 0 <= m < |q| && q[m].id == t.id {
        var m :| 0 <= m < |l.queue| && l.queue[m] == t;
        assert q[m].id == t.id;
      }
      SeparateAfterStep(q, g, l.queue, l.inGrid);
    }
  }

  /** The step in which the token at `k` enters. */
  lemma EnterStep(q: seq<Token>, g: seq<Token>, k: nat, deltaSec: real, bound: nat)
    requires ListsInvariant(Lists(q, g), bound) && StrictlySorted(g) && 0.0 <= deltaSec
    requires k < |q| && ReadyToEnter(q[k]) && CanEnterGrid(g)
    ensures var l := Lists(Showcased(RemoveAt(q, k), deltaSec), g + [Enter(q[k])]);
      ListsInvariant(l, bound) && DistinctSpawnOrders(l.inGrid)
  {
    var x := q[k];
    var l := Lists(Showcased(RemoveAt(q, k), deltaSec), g + [Enter(x)]);
    QueueAfterEntry(q, k, deltaSec, bound);
    assert x in q;
    EnterIsMoving(x, bound);
    EnterKeepsExclusive(g, x, bound);
    SeparateAfterStep(q, g, l.queue, l.inGrid);
    forall t | t in g ensures t.spawnOrder != Enter(x).spawnOrder {
      assert t.id != x.id;
    }
    GrowKeepsDistinct(g, Enter(x));
  }

  /** The queue the token at `k` left: still waiting tokens with distinct
      identities, each from the old queue and none the entering one's. */
  lemma QueueAfterEntry(q: seq<Token>, k: nat, deltaSec: real, bound: nat)
    requires (forall t :: t in q ==> Waiting(t, bound)) && UniqueIds(q)
    requires k < |q| && 0.0 <= deltaSec
    ensures var r := Showcased(RemoveAt(q, k), deltaSec);
      && (forall t :: t in r ==> Waiting(t, bound))
      && UniqueIds(r)
      && (forall t :: t in r ==> exists m :: 0 <= m < |q| && q[m].id == t.id)
      && (forall t :: t in r ==> t.id != q[k].id)
  {
    var rest := RemoveAt(q, k);
    var r := Showcased(rest, deltaSec);
    RemoveAtKeepsUniqueIds(q, k);
    ShowcasedKeepsWaiting(rest, deltaSec, bound);
    forall t | t in r ensures exists m :: 0 <= m < |q| && q[m].id == t.id {
      var m :| 0 <= m < |r| && r[m] == t;
      if m < k {
        assert q[m].id == t.id;
      } else {
        assert q[m + 1].id == t.id;
      }
    }
    forall t | t in r ensures t.id != q[k].id {
      var m :| 0 <= m < |r| && r[m] == t;
      assert rest[m] in rest;
    }
  }

  /** A sorted list grown by a token whose spawn order none of it has. */
  lemma GrowKeepsDistinct(g: seq<Token>, x: Token)
    requires StrictlySorted(g)
    requires forall t :: t in g ==> t.spawnOrder != x.spawnOrder
    ensures DistinctSpawnOrders(g + [x])
  {
    var g' := g + [x];
    forall i, j | 0 <= i < |g'| && 0 <= j < |g'| && i != j ensures g'[i].spawnOrder != g'[j].spawnOrder {
      if i == |g| {
        assert g[j] in g;
      } else if j == |g| {
        assert g[i] in g;
      }
    }
  }

  /** Spawning a token with the next identity keeps the lists well formed:
      every identity handed out so far is below the new one. */
  lemma EnqueueKeepsInvariant(q: seq<Token>, g: seq<Token>, bound: nat, u: real)
    requires ListsInvariant(Lists(q, g), bound) && 0.0 <= u < 1.0
    ensures ListsInvariant(Lists(q + [NewToken(bound, TokenNumber(u))], g), bound + 1)
  {
    var x := NewToken(bound, TokenNumber(u));
    var q' := q + [x];
    NewTokenIsWaiting(bound, u);
    assert forall t :: t in q' ==> t in q || t == x;
    assert UniqueIds(q') by {
      forall i, j | 0 <= i < |q'| && 0 <= j < |q'| && i != j ensures q'[i].id != q'[j].id {
        if i == |q| {
          assert q[j] in q;
        } else if j == |q| {
          assert q[i] in q;
        }
      }
    }
  }

  /** Ordering the grid list by spawn order keeps the invariant, keeps its
      length, and leaves it strictly sorted. */
  lemma SortKeepsInvariant(q: seq<Token>, g: seq<Token>, bound: nat)
    requires ListsInvariant(Lists(q, g), bound) && DistinctSpawnOrders(g)
    ensures ListsInvariant(Lists(q, SortBySpawnOrder(g)), bound)
    ensures StrictlySorted(SortBySpawnOrder(g))
    ensures |SortBySpawnOrder(g)| == |g|
  {
    var s := SortBySpawnOrder(g);
    SameElements(g, s);
    ExclusiveSubset(g, s);
    SortedBySpawnOrder(g);
  }

  /** A rearrangement has the same length and the same members. */
  lemma SameElements(a: seq<Token>, b: seq<Token>)
    requires multiset(a) == multiset(b)
    ensures |a| == |b|
    ensures forall t :: t in b <==> t in a
  {
    assert |multiset(a)| == |multiset(b)|;
    assert forall t :: t in a <==> t in multiset(a);
    assert forall t :: t in b <==> t in multiset(b);
  }

  /** When several queued tokens are ready and the entry node is free, the
      one queued last enters: a ready token behind another in the queue
      always wins, and only one token enters per step. */
  lemma LatestReadyEnters(q: seq<Token>, g: seq<Token>, deltaSec: real, i: nat, j: nat)
    requires i < j < |q| && ReadyToEnter(q[i]) && ReadyToEnter(q[j]) && CanEnterGrid(g)
    ensures j <= LastReady(q)
    ensures Admit(q, g, deltaSec).inGrid == g + [Enter(q[LastReady(q)])]
  {
  }
}
