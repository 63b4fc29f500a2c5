/** The two list operations the movement engine applies to the grid tokens:
    ordering them by spawn order before they move, and dropping the resolved
    ones by identity afterwards. */
module TokenLists {
  import opened Tokens

  predicate StrictlySorted(ts: seq<Token>) {
    forall i, j :: 0 <= i < j < |ts| ==> ts[i].spawnOrder < ts[j].spawnOrder
  }

  predicate DistinctSpawnOrders(ts: seq<Token>) {
    forall i, j :: 0 <= i < |ts| && 0 <= j < |ts| && i != j ==> ts[i].spawnOrder != ts[j].spawnOrder
  }

  predicate UniqueIds(ts: seq<Token>) {
    forall i, j :: 0 <= i < |ts| && 0 <= j < |ts| && i != j ==> ts[i].id != ts[j].id
  }

  /** No token is in both lists. */
  predicate Separate(q: seq<Token>, g: seq<Token>) {
    forall t, u :: t in q && u in g ==> t.id != u.id
  }

  /** Inserts `x` before the first token that spawned no earlier. */
  function Insert(x: Token, s: seq<Token>): (r: seq<Token>)
    ensures multiset(r) == multiset(s) + multiset{x}
    ensures |r| == |s| + 1
    ensures r[0] == x || (s != [] && r[0] == s[0])
  {
    if s == [] || x.spawnOrder <= s[0].spawnOrder then [x] + s
    else
      assert s == [s[0]] + s[1..];
      [s[0]] + Insert(x, s[1..])
  }

  /** The grid list ordered by spawn order: the same tokens, rearranged. */
  function SortBySpawnOrder(ts: seq<Token>): (r: seq<Token>)
    ensures multiset(r) == multiset(ts)
  {
    if ts == [] then []
    else
      assert ts == [ts[0]] + ts[1..];
      Insert(ts[0], SortBySpawnOrder(ts[1..]))
  }

  lemma {:induction false} InsertSorted(x: Token, s: seq<Token>)
    requires StrictlySorted(s)
    requires forall t :: t in s ==> t.spawnOrder != x.spawnOrder
    ensures StrictlySorted(Insert(x, s))
  {
    if s == [] || x.spawnOrder <= s[0].spawnOrder {
    } else {
      var rest := Insert(x, s[1..]);
      assert forall t :: t in s[1..] ==> t in s;
      InsertSorted(x, s[1..]);
      assert s[0].spawnOrder < rest[0].spawnOrder;
      assert Insert(x, s) == [s[0]] + rest;
    }
  }

  /** Tokens with distinct spawn orders come out strictly ordered: the
      earlier a token spawned, the earlier it moves. */
  lemma {:induction false} SortedBySpawnOrder(ts: seq<Token>)
    requires DistinctSpawnOrders(ts)
    ensures StrictlySorted(SortBySpawnOrder(ts))
  {
    if ts != [] {
      var rest := SortBySpawnOrder(ts[1..]);
      SortedBySpawnOrder(ts[1..]);
      forall t | t in rest ensures t.spawnOrder != ts[0].spawnOrder {
        assert t in multiset(ts[1..]);
        var m :| 0 <= m < |ts[1..]| && ts[1..][m] == t;
        assert ts[m + 1] == t;
      }
      InsertSorted(ts[0], rest);
    }
  }

  /** Distinct spawn orders one above each identity give distinct identities. */
  lemma SortedHasUniqueIds(ts: seq<Token>)
    requires StrictlySorted(ts)
    requires forall t :: t in ts ==> t.spawnOrder == t.id + 1
    ensures UniqueIds(ts)
  {
    forall i, j | 0 <= i < |ts| && 0 <= j < |ts| && i != j ensures ts[i].id != ts[j].id {
      assert ts[i] in ts && ts[j] in ts;
    }
  }

  /** The grid list without the tokens whose identities were collected for
      removal, in the same order. */
  function Without(ts: seq<Token>, removed: seq<nat>): (r: seq<Token>)
    ensures forall t :: t in r <==> t in ts && t.id !in removed
  {
    if ts == [] then []
    else
      var last := ts[|ts| - 1];
      assert ts == ts[..|ts| - 1] + [last];
      var init := Without(ts[..|ts| - 1], removed);
      if last.id in removed then init else init + [last]
  }

  /** How many tokens of the list carry an identity collected for removal. */
  function CountIn(ts: seq<Token>, removed: seq<nat>): nat {
    if ts == [] then 0
    else CountIn(ts[..|ts| - 1], removed) + (if ts[|ts| - 1].id in removed then 1 else 0)
  }

  /** Removal drops exactly the tokens counted by CountIn. */
  lemma {:induction false} WithoutLength(ts: seq<Token>, removed: seq<nat>)
    ensures |Without(ts, removed)| + CountIn(ts, removed) == |ts|
  {
    if ts != [] {
      WithoutLength(ts[..|ts| - 1], removed);
    }
  }

  /** Collecting an identity that no token of the list has changes no count. */
  lemma {:induction false} CountInIgnoresOthers(ts: seq<Token>, removed: seq<nat>, id: nat)
    requires forall t :: t in ts ==> t.id != id
    ensures CountIn(ts, removed + [id]) == CountIn(ts, removed)
  {
    if ts != [] {
      assert ts[|ts| - 1] in ts;
      assert forall t :: t in ts[..|ts| - 1] ==> t in ts;
      CountInIgnoresOthers(ts[..|ts| - 1], removed, id);
    }
  }

  /** Removal keeps the survivors in spawn order. */
  lemma {:induction false} WithoutSorted(ts: seq<Token>, removed: seq<nat>)
    requires StrictlySorted(ts)
    ensures StrictlySorted(Without(ts, removed))
  {
    if ts != [] {
      var last := ts[|ts| - 1];
      var init := ts[..|ts| - 1];
      WithoutSorted(init, removed);
      var w := Without(init, removed);
      forall k | 0 <= k < |w| ensures w[k].spawnOrder < last.spawnOrder {
        assert w[k] in init;
        var m :| 0 <= m < |init| && init[m] == w[k];
        assert ts[m] == w[k];
      }
    }
  }
}
