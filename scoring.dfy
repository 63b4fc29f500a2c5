/** Score, life, combo and the three outcome counters of a session, and how
    each way of losing a token from the grid changes them. */
module Scoring {
  import opened Config

  datatype Tally = Tally(score: int, life: int, combo: nat, maxCombo: nat,
                         correctCount: nat, wrongCount: nat, stuckCount: nat)

  /** The feedback the session emits when a token leaves the grid: delivered
      to its own room, delivered to another room, or removed for stalling. */
  datatype Feedback = Correct | Wrong | Stuck

  function NatMax(a: nat, b: nat): nat { if a >= b then a else b }
  function IntMin(a: int, b: int): int { if a <= b then a else b }

  /** The tally a session starts with. */
  const Fresh: Tally := Tally(0, StartLife, 0, 0, 0, 0, 0)

  /** Tokens that have left the grid one way or another. */
  function Resolved(t: Tally): nat {
    t.correctCount + t.wrongCount + t.stuckCount
  }

  /** A delivery to the token's own room. */
  function Credit(t: Tally): Tally {
    var combo := t.combo + 1;
    var bonusScore := IntMin(combo, 5);
    t.(combo := combo, maxCombo := NatMax(t.maxCombo, combo),
       score := t.score + 10 + bonusScore, correctCount := t.correctCount + 1)
  }

  /** A delivery to another room. */
  function Misroute(t: Tally): Tally {
    t.(score := t.score - 5, life := t.life - 1, combo := 0, wrongCount := t.wrongCount + 1)
  }

  /** A token removed for stalling. */
  function Stall(t: Tally): Tally {
    t.(score := t.score - 3, life := t.life - 1, combo := 0, stuckCount := t.stuckCount + 1)
  }

  /** What holds of every tally reachable from `Fresh`: each miss or stall
      cost exactly one life; the combo is a run of correct deliveries no
      longer than the best run; and each correct delivery is worth 11 to 15
      points, each wrong one -5 and each stall -3. */
  predicate Consistent(t: Tally) {
    && t.life == StartLife - t.wrongCount - t.stuckCount
    && t.combo <= t.maxCombo <= t.correctCount
    && 11 * t.correctCount - 5 * t.wrongCount - 3 * t.stuckCount <= t.score
    && t.score <= 15 * t.correctCount - 5 * t.wrongCount - 3 * t.stuckCount
  }

  lemma FreshIsConsistent()
    ensures Consistent(Fresh) && Resolved(Fresh) == 0
  {
  }

  /** A correct delivery raises the combo by one, keeps the best combo at
      least the combo, and scores 10 plus the new combo capped at 5. */
  lemma CreditRewards(t: Tally)
    requires Consistent(t)
    ensures var u := Credit(t);
      && u.combo == t.combo + 1 && u.maxCombo >= u.combo && u.maxCombo >= t.maxCombo
      && u.score - t.score == 10 + IntMin(t.combo + 1, 5)
      && 11 <= u.score - t.score <= 15
      && u.life == t.life
      && Consistent(u) && Resolved(u) == Resolved(t) + 1
  {
  }

  /** A wrong delivery costs 5 points and a life and breaks the combo. */
  lemma MisroutePenalises(t: Tally)
    requires Consistent(t)
    ensures var u := Misroute(t);
      && u.score == t.score - 5 && u.life == t.life - 1 && u.combo == 0
      && u.maxCombo == t.maxCombo && u.wrongCount == t.wrongCount + 1
      && Consistent(u) && Resolved(u) == Resolved(t) + 1
  {
  }

  /** A stall costs 3 points and a life and breaks the combo. */
  lemma StallPenalises(t: Tally)
    requires Consistent(t)
    ensures var u := Stall(t);
      && u.score == t.score - 3 && u.life == t.life - 1 && u.combo == 0
      && u.maxCombo == t.maxCombo && u.stuckCount == t.stuckCount + 1
      && Consistent(u) && Resolved(u) == Resolved(t) + 1
  {
  }

  /** Life only runs out through misses and stalls: after three of them,
      and never before. */
  lemma LifeRunsOutAfterThreeFailures(t: Tally)
    requires Consistent(t)
    ensures t.life <= 0 <==> t.wrongCount + t.stuckCount >= StartLife
  {
  }

  /** The tally after one token leaves the grid. */
  function Apply(t: Tally, f: Feedback): Tally {
    match f
    case Correct => Credit(t)
    case Wrong => Misroute(t)
    case Stuck => Stall(t)
  }

  /** The tally after a run of tokens leave the grid, in order. */
  function ApplyAll(t: Tally, fs: seq<Feedback>): Tally {
    if fs == [] then t else Apply(ApplyAll(t, fs[..|fs| - 1]), fs[|fs| - 1])
  }

  /** However tokens leave the grid, the tally stays consistent and every
      token that left is counted exactly once. */
  lemma {:induction false} ApplyAllConsistent(t: Tally, fs: seq<Feedback>)
    requires Consistent(t)
    ensures Consistent(ApplyAll(t, fs))
    ensures Resolved(ApplyAll(t, fs)) == Resolved(t) + |fs|
  {
    if fs != [] {
      var u := ApplyAll(t, fs[..|fs| - 1]);
      ApplyAllConsistent(t, fs[..|fs| - 1]);
      match fs[|fs| - 1]
      case Correct => CreditRewards(u);
      case Wrong => MisroutePenalises(u);
      case Stuck => StallPenalises(u);
    }
  }

  /** Feedback recorded one at a time adds up to the whole run. */
  lemma ApplyAllSnoc(t: Tally, fs: seq<Feedback>, f: Feedback)
    ensures ApplyAll(t, fs + [f]) == Apply(ApplyAll(t, fs), f)
  {
    assert (fs + [f])[..|fs|] == fs;
  }
}
