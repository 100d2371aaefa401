/**
 Bisecting towards a value in 32-bit arithmetic (examples/dotnet/Program.cs, `CheckSmall`).  The
 midpoint `(upper + lower) / 2` wraps, so the lower bound can fall back and start another pass.
 Here: when the passes ever get beyond a given value, and that it does not matter where they start.
 */
module Bisection {
  import opened Wrappers
  import opened Words

  /** `(upper + lower) / 2` in UInt32 arithmetic: the sum wraps. */
  function Mid(lower: Word, upper: Word): (r: Word)
    ensures r < HALF
  {
    (upper + lower) % WORDS / 2
  }

  function Increment(w: Word): Word {
    (w + 1) % WORDS
  }

  /** The lower bound after a midpoint was tried in vain. */
  function Raised(lower: Word, upper: Word): (r: Word)
    ensures lower + upper < WORDS ==> r == (lower + upper) / 2 + 1
    ensures lower + upper >= WORDS ==> r == (lower + upper - WORDS) / 2 + 1
    ensures 0 < r <= HALF
  {
    Increment(Mid(lower, upper))
  }

  /** The midpoint bisects exactly when the sum of the bounds fits in 32 bits. */
  lemma {:induction false} MidBisects(lower: Word, upper: Word)
    requires lower < upper
    ensures Mid(lower, upper) < upper
    ensures lower <= Mid(lower, upper) <==> lower + upper < WORDS
  {
  }

  /** The lower bound after `k` midpoints under `upper` were tried in vain. */
  function Chased(lower: Word, upper: Word, k: nat): Word {
    if k == 0 then lower else Raised(Chased(lower, upper, k - 1), upper)
  }

  /** The lower bound gets past `goal`, or the bracket closes, within some number of midpoints. */
  ghost predicate SettlesWithin(lower: Word, upper: Word, goal: int, most: nat) {
    exists k: nat :: k <= most && Settled(Chased(lower, upper, k), upper, goal)
  }

  predicate Settled(lower: Word, upper: Word, goal: int) {
    lower >= upper || lower > goal
  }

  /** Bisection from zero settles at all. */
  ghost predicate Settles(upper: Word, goal: int) {
    exists k: nat :: Settled(Chased(0, upper, k), upper, goal)
  }

  // ----- orbits -----

  lemma {:induction false} ChasedTwice(lower: Word, upper: Word, i: nat, j: nat)
    ensures Chased(Chased(lower, upper, i), upper, j) == Chased(lower, upper, i + j)
    decreases j
  {
    if j > 0 {
      ChasedTwice(lower, upper, i, j - 1);
    }
  }

  lemma {:induction false} ChasedFirst(lower: Word, upper: Word, k: nat)
    requires k > 0
    ensures Chased(lower, upper, k) == Chased(Raised(lower, upper), upper, k - 1)
  {
    ChasedTwice(lower, upper, 1, k - 1);
    assert Chased(lower, upper, 1) == Raised(Chased(lower, upper, 0), upper);
  }

  /** Without wrapping the lower bound grows. */
  lemma {:induction false} NoWrapGrows(lower: Word, upper: Word)
    requires lower < upper && lower + upper < WORDS
    ensures lower < Raised(lower, upper) <= upper
  {
  }

  ghost predicate Repeated(lower: Word, upper: Word, i: nat, j: nat) {
    i < j && Chased(lower, upper, i) == Chased(lower, upper, j)
  }

  ghost predicate Visits(lower: Word, upper: Word, k: nat, x: int) {
    Chased(lower, upper, k) == x
  }

  lemma {:induction false} Visited(lower: Word, upper: Word, n: nat) returns (all: set<int>)
    requires forall i: nat, j: nat | j < n :: !Repeated(lower, upper, i, j)
    ensures |all| == n && forall x | x in all :: 0 <= x < WORDS && exists k: nat :: k < n && Visits(lower, upper, k, x)
  {
    if n == 0 {
      all := {};
    } else {
      var before := Visited(lower, upper, n - 1);
      var last := Chased(lower, upper, n - 1);
      if last in before {
        var k: nat :| k < n - 1 && Visits(lower, upper, k, last);
        assert Repeated(lower, upper, k, n - 1);
      }
      all := before + {last};
      forall x | x in all
        ensures 0 <= x < WORDS && exists k: nat :: k < n && Visits(lower, upper, k, x)
      {
        if x !in before {
          assert Visits(lower, upper, n - 1, x);
        }
      }
    }
  }

  lemma {:induction false} SubsetSize(a: set<int>, b: set<int>)
    requires a <= b
    ensures |a| <= |b|
  {
    assert |b - a| == |b| - |a|;
  }

  /** Some value comes up twice. */
  lemma {:induction false} Repeats(lower: Word, upper: Word) returns (i: nat, j: nat)
    ensures i < j <= WORDS && Chased(lower, upper, i) == Chased(lower, upper, j)
  {
    if forall i: nat, j: nat | j < WORDS + 1 :: !Repeated(lower, upper, i, j) {
      var all := Visited(lower, upper, WORDS + 1);
      SubsetSize(all, Interval(WORDS));
    }
    i, j :| j < WORDS + 1 && Repeated(lower, upper, i, j);
  }

  /** The values of a cycle are those of its first round. */
  lemma {:induction false} Periodic(at: Word, upper: Word, q: nat, s: nat) returns (t: nat)
    requires q > 0 && Chased(at, upper, q) == at
    ensures t < q && Chased(at, upper, s) == Chased(at, upper, t)
    decreases s
  {
    if s < q {
      t := s;
    } else {
      ChasedTwice(at, upper, q, s - q);
      t := Periodic(at, upper, q, s - q);
    }
  }

  /** An endless cycle below `goal` and inside the bracket. */
  ghost predicate Cycle(at: Word, upper: Word, goal: int) {
    && (exists q: nat :: q > 0 && Chased(at, upper, q) == at)
    && forall s: nat :: !Settled(Chased(at, upper, s), upper, goal)
  }

  /** A bisection that does not settle in time runs into a cycle. */
  lemma {:induction false} UnsettledCycles(lower: Word, upper: Word, goal: int) returns (at: Word)
    requires !SettlesWithin(lower, upper, goal, WORDS)
    ensures Cycle(at, upper, goal)
  {
    var i, j := Repeats(lower, upper);
    at := Chased(lower, upper, i);
    var q := j - i;
    ChasedTwice(lower, upper, i, q);
    assert Chased(at, upper, q) == at;
    forall s: nat
      ensures !Settled(Chased(at, upper, s), upper, goal)
    {
      var t := Periodic(at, upper, q, s);
      ChasedTwice(lower, upper, i, t);
      assert !Settled(Chased(lower, upper, i + t), upper, goal);
    }
  }

  // ----- a cycle keeps the bisection from zero below it -----

  /** A cycle wraps somewhere. */
  lemma {:induction false} CycleWraps(at: Word, upper: Word, goal: int) returns (t: nat)
    requires Cycle(at, upper, goal)
    ensures Chased(at, upper, t) >= WORDS - upper && !Settled(Chased(at, upper, t), upper, goal)
  {
    var q: nat :| q > 0 && Chased(at, upper, q) == at;
    if forall t: nat | t < q :: Rises(Chased(at, upper, t), upper) {
      Grows(at, upper, q);
    }
    t :| t < q && !Rises(Chased(at, upper, t), upper);
    assert !Settled(Chased(at, upper, t), upper, goal);
  }

  /** A lower bound whose next midpoint does not wrap. */
  predicate Rises(lower: Word, upper: Word) {
    lower < upper && lower + upper < WORDS
  }

  lemma {:induction false} Grows(at: Word, upper: Word, k: nat)
    requires forall t: nat | t < k :: Rises(Chased(at, upper, t), upper)
    ensures Chased(at, upper, k) >= at + k
  {
    if k > 0 {
      Grows(at, upper, k - 1);
      NoWrapGrows(Chased(at, upper, k - 1), upper);
    }
  }

  /** The least value of a cycle that wraps. */
  ghost predicate LeastWrapped(low: Word, at: Word, upper: Word) {
    && low >= WORDS - upper
    && (exists t: nat :: Chased(at, upper, t) == low)
    && forall t: nat | Chased(at, upper, t) >= WORDS - upper :: Chased(at, upper, t) >= low
  }

  lemma {:induction false} LeastWrappedExists(at: Word, upper: Word, t: nat) returns (low: Word)
    requires Chased(at, upper, t) >= WORDS - upper
    ensures LeastWrapped(low, at, upper)
    decreases Chased(at, upper, t)
  {
    low := Chased(at, upper, t);
    if t' : nat :| WORDS - upper <= Chased(at, upper, t') < low {
      low := LeastWrappedExists(at, upper, t');
    }
  }

  /** Going round once more, a cycle starts at the least value that wraps. */
  lemma {:induction false} Rebased(at: Word, upper: Word, goal: int, low: Word)
    requires Cycle(at, upper, goal) && LeastWrapped(low, at, upper)
    ensures Cycle(low, upper, goal) && LeastWrapped(low, low, upper)
  {
    var t0: nat :| Chased(at, upper, t0) == low;
    var q: nat :| q > 0 && Chased(at, upper, q) == at;
    ChasedTwice(at, upper, t0, q);
    ChasedTwice(at, upper, q, t0);
    assert Chased(low, upper, q) == low;
    forall s: nat
      ensures Chased(low, upper, s) == Chased(at, upper, t0 + s)
    {
      ChasedTwice(at, upper, t0, s);
    }
    assert Chased(low, upper, 0) == low;
  }

  /** One step of two bounds in the same branch keeps their order and halves their distance. */
  lemma {:induction false} StepTogether(p: Word, w: Word, upper: Word)
    requires p <= w && (w + upper < WORDS || WORDS <= p + upper)
    ensures Raised(p, upper) <= Raised(w, upper)
    ensures 2 * (Raised(w, upper) - Raised(p, upper)) <= w - p + 1
  {
  }

  lemma {:induction false} StaysBehind(w: Word, upper: Word)
    requires w > 0 && w + upper != WORDS && Raised(w, upper) != Raised(w - 1, upper)
    ensures LosesNoBit(w, upper)
  {
  }

  lemma {:induction false} StaysWithinRoom(p: Word, w: Word, upper: Word, room: int)
    requires 0 < room && w - room <= p <= w && (w >= WORDS - upper ==> w >= WORDS - upper + room)
    ensures var q, v := Raised(p, upper), Raised(w, upper);
            v - room <= q <= v
  {
    StepTogether(p, w, upper);
  }

  /** With room above the wrapping point, the bisection from zero stays just below the cycle. */
  lemma {:induction false} FollowsWithRoom(upper: Word, goal: int, low: Word, t: nat)
    requires Cycle(low, upper, goal) && LeastWrapped(low, low, upper) && low > WORDS - upper
    ensures var p, w := Chased(0, upper, t), Chased(low, upper, t + 1);
            w - (low - (WORDS - upper)) <= p <= w
  {
    if t > 0 {
      FollowsWithRoom(upper, goal, low, t - 1);
      var p, w := Chased(0, upper, t - 1), Chased(low, upper, t);
      assert w >= WORDS - upper ==> w >= low;
      StaysWithinRoom(p, w, upper, low - (WORDS - upper));
    } else {
      assert Chased(low, upper, 1) == Raised(Chased(low, upper, 0), upper);
    }
  }

  function Pow2(k: nat): (r: nat)
    ensures r > 0
  {
    if k == 0 then 1 else 2 * Pow2(k - 1)
  }

  lemma {:induction false} WordsIsPow2()
    ensures Pow2(32) == WORDS
  {
    assert Pow2(8) == 256;
    assert Pow2(16) == 0x1_0000;
    assert Pow2(24) == 0x100_0000;
  }

  lemma {:induction false} DoublesOnce(w: Word, upper: Word, e: int)
    requires LosesNoBit(w, upper) && e == if w + upper < WORDS then 0 else 1
    ensures w - upper - 2 == 2 * (Raised(w, upper) - upper - 2) + e * WORDS
  {
  }

  lemma {:induction false} Chained(x0: int, f: int, x: int, c: int, y: int, e: int)
    requires x0 == f * x + c * WORDS && x == 2 * y + e * WORDS
    ensures x0 == (2 * f) * y + (c + f * e) * WORDS
  {
    assert f * x == f * (2 * y) + f * (e * WORDS);
  }

  /** The halving of a step is exact. */
  predicate LosesNoBit(w: Word, upper: Word) {
    (w + upper) % 2 == 0
  }

  /** While no bit is lost, a step doubles backwards, up to multiples of the word size. */
  lemma {:induction false} Doubles(at: Word, upper: Word, k: nat) returns (y: int, c: int)
    requires forall s: nat | s < k :: LosesNoBit(Chased(at, upper, s), upper)
    ensures y == Chased(at, upper, k) - upper - 2 && at - upper - 2 == Pow2(k) * y + c * WORDS
  {
    if k == 0 {
      y, c := at - upper - 2, 0;
    } else {
      var x, b := Doubles(at, upper, k - 1);
      var w := Chased(at, upper, k - 1);
      var e := if w + upper < WORDS then 0 else 1;
      assert LosesNoBit(w, upper);
      DoublesOnce(w, upper, e);
      y, c := Raised(w, upper) - upper - 2, b + Pow2(k - 1) * e;
      Chained(at - upper - 2, Pow2(k - 1), x, b, y, e);
    }
  }

  lemma {:induction false} MultipleOfWords(upper: Word, f: int)
    requires upper + 1 == WORDS * f
    ensures upper == WORDS - 1
  {
    assert 0 < f < 2;
  }

  lemma {:induction false} DoublesThroughout(upper: Word) returns (y: int, c: int)
    requires forall s: nat :: LosesNoBit(Chased(1, upper, s), upper)
    ensures 1 - upper - 2 == WORDS * y + c * WORDS
  {
    WordsIsPow2();
    y, c := Doubles(1, upper, 32);
  }

  /** No cycle through the wrapping point is exact throughout, unless the upper bound is the largest word. */
  lemma {:induction false} SomeBitIsLost(upper: Word)
    requires forall s: nat :: LosesNoBit(Chased(1, upper, s), upper)
    ensures upper == WORDS - 1
  {
    var y, c := DoublesThroughout(upper);
    MultipleOfWords(upper, 0 - y - c);
  }

  /** The bisection from zero is one behind the cycle of `1`, and has been all along. */
  ghost predicate OneBehind(upper: Word, t: nat) {
    forall s: nat | s <= t :: Chased(0, upper, s) == Chased(1, upper, s) - 1
  }

  lemma {:induction false} BehindLosesNoBit(upper: Word, t: nat, s: nat)
    requires OneBehind(upper, t) && s < t && Chased(1, upper, s) != WORDS - upper
    ensures LosesNoBit(Chased(1, upper, s), upper)
  {
    assert Chased(0, upper, s) == Chased(1, upper, s) - 1 && Chased(0, upper, s + 1) == Chased(1, upper, s + 1) - 1;
    StaysBehind(Chased(1, upper, s), upper);
  }

  lemma {:induction false} ReturnsToOne(upper: Word, t: nat)
    requires upper > HALF && Chased(1, upper, t) == WORDS - upper
    ensures Chased(1, upper, t + 1) == 1 && LosesNoBit(Chased(1, upper, t), upper)
  {
  }

  lemma {:induction false} RoundLosesNoBit(upper: Word, t: nat, s: nat)
    requires upper > HALF && OneBehind(upper, t) && Chased(1, upper, t) == WORDS - upper
    requires forall r: nat | r < t :: Chased(1, upper, r) != WORDS - upper
    ensures LosesNoBit(Chased(1, upper, s), upper)
  {
    ReturnsToOne(upper, t);
    var r := Periodic(1, upper, t + 1, s);
    if r < t {
      BehindLosesNoBit(upper, t, r);
    }
  }

  lemma {:induction false} CycleOfOne(upper: Word, t: nat)
    requires upper > HALF && OneBehind(upper, t) && Chased(1, upper, t) == WORDS - upper
    requires forall s: nat | s < t :: Chased(1, upper, s) != WORDS - upper
    ensures upper == WORDS - 1
  {
    forall s: nat
      ensures LosesNoBit(Chased(1, upper, s), upper)
    {
      RoundLosesNoBit(upper, t, s);
    }
    SomeBitIsLost(upper);
  }

  lemma {:induction false} StepsBehind(upper: Word, t: nat)
    requires OneBehind(upper, t) && Chased(1, upper, t) != WORDS - upper
    ensures Chased(0, upper, t + 1) == Chased(1, upper, t + 1) || OneBehind(upper, t + 1)
  {
    StepTogether(Chased(0, upper, t), Chased(1, upper, t), upper);
  }

  lemma {:induction false} BehindNeverWraps(upper: Word, t: nat)
    requires HALF < upper < WORDS - 1 && OneBehind(upper, t)
    ensures Chased(1, upper, t) != WORDS - upper
  {
    if Chased(1, upper, t) == WORDS - upper {
      var s := FirstVisit(upper, t);
      CycleOfOne(upper, s);
    }
  }

  ghost predicate Near(upper: Word, t: nat) {
    Chased(0, upper, t) == Chased(1, upper, t) || OneBehind(upper, t)
  }

  lemma {:induction false} NearNext(upper: Word, t: nat)
    requires HALF < upper < WORDS - 1 && Near(upper, t)
    ensures Near(upper, t + 1)
  {
    if OneBehind(upper, t) {
      BehindNeverWraps(upper, t);
      StepsBehind(upper, t);
    }
  }

  /** From zero the bisection is at most one behind that from one. */
  lemma {:induction false} AtMostOneBehind(upper: Word, t: nat)
    requires HALF < upper < WORDS - 1
    ensures Near(upper, t)
  {
    if t == 0 {
      assert OneBehind(upper, 0);
    } else {
      AtMostOneBehind(upper, t - 1);
      NearNext(upper, t - 1);
    }
  }

  lemma {:induction false} FirstVisit(upper: Word, t: nat) returns (s: nat)
    requires upper > HALF && Chased(1, upper, t) == WORDS - upper
    ensures s <= t && Chased(1, upper, s) == WORDS - upper
    ensures forall r: nat | r < s :: Chased(1, upper, r) != WORDS - upper
  {
    s := t;
    if r: nat :| r < t && Chased(1, upper, r) == WORDS - upper {
      s := FirstVisit(upper, r);
    }
  }

  /** A cycle below the goal keeps the bisection from zero below the goal. */
  lemma {:induction false} CycleTraps(at: Word, upper: Word, goal: int)
    requires Cycle(at, upper, goal) && HALF < upper < WORDS - 1
    ensures !Settles(upper, goal)
  {
    var t0 := CycleWraps(at, upper, goal);
    var low := LeastWrappedExists(at, upper, t0);
    Rebased(at, upper, goal, low);
    forall t: nat
      ensures !Settled(Chased(0, upper, t), upper, goal)
    {
      assert !Settled(Chased(low, upper, t + 1), upper, goal);
      if low > WORDS - upper {
        FollowsWithRoom(upper, goal, low, t);
      } else {
        AtMostOneBehind(upper, t);
        ChasedFirst(low, upper, t + 1);
        assert Raised(low, upper) == 1;
      }
    }
  }

  /** Up to half the range nothing wraps and nothing cycles. */
  lemma {:induction false} SmallNeverCycles(at: Word, upper: Word, goal: int)
    requires upper <= HALF
    ensures !Cycle(at, upper, goal)
  {
    if Cycle(at, upper, goal) {
      var t := CycleWraps(at, upper, goal);
    }
  }

  /** The largest word is bisected once; from one on its lower bound only falls. */
  lemma {:induction false} LargestSettles(goal: int)
    requires Settles(WORDS - 1, goal)
    ensures goal < HALF && SettlesWithin(0, WORDS - 1, goal, WORDS)
  {
    var k: nat :| Settled(Chased(0, WORDS - 1, k), WORDS - 1, goal);
    assert Chased(0, WORDS - 1, k) <= HALF;
    assert Chased(0, WORDS - 1, 1) == Raised(Chased(0, WORDS - 1, 0), WORDS - 1) == HALF;
    assert Settled(Chased(0, WORDS - 1, 1), WORDS - 1, goal);
  }

  /**
   Where the bisection starts does not matter: if it settles from zero then it settles, in at most
   as many midpoints as there are words, from every lower bound an earlier upper bound left behind.
   */
  lemma {:induction false} SettlesFromAnywhere(lower: Word, upper: Word, goal: int)
    requires Settles(upper, goal) && (upper == WORDS - 1 ==> lower == 0)
    ensures SettlesWithin(lower, upper, goal, WORDS)
  {
    if upper == WORDS - 1 {
      LargestSettles(goal);
    } else if !SettlesWithin(lower, upper, goal, WORDS) {
      var at := UnsettledCycles(lower, upper, goal);
      if upper <= HALF {
        SmallNeverCycles(at, upper, goal);
      } else {
        CycleTraps(at, upper, goal);
      }
    }
  }

  // ----- counting down -----

  /** How many midpoints are still to be tried in vain, up to a limit. */
  function Delay(lower: Word, upper: Word, goal: int, most: nat): (r: nat)
    ensures r <= most
    decreases most
  {
    if most == 0 || Settled(lower, upper, goal) then 0
    else 1 + Delay(Raised(lower, upper), upper, goal, most - 1)
  }

  lemma {:induction false} SettlesNext(lower: Word, upper: Word, goal: int, most: nat)
    requires SettlesWithin(lower, upper, goal, most) && !Settled(lower, upper, goal)
    ensures most > 0 && SettlesWithin(Raised(lower, upper), upper, goal, most - 1)
  {
    var k: nat :| k <= most && Settled(Chased(lower, upper, k), upper, goal);
    assert k != 0;
    ChasedFirst(lower, upper, k);
    assert Settled(Chased(Raised(lower, upper), upper, k - 1), upper, goal);
  }

  lemma {:induction false} LimitIsEnough(lower: Word, upper: Word, goal: int, most: nat)
    requires SettlesWithin(lower, upper, goal, most)
    ensures Delay(lower, upper, goal, most + 1) == Delay(lower, upper, goal, most)
    decreases most
  {
    if !Settled(lower, upper, goal) {
      SettlesNext(lower, upper, goal, most);
      LimitIsEnough(Raised(lower, upper), upper, goal, most - 1);
    }
  }

  /** Every midpoint tried in vain brings a bisection that settles one closer to that. */
  lemma {:induction false} DelayCounts(lower: Word, upper: Word, goal: int, most: nat)
    requires SettlesWithin(lower, upper, goal, most) && !Settled(lower, upper, goal)
    ensures Delay(lower, upper, goal, most) == Delay(Raised(lower, upper), upper, goal, most) + 1
  {
    SettlesNext(lower, upper, goal, most);
    LimitIsEnough(Raised(lower, upper), upper, goal, most - 1);
  }

  lemma {:induction false} LowerGoal(upper: Word, goal: int, other: int)
    requires Settles(upper, goal) && other <= goal
    ensures Settles(upper, other)
  {
    var k: nat :| Settled(Chased(0, upper, k), upper, goal);
    assert Settled(Chased(0, upper, k), upper, other);
  }

  // ----- two simple sufficient conditions -----

  lemma {:induction false} RoomSettles(upper: Word, goal: int)
    requires 0 <= goal <= upper && (upper <= HALF || goal + upper < WORDS)
    ensures Settles(upper, goal)
  {
    if !Settles(upper, goal) {
      assert !SettlesWithin(0, upper, goal, WORDS);
      var at := UnsettledCycles(0, upper, goal);
      var t := CycleWraps(at, upper, goal);
    }
  }
}
