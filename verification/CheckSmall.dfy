/**
 Shrinking a model by bisection (examples/dotnet/Program.cs, `CheckSmall`): 32-bit unsigned
 arithmetic and an exact satisfiability oracle, one solver check at a time.
 */
module CheckSmall {
  import opened Wrappers
  import opened Words
  import opened Bisection

  /** The values of the expressions to minimise in one model. */
  type Point = seq<Word>

  ghost predicate Below(p: Point, q: Point) {
    |p| == |q| && forall i | 0 <= i < |p| :: p[i] <= q[i]
  }

  // ----- the search -----

  /**
   The bounds, the bound last tried, whether it is still asserted, and whether there is work left.
   */
  datatype Search =
    Search(lower: Point, upper: Point, lastIndex: int, lastUpper: Word, pending: bool, working: bool)

  function Filled(n: nat, w: Word): (p: Point)
    ensures |p| == n && forall i | 0 <= i < n :: p[i] == w
  {
    seq(n, i => w)
  }

  function Start(n: nat): Search {
    Search(Filled(n, 0), Filled(n, WORDS - 1), -1, 0, false, true)
  }

  /** The first index from `i` on whose bounds still differ. */
  function FirstOpen(lower: Point, upper: Point, i: nat): (r: nat)
    requires |lower| == |upper| && i <= |lower|
    ensures i <= r <= |lower|
    ensures forall j | i <= j < r :: lower[j] >= upper[j]
    ensures r < |lower| ==> lower[r] < upper[r]
    decreases |lower| - i
  {
    if i == |lower| || lower[i] < upper[i] then i else FirstOpen(lower, upper, i + 1)
  }

  function Narrowed(upper: Point, model: Point): (r: Point)
    requires |upper| == |model|
    ensures |r| == |upper|
    ensures forall i | 0 <= i < |r| :: r[i] == if model[i] < upper[i] then model[i] else upper[i]
  {
    seq(|upper|, i requires 0 <= i < |upper| => if model[i] < upper[i] then model[i] else upper[i])
  }

  predicate Shaped(s: Search, n: nat) {
    |s.lower| == n && |s.upper| == n && -1 <= s.lastIndex && (s.lastIndex < n || s.lastIndex == 0)
    && (s.pending ==> 0 <= s.lastIndex < n)
  }

  /** What one answer of the solver makes of the search. */
  function After(s: Search, n: nat, answer: Option<Point>): (r: Search)
    requires Shaped(s, n) && (answer.Some? ==> |answer.value| == n)
    ensures Shaped(r, n)
  {
    match answer
    case None =>
      var lower := if 0 <= s.lastIndex < n then s.lower[s.lastIndex := Increment(s.lastUpper)] else s.lower;
      s.(lower := lower, pending := false)
    case Some(model) =>
      var upper := Narrowed(s.upper, model);
      var i := FirstOpen(s.lower, upper, 0);
      if i == n then s.(upper := upper, lastIndex := 0, pending := false, working := false)
      else Search(s.lower, upper, i, Mid(s.lower[i], upper[i]), true, true)
  }

  /** The constraints: which points are models at all. */
  type Feasible = Point -> bool

  /** What the solver is asked: a feasible point under the current bounds. */
  ghost predicate Candidate(feasible: Feasible, n: nat, s: Search, p: Point)
    requires Shaped(s, n)
  {
    && |p| == n && feasible(p) && Below(p, s.upper)
    && (s.pending ==> p[s.lastIndex] <= s.lastUpper)
  }

  ghost predicate Exact(feasible: Feasible, n: nat, s: Search, answer: Option<Point>)
    requires Shaped(s, n)
  {
    match answer
    case Some(p) => Candidate(feasible, n, s, p)
    case None => forall p :: !Candidate(feasible, n, s, p)
  }

  ghost predicate Satisfiable(feasible: Feasible, n: nat) {
    exists p :: |p| == n && feasible(p)
  }

  // ----- what the bounds mean, wrapping or not -----

  /** The upper bounds are a model; every model below them respects the lower bounds. */
  ghost predicate Bracketed(feasible: Feasible, n: nat, s: Search)
    requires Shaped(s, n)
  {
    && feasible(s.upper)
    && (forall p | |p| == n && feasible(p) && Below(p, s.upper) :: Below(s.lower, p))
  }

  ghost predicate Minimal(feasible: Feasible, n: nat, p: Point) {
    && |p| == n && feasible(p)
    && forall q | |q| == n && feasible(q) && Below(q, p) :: q == p
  }

  /** The bound being tried is the midpoint of the first bracket that is open. */
  predicate Trying(s: Search, n: nat)
    requires Shaped(s, n)
  {
    s.pending ==>
      && s.lastIndex == FirstOpen(s.lower, s.upper, 0)
      && s.lastUpper == Mid(s.lower[s.lastIndex], s.upper[s.lastIndex])
  }

  /** The search before its first answer, or bracketing a model ever since. */
  ghost predicate OnTrack(feasible: Feasible, n: nat, s: Search)
    requires Shaped(s, n)
  {
    && Trying(s, n)
    && (s == Start(n) || Bracketed(feasible, n, s))
  }

  lemma {:induction false} StartIsOpen(feasible: Feasible, n: nat)
    requires Satisfiable(feasible, n)
    ensures !Exact(feasible, n, Start(n), None)
    ensures forall p | |p| == n && feasible(p) && Below(p, Start(n).upper) :: Below(Start(n).lower, p)
  {
    var p :| |p| == n && feasible(p);
    assert Candidate(feasible, n, Start(n), p);
  }

  lemma {:induction false} SatisfiableStep(feasible: Feasible, n: nat, s: Search, p: Point)
    requires Shaped(s, n) && Candidate(feasible, n, s, p)
    requires forall q | |q| == n && feasible(q) && Below(q, s.upper) :: Below(s.lower, q)
    ensures var r := After(s, n, Some(p));
            && r.upper == p && r.lower == s.lower && Bracketed(feasible, n, r) && Trying(r, n)
            && r.working == r.pending && (!r.working ==> Minimal(feasible, n, r.upper))
  {
    var r := After(s, n, Some(p));
    assert r.upper == p;
    if !r.working {
      forall q | |q| == n && feasible(q) && Below(q, p)
        ensures q == p
      {
        assert Below(q, s.upper);
        assert Below(s.lower, q);
      }
    }
  }

  lemma {:induction false} UnsatisfiableStep(feasible: Feasible, n: nat, s: Search)
    requires Shaped(s, n) && Exact(feasible, n, s, None) && Bracketed(feasible, n, s) && Trying(s, n)
    ensures s.pending
    ensures var r, i := After(s, n, None), s.lastIndex;
            && Bracketed(feasible, n, r) && r.upper == s.upper && r.working == s.working && !r.pending
            && r.lower == s.lower[i := Raised(s.lower[i], s.upper[i])]
            && (forall q | |q| == n && feasible(q) && Below(q, s.upper) :: s.lastUpper < q[i])
  {
    assert !Candidate(feasible, n, s, s.upper);
    var r := After(s, n, None);
    forall p | |p| == n && feasible(p) && Below(p, s.upper)
      ensures Below(r.lower, p) && s.lastUpper < p[s.lastIndex]
    {
      assert !Candidate(feasible, n, s, p);
      assert Below(s.lower, p);
    }
  }

  /** Every exact answer keeps the search on track, and it stops at minimal points only. */
  lemma {:induction false} StepIsSound(feasible: Feasible, n: nat, s: Search, answer: Option<Point>)
    requires Shaped(s, n) && s.working && OnTrack(feasible, n, s) && Satisfiable(feasible, n)
    requires Exact(feasible, n, s, answer) && (answer.Some? ==> |answer.value| == n)
    ensures var r := After(s, n, answer);
            && OnTrack(feasible, n, r) && Bracketed(feasible, n, r)
            && (!r.working ==> Minimal(feasible, n, r.upper))
  {
    StartIsOpen(feasible, n);
    if answer.Some? {
      SatisfiableStep(feasible, n, s, answer.value);
    } else {
      UnsatisfiableStep(feasible, n, s);
    }
  }

  // ----- runs -----

  /** The search after a sequence of answers, as long as it is still working. */
  function Searched(n: nat, answers: seq<Option<Point>>): (s: Search)
    requires forall a | a in answers :: a.Some? ==> |a.value| == n
    ensures Shaped(s, n)
  {
    if answers == [] then Start(n)
    else After(Searched(n, answers[..|answers| - 1]), n, answers[|answers| - 1])
  }

  /** Answers an exact solver may give while there is work: one run of the algorithm. */
  ghost predicate IsRun(feasible: Feasible, n: nat, answers: seq<Option<Point>>)
    decreases |answers|
  {
    && (forall a | a in answers :: a.Some? ==> |a.value| == n)
    && (answers != [] ==>
          var before := answers[..|answers| - 1];
          && IsRun(feasible, n, before) && Searched(n, before).working
          && Exact(feasible, n, Searched(n, before), answers[|answers| - 1]))
  }

  ghost predicate StopsWithin(feasible: Feasible, n: nat, most: nat) {
    forall answers | IsRun(feasible, n, answers) :: |answers| <= most
  }

  /** Every run comes to an end, within a bound. */
  ghost predicate AlwaysStops(feasible: Feasible, n: nat) {
    exists most: nat :: StopsWithin(feasible, n, most)
  }

  /**
   On any satisfiable set, whether or not it may run for ever: where a run stops, its upper bounds
   are a feasible point with no other feasible point componentwise below it.
   */
  lemma {:induction false} StopsAtMinimal(feasible: Feasible, n: nat, answers: seq<Option<Point>>)
    requires IsRun(feasible, n, answers) && Satisfiable(feasible, n)
    ensures var s := Searched(n, answers);
            OnTrack(feasible, n, s) && (!s.working ==> Minimal(feasible, n, s.upper))
    decreases |answers|
  {
    if answers != [] {
      var before := answers[..|answers| - 1];
      StopsAtMinimal(feasible, n, before);
      StepIsSound(feasible, n, Searched(n, before), answers[|answers| - 1]);
    }
  }

  // ----- which constraint sets always stop -----

  /** Below `u` no component before `i` can be improved. */
  ghost predicate PrefixLeast(feasible: Feasible, n: nat, u: Point, i: nat)
    requires |u| == n && i < n
  {
    forall q | |q| == n && feasible(q) && Below(q, u) :: forall j | 0 <= j < i :: q[j] == u[j]
  }

  /** Some model below `u` has an `i`th component that bisection from zero gets past. */
  ghost predicate Settling(feasible: Feasible, n: nat, u: Point, i: nat)
    requires |u| == n && i < n
  {
    exists q :: |q| == n && feasible(q) && Below(q, u) && Settles(u[i], q[i])
  }

  /** Wherever the search can come to bisect, wrapping bisection settles. */
  ghost predicate Bisectable(feasible: Feasible, n: nat) {
    forall u: Point, i: nat | |u| == n && feasible(u) && i < n && PrefixLeast(feasible, n, u, i) ::
      Settling(feasible, n, u, i)
  }

  // ----- termination -----

  ghost predicate IsLeast(feasible: Feasible, n: nat, u: Point, i: nat, m: Word)
    requires |u| == n && i < n
  {
    && (exists q :: |q| == n && feasible(q) && Below(q, u) && q[i] == m)
    && forall q | |q| == n && feasible(q) && Below(q, u) :: m <= q[i]
  }

  lemma {:induction false} LeastExists(feasible: Feasible, n: nat, u: Point, i: nat, q: Point) returns (m: Word)
    requires |u| == n && i < n && |q| == n && feasible(q) && Below(q, u)
    ensures IsLeast(feasible, n, u, i, m)
    decreases q[i]
  {
    m := q[i];
    if r :| |r| == n && feasible(r) && Below(r, u) && r[i] < m {
      m := LeastExists(feasible, n, u, i, r);
    }
  }

  lemma {:induction false} HasLeast(feasible: Feasible, n: nat, u: Point, i: nat)
    requires |u| == n && i < n && feasible(u)
    ensures exists m :: IsLeast(feasible, n, u, i, m)
  {
    var m := LeastExists(feasible, n, u, i, u);
  }

  /** The least `i`th component of a model below `u`. */
  ghost function Least(feasible: Feasible, n: nat, u: Point, i: nat): (m: Word)
    requires |u| == n && i < n && feasible(u)
    ensures IsLeast(feasible, n, u, i, m)
  {
    HasLeast(feasible, n, u, i);
    var m :| IsLeast(feasible, n, u, i, m);
    m
  }

  /** The least components of models below `u`. */
  ghost function LeastPoint(feasible: Feasible, n: nat, u: Point): (r: Point)
    requires |u| == n && feasible(u)
    ensures |r| == n && forall i | 0 <= i < n :: r[i] == Least(feasible, n, u, i)
  {
    seq(n, i requires 0 <= i < n => Least(feasible, n, u, i))
  }

  /** The midpoints still to be tried in vain on the first `k` components, up to a limit for each. */
  function Delays(lower: Point, upper: Point, goals: Point, limit: nat, k: nat): (r: nat)
    requires |lower| == |upper| == |goals| && k <= |lower|
    ensures r <= k * limit
    decreases k
  {
    if k == 0 then 0
    else
      assert k * limit == (k - 1) * limit + limit;
      Delays(lower, upper, goals, limit, k - 1) + Delay(lower[k - 1], upper[k - 1], goals[k - 1], limit)
  }

  lemma {:induction false} OtherDelays(lower: Point, upper: Point, goals: Point, limit: nat, i: nat, w: Word, k: nat)
    requires |lower| == |upper| == |goals| && k <= i < |lower|
    ensures Delays(lower, upper, goals, limit, k) == Delays(lower[i := w], upper, goals, limit, k)
    decreases k
  {
    if k > 0 {
      OtherDelays(lower, upper, goals, limit, i, w, k - 1);
    }
  }

  lemma {:induction false} OneDelayLess(lower: Point, upper: Point, goals: Point, limit: nat, i: nat, w: Word, k: nat)
    requires |lower| == |upper| == |goals| && i < k <= |lower|
    requires Delay(lower[i], upper[i], goals[i], limit) == Delay(w, upper[i], goals[i], limit) + 1
    ensures Delays(lower, upper, goals, limit, k) == Delays(lower[i := w], upper, goals, limit, k) + 1
    decreases k
  {
    if k == i + 1 {
      OtherDelays(lower, upper, goals, limit, i, w, i);
    } else {
      OneDelayLess(lower, upper, goals, limit, i, w, k - 1);
    }
  }

  function Sum(p: Point): nat {
    if p == [] then 0 else p[0] + Sum(p[1..])
  }

  lemma {:induction false} SumDrops(p: Point, q: Point)
    requires Below(q, p)
    ensures Sum(q) <= Sum(p) && (q != p ==> Sum(q) < Sum(p))
    decreases |p|
  {
    if p != [] {
      SumDrops(p[1..], q[1..]);
      assert p == [p[0]] + p[1..] && q == [q[0]] + q[1..];
    }
  }

  /** What the midpoints still to be tried add to the measure. */
  ghost function Remaining(feasible: Feasible, n: nat, s: Search): (r: nat)
    requires Shaped(s, n)
    ensures r < Weight(n)
  {
    2 * (if feasible(s.upper) then Delays(s.lower, s.upper, LeastPoint(feasible, n, s.upper), WORDS, n) else n * WORDS)
    + if s.pending then 0 else 1
  }

  function Weight(n: nat): nat {
    2 * (n * WORDS) + 2
  }

  function Weighed(weight: nat, sum: nat, rest: nat): nat {
    weight * sum + rest
  }

  /** Lowering an upper bound outweighs any number of midpoints. */
  ghost function Measure(feasible: Feasible, n: nat, s: Search): nat
    requires Shaped(s, n)
  {
    Weighed(Weight(n), Sum(s.upper), Remaining(feasible, n, s))
  }

  lemma {:induction false} Outweighed(weight: nat, before: nat, after: nat, d: nat, e: nat)
    requires after < before && d < weight
    ensures Weighed(weight, after, d) < Weighed(weight, before, e)
  {
    assert weight * (after + 1) <= weight * before;
  }

  lemma {:induction false} LoweringCounts(feasible: Feasible, n: nat, s: Search, r: Search)
    requires Shaped(s, n) && Shaped(r, n) && Below(r.upper, s.upper)
    requires r.upper == s.upper ==> Remaining(feasible, n, r) < Remaining(feasible, n, s)
    ensures Measure(feasible, n, r) < Measure(feasible, n, s)
  {
    if r.upper != s.upper {
      SumDrops(s.upper, r.upper);
      Outweighed(Weight(n), Sum(s.upper), Sum(r.upper), Remaining(feasible, n, r), Remaining(feasible, n, s));
    }
  }

  /** An upper bound that is still the largest word has never been bisected in vain. */
  predicate LargestFresh(s: Search, n: nat)
    requires Shaped(s, n)
  {
    forall i | 0 <= i < n && s.upper[i] == WORDS - 1 :: s.lower[i] == 0
  }

  lemma {:induction false} ModelProgresses(feasible: Feasible, n: nat, s: Search, p: Point)
    requires Shaped(s, n) && Trying(s, n) && LargestFresh(s, n) && Candidate(feasible, n, s, p)
    requires forall q | |q| == n && feasible(q) && Below(q, s.upper) :: Below(s.lower, q)
    ensures var r := After(s, n, Some(p));
            LargestFresh(r, n) && (r.working ==> Measure(feasible, n, r) < Measure(feasible, n, s))
  {
    SatisfiableStep(feasible, n, s, p);
    if s.pending {
      MidBisects(s.lower[s.lastIndex], s.upper[s.lastIndex]);
    }
    if After(s, n, Some(p)).working {
      LoweringCounts(feasible, n, s, After(s, n, Some(p)));
    }
  }

  /** When a midpoint is tried in vain, everything before the bracket is settled, so the bracket will be too. */
  lemma {:induction false} VainMidpointSettles(feasible: Feasible, n: nat, s: Search)
    requires Shaped(s, n) && s.pending && Trying(s, n) && Bracketed(feasible, n, s) && LargestFresh(s, n)
    requires Bisectable(feasible, n)
    ensures var i := s.lastIndex;
            var m := Least(feasible, n, s.upper, i);
            && !Settled(s.lower[i], s.upper[i], m) && SettlesWithin(s.lower[i], s.upper[i], m, WORDS)
            && (s.upper[i] == WORDS - 1 ==> m < HALF)
  {
    var i := s.lastIndex;
    var m := Least(feasible, n, s.upper, i);
    assert PrefixLeast(feasible, n, s.upper, i) by {
      forall q | |q| == n && feasible(q) && Below(q, s.upper)
        ensures forall j | 0 <= j < i :: q[j] == s.upper[j]
      {
        assert Below(s.lower, q);
      }
    }
    assert Settling(feasible, n, s.upper, i);
    var q :| |q| == n && feasible(q) && Below(q, s.upper) && Settles(s.upper[i], q[i]);
    LowerGoal(s.upper[i], q[i], m);
    var least :| |least| == n && feasible(least) && Below(least, s.upper) && least[i] == m;
    assert Below(s.lower, least);
    SettlesFromAnywhere(s.lower[i], s.upper[i], m);
    if s.upper[i] == WORDS - 1 {
      LargestSettles(m);
    }
  }

  lemma {:induction false} RefusalProgresses(feasible: Feasible, n: nat, s: Search)
    requires Shaped(s, n) && Trying(s, n) && Bracketed(feasible, n, s) && LargestFresh(s, n)
    requires Exact(feasible, n, s, None) && Bisectable(feasible, n)
    ensures var r := After(s, n, None);
            LargestFresh(r, n) && Measure(feasible, n, r) < Measure(feasible, n, s)
  {
    UnsatisfiableStep(feasible, n, s);
    VainMidpointSettles(feasible, n, s);
    var i := s.lastIndex;
    var m := Least(feasible, n, s.upper, i);
    assert s.lastUpper < m;
    DelayCounts(s.lower[i], s.upper[i], m, WORDS);
    OneDelayLess(s.lower, s.upper, LeastPoint(feasible, n, s.upper), WORDS, i, Raised(s.lower[i], s.upper[i]), n);
    LoweringCounts(feasible, n, s, After(s, n, None));
  }

  /** On a bisectable set every exact answer brings the search closer to its end. */
  lemma {:induction false} StepProgresses(feasible: Feasible, n: nat, s: Search, answer: Option<Point>)
    requires Shaped(s, n) && s.working && OnTrack(feasible, n, s) && LargestFresh(s, n)
    requires Satisfiable(feasible, n) && Bisectable(feasible, n)
    requires Exact(feasible, n, s, answer) && (answer.Some? ==> |answer.value| == n)
    ensures var r := After(s, n, answer);
            && OnTrack(feasible, n, r) && Bracketed(feasible, n, r) && LargestFresh(r, n)
            && (if r.working then Measure(feasible, n, r) < Measure(feasible, n, s) else Minimal(feasible, n, r.upper))
  {
    StepIsSound(feasible, n, s, answer);
    StartIsOpen(feasible, n);
    if answer.Some? {
      ModelProgresses(feasible, n, s, answer.value);
    } else {
      RefusalProgresses(feasible, n, s);
    }
  }

  lemma {:induction false} RunProgresses(feasible: Feasible, n: nat, answers: seq<Option<Point>>)
    requires IsRun(feasible, n, answers) && Satisfiable(feasible, n) && Bisectable(feasible, n)
    ensures var s := Searched(n, answers);
            && OnTrack(feasible, n, s) && LargestFresh(s, n)
            && |answers| + (if s.working then Measure(feasible, n, s) else 0) <= Measure(feasible, n, Start(n)) + 1
    ensures Searched(n, answers).working ==>
              |answers| + Measure(feasible, n, Searched(n, answers)) <= Measure(feasible, n, Start(n))
    decreases |answers|
  {
    if answers != [] {
      var before := answers[..|answers| - 1];
      RunProgresses(feasible, n, before);
      StepProgresses(feasible, n, Searched(n, before), answers[|answers| - 1]);
    }
  }

  lemma {:induction false} BisectableStops(feasible: Feasible, n: nat)
    requires Satisfiable(feasible, n) && Bisectable(feasible, n)
    ensures AlwaysStops(feasible, n)
  {
    var most := Measure(feasible, n, Start(n)) + 1;
    forall answers | IsRun(feasible, n, answers)
      ensures |answers| <= most
    {
      RunProgresses(feasible, n, answers);
    }
    assert StopsWithin(feasible, n, most);
  }

  // ----- where it does not terminate -----

  /**
   A solver that keeps answering with `u` while its `i`th component is bisected in vain.
   */
  ghost predicate Chasing(n: nat, u: Point, i: nat, s: Search)
    requires |u| == n && i < n
  {
    && Shaped(s, n) && s.working && Trying(s, n)
    && (s == Start(n) || s.upper == u)
    && (s.pending ==> s.upper == u)
    && exists k: nat :: s.lower[i] == Chased(0, u[i], k)
  }

  /** A point and component where bisection does not settle. */
  ghost predicate Trap(feasible: Feasible, n: nat, u: Point, i: nat) {
    |u| == n && feasible(u) && i < n && PrefixLeast(feasible, n, u, i) && !Settling(feasible, n, u, i)
  }

  lemma {:induction false} NeverPast(feasible: Feasible, n: nat, u: Point, i: nat, k: nat, q: Point)
    requires Trap(feasible, n, u, i) && |q| == n && feasible(q) && Below(q, u)
    ensures Chased(0, u[i], k) < u[i] && Chased(0, u[i], k) <= q[i] && Mid(Chased(0, u[i], k), u[i]) < q[i]
  {
    assert !Settles(u[i], q[i]);
    assert !Settled(Chased(0, u[i], k), u[i], q[i]);
    assert !Settled(Chased(0, u[i], k + 1), u[i], q[i]);
  }

  lemma {:induction false} ChaseModel(feasible: Feasible, n: nat, u: Point, i: nat, s: Search)
    requires Trap(feasible, n, u, i) && Chasing(n, u, i, s) && !s.pending
    ensures Exact(feasible, n, s, Some(u)) && Chasing(n, u, i, After(s, n, Some(u)))
  {
    var k: nat :| s.lower[i] == Chased(0, u[i], k);
    NeverPast(feasible, n, u, i, k, u);
    assert Below(u, s.upper);
    assert Narrowed(s.upper, u) == u;
  }

  lemma {:induction false} ChaseRefusal(feasible: Feasible, n: nat, u: Point, i: nat, s: Search)
    requires Trap(feasible, n, u, i) && Chasing(n, u, i, s) && s.pending
    ensures Exact(feasible, n, s, None) && Chasing(n, u, i, After(s, n, None))
  {
    var k: nat :| s.lower[i] == Chased(0, u[i], k);
    var j := s.lastIndex;
    NeverPast(feasible, n, u, i, k, u);
    MidBisects(s.lower[j], u[j]);
    forall q
      ensures !Candidate(feasible, n, s, q)
    {
      if |q| == n && feasible(q) && Below(q, u) {
        NeverPast(feasible, n, u, i, k, q);
      }
    }
    assert After(s, n, None).lower[i] == Chased(0, u[i], if j == i then k + 1 else k);
  }

  lemma {:induction false} LongRun(feasible: Feasible, n: nat, u: Point, i: nat, length: nat)
      returns (answers: seq<Option<Point>>)
    requires Trap(feasible, n, u, i)
    ensures IsRun(feasible, n, answers) && |answers| == length && Chasing(n, u, i, Searched(n, answers))
  {
    if length == 0 {
      answers := [];
      assert Start(n).lower[i] == Chased(0, u[i], 0);
    } else {
      var before := LongRun(feasible, n, u, i, length - 1);
      var s := Searched(n, before);
      var answer := if s.pending then None else Some(u);
      if s.pending {
        ChaseRefusal(feasible, n, u, i, s);
      } else {
        ChaseModel(feasible, n, u, i, s);
      }
      answers := before + [answer];
      assert answers[..|answers| - 1] == before;
    }
  }

  lemma {:induction false} TrappedNeverStops(feasible: Feasible, n: nat, u: Point, i: nat)
    requires Trap(feasible, n, u, i)
    ensures !AlwaysStops(feasible, n)
  {
    forall most: nat
      ensures !StopsWithin(feasible, n, most)
    {
      var answers := LongRun(feasible, n, u, i, most + 1);
    }
  }

  /** Without any model the first answer is repeated for ever. */
  lemma {:induction false} UnsatisfiableNeverStops(feasible: Feasible, n: nat, length: nat)
      returns (answers: seq<Option<Point>>)
    requires !Satisfiable(feasible, n)
    ensures IsRun(feasible, n, answers) && |answers| == length && Searched(n, answers) == Start(n)
  {
    if length == 0 {
      answers := [];
    } else {
      var before := UnsatisfiableNeverStops(feasible, n, length - 1);
      answers := before + [None];
      assert answers[..|answers| - 1] == before;
      assert forall p :: !Candidate(feasible, n, Start(n), p);
    }
  }

  /**
   Exactly which constraint sets the search always comes to an end on: satisfiable ones on which
   bisection settles wherever the search can come to bisect, although its sums may wrap.
   */
  lemma {:induction false} StopsExactly(feasible: Feasible, n: nat)
    ensures AlwaysStops(feasible, n) <==> Satisfiable(feasible, n) && Bisectable(feasible, n)
  {
    if !Satisfiable(feasible, n) {
      forall most: nat
        ensures !StopsWithin(feasible, n, most)
      {
        var answers := UnsatisfiableNeverStops(feasible, n, most + 1);
      }
    } else if Bisectable(feasible, n) {
      BisectableStops(feasible, n);
    } else {
      var u: Point, i: nat :| && |u| == n && feasible(u) && i < n && PrefixLeast(feasible, n, u, i)
                              && !Settling(feasible, n, u, i);
      TrappedNeverStops(feasible, n, u, i);
    }
  }

  // ----- simpler conditions -----

  /** Every feasible value is at most `bound`. */
  ghost predicate Small(feasible: Feasible, n: nat, bound: int) {
    forall p | |p| == n && feasible(p) :: forall i | 0 <= i < n :: p[i] <= bound
  }

  /** Some model below `u` is low enough at `i` for no sum to wrap. */
  ghost predicate Fits(feasible: Feasible, n: nat, u: Point, i: nat)
    requires |u| == n && i < n
  {
    exists q :: |q| == n && feasible(q) && Below(q, u) && q[i] + u[i] < WORDS
  }

  /** The sum of two bounds never wraps. */
  ghost predicate Roomy(feasible: Feasible, n: nat) {
    forall u: Point, i: nat | |u| == n && feasible(u) && i < n :: u[i] <= HALF || Fits(feasible, n, u, i)
  }

  /** If no sum of bounds can wrap then every run stops. */
  lemma {:induction false} RoomyStops(feasible: Feasible, n: nat)
    requires Satisfiable(feasible, n) && Roomy(feasible, n)
    ensures Bisectable(feasible, n) && AlwaysStops(feasible, n)
  {
    forall u: Point, i: nat | |u| == n && feasible(u) && i < n && PrefixLeast(feasible, n, u, i)
      ensures Settling(feasible, n, u, i)
    {
      if u[i] <= HALF {
        RoomSettles(u[i], u[i]);
      } else {
        assert Fits(feasible, n, u, i);
        var q :| |q| == n && feasible(q) && Below(q, u) && q[i] + u[i] < WORDS;
        RoomSettles(u[i], q[i]);
      }
    }
    BisectableStops(feasible, n);
  }

  /** The only model has every value equal to `m`. */
  function Only(n: nat, m: Word): Feasible {
    (p: Point) => p == Filled(n, m)
  }

  lemma {:induction false} LargeNeverStops(n: nat, m: Word)
    requires n > 0 && m > HALF
    ensures !AlwaysStops(Only(n, m), n)
  {
    var u := Filled(n, m);
    assert Only(n, m)(u);
    forall k: nat
      ensures !Settled(Chased(0, m, k), m, m)
    {
    }
    assert Trap(Only(n, m), n, u, 0);
    TrappedNeverStops(Only(n, m), n, u, 0);
  }

  /**
   A bound on the feasible values guarantees termination for every satisfiable constraint set
   exactly when it does not exceed half the 32-bit range.
   */
  lemma {:induction false} HalfIsTheLimit(n: nat, bound: Word)
    requires n > 0
    ensures (forall feasible | Satisfiable(feasible, n) && Small(feasible, n, bound) :: AlwaysStops(feasible, n))
        <==> bound <= HALF
  {
    if bound <= HALF {
      forall feasible | Satisfiable(feasible, n) && Small(feasible, n, bound)
        ensures AlwaysStops(feasible, n)
      {
        assert Roomy(feasible, n);
        RoomyStops(feasible, n);
      }
    } else {
      LargeNeverStops(n, bound);
      assert Only(n, bound)(Filled(n, bound));
      assert Satisfiable(Only(n, bound), n) && Small(Only(n, bound), n, bound);
    }
  }

  // ----- the repository's own call -----

  /** `FindSmallModelExample`: x, y and z with x at most y + z, a sum that wraps. */
  function Example(): Feasible {
    (p: Point) => |p| == 3 && p[0] <= (p[1] + p[2]) % WORDS
  }

  lemma {:induction false} ExampleModels()
    ensures Example()(Filled(3, 0)) && Example()([WORDS - 1, WORDS - 1, 0])
  {
  }

  /** Zero is below every model of the example, so no sum of bounds wraps. */
  lemma {:induction false} ExampleIsRoomy()
    ensures Satisfiable(Example(), 3) && Roomy(Example(), 3)
  {
    var zero := Filled(3, 0);
    ExampleModels();
    forall u: Point, i: nat | |u| == 3 && Example()(u) && i < 3
      ensures Fits(Example(), 3, u, i)
    {
      assert Below(zero, u);
      assert zero[i] + u[i] < WORDS;
    }
  }

  /** Its models go up to the largest word, and still every run stops, at zero. */
  lemma {:induction false} ExampleStops(answers: seq<Option<Point>>)
    ensures AlwaysStops(Example(), 3)
    ensures IsRun(Example(), 3, answers) && !Searched(3, answers).working ==>
              Searched(3, answers).upper == Filled(3, 0)
  {
    ExampleIsRoomy();
    RoomyStops(Example(), 3);
    if IsRun(Example(), 3, answers) {
      StopsAtMinimal(Example(), 3, answers);
      ExampleModels();
      assert Below(Filled(3, 0), Searched(3, answers).upper);
    }
  }
}
