/** `CheckSmall` as it runs: bound arrays updated in place, a solver with push and pop. */
module SmallModel {
  import opened Wrappers
  import opened Words
  import opened Bisection
  import opened CheckSmall

  /** An asserted unsigned bound on one of the expressions. */
  datatype Ule = Ule(index: nat, bound: Word)

  ghost predicate Satisfies(p: Point, bounds: seq<Ule>) {
    forall b | b in bounds :: b.index < |p| ==> p[b.index] <= b.bound
  }

  function Flatten(frames: seq<seq<Ule>>): seq<Ule> {
    if frames == [] then [] else Flatten(frames[..|frames| - 1]) + frames[|frames| - 1]
  }

  function BoundsOf(upper: Point): (r: seq<Ule>)
    ensures |r| == |upper| && forall i | 0 <= i < |r| :: r[i] == Ule(i, upper[i])
  {
    seq(|upper|, i requires 0 <= i < |upper| => Ule(i, upper[i]))
  }

  /** The solver: fixed constraints, scopes of asserted bounds, and answers that may differ from call to call. */
  class Solver {
    const n: nat
    ghost const feasible: Feasible
    const oracle: (nat, seq<Ule>) -> Option<Point>
    var frames: seq<seq<Ule>>
    var checks: nat

    ghost predicate Fits(bounds: seq<Ule>, answer: Option<Point>) {
      match answer
      case Some(p) => |p| == n && feasible(p) && Satisfies(p, bounds)
      case None => forall p | |p| == n && feasible(p) :: !Satisfies(p, bounds)
    }

    /** Satisfiability is decided exactly. */
    ghost predicate Faithful() {
      forall k: nat, bounds: seq<Ule> :: Fits(bounds, oracle(k, bounds))
    }

    method Push()
      modifies this`frames
      ensures frames == old(frames) + [[]]
    {
      frames := frames + [[]];
    }

    method Pop()
      requires frames != []
      modifies this`frames
      ensures frames == old(frames)[..|old(frames)| - 1]
    {
      frames := frames[..|frames| - 1];
    }

    method Assert(b: Ule)
      requires frames != []
      modifies this`frames
      ensures frames == old(frames)[..|old(frames)| - 1] + [old(frames)[|old(frames)| - 1] + [b]]
    {
      frames := frames[..|frames| - 1] + [frames[|frames| - 1] + [b]];
    }

    method Check() returns (answer: Option<Point>)
      requires Faithful()
      modifies this`checks
      ensures Fits(Flatten(frames), answer)
    {
      answer := oracle(checks, Flatten(frames));
      checks := checks + 1;
    }
  }

  /** The models at entry: the solver's constraints and what was already asserted. */
  ghost function Models(feasible: Feasible, asserted: seq<Ule>): Feasible {
    (p: Point) => feasible(p) && Satisfies(p, asserted)
  }

  /** The loop that asserts all feasible bounds. */
  method AssertBounds(solver: Solver, upper: array<Word>)
    requires solver.frames != []
    modifies solver`frames
    ensures var before := old(solver.frames);
            solver.frames == before[..|before| - 1] + [before[|before| - 1] + BoundsOf(upper[..])]
  {
    ghost var before, last := solver.frames, |solver.frames| - 1;
    for i := 0 to upper.Length
      invariant |solver.frames| == |before| && solver.frames[..last] == before[..last]
      invariant solver.frames[last] == before[last] + BoundsOf(upper[..])[..i]
    {
      solver.Assert(Ule(i, upper[i]));
    }
    assert BoundsOf(upper[..])[..upper.Length] == BoundsOf(upper[..]);
    assert solver.frames == solver.frames[..last] + [solver.frames[last]];
  }

  /** The loop that narrows the bounds to the current model. */
  method Narrow(upper: array<Word>, model: Point)
    requires |model| == upper.Length
    modifies upper
    ensures upper[..] == Narrowed(old(upper[..]), model)
  {
    for i := 0 to upper.Length
      invariant forall j | 0 <= j < i :: upper[j] == Narrowed(old(upper[..]), model)[j]
      invariant forall j | i <= j < upper.Length :: upper[j] == old(upper[j])
    {
      if model[i] < upper[i] {
        upper[i] := model[i];
      }
    }
  }

  /** The loop that looks for a bound to bisect. */
  method Pick(lower: array<Word>, upper: array<Word>) returns (i: nat)
    requires lower.Length == upper.Length
    ensures i == FirstOpen(lower[..], upper[..], 0)
  {
    i := 0;
    while i < lower.Length && lower[i] >= upper[i]
      invariant i <= lower.Length && FirstOpen(lower[..], upper[..], i) == FirstOpen(lower[..], upper[..], 0)
    {
      i := i + 1;
    }
  }

  /** Every bound in the scope follows from the current bounds and the bound being tried. */
  ghost predicate Implied(frame: seq<Ule>, s: Search, n: nat)
    requires Shaped(s, n)
  {
    && (forall b | b in frame ::
          b.index < n && (s.upper[b.index] <= b.bound || (s.pending && b == Ule(s.lastIndex, s.lastUpper))))
    && (s.pending ==> Ule(s.lastIndex, s.lastUpper) in frame)
  }

  /** With all upper bounds asserted, the scope asks exactly for a candidate of the search. */
  lemma {:induction false} ScopeIsCandidate(frame: seq<Ule>, s: Search, n: nat, p: Point)
    requires Shaped(s, n) && Implied(frame, s, n) && |p| == n
    ensures Satisfies(p, frame + BoundsOf(s.upper)) <==>
            Below(p, s.upper) && (s.pending ==> p[s.lastIndex] <= s.lastUpper)
  {
    var all := frame + BoundsOf(s.upper);
    if Satisfies(p, all) {
      forall i | 0 <= i < n
        ensures p[i] <= s.upper[i]
      {
        assert BoundsOf(s.upper)[i] in all;
      }
    }
  }

  lemma {:induction false} FlattenLast(frames: seq<seq<Ule>>, frame: seq<Ule>)
    ensures Flatten(frames + [frame]) == Flatten(frames) + frame
  {
    assert (frames + [frame])[..|frames|] == frames;
  }

  /** A faithful solver answers the search exactly. */
  lemma {:induction false} AnswerIsExact(solver: Solver, base: seq<seq<Ule>>, frame: seq<Ule>, s: Search,
                                         answer: Option<Point>)
    requires Shaped(s, solver.n) && Implied(frame, s, solver.n)
    requires solver.Fits(Flatten(base + [frame + BoundsOf(s.upper)]), answer)
    ensures answer.Some? ==> |answer.value| == solver.n
    ensures Exact(Models(solver.feasible, Flatten(base)), solver.n, s, answer)
  {
    var target, all := Models(solver.feasible, Flatten(base)), frame + BoundsOf(s.upper);
    FlattenLast(base, all);
    forall p: Point | |p| == solver.n
      ensures solver.feasible(p) && Satisfies(p, Flatten(base) + all) <==> Candidate(target, solver.n, s, p)
    {
      ScopeIsCandidate(frame, s, solver.n, p);
    }
  }

  /** After an answer the scope, with the next bound to try, is again implied. */
  lemma {:induction false} ScopeAfterModel(frame: seq<Ule>, s: Search, n: nat, model: Point)
    requires Shaped(s, n) && Implied(frame, s, n) && |model| == n && Below(model, s.upper)
    requires s.pending ==> model[s.lastIndex] <= s.lastUpper
    ensures var r, all := After(s, n, Some(model)), frame + BoundsOf(s.upper);
            Implied(if r.pending then all + [Ule(r.lastIndex, r.lastUpper)] else all, r, n)
  {
    var r, all := After(s, n, Some(model)), frame + BoundsOf(s.upper);
    assert r.upper == model;
  }

  /** The search as the variables of the method hold it. */
  ghost predicate Holds(s: Search, lower: array<Word>, upper: array<Word>, lastIndex: int, lastUpper: Word,
                        working: bool)
    reads lower, upper
  {
    && s.lower == lower[..] && s.upper == upper[..]
    && s.lastIndex == lastIndex && s.lastUpper == lastUpper && s.working == working
  }

  /** One pass of the inner loop: assert the bounds, check, and narrow or give up. */
  method Probe(solver: Solver, lower: array<Word>, upper: array<Word>, lastIndex0: int, lastUpper0: Word,
               ghost base: seq<seq<Ule>>, ghost frame0: seq<Ule>, ghost s: Search)
      returns (isSat: bool, someWork: bool, lastIndex: int, lastUpper: Word, ghost frame: seq<Ule>,
               ghost answer: Option<Point>)
    requires solver.Faithful() && lower != upper && lower.Length == upper.Length == solver.n
    requires Shaped(s, solver.n) && Holds(s, lower, upper, lastIndex0, lastUpper0, true)
    requires solver.frames == base + [frame0] && Implied(frame0, s, solver.n)
    modifies solver, lower, upper
    ensures answer.Some? ==> |answer.value| == solver.n
    ensures Exact(Models(solver.feasible, Flatten(base)), solver.n, s, answer) && isSat == answer.Some?
    ensures Holds(After(s, solver.n, answer), lower, upper, lastIndex, lastUpper, someWork)
    ensures solver.frames == base + [frame] && (isSat ==> Implied(frame, After(s, solver.n, answer), solver.n))
  {
    var n := solver.n;
    AssertBounds(solver, upper);
    frame := frame0 + BoundsOf(s.upper);
    assert solver.frames == base + [frame];
    answer := None;
    var reply := solver.Check();
    answer := reply;
    AnswerIsExact(solver, base, frame0, s, answer);
    isSat, someWork, lastIndex, lastUpper := reply.Some?, true, lastIndex0, lastUpper0;
    if !isSat {
      if lastIndex != -1 && lastIndex < n {
        lower[lastIndex] := Increment(lastUpper);
      }
      return;
    }
    ScopeAfterModel(frame0, s, n, reply.value);
    Narrow(upper, reply.value);
    someWork := false;
    lastIndex := 0;
    var i := Pick(lower, upper);
    if i < n {
      lastUpper := Mid(lower[i], upper[i]);
      lastIndex := i;
      solver.Assert(Ule(i, lastUpper));
      frame := frame + [Ule(i, lastUpper)];
      someWork := true;
    }
  }

  /** One turn of the inner loop: the search stays on track, and comes closer or ends at a minimal point. */
  method Turn(solver: Solver, lower: array<Word>, upper: array<Word>, lastIndex0: int, lastUpper0: Word,
              ghost base: seq<seq<Ule>>, ghost frame0: seq<Ule>, ghost before: Search)
      returns (isSat: bool, someWork: bool, lastIndex: int, lastUpper: Word, ghost frame: seq<Ule>, ghost s: Search)
    requires solver.Faithful() && lower != upper && lower.Length == upper.Length == solver.n
    requires Satisfiable(Models(solver.feasible, Flatten(base)), solver.n)
    requires Bisectable(Models(solver.feasible, Flatten(base)), solver.n)
    requires Shaped(before, solver.n) && Holds(before, lower, upper, lastIndex0, lastUpper0, true)
    requires OnTrack(Models(solver.feasible, Flatten(base)), solver.n, before) && LargestFresh(before, solver.n)
    requires solver.frames == base + [frame0] && Implied(frame0, before, solver.n)
    modifies solver, lower, upper
    ensures Shaped(s, solver.n) && Holds(s, lower, upper, lastIndex, lastUpper, someWork)
    ensures solver.frames == base + [frame] && (isSat ==> Implied(frame, s, solver.n))
    ensures OnTrack(Models(solver.feasible, Flatten(base)), solver.n, s) && LargestFresh(s, solver.n)
    ensures (!isSat ==> someWork && !s.pending) && (!someWork ==> !s.pending)
    ensures var target := Models(solver.feasible, Flatten(base));
            if someWork then Measure(target, solver.n, s) < Measure(target, solver.n, before)
            else Minimal(target, solver.n, upper[..])
  {
    ghost var answer;
    isSat, someWork, lastIndex, lastUpper, frame, answer :=
      Probe(solver, lower, upper, lastIndex0, lastUpper0, base, frame0, before);
    StepProgresses(Models(solver.feasible, Flatten(base)), solver.n, before, answer);
    s := After(before, solver.n, answer);
  }

  /** The inner loop in its scope: it ends with a tighter bracket, or with nothing left to do. */
  method Descend(solver: Solver, lower: array<Word>, upper: array<Word>, lastIndex0: int, lastUpper0: Word,
                 ghost base: seq<seq<Ule>>, ghost before: Search)
      returns (someWork: bool, lastIndex: int, lastUpper: Word, ghost s: Search)
    requires solver.Faithful() && lower != upper && lower.Length == upper.Length == solver.n
    requires Satisfiable(Models(solver.feasible, Flatten(base)), solver.n)
    requires Bisectable(Models(solver.feasible, Flatten(base)), solver.n)
    requires Shaped(before, solver.n) && Holds(before, lower, upper, lastIndex0, lastUpper0, true) && !before.pending
    requires OnTrack(Models(solver.feasible, Flatten(base)), solver.n, before) && LargestFresh(before, solver.n)
    requires solver.frames == base
    modifies solver, lower, upper
    ensures solver.frames == base && Shaped(s, solver.n) && Holds(s, lower, upper, lastIndex, lastUpper, someWork)
    ensures !s.pending && OnTrack(Models(solver.feasible, Flatten(base)), solver.n, s) && LargestFresh(s, solver.n)
    ensures var target := Models(solver.feasible, Flatten(base));
            if someWork then Measure(target, solver.n, s) < Measure(target, solver.n, before)
            else Minimal(target, solver.n, upper[..])
  {
    var n := solver.n;
    ghost var target := Models(solver.feasible, Flatten(base));
    solver.Push();
    ghost var frame: seq<Ule> := [];
    var isSat := true;
    someWork, lastIndex, lastUpper, s := true, lastIndex0, lastUpper0, before;
    while isSat && someWork
      invariant Shaped(s, n) && Holds(s, lower, upper, lastIndex, lastUpper, someWork)
      invariant solver.frames == base + [frame] && (isSat ==> Implied(frame, s, n))
      invariant OnTrack(target, n, s) && LargestFresh(s, n)
      invariant !isSat ==> someWork && !s.pending && s != before
      invariant !someWork ==> !s.pending && Minimal(target, n, upper[..])
      invariant someWork ==> s == before || Measure(target, n, s) < Measure(target, n, before)
      decreases isSat, someWork, Measure(target, n, s)
    {
      isSat, someWork, lastIndex, lastUpper, frame, s :=
        Turn(solver, lower, upper, lastIndex, lastUpper, base, frame, s);
    }
    solver.Pop();
  }

  /**
   `CheckSmall` on exactly the constraint sets on which it must terminate (`StopsExactly`): it
   leaves the solver's scopes as they were, and its upper bounds are a model with no other model
   componentwise below it.
   */
  method Minimise(solver: Solver) returns (upper: array<Word>)
    requires solver.Faithful()
    requires Satisfiable(Models(solver.feasible, Flatten(solver.frames)), solver.n)
    requires Bisectable(Models(solver.feasible, Flatten(solver.frames)), solver.n)
    modifies solver
    ensures solver.frames == old(solver.frames)
    ensures fresh(upper) && Minimal(Models(solver.feasible, Flatten(solver.frames)), solver.n, upper[..])
  {
    var n := solver.n;
    ghost var base := solver.frames;
    ghost var target := Models(solver.feasible, Flatten(base));
    upper := new Word[n](_ => WORDS - 1);
    var lower := new Word[n](_ => 0);
    var someWork := true;
    var lastIndex := -1;
    var lastUpper: Word := 0;
    ghost var s := Start(n);
    while someWork
      invariant solver.frames == base && fresh(upper) && fresh(lower) && lower != upper
      invariant lower.Length == upper.Length == n
      invariant Shaped(s, n) && Holds(s, lower, upper, lastIndex, lastUpper, someWork)
      invariant !s.pending && OnTrack(target, n, s) && LargestFresh(s, n)
      invariant !someWork ==> Minimal(target, n, upper[..])
      decreases someWork, Measure(target, n, s)
    {
      someWork, lastIndex, lastUpper, s := Descend(solver, lower, upper, lastIndex, lastUpper, base, s);
    }
  }

  /** `FindSmallModelExample`: whatever models the solver picks, the least model is found. */
  method SmallExample(solver: Solver) returns (upper: array<Word>)
    requires solver.Faithful() && solver.n == 3 && solver.feasible == Example() && solver.frames == []
    modifies solver
    ensures solver.frames == [] && fresh(upper) && upper[..] == [0, 0, 0]
  {
    ghost var target := Models(solver.feasible, []);
    ModelsOfExample();
    upper := Minimise(solver);
    ExampleModels();
    assert target(Filled(3, 0));
    assert Below(Filled(3, 0), upper[..]);
  }

  lemma {:induction false} SameModels(feasible: Feasible, other: Feasible, n: nat)
    requires forall p :: feasible(p) == other(p)
    requires Satisfiable(feasible, n) && Roomy(feasible, n)
    ensures Satisfiable(other, n) && Roomy(other, n)
  {
    var p :| |p| == n && feasible(p);
    assert other(p);
    forall u: Point, i: nat | |u| == n && other(u) && i < n && u[i] > HALF
      ensures CheckSmall.Fits(other, n, u, i)
    {
      assert CheckSmall.Fits(feasible, n, u, i);
    }
  }

  lemma {:induction false} ModelsOfExample()
    ensures Satisfiable(Models(Example(), []), 3) && Bisectable(Models(Example(), []), 3)
  {
    ExampleIsRoomy();
    SameModels(Example(), Models(Example(), []), 3);
    RoomyStops(Models(Example(), []), 3);
  }
}
