/**
 What becomes of the markers between two admissions: they stay the same markers, and one that has
 lost its place does not get it back.
 */
module Markers {
  import opened Utf8
  import opened Edits
  import opened Projection
  import opened Host
  import opened Runs
  import opened Safety

  /** The same claim by the same evidence; only place and status may differ. */
  predicate SameMarker(a: Annotation, b: Annotation) {
    b == a.(status := b.status, displaySpan := b.displaySpan)
  }

  /** Marker by marker: the same one, not placed again once unplaced, not current again once retired. */
  ghost predicate Retained(s: State, t: State) {
    && |t.annotations| == |s.annotations|
    && forall i | 0 <= i < |s.annotations| ::
         var a, b := s.annotations[i], t.annotations[i];
         && SameMarker(a, b)
         && (a.displaySpan.None? ==> b.displaySpan.None?)
         && (!a.status.Current? ==> !b.status.Current?)
  }

  lemma {:induction false} RetainedTransitive(s: State, t: State, u: State)
    requires Retained(s, t) && Retained(t, u)
    ensures Retained(s, u)
  {
    forall i | 0 <= i < |s.annotations|
      ensures SameMarker(s.annotations[i], u.annotations[i])
    {
      assert SameMarker(s.annotations[i], t.annotations[i]) && SameMarker(t.annotations[i], u.annotations[i]);
    }
  }

  ghost predicate PlanRetains(d: Disk, plan: Plan) {
    d.state.Some? && plan.writes != [] && !PlanAdmits(plan) ==>
      plan.writes[|plan.writes| - 1].Save? && Retained(d.state.value, plan.writes[|plan.writes| - 1].state)
  }

  lemma {:induction false} AdvancingRetains(d: Disk, plan: Plan, edits: seq<Edit<Byte>>, token: string)
    requires AdvancesBy(d, plan, edits, token)
    ensures PlanRetains(d, plan)
  {
    if plan.writes != [] {
      AdvancedState(d, plan, edits, token);
    }
  }

  lemma {:induction false} FinishRetains(d: Disk, p: Pending)
    ensures PlanRetains(d, FinishPlan(d, p))
  {
    if FinishPlan(d, p).writes != [] {
      FinishRecords(d, p);
      RecordWrites(d, d.state.value, p, FinishPlan(d, p).outcome.admission);
    }
  }

  lemma {:induction false} FailRetains(d: Disk, generation: string, error: string)
    ensures PlanRetains(d, FailPlan(d, generation, error))
  {
    if FailPlan(d, generation, error).writes != [] {
      FailWrites(d, generation, error);
    }
  }

  lemma {:induction false} EveryPlanRetains(dec: Decoder, d: Disk, a: Action)
    ensures PlanRetains(d, PlanOf(dec, d, a))
  {
    match a
    case Initialize(_, _, _, _, _, _) =>
    case Advance(values, token, _) =>
      AdvanceAdvances(d, values, token);
      AdvancingRetains(d, PlanOf(dec, d, a), Converted(values), token);
    case Materialize(token, _) =>
      var edits := MaterializeAdvances(d, dec, token);
      AdvancingRetains(d, PlanOf(dec, d, a), edits, token);
    case BeginComplete(_, _) =>
    case FinishComplete(p, _) => FinishRetains(d, p);
    case Fail(generation, error, _) => FailRetains(d, generation, error);
  }

  ghost predicate Admits(dec: Decoder, sys: System, a: Action) {
    var plan := PlanOf(dec, sys.disk, a);
    Enabled(sys, a) && Saves(plan.writes, CutOf(a)) && PlanAdmits(plan)
  }

  lemma {:induction false} CarryRetains(dec: Decoder, sys: System, a: Action, plan: Plan)
    requires Orderly(sys.disk, plan.writes) && PlanRetains(sys.disk, plan) && sys.disk.state.Some?
    requires !(Saves(plan.writes, CutOf(a)) && PlanAdmits(plan))
    ensures var next := Carry(dec, sys, a, plan);
            next.disk.state.Some? && Retained(sys.disk.state.value, next.disk.state.value)
  {
    CrashSafe(sys.disk, plan.writes, CutOf(a));
  }

  lemma {:induction false} StepRetains(dec: Decoder, sys: System, a: Action)
    requires SystemSound(dec, sys) && sys.disk.state.Some? && !Admits(dec, sys, a)
    ensures var next := Next(dec, sys, a);
            next.disk.state.Some? && Retained(sys.disk.state.value, next.disk.state.value)
  {
    if Enabled(sys, a) {
      PlanIsOrderly(dec, sys, a);
      EveryPlanRetains(dec, sys.disk, a);
      CarryRetains(dec, sys, a, PlanOf(dec, sys.disk, a));
    }
  }

  /** The `k`th further action saves an admission. */
  ghost predicate AdmitsAt(dec: Decoder, actions: seq<Action>, more: seq<Action>, k: nat)
    requires k < |more|
  {
    Admits(dec, Run(dec, actions + more[..k]), more[k])
  }

  /**
   Until the next admission, whatever edits, late completions, failures and crashes come, the
   markers are the same ones in the same order, an unplaced one stays unplaced and a retired one
   is never current again.
   */
  lemma {:induction false} UnplacedUntilAdmission(dec: Decoder, actions: seq<Action>, more: seq<Action>)
    requires Run(dec, actions).disk.state.Some?
    requires forall k | 0 <= k < |more| :: !AdmitsAt(dec, actions, more, k)
    ensures var d, e := Run(dec, actions).disk, Run(dec, actions + more).disk;
            e.state.Some? && Retained(d.state.value, e.state.value)
    decreases |more|
  {
    if more == [] {
      assert actions + more == actions;
    } else {
      var n := |more| - 1;
      var shorter, last := more[..n], more[n];
      forall k | 0 <= k < n
        ensures !AdmitsAt(dec, actions, shorter, k)
      {
        assert shorter[..k] == more[..k];
        assert !AdmitsAt(dec, actions, more, k);
      }
      UnplacedUntilAdmission(dec, actions, shorter);
      assert actions + more == (actions + shorter) + [last];
      RunOneMore(dec, actions + shorter, last);
      EveryRunIsSound(dec, actions + shorter);
      assert !AdmitsAt(dec, actions, more, n);
      StepRetains(dec, Run(dec, actions + shorter), last);
      RetainedTransitive(Run(dec, actions).disk.state.value, Run(dec, actions + shorter).disk.state.value,
                         Run(dec, actions + more).disk.state.value);
    }
  }
}
