/**
 What it costs that `complete` does not compare runs: the display can show current evidence while
 the current generation counts as not admitted.  Here: exactly when that happens in a run.
 */
module Foreign {
  import opened Utf8
  import opened Traces
  import opened Edits
  import opened Projection
  import opened Generation
  import opened Host
  import opened Integrity
  import opened Runs
  import opened Safety
  import opened Completion
  import opened Materialization

  /** Current evidence is evidence the current generation was admitted for. */
  ghost predicate AdmittedIfShown(s: State) {
    && s.current in s.generations
    && ((exists a :: a in s.annotations && a.status.Current?) ==> s.generations[s.current].status.WasAdmitted?)
  }

  ghost predicate Kept(d: Disk) {
    d.state.Some? ==> AdmittedIfShown(d.state.value)
  }

  ghost predicate HasEvidence(events: seq<Event>) {
    exists e :: e in events && e.operation.TermEvidence?
  }

  /** Evidence of the current run, recorded under another generation before the current one is admitted. */
  ghost predicate PlanUsurps(d: Disk, plan: Plan, a: Action) {
    && PlanAdmits(plan) && a.FinishComplete? && HasEvidence(a.pending.events)
    && d.state.Some? && d.state.value.current in d.state.value.generations
    && a.pending.generation != d.state.value.current
    && !d.state.value.generations[d.state.value.current].status.WasAdmitted?
  }

  ghost predicate Usurps(dec: Decoder, sys: System, a: Action) {
    var plan := PlanOf(dec, sys.disk, a);
    Enabled(sys, a) && Saves(plan.writes, CutOf(a)) && PlanUsurps(sys.disk, plan, a)
  }

  ghost predicate UsurpedAt(dec: Decoder, actions: seq<Action>, k: nat)
    requires k < |actions|
  {
    Usurps(dec, Run(dec, actions[..k]), actions[k])
  }

  /** The annotations are replaced: by an edit that moves them or by an admission. */
  ghost predicate PlanRenews(plan: Plan) {
    plan.outcome.Launched? || PlanAdmits(plan)
  }

  ghost predicate Renews(dec: Decoder, sys: System, a: Action) {
    var plan := PlanOf(dec, sys.disk, a);
    Enabled(sys, a) && Saves(plan.writes, CutOf(a)) && PlanRenews(plan)
  }

  ghost predicate RenewedAt(dec: Decoder, actions: seq<Action>, k: nat)
    requires k < |actions|
  {
    Renews(dec, Run(dec, actions[..k]), actions[k])
  }

  /** Where the annotations are replaced, only usurping can go wrong; elsewhere nothing changes. */
  ghost predicate SavesKept(d: Disk, plan: Plan, a: Action) {
    plan.writes != [] ==>
      && plan.writes[|plan.writes| - 1].Save?
      && (AdmittedIfShown(plan.writes[|plan.writes| - 1].state) <==>
            if PlanRenews(plan) then !PlanUsurps(d, plan, a) else Kept(d))
  }

  /** An admission shows annotations exactly if its trace has evidence. */
  lemma {:induction false} AdmissionShows(request: Request, display: Bytes, candidate: Bytes, events: seq<Event>)
    requires Admit(request, display, candidate, events).Success?
    requires Admit(request, display, candidate, events).value.Admitted?
    ensures var annotations := Admit(request, display, candidate, events).value.annotations;
            && (annotations != [] <==> HasEvidence(events))
            && forall a | a in annotations :: a.status.Current?
  {
    AdmittedIsExact(request, display, candidate, events);
    var evidence := EvidenceOf(events);
    forall e
      ensures e in evidence <==> e in events && e.operation.TermEvidence?
    {
      EvidenceMember(events, e);
    }
    assert evidence != [] ==> evidence[0] in evidence;
  }

  /** Closing an open generation without an admission changes nothing about what is shown. */
  lemma {:induction false} ClosingKeeps(s: State, t: State, g: string)
    requires s.current in s.generations && g in s.generations && s.generations[g].status.Open()
    requires t.current == s.current && t.annotations == s.annotations && s.current in t.generations
    requires s.current != g ==> t.generations[s.current] == s.generations[s.current]
    requires s.current == g ==> !t.generations[s.current].status.WasAdmitted?
    ensures AdmittedIfShown(t) <==> AdmittedIfShown(s)
  {
  }

  lemma {:induction false} RecordingKeeps(s: State, p: Pending, admission: Admission)
    requires s.current in s.generations && p.generation in s.generations
    requires s.generations[p.generation].status.Open()
    requires admission.Admitted? ==>
               && (admission.annotations != [] <==> HasEvidence(p.events))
               && forall a | a in admission.annotations :: a.status.Current?
    ensures AdmittedIfShown(Recorded(s, p.generation, admission)) <==>
            if admission.Admitted? then
              !(HasEvidence(p.events) && p.generation != s.current && !s.generations[s.current].status.WasAdmitted?)
            else AdmittedIfShown(s)
  {
    var t := Recorded(s, p.generation, admission);
    if admission.Admitted? {
      assert HasEvidence(p.events) ==> t.annotations[0] in t.annotations && t.annotations[0].status.Current?;
    } else {
      ClosingKeeps(s, t, p.generation);
    }
  }

  lemma {:induction false} FinishKeeps(d: Disk, a: Action)
    requires a.FinishComplete?
    ensures SavesKept(d, FinishPlan(d, a.pending), a)
  {
    var plan, p := FinishPlan(d, a.pending), a.pending;
    if plan.writes != [] {
      FinishRecords(d, p);
      var s, admission := d.state.value, plan.outcome.admission;
      RecordWrites(d, s, p, admission);
      if admission.Admitted? {
        AdmissionShows(s.generations[s.current].request, s.Source(), p.candidate, p.events);
      }
      RecordingKeeps(s, p, admission);
    }
  }

  lemma {:induction false} AdvancingKeeps(d: Disk, plan: Plan, edits: seq<Edit<Byte>>, token: string, a: Action)
    requires AdvancesBy(d, plan, edits, token) && !a.FinishComplete?
    ensures SavesKept(d, plan, a)
  {
    if plan.writes != [] {
      AdvancedState(d, plan, edits, token);
      AdvanceRetiresEvidence(d, plan, edits, token);
    }
  }

  lemma {:induction false} FailKeeps(d: Disk, a: Action)
    requires a.Fail?
    ensures SavesKept(d, FailPlan(d, a.generation, a.error), a)
  {
    var plan := FailPlan(d, a.generation, a.error);
    if plan.writes != [] {
      FailWrites(d, a.generation, a.error);
      ClosingKeeps(d.state.value, plan.writes[0].state, a.generation);
    }
  }

  lemma {:induction false} PlanKeeps(dec: Decoder, d: Disk, a: Action)
    ensures SavesKept(d, PlanOf(dec, d, a), a)
  {
    match a
    case Initialize(_, _, _, _, _, _) =>
    case Advance(values, token, _) =>
      AdvanceAdvances(d, values, token);
      AdvancingKeeps(d, PlanOf(dec, d, a), Converted(values), token, a);
    case Materialize(token, _) =>
      var edits := MaterializeAdvances(d, dec, token);
      AdvancingKeeps(d, PlanOf(dec, d, a), edits, token, a);
    case BeginComplete(_, _) =>
    case FinishComplete(_, _) => FinishKeeps(d, a);
    case Fail(_, _, _) => FailKeeps(d, a);
  }

  lemma {:induction false} CarryKeeps(dec: Decoder, sys: System, a: Action, plan: Plan)
    requires Orderly(sys.disk, plan.writes) && SavesKept(sys.disk, plan, a)
    ensures Kept(Carry(dec, sys, a, plan).disk) <==>
            if Saves(plan.writes, CutOf(a)) && PlanRenews(plan) then !PlanUsurps(sys.disk, plan, a)
            else Kept(sys.disk)
  {
    CrashSafe(sys.disk, plan.writes, CutOf(a));
  }

  lemma {:induction false} StepKeeps(dec: Decoder, sys: System, a: Action)
    requires SystemSound(dec, sys)
    ensures Kept(Next(dec, sys, a).disk) <==> if Renews(dec, sys, a) then !Usurps(dec, sys, a) else Kept(sys.disk)
  {
    if Enabled(sys, a) {
      PlanIsOrderly(dec, sys, a);
      PlanKeeps(dec, sys.disk, a);
      CarryKeeps(dec, sys, a, PlanOf(dec, sys.disk, a));
    }
  }

  lemma {:induction false} UsurpingRenews(dec: Decoder, sys: System, a: Action)
    requires Usurps(dec, sys, a)
    ensures Renews(dec, sys, a)
  {
  }

  ghost predicate KeptAt(dec: Decoder, actions: seq<Action>, k: nat)
    requires k <= |actions|
  {
    Kept(Run(dec, actions[..k]).disk)
  }

  ghost predicate AlwaysKept(dec: Decoder, actions: seq<Action>) {
    forall k | 0 <= k <= |actions| :: KeptAt(dec, actions, k)
  }

  ghost predicate NeverUsurped(dec: Decoder, actions: seq<Action>) {
    forall k | 0 <= k < |actions| :: !UsurpedAt(dec, actions, k)
  }

  lemma {:induction false} KeptOneMore(dec: Decoder, actions: seq<Action>, a: Action)
    ensures AlwaysKept(dec, actions + [a]) <==> AlwaysKept(dec, actions) && Kept(Run(dec, actions + [a]).disk)
  {
    var all, n := actions + [a], |actions|;
    assert all[..n + 1] == all;
    assert KeptAt(dec, all, n + 1) == Kept(Run(dec, all).disk);
    forall k | 0 <= k <= n
      ensures KeptAt(dec, all, k) <==> KeptAt(dec, actions, k)
    {
      assert all[..k] == actions[..k];
    }
  }

  lemma {:induction false} UsurpedOneMore(dec: Decoder, actions: seq<Action>, a: Action)
    ensures NeverUsurped(dec, actions + [a]) <==> NeverUsurped(dec, actions) && !Usurps(dec, Run(dec, actions), a)
  {
    var all, n := actions + [a], |actions|;
    assert all[..n] == actions;
    assert UsurpedAt(dec, all, n) == Usurps(dec, Run(dec, actions), a);
    forall k | 0 <= k < n
      ensures UsurpedAt(dec, all, k) <==> UsurpedAt(dec, actions, k)
    {
      assert all[..k] == actions[..k];
    }
  }

  lemma {:induction false} KeptLast(dec: Decoder, actions: seq<Action>)
    requires AlwaysKept(dec, actions)
    ensures Kept(Run(dec, actions).disk)
  {
    assert actions[..|actions|] == actions;
    assert KeptAt(dec, actions, |actions|);
  }

  lemma {:induction false} OneMoreKeeps(dec: Decoder, actions: seq<Action>, a: Action)
    ensures Kept(Run(dec, actions + [a]).disk) <==>
            if Renews(dec, Run(dec, actions), a) then !Usurps(dec, Run(dec, actions), a)
            else Kept(Run(dec, actions).disk)
  {
    RunOneMore(dec, actions, a);
    EveryRunIsSound(dec, actions);
    StepKeeps(dec, Run(dec, actions), a);
  }

  lemma {:induction false} NothingShownYet(dec: Decoder)
    ensures AlwaysKept(dec, [])
  {
    assert Run(dec, []) == START;
  }

  /**
   At every moment of a run current evidence comes with an admitted current generation, exactly if
   no step of the run records evidence of the current run under another generation first.
   */
  lemma {:induction false} ShownIsAdmittedExactly(dec: Decoder, actions: seq<Action>)
    ensures AlwaysKept(dec, actions) <==> NeverUsurped(dec, actions)
    decreases |actions|
  {
    if actions == [] {
      NothingShownYet(dec);
    } else {
      var shorter, last := actions[..|actions| - 1], actions[|actions| - 1];
      assert actions == shorter + [last];
      ShownIsAdmittedExactly(dec, shorter);
      KeptOneMore(dec, shorter, last);
      UsurpedOneMore(dec, shorter, last);
      if AlwaysKept(dec, shorter) {
        KeptLast(dec, shorter);
        OneMoreKeeps(dec, shorter, last);
        if Usurps(dec, Run(dec, shorter), last) {
          UsurpingRenews(dec, Run(dec, shorter), last);
        }
      }
    }
  }

  /** Step `k` usurps, and no step since has replaced the annotations. */
  ghost predicate LastUsurped(dec: Decoder, actions: seq<Action>, k: nat)
    requires k < |actions|
  {
    UsurpedAt(dec, actions, k) && forall j | k < j < |actions| :: !RenewedAt(dec, actions, j)
  }

  lemma {:induction false} LastUsurpedOneMore(dec: Decoder, actions: seq<Action>, a: Action, k: nat)
    requires k < |actions|
    ensures LastUsurped(dec, actions + [a], k) <==>
            LastUsurped(dec, actions, k) && !Renews(dec, Run(dec, actions), a)
  {
    var all, n := actions + [a], |actions|;
    assert all[..n] == actions && all[..k] == actions[..k];
    assert RenewedAt(dec, all, n) == Renews(dec, Run(dec, actions), a);
    forall j | 0 <= j < n
      ensures RenewedAt(dec, all, j) <==> RenewedAt(dec, actions, j)
    {
      assert all[..j] == actions[..j];
    }
  }

  lemma {:induction false} LastUsurpedNow(dec: Decoder, actions: seq<Action>, a: Action)
    ensures LastUsurped(dec, actions + [a], |actions|) <==> Usurps(dec, Run(dec, actions), a)
  {
    assert (actions + [a])[..|actions|] == actions;
  }

  ghost predicate EndsUsurped(dec: Decoder, actions: seq<Action>) {
    exists k :: 0 <= k < |actions| && LastUsurped(dec, actions, k)
  }

  lemma {:induction false} EndsUsurpedOneMore(dec: Decoder, actions: seq<Action>, a: Action)
    ensures EndsUsurped(dec, actions + [a]) <==>
            Usurps(dec, Run(dec, actions), a) || (EndsUsurped(dec, actions) && !Renews(dec, Run(dec, actions), a))
  {
    LastUsurpedNow(dec, actions, a);
    forall k | 0 <= k < |actions|
      ensures LastUsurped(dec, actions + [a], k) <==>
              LastUsurped(dec, actions, k) && !Renews(dec, Run(dec, actions), a)
    {
      LastUsurpedOneMore(dec, actions, a, k);
    }
  }

  /**
   After a run, current evidence comes without an admitted current generation exactly if the last
   step that replaced the annotations recorded evidence of the current run under another
   generation while the current one was not admitted.
   */
  lemma {:induction false} NotAdmittedExactly(dec: Decoder, actions: seq<Action>)
    ensures !Kept(Run(dec, actions).disk) <==> EndsUsurped(dec, actions)
    decreases |actions|
  {
    if actions == [] {
      assert Run(dec, []) == START;
    } else {
      var shorter, last := actions[..|actions| - 1], actions[|actions| - 1];
      assert actions == shorter + [last];
      NotAdmittedExactly(dec, shorter);
      OneMoreKeeps(dec, shorter, last);
      EndsUsurpedOneMore(dec, shorter, last);
      if Usurps(dec, Run(dec, shorter), last) {
        UsurpingRenews(dec, Run(dec, shorter), last);
      }
    }
  }

  // ----- usurping, seen from the inputs -----

  /** Enough of the recording is done: the trace, unless it is on file already, and the state. */
  predicate SavesRecord(d: Disk, p: Pending, cut: Cut) {
    cut.Whole? || cut.after >= if TraceFile(TokenOf(p.generation)) in d.files then 1 else 2
  }

  lemma {:induction false} AdmittingWrites(d: Disk, p: Pending, cut: Cut)
    requires PlanAdmits(FinishPlan(d, p))
    ensures Saves(FinishPlan(d, p).writes, cut) <==> SavesRecord(d, p, cut)
  {
  }

  /** What must be so on disk, and of the trace, for a completion to usurp. */
  ghost predicate Usurping(s: State, d: Disk, p: Pending) {
    && Loads(s) && p.generation in s.generations && s.generations[p.generation].status.Open()
    && p.generation != s.current && !s.generations[s.current].status.WasAdmitted?
    && HasEvidence(p.events) && AboutTheDisplay(s, p) && (forall e | e in p.events :: !Internal(e))
    && TraceFileFits(d, p)
  }

  lemma {:induction false} PlanUsurpsExactly(dec: Decoder, d: Disk, p: Pending, cut: Cut)
    requires Sound(dec, d) && d.state.Some? && PendingSound(dec, d.files, d.state.value, p)
    ensures PlanUsurps(d, FinishPlan(d, p), FinishComplete(p, cut)) <==> Usurping(d.state.value, d, p)
  {
    var s := d.state.value;
    if Loads(s) && s.generations[p.generation].status.Open() {
      AdmissionExactly(dec, d, p);
    }
  }

  lemma {:induction false} FinishUsurps(dec: Decoder, sys: System, p: Pending, cut: Cut)
    requires p in sys.pending
    ensures Usurps(dec, sys, FinishComplete(p, cut)) <==>
            && Saves(FinishPlan(sys.disk, p).writes, cut)
            && PlanUsurps(sys.disk, FinishPlan(sys.disk, p), FinishComplete(p, cut))
  {
  }

  lemma {:induction false} SavedUsurpation(dec: Decoder, d: Disk, p: Pending, cut: Cut)
    requires Sound(dec, d) && d.state.Some? && PendingSound(dec, d.files, d.state.value, p)
    ensures && Saves(FinishPlan(d, p).writes, cut)
            && PlanUsurps(d, FinishPlan(d, p), FinishComplete(p, cut)) <==>
            Usurping(d.state.value, d, p) && SavesRecord(d, p, cut)
  {
    PlanUsurpsExactly(dec, d, p, cut);
    if PlanAdmits(FinishPlan(d, p)) {
      AdmittingWrites(d, p, cut);
    }
  }

  /** A completion in a run usurps exactly on these inputs, if it gets as far as saving. */
  lemma {:induction false} UsurpsExactly(dec: Decoder, actions: seq<Action>, p: Pending, cut: Cut)
    requires p in Run(dec, actions).pending
    ensures Run(dec, actions).disk.state.Some?
    ensures var d := Run(dec, actions).disk;
            Usurps(dec, Run(dec, actions), FinishComplete(p, cut)) <==>
            Usurping(d.state.value, d, p) && SavesRecord(d, p, cut)
  {
    EveryRunIsSound(dec, actions);
    FinishUsurps(dec, Run(dec, actions), p, cut);
    SavedUsurpation(dec, Run(dec, actions).disk, p, cut);
  }

  /** In a state that is not kept, there is evidence to show but nothing to materialise. */
  lemma {:induction false} UsurpedCannotMaterialize(dec: Decoder, d: Disk, token: string)
    requires d.state.Some? && Loads(d.state.value) && !Kept(d)
    ensures exists a :: a in d.state.value.annotations && a.status.Current?
    ensures MaterializePlan(d, dec, token) == Refuse(NotAdmitted)
  {
  }
}
