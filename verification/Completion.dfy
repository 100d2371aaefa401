/**
 Completing a generation, case by case: when a saved state can be loaded again, what becomes of
 honest and of foreign traces, and what a crash leaves for a retry.
 */
module Completion {
  import opened Wrappers
  import opened Utf8
  import opened Traces
  import opened Replay
  import opened Validator
  import opened Edits
  import opened Transport
  import opened Projection
  import opened Generation
  import opened Host
  import opened Integrity
  import opened Runs
  import opened Safety

  // ----- when a saved state loads -----

  /** Some evidence edge is about a source node without any text. */
  ghost predicate EmptyEvidence(events: seq<Event>) {
    exists j, n :: 0 <= j < |events| && 0 <= n < |events|
                   && events[j].operation.TermEvidence? && events[n].operation.NodeDeclare?
                   && events[j].operation.edge.source == Some(events[n].operation.node.id)
                   && events[n].operation.node.begin >= events[n].operation.node.end
  }

  lemma {:induction false} EmptyAnnotationIsEvidence(source: Bytes, events: seq<Event>, annotations: seq<Annotation>,
                                                     a: Annotation)
    requires Accepts(source, events) && Annotations(source, events, []) == Some(annotations)
    requires a in annotations && a.claimSpan.begin >= a.claimSpan.end
    ensures EmptyEvidence(events)
  {
    var evidence := EvidenceOf(events);
    var i :| 0 <= i < |annotations| && annotations[i] == a;
    assert Annotate(Catalogue(events), Apply(source, []), [], evidence[i]) == Some(a);
    EvidenceMember(events, evidence[i]);
    var j :| 0 <= j < |events| && events[j] == evidence[i];
    assert events[..|events|] == events;
    PriorDistinct(source, events, |events|);
    var n := Declaration(events, |events|, NodeEntry, evidence[i].operation.edge.source.value);
    assert events[n].operation.node.begin >= events[n].operation.node.end;
  }

  lemma {:induction false} EmptyEvidenceIsAnnotated(source: Bytes, events: seq<Event>, annotations: seq<Annotation>,
                                                    j: nat, n: nat)
    requires Accepts(source, events) && Annotations(source, events, []) == Some(annotations)
    requires j < |events| && n < |events| && events[j].operation.TermEvidence? && events[n].operation.NodeDeclare?
    requires events[j].operation.edge.source == Some(events[n].operation.node.id)
    ensures exists a :: a in annotations
              && a.claimSpan == Range(events[n].operation.node.begin, events[n].operation.node.end)
  {
    var evidence := EvidenceOf(events);
    CatalogueIsLedger(source, events);
    EvidenceMember(events, events[j]);
    var i :| 0 <= i < |evidence| && evidence[i] == events[j];
    assert Annotate(Catalogue(events), Apply(source, []), [], evidence[i]) == Some(annotations[i]);
    assert annotations[i] in annotations;
  }

  /** An admitted trace yields an empty annotation exactly when it has empty evidence. */
  lemma {:induction false} EmptyAnnotation(source: Bytes, events: seq<Event>, annotations: seq<Annotation>)
    requires Accepts(source, events) && Annotations(source, events, []) == Some(annotations)
    ensures (exists a | a in annotations :: a.claimSpan.begin >= a.claimSpan.end) <==> EmptyEvidence(events)
  {
    if a :| a in annotations && a.claimSpan.begin >= a.claimSpan.end {
      EmptyAnnotationIsEvidence(source, events, annotations, a);
    }
    if j, n :| 0 <= j < |events| && 0 <= n < |events|
               && events[j].operation.TermEvidence? && events[n].operation.NodeDeclare?
               && events[j].operation.edge.source == Some(events[n].operation.node.id)
               && events[n].operation.node.begin >= events[n].operation.node.end {
      EmptyEvidenceIsAnnotated(source, events, annotations, j, n);
    }
  }

  /** The plan saves a state, and that state loads unless `exception` holds. */
  ghost predicate SavesLoadable(plan: Plan, exception: bool) {
    && plan.writes != [] && plan.writes[|plan.writes| - 1].Save?
    && (Loads(plan.writes[|plan.writes| - 1].state) <==> !exception)
  }

  lemma {:induction false} AdvancedLoads(dec: Decoder, d: Disk, plan: Plan, edits: seq<Edit<Byte>>, token: string)
    requires Fresh(d, token) && Sound(dec, d) && AdvancesBy(d, plan, edits, token) && plan.writes != []
    ensures SavesLoadable(plan, false)
  {
    AdvancingIsGood(dec, d, plan, edits, token);
    AdvancedState(d, plan, edits, token);
    var s := d.state.value;
    var text := Decode(Apply(s.Source(), edits)).value;
    EditedAnnotations(s, text, edits);
    LoadsExactly(dec, PerformAll(d, plan.writes).files, plan.writes[|plan.writes| - 1].state);
  }

  lemma {:induction false} InitializedLoads(dec: Decoder, d: Disk, source: Bytes, displayName: string,
                                            document: Option<string>, hex: string, token: string)
    requires Fresh(d, token) && InitializePlan(d, source, displayName, document, hex, token).writes != []
    ensures SavesLoadable(InitializePlan(d, source, displayName, document, hex, token), false)
  {
    InitializeIsGood(dec, d, source, displayName, document, hex, token);
    var writes := InitializePlan(d, source, displayName, document, hex, token).writes;
    LoadsExactly(dec, PerformAll(d, writes).files, writes[|writes| - 1].state);
  }

  lemma {:induction false} FailedLoads(d: Disk, generation: string, error: string)
    requires FailPlan(d, generation, error).writes != []
    ensures SavesLoadable(FailPlan(d, generation, error), false)
  {
  }

  /** A discarded completion leaves a loadable state; an admitted one does unless it has empty evidence. */
  lemma {:induction false} CompletedLoads(dec: Decoder, d: Disk, p: Pending)
    requires Sound(dec, d) && FinishPlan(d, p).writes != []
    requires d.state.Some? ==> PendingSound(dec, d.files, d.state.value, p)
    ensures var plan := FinishPlan(d, p);
            && plan.outcome.Completed?
            && SavesLoadable(plan, plan.outcome.admission.Admitted? && EmptyEvidence(p.events))
  {
    FinishIsGood(dec, d, p);
    FinishRecords(d, p);
    RecordPlanLoads(dec, d, d.state.value, p, FinishPlan(d, p).outcome.admission);
  }

  lemma {:induction false} RecordPlanLoads(dec: Decoder, d: Disk, s: State, p: Pending, admission: Admission)
    requires Loads(s) && p.generation in s.generations && RecordPlan(d, s, p, admission).writes != []
    requires GoodPlan(dec, d, RecordPlan(d, s, p, admission))
    requires Admit(s.generations[s.current].request, s.Source(), p.candidate, p.events) == Success(admission)
    ensures SavesLoadable(RecordPlan(d, s, p, admission), admission.Admitted? && EmptyEvidence(p.events))
  {
    RecordWrites(d, s, p, admission);
    RecordedLoads(dec, PerformAll(d, RecordPlan(d, s, p, admission).writes).files, s, p, admission);
  }

  lemma {:induction false} RecordedLoads(dec: Decoder, files: map<File, Content>, s: State, p: Pending,
                                         admission: Admission)
    requires Loads(s) && p.generation in s.generations
    requires StateSound(dec, files, Recorded(s, p.generation, admission))
    requires Admit(s.generations[s.current].request, s.Source(), p.candidate, p.events) == Success(admission)
    ensures Loads(Recorded(s, p.generation, admission)) <==> admission.Discarded? || !EmptyEvidence(p.events)
  {
    var after := Recorded(s, p.generation, admission);
    LoadsExactly(dec, files, after);
    if admission.Admitted? {
      AdmittedIsExact(s.generations[s.current].request, s.Source(), p.candidate, p.events);
      EmptyAnnotation(s.Source(), p.events, admission.annotations);
    } else {
      forall a | a in after.annotations && a.status.Current? && a.displaySpan.Some?
        ensures a.displaySpan.value.begin.offset < a.displaySpan.value.end.offset
      {
        assert AnnotationLoads(a, |s.Source()|);
      }
    }
  }

  ghost predicate AdmitsEmptyEvidence(plan: Plan, a: Action) {
    && a.FinishComplete? && plan.outcome.Completed? && plan.outcome.admission.Admitted?
    && EmptyEvidence(a.pending.events)
  }

  lemma {:induction false} AdvancePlanLoads(dec: Decoder, d: Disk, values: seq<EditValue>, token: string)
    requires Fresh(d, token) && Sound(dec, d) && AdvancePlan(d, values, token).writes != []
    ensures SavesLoadable(AdvancePlan(d, values, token), false)
  {
    AdvanceAdvances(d, values, token);
    AdvancedLoads(dec, d, AdvancePlan(d, values, token), Converted(values), token);
  }

  lemma {:induction false} MaterializePlanLoads(dec: Decoder, d: Disk, token: string)
    requires Fresh(d, token) && Sound(dec, d) && MaterializePlan(d, dec, token).writes != []
    ensures SavesLoadable(MaterializePlan(d, dec, token), false)
  {
    var edits := MaterializeAdvances(d, dec, token);
    AdvancedLoads(dec, d, MaterializePlan(d, dec, token), edits, token);
  }

  /**
   Every state a run saves can be loaded again, with one exception: the admission of a trace that
   carries evidence about an empty source node.
   */
  lemma {:induction false} SavedStatesLoad(dec: Decoder, sys: System, a: Action)
    requires Sound(dec, sys.disk) && PendingsSound(dec, sys.disk, sys.pending) && Enabled(sys, a)
    requires PlanOf(dec, sys.disk, a).writes != []
    ensures SavesLoadable(PlanOf(dec, sys.disk, a), AdmitsEmptyEvidence(PlanOf(dec, sys.disk, a), a))
  {
    match a
    case Initialize(source, displayName, document, hex, token, _) =>
      InitializedLoads(dec, sys.disk, source, displayName, document, hex, token);
    case Advance(values, token, _) => AdvancePlanLoads(dec, sys.disk, values, token);
    case Materialize(token, _) => MaterializePlanLoads(dec, sys.disk, token);
    case BeginComplete(_, _) =>
    case FinishComplete(p, _) => CompletedLoads(dec, sys.disk, p);
    case Fail(generation, error, _) => FailedLoads(sys.disk, generation, error);
  }

  /** A state that does not load is final: no lock section can ever change the disk again. */
  lemma {:induction false} UnloadableIsFinal(dec: Decoder, actions: seq<Action>, more: seq<Action>)
    requires Run(dec, actions).disk.state.Some? && !Loads(Run(dec, actions).disk.state.value)
    ensures Run(dec, actions + more).disk == Run(dec, actions).disk
    decreases |more|
  {
    if more == [] {
      assert actions + more == actions;
    } else {
      var shorter := more[..|more| - 1];
      assert (actions + more)[..|actions + more| - 1] == actions + shorter;
      UnloadableIsFinal(dec, actions, shorter);
      var sys, a := Run(dec, actions + shorter), more[|more| - 1];
      assert PlanOf(dec, sys.disk, a).writes == [];
    }
  }

  ghost predicate Stuck(d: Disk) {
    d.state.Some? && !Loads(d.state.value)
  }

  /** Step `k` saves the admission of a trace with empty evidence. */
  ghost predicate SpoiledAt(dec: Decoder, actions: seq<Action>, k: nat)
    requires k < |actions|
  {
    Spoils(dec, Run(dec, actions[..k]), actions[k])
  }

  ghost predicate Spoils(dec: Decoder, sys: System, a: Action) {
    var plan := PlanOf(dec, sys.disk, a);
    Enabled(sys, a) && Saves(plan.writes, CutOf(a)) && AdmitsEmptyEvidence(plan, a)
  }

  lemma {:induction false} CarrySpoils(dec: Decoder, sys: System, a: Action, plan: Plan)
    requires Orderly(sys.disk, plan.writes) && !Stuck(sys.disk)
    requires plan.writes != [] ==> SavesLoadable(plan, AdmitsEmptyEvidence(plan, a))
    ensures Stuck(Carry(dec, sys, a, plan).disk) <==> Saves(plan.writes, CutOf(a)) && AdmitsEmptyEvidence(plan, a)
  {
    CrashSafe(sys.disk, plan.writes, CutOf(a));
  }

  lemma {:induction false} StepSpoils(dec: Decoder, sys: System, a: Action)
    requires Sound(dec, sys.disk) && PendingsSound(dec, sys.disk, sys.pending) && !Stuck(sys.disk)
    ensures Stuck(Next(dec, sys, a).disk) <==> Spoils(dec, sys, a)
  {
    if Enabled(sys, a) {
      PlanIsOrderly(dec, sys, a);
      if PlanOf(dec, sys.disk, a).writes != [] {
        SavedStatesLoad(dec, sys, a);
      }
      CarrySpoils(dec, sys, a, PlanOf(dec, sys.disk, a));
    }
  }

  /**
   The durable state of a run loads, unless at some step the run saved the admission of a trace
   with empty evidence; then it never loads again.
   */
  lemma {:induction false} RunsLoadExactly(dec: Decoder, actions: seq<Action>)
    ensures Stuck(Run(dec, actions).disk) <==> exists k :: 0 <= k < |actions| && SpoiledAt(dec, actions, k)
    decreases |actions|
  {
    if actions != [] {
      var n := |actions| - 1;
      var shorter, last := actions[..n], actions[n];
      assert actions == shorter + [last];
      RunsLoadExactly(dec, shorter);
      forall k | 0 <= k < n
        ensures SpoiledAt(dec, shorter, k) <==> SpoiledAt(dec, actions, k)
      {
        assert shorter[..k] == actions[..k];
      }
      RunOneMore(dec, shorter, last);
      if Stuck(Run(dec, shorter).disk) {
        UnloadableIsFinal(dec, shorter, [last]);
      } else {
        EveryRunIsSound(dec, shorter);
        StepSpoils(dec, Run(dec, shorter), last);
        assert SpoiledAt(dec, actions, n) <==> Spoils(dec, Run(dec, shorter), last);
      }
    }
  }

  // ----- honest and foreign traces -----

  /** The trace carries the run, document and revision its generation was requested with. */
  ghost predicate Honest(s: State, p: Pending)
    requires p.generation in s.generations
  {
    var request, snapshot := s.generations[p.generation].request, Catalogue(p.events).snapshot;
    && p.events != [] && p.events[0].envelope.run == p.generation
    && snapshot.Some? && snapshot.value.identity.document == request.snapshot.document
    && snapshot.value.identity.revision == request.snapshot.revision
  }

  lemma {:induction false} HonestSnapshot(dec: Decoder, d: Disk, s: State, p: Pending)
    requires RecordsSound(dec, d.files, s) && PendingSound(dec, d.files, s, p) && Honest(s, p)
    ensures Catalogue(p.events).snapshot.value.identity == s.generations[p.generation].request.snapshot
    ensures s.generations[p.generation].request.generation == p.generation
  {
    assert RecordSound(dec, d.files, s, p.generation);
    CatalogueHeads(p.candidate, p.events);
  }

  /** The trace file of the generation is absent, or already holds this trace. */
  predicate TraceFileFits(d: Disk, p: Pending) {
    var file := TraceFile(TokenOf(p.generation));
    file in d.files ==> d.files[file] == Data(p.trace)
  }

  /** The trace is one of the current run, about the displayed snapshot. */
  ghost predicate AboutTheDisplay(s: State, p: Pending) {
    && p.events != [] && p.events[0].envelope.run == s.current
    && Catalogue(p.events).snapshot.Some? && Catalogue(p.events).snapshot.value.identity == s.snapshot
  }

  lemma {:induction false} DecisionExactly(dec: Decoder, d: Disk, p: Pending)
    requires Sound(dec, d) && d.state.Some? && Loads(d.state.value)
    requires PendingSound(dec, d.files, d.state.value, p)
    ensures var s := d.state.value;
            var r := Admit(s.generations[s.current].request, s.Source(), p.candidate, p.events);
            if !AboutTheDisplay(s, p) then r.Success? && r.value.Discarded?
            else if exists e | e in p.events :: Internal(e) then r == Failure(MissingNode)
            else r.Success? && r.value.Admitted? && r.value.generation == s.current
  {
    var s := d.state.value;
    assert RecordSound(dec, d.files, s, s.current);
    AdmitExactly(s.generations[s.current].request, s.Source(), p.candidate, p.events);
  }

  ghost predicate Admissible(s: State, p: Pending)
    requires s.current in s.generations
  {
    var r := Admit(s.generations[s.current].request, s.Source(), p.candidate, p.events);
    r.Success? && r.value.Admitted?
  }

  lemma {:induction false} FinishAdmits(d: Disk, p: Pending)
    requires d.state.Some? && Loads(d.state.value) && p.generation in d.state.value.generations
    requires d.state.value.generations[p.generation].status.Open()
    ensures PlanAdmits(FinishPlan(d, p)) <==> Admissible(d.state.value, p) && TraceFileFits(d, p)
  {
  }

  lemma {:induction false} DecisionAdmits(dec: Decoder, d: Disk, p: Pending)
    requires Sound(dec, d) && d.state.Some? && Loads(d.state.value)
    requires PendingSound(dec, d.files, d.state.value, p)
    ensures Admissible(d.state.value, p) <==>
            AboutTheDisplay(d.state.value, p) && forall e | e in p.events :: !Internal(e)
  {
    DecisionExactly(dec, d, p);
  }

  /**
   Exactly when a completion of an open generation is admitted.  The generation it is told to
   complete plays no part, apart from the name of the trace file.
   */
  lemma {:induction false} AdmissionExactly(dec: Decoder, d: Disk, p: Pending)
    requires Sound(dec, d) && d.state.Some? && Loads(d.state.value)
    requires PendingSound(dec, d.files, d.state.value, p) && d.state.value.generations[p.generation].status.Open()
    ensures PlanAdmits(FinishPlan(d, p)) <==>
            AboutTheDisplay(d.state.value, p) && (forall e | e in p.events :: !Internal(e)) && TraceFileFits(d, p)
  {
    DecisionAdmits(dec, d, p);
    FinishAdmits(d, p);
  }

  /** The state saved by an admission under some generation: only that record changes. */
  ghost predicate RecordsAdmission(s: State, plan: Plan, generation: string)
    requires generation in s.generations
  {
    && plan.writes != [] && plan.writes[|plan.writes| - 1].Save?
    && var t := plan.writes[|plan.writes| - 1].state;
    && t.current == s.current && t.generations.Keys == s.generations.Keys
    && t.generations[generation].status.WasAdmitted?
    && (forall g | g in s.generations && g != generation :: t.generations[g] == s.generations[g])
    && (forall a | a in t.annotations :: a.status.Current?)
  }

  /**
   `complete` does not compare the trace's run with the generation it is completing.  A generation
   other than the current one is admitted exactly by a trace of the current one; it is then a
   superseded generation of the same bytes, and the current one's own record stays as it was.
   */
  lemma {:induction false} ForeignCompletion(dec: Decoder, d: Disk, p: Pending)
    requires Sound(dec, d) && d.state.Some? && Loads(d.state.value)
    requires PendingSound(dec, d.files, d.state.value, p) && d.state.value.generations[p.generation].status.Open()
    requires p.generation != d.state.value.current
    ensures PlanAdmits(FinishPlan(d, p)) <==>
            AboutTheDisplay(d.state.value, p) && (forall e | e in p.events :: !Internal(e)) && TraceFileFits(d, p)
    ensures PlanAdmits(FinishPlan(d, p)) ==>
              && d.state.value.generations[p.generation].status.Superseded? && p.candidate == d.state.value.Source()
              && RecordsAdmission(d.state.value, FinishPlan(d, p), p.generation)
  {
    AdmissionExactly(dec, d, p);
    if PlanAdmits(FinishPlan(d, p)) {
      AdmissionRecorded(d, p);
    }
  }

  lemma {:induction false} AdmissionRecorded(d: Disk, p: Pending)
    requires PlanAdmits(FinishPlan(d, p))
    ensures d.state.Some? && Loads(d.state.value) && p.generation in d.state.value.generations
    ensures p.candidate == d.state.value.Source()
    ensures RecordsAdmission(d.state.value, FinishPlan(d, p), p.generation)
  {
    FinishRecords(d, p);
    var s := d.state.value;
    AdmittedAnnotations(s.generations[s.current].request, s.Source(), p.candidate, p.events);
    PlanRecordsAdmission(d, s, p, FinishPlan(d, p).outcome.admission);
  }

  lemma {:induction false} PlanRecordsAdmission(d: Disk, s: State, p: Pending, admission: Admission)
    requires p.generation in s.generations && RecordPlan(d, s, p, admission).writes != []
    requires admission.Admitted? && forall a | a in admission.annotations :: a.status.Current?
    ensures RecordsAdmission(s, RecordPlan(d, s, p, admission), p.generation)
  {
    RecordWrites(d, s, p, admission);
  }

  lemma {:induction false} AdmittedAnnotations(request: Request, display: Bytes, candidate: Bytes, events: seq<Event>)
    requires Admit(request, display, candidate, events).Success?
    requires Admit(request, display, candidate, events).value.Admitted?
    ensures candidate == display
    ensures forall a | a in Admit(request, display, candidate, events).value.annotations :: a.status.Current?
  {
    AdmittedIsExact(request, display, candidate, events);
  }

  ghost predicate AdmitsByCurrency(s: State, p: Pending)
    requires Loads(s)
  {
    var r := Admit(s.generations[s.current].request, s.Source(), p.candidate, p.events);
    if p.generation != s.current then r.Success? && r.value.Discarded? && r.value.reason == LateOrUnrequested
    else if exists e | e in p.events :: Internal(e) then r == Failure(MissingNode)
    else r.Success? && r.value.Admitted? && r.value.generation == p.generation
  }

  lemma {:induction false} HonestDecision(dec: Decoder, d: Disk, p: Pending)
    requires Sound(dec, d) && d.state.Some? && Loads(d.state.value)
    requires PendingSound(dec, d.files, d.state.value, p) && Honest(d.state.value, p)
    ensures AdmitsByCurrency(d.state.value, p)
  {
    var s := d.state.value;
    HonestSnapshot(dec, d, s, p);
    assert RecordSound(dec, d.files, s, s.current);
    AdmitExactly(s.generations[s.current].request, s.Source(), p.candidate, p.events);
  }

  /**
   What the second lock section answers, in order: settled already, refused for internal evidence
   or for another trace on file, and otherwise one question decides: is the generation still the
   current one?  If so it is recorded as admitted, if not as discarded because it came late.
   */
  ghost predicate DecidedByCurrency(d: Disk, p: Pending)
    requires d.state.Some? && Loads(d.state.value) && p.generation in d.state.value.generations
  {
    var s, plan := d.state.value, FinishPlan(d, p);
    if !s.generations[p.generation].status.Open() then plan == Refuse(AlreadySettled)
    else if p.generation == s.current && exists e | e in p.events :: Internal(e) then
      plan == Refuse(NotAdmissible(MissingNode))
    else if !TraceFileFits(d, p) then plan == Refuse(TraceDisagrees)
    else
      && plan.outcome.Completed? && plan == RecordPlan(d, s, p, plan.outcome.admission)
      && if p.generation == s.current
         then plan.outcome.admission.Admitted? && plan.outcome.admission.generation == p.generation
         else plan.outcome.admission.Discarded? && plan.outcome.admission.reason == LateOrUnrequested
  }

  lemma {:induction false} HonestCompletion(dec: Decoder, d: Disk, p: Pending)
    requires Sound(dec, d) && d.state.Some? && Loads(d.state.value)
    requires PendingSound(dec, d.files, d.state.value, p) && Honest(d.state.value, p)
    ensures DecidedByCurrency(d, p)
  {
    HonestDecision(dec, d, p);
    DecisionIsRecorded(d, p);
  }

  lemma {:induction false} DecisionIsRecorded(d: Disk, p: Pending)
    requires d.state.Some? && Loads(d.state.value) && p.generation in d.state.value.generations
    requires AdmitsByCurrency(d.state.value, p)
    ensures DecidedByCurrency(d, p)
  {
  }

  /**
   In any run, an honest completion that has passed its first lock section is decided by whether
   its generation is current at its second, however much came between.
   */
  lemma {:induction false} RunsDecideByCurrency(dec: Decoder, actions: seq<Action>, p: Pending)
    requires p in Run(dec, actions).pending
    ensures var d := Run(dec, actions).disk;
            && d.state.Some? && p.generation in d.state.value.generations
            && (Loads(d.state.value) && Honest(d.state.value, p) ==> DecidedByCurrency(d, p))
  {
    EveryRunIsSound(dec, actions);
    var d := Run(dec, actions).disk;
    if Loads(d.state.value) && Honest(d.state.value, p) {
      HonestCompletion(dec, d, p);
    }
  }

  // ----- crashes and retries -----

  /** What is left of a completion that crashed while it was being recorded. */
  ghost function LeftBehind(d: Disk, p: Pending, cut: Cut): Disk {
    Interrupted(d, FinishPlan(d, p).writes, cut)
  }

  lemma {:induction false} CrashedWrites(d: Disk, file: File, trace: Bytes, after: State, cut: Cut)
    requires !Saves(if file in d.files then [Save(after)] else [Create(file, Data(trace)), Save(after)], cut)
    ensures var writes := if file in d.files then [Save(after)] else [Create(file, Data(trace)), Save(after)];
            var left := Interrupted(d, writes, cut);
            && left.state == d.state
            && (left.files == d.files
                || (file !in d.files && left.files == d.files[file := Data(trace)])
                || (file !in d.files
                    && exists k :: 0 <= k < |trace| && left.files == d.files[file := Data(trace[..k])]))
  {
    var writes := if file in d.files then [Save(after)] else [Create(file, Data(trace)), Save(after)];
    if cut.after == 0 {
      assert writes[..0] == [];
    } else {
      assert cut.after == 1 && writes[..1] == [writes[0]];
      assert PerformAll(d, [writes[0]]) == Perform(d, writes[0]);
    }
  }

  lemma {:induction false} CrashDuringRecord(d: Disk, p: Pending, cut: Cut)
    requires FinishPlan(d, p).writes != [] && !Saves(FinishPlan(d, p).writes, cut)
    ensures var left, file := LeftBehind(d, p, cut), TraceFile(TokenOf(p.generation));
            && left.state == d.state
            && (left.files == d.files
                || (file !in d.files && left.files == d.files[file := Data(p.trace)])
                || (file !in d.files
                    && exists k :: 0 <= k < |p.trace| && left.files == d.files[file := Data(p.trace[..k])]))
  {
    FinishRecords(d, p);
    var s, admission := d.state.value, FinishPlan(d, p).outcome.admission;
    CrashedWrites(d, TraceFile(TokenOf(p.generation)), p.trace, Recorded(s, p.generation, admission), cut);
  }

  /**
   After a crash, completing the same generation again with the same trace, from its beginning,
   succeeds exactly when the trace file was not created or was written whole.  A torn trace file
   is never repaired.
   */
  lemma {:induction false} RetryExactly(dec: Decoder, d: Disk, p: Pending, cut: Cut)
    requires FinishPlan(d, p).writes != [] && !Saves(FinishPlan(d, p).writes, cut)
    requires d.state.Some? && PendingSound(dec, d.files, d.state.value, p)
    ensures Begin(LeftBehind(d, p, cut), dec, p.generation, p.trace) == Success(p)
    ensures var left := LeftBehind(d, p, cut);
            var again := FinishPlan(left, p);
            if TraceFileFits(left, p) then again.outcome == FinishPlan(d, p).outcome && again.writes != []
            else again == Refuse(TraceDisagrees)
  {
    CrashDuringRecord(d, p, cut);
    FinishRecords(d, p);
    BeginsAgain(dec, d, LeftBehind(d, p, cut), p);
  }

  lemma {:induction false} BeginsAgain(dec: Decoder, d: Disk, left: Disk, p: Pending)
    requires d.state.Some? && Loads(d.state.value) && PendingSound(dec, d.files, d.state.value, p)
    requires d.state.value.generations[p.generation].status.Open()
    requires left.state == d.state && Grows(d.files, left.files)
    ensures Begin(left, dec, p.generation, p.trace) == Success(p)
  {
  }

  /** A torn trace file blocks its generation forever: no later run can complete it. */
  lemma {:induction false} TornTraceIsFinal(dec: Decoder, actions: seq<Action>, more: seq<Action>, p: Pending)
    requires Run(dec, actions).disk.state.Some? && p.generation in Run(dec, actions).disk.state.value.generations
    requires var d, file := Run(dec, actions).disk, TraceFile(TokenOf(p.generation));
             file in d.files && d.files[file] != Data(p.trace)
    ensures FinishPlan(Run(dec, actions + more).disk, p).writes == []
  {
    LaterFollows(dec, actions, more);
    var d := Run(dec, actions + more).disk;
    if FinishPlan(d, p).writes != [] {
      FinishRecords(d, p);
      assert false;
    }
  }
}
