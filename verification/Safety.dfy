/** What holds in every state any run of the host can reach. */
module Safety {
  import opened Wrappers
  import opened Utf8
  import opened Traces
  import opened Edits
  import opened Transport
  import opened History
  import opened Projection
  import opened Generation
  import opened Host
  import opened Integrity
  import opened Runs

  // ----- markers and the log of transactions since their admission -----

  /** The marker is where the logged transactions carry its claim. */
  ghost predicate MarkerLogged(a: Annotation, l: Log)
    requires Applicable(l.source, l.history)
  {
    var carried := Carried(a.claimSpan, l.history);
    && InBounds(a.claimSpan, |l.source|)
    && a.displaySpan == SpanOf(BytesAfter(l.source, l.history), carried)
    && a.status == (if l.history == [] then Current else if carried.Some? then Transported else Unplaced)
    && (l.history != [] ==> a.claimSpan.begin < a.claimSpan.end)
  }

  ghost predicate LogSound(s: State, log: Option<Log>) {
    match log
    case None => s.annotations == []
    case Some(l) =>
      && Applicable(l.source, l.history)
      && BytesAfter(l.source, l.history) == s.Source()
      && forall a | a in s.annotations :: MarkerLogged(a, l)
  }

  lemma {:induction false} MarkerMoves(a: Annotation, l: Log, edits: Transaction)
    requires Applicable(l.source, l.history) && MarkerLogged(a, l)
    requires AnnotationLoads(a, |BytesAfter(l.source, l.history)|)
    requires Ordered(edits, 0, |BytesAfter(l.source, l.history)|)
    ensures Applicable(l.source, l.history + [edits])
    ensures MarkerLogged(Moved(a, Apply(BytesAfter(l.source, l.history), edits), edits),
                         Log(l.source, l.history + [edits]))
  {
    var document, carried := BytesAfter(l.source, l.history), Carried(a.claimSpan, l.history);
    Extend(l.source, l.history, edits);
    if l.history != [] {
      CarriedInBounds(l.source, a.claimSpan, l.history);
    }
    if carried.Some? {
      assert a.displaySpan == Some(SourceSpan(document, carried.value));
      TransportInBounds(document, carried.value, edits);
    }
  }

  lemma {:induction false} AdvancingLogs(sys: System, plan: Plan, edits: seq<Edit<Byte>>, token: string)
    requires AdvancesBy(sys.disk, plan, edits, token) && plan.writes != []
    requires sys.disk.state.Some? ==> LogSound(sys.disk.state.value, sys.log)
    ensures plan.writes[|plan.writes| - 1].Save?
    ensures LogSound(plan.writes[|plan.writes| - 1].state, Logged(sys, plan.outcome))
  {
    AdvancedState(sys.disk, plan, edits, token);
    var s, log := sys.disk.state.value, sys.log;
    var after := plan.writes[|plan.writes| - 1].state;
    if log.Some? {
      var l := log.value;
      Extend(l.source, l.history, edits);
      forall a | a in after.annotations
        ensures MarkerLogged(a, l.(history := l.history + [edits]))
      {
        var i :| 0 <= i < |after.annotations| && after.annotations[i] == a;
        MarkerMoves(s.annotations[i], l, edits);
      }
    }
  }

  /** A fresh admission starts a new log, with every marker on its claim. */
  lemma {:induction false} AdmissionLogs(request: Request, display: Bytes, candidate: Bytes, events: seq<Event>)
    requires Admit(request, display, candidate, events).Success?
    requires Admit(request, display, candidate, events).value.Admitted?
    ensures forall a | a in Admit(request, display, candidate, events).value.annotations ::
              MarkerLogged(a, Log(display, []))
  {
    AdmittedIsExact(request, display, candidate, events);
  }

  lemma {:induction false} RecordedLogs(s: State, generation: string, admission: Admission, log: Option<Log>)
    requires generation in s.generations && LogSound(s, log)
    requires admission.Admitted? ==> forall a | a in admission.annotations :: MarkerLogged(a, Log(s.Source(), []))
    ensures LogSound(Recorded(s, generation, admission),
                     if admission.Admitted? then Some(Log(s.Source(), [])) else log)
  {
  }

  /** The plan saves a state that fits the log it leaves. */
  ghost predicate SavesLogged(sys: System, plan: Plan) {
    && plan.writes != [] && plan.writes[|plan.writes| - 1].Save?
    && LogSound(plan.writes[|plan.writes| - 1].state, Logged(sys, plan.outcome))
  }

  lemma {:induction false} CompletedLogs(sys: System, s: State, generation: string, admission: Admission, plan: Plan)
    requires sys.disk.state == Some(s) && generation in s.generations && LogSound(s, sys.log)
    requires plan.writes != [] && plan.outcome == Completed(admission)
    requires plan.writes[|plan.writes| - 1] == Save(Recorded(s, generation, admission))
    requires admission.Admitted? ==> forall a | a in admission.annotations :: MarkerLogged(a, Log(s.Source(), []))
    ensures SavesLogged(sys, plan)
  {
    RecordedLogs(s, generation, admission, sys.log);
  }

  lemma {:induction false} FinishLogs(sys: System, p: Pending)
    requires FinishPlan(sys.disk, p).writes != []
    requires sys.disk.state.Some? && LogSound(sys.disk.state.value, sys.log)
    ensures var plan := FinishPlan(sys.disk, p);
            SavesLogged(sys, plan)
  {
    FinishRecords(sys.disk, p);
    var s, admission := sys.disk.state.value, FinishPlan(sys.disk, p).outcome.admission;
    RecordWrites(sys.disk, s, p, admission);
    if admission.Admitted? {
      AdmissionLogs(s.generations[s.current].request, s.Source(), p.candidate, p.events);
    }
    CompletedLogs(sys, s, p.generation, admission, FinishPlan(sys.disk, p));
  }

  lemma {:induction false} FailLogs(sys: System, generation: string, error: string)
    requires FailPlan(sys.disk, generation, error).writes != []
    requires sys.disk.state.Some? && LogSound(sys.disk.state.value, sys.log)
    ensures SavesLogged(sys, FailPlan(sys.disk, generation, error))
  {
  }

  ghost predicate LogFits(sys: System) {
    if sys.disk.state.None? then sys.log.None? else LogSound(sys.disk.state.value, sys.log)
  }

  lemma {:induction false} InitializeLogs(sys: System, source: Bytes, displayName: string, document: Option<string>,
                                          hex: string, token: string)
    requires LogFits(sys) && InitializePlan(sys.disk, source, displayName, document, hex, token).writes != []
    ensures var plan := InitializePlan(sys.disk, source, displayName, document, hex, token);
            SavesLogged(sys, plan)
  {
    var plan := InitializePlan(sys.disk, source, displayName, document, hex, token);
    assert Logged(sys, plan.outcome) == None;
    assert plan.writes[2].state.annotations == [];
  }

  lemma {:induction false} MaterializeLogs(dec: Decoder, sys: System, token: string)
    requires LogFits(sys) && MaterializePlan(sys.disk, dec, token).writes != []
    ensures var plan := MaterializePlan(sys.disk, dec, token);
            SavesLogged(sys, plan)
  {
    var edits := MaterializeAdvances(sys.disk, dec, token);
    AdvancingLogs(sys, MaterializePlan(sys.disk, dec, token), edits, token);
  }

  lemma {:induction false} AdvanceLogs(sys: System, values: seq<EditValue>, token: string)
    requires LogFits(sys) && AdvancePlan(sys.disk, values, token).writes != []
    ensures var plan := AdvancePlan(sys.disk, values, token);
            SavesLogged(sys, plan)
  {
    AdvanceAdvances(sys.disk, values, token);
    AdvancingLogs(sys, AdvancePlan(sys.disk, values, token), Converted(values), token);
  }

  lemma {:induction false} PlanLogs(dec: Decoder, sys: System, a: Action)
    requires LogFits(sys) && PlanOf(dec, sys.disk, a).writes != []
    ensures var plan := PlanOf(dec, sys.disk, a);
            SavesLogged(sys, plan)
  {
    match a
    case Initialize(source, displayName, document, hex, token, _) =>
      InitializeLogs(sys, source, displayName, document, hex, token);
    case Advance(values, token, _) => AdvanceLogs(sys, values, token);
    case Materialize(token, _) => MaterializeLogs(dec, sys, token);
    case BeginComplete(_, _) =>
    case FinishComplete(p, _) => FinishLogs(sys, p);
    case Fail(generation, error, _) => FailLogs(sys, generation, error);
  }

  lemma {:induction false} CarryLogs(dec: Decoder, sys: System, a: Action, plan: Plan)
    requires Orderly(sys.disk, plan.writes) && LogFits(sys)
    requires plan.writes != [] ==> LogSound(plan.writes[|plan.writes| - 1].state, Logged(sys, plan.outcome))
    ensures LogFits(Carry(dec, sys, a, plan))
  {
    CrashSafe(sys.disk, plan.writes, CutOf(a));
  }

  lemma {:induction false} StepLog(dec: Decoder, sys: System, a: Action)
    requires Sound(dec, sys.disk) && PendingsSound(dec, sys.disk, sys.pending) && LogFits(sys)
    ensures LogFits(Next(dec, sys, a))
  {
    if Enabled(sys, a) {
      PlanIsOrderly(dec, sys, a);
      if PlanOf(dec, sys.disk, a).writes != [] {
        PlanLogs(dec, sys, a);
      }
      CarryLogs(dec, sys, a, PlanOf(dec, sys.disk, a));
    }
  }

  // ----- the invariant of every run -----

  ghost predicate SystemSound(dec: Decoder, sys: System) {
    && Sound(dec, sys.disk)
    && PendingsSound(dec, sys.disk, sys.pending)
    && sys.settled == multiset(ClosedSet(sys.disk.state))
    && LogFits(sys)
  }

  lemma {:induction false} EveryRunIsSound(dec: Decoder, actions: seq<Action>)
    ensures SystemSound(dec, Run(dec, actions))
    decreases |actions|
  {
    if actions != [] {
      var before, a := Run(dec, actions[..|actions| - 1]), actions[|actions| - 1];
      EveryRunIsSound(dec, actions[..|actions| - 1]);
      StepDisk(dec, before, a);
      StepPending(dec, before, a);
      StepSettled(dec, before, a);
      StepLog(dec, before, a);
    }
  }

  // ----- consequences -----

  /**
   Whatever was interleaved or cut short: if one annotation is shown as current then all are, and
   they are exactly the evidence of a retained trace that is valid for the displayed bytes, whose
   run is the current generation and whose snapshot is the displayed one.
   */
  lemma {:induction false} CurrentMeansEvidenced(dec: Decoder, actions: seq<Action>, a: Annotation) returns (g: string)
    requires Run(dec, actions).disk.state.Some?
    requires a in Run(dec, actions).disk.state.value.annotations && a.status.Current?
    ensures var d := Run(dec, actions).disk;
            && (forall b | b in d.state.value.annotations :: b.status.Current?)
            && Evidenced(dec, d.files, d.state.value, g)
  {
    EveryRunIsSound(dec, actions);
    var d := Run(dec, actions).disk;
    g :| Evidenced(dec, d.files, d.state.value, g);
  }

  /** Of any number of racing completions and failures of a generation, one at most is ever recorded. */
  lemma {:induction false} RecordedAtMostOnce(dec: Decoder, actions: seq<Action>, g: string)
    ensures Run(dec, actions).settled[g] <= 1
    ensures Run(dec, actions).settled[g] == 1 <==>
            var state := Run(dec, actions).disk.state;
            state.Some? && g in state.value.generations && !state.value.generations[g].status.Open()
  {
    EveryRunIsSound(dec, actions);
  }

  ghost function RevisionsOf(s: State, generations: set<string>): set<int>
    requires generations <= s.generations.Keys
  {
    set g | g in generations :: s.generations[g].request.snapshot.revision
  }

  lemma {:induction false} RevisionCount(s: State, generations: set<string>)
    requires generations <= s.generations.Keys && GenerationsSound(s)
    ensures |RevisionsOf(s, generations)| == |generations|
    decreases |generations|
  {
    if generations != {} {
      var g :| g in generations;
      var rest := generations - {g};
      RevisionCount(s, rest);
      assert RevisionsOf(s, generations) == RevisionsOf(s, rest) + {s.generations[g].request.snapshot.revision};
    }
  }

  lemma {:induction false} SubsetOfSameSize(a: set<int>, b: set<int>)
    requires a <= b && |a| == |b|
    ensures a == b
  {
    assert |b - a| == |b| - |a|;
  }

  lemma {:induction false} RevisionsAreFilled(dec: Decoder, files: map<File, Content>, s: State, revision: nat)
        returns (g: string)
    requires StateSound(dec, files, s) && revision <= s.snapshot.revision
    ensures g in s.generations && s.generations[g].request.snapshot.revision == revision
    ensures s.generations[g].status.Requested? ==> revision == s.snapshot.revision
  {
    var all := Interval(s.snapshot.revision + 1);
    forall h | h in s.generations
      ensures s.generations[h].request.snapshot.revision in all
    {
      assert RecordSound(dec, files, s, h);
    }
    RevisionCount(s, s.generations.Keys);
    SubsetOfSameSize(RevisionsOf(s, s.generations.Keys), all);
    assert revision in RevisionsOf(s, s.generations.Keys);
    g :| g in s.generations && s.generations[g].request.snapshot.revision == revision;
  }

  /** Every revision so far has exactly one generation, and only the newest can still be plainly requested. */
  lemma {:induction false} OneGenerationPerRevision(dec: Decoder, actions: seq<Action>, revision: nat)
        returns (g: string)
    requires Run(dec, actions).disk.state.Some?
    requires revision <= Run(dec, actions).disk.state.value.snapshot.revision
    ensures var s := Run(dec, actions).disk.state.value;
            && g in s.generations && s.generations[g].request.snapshot.revision == revision
            && (forall h | h in s.generations && s.generations[h].request.snapshot.revision == revision :: h == g)
            && |s.generations| == s.snapshot.revision + 1
            && (s.generations[g].status.Requested? ==> g == s.current && revision == s.snapshot.revision)
  {
    EveryRunIsSound(dec, actions);
    var d := Run(dec, actions).disk;
    g := RevisionsAreFilled(dec, d.files, d.state.value, revision);
  }

  /** Artifacts are kept and the state, once there, is followed. */
  ghost predicate Extends(d: Disk, e: Disk) {
    Grows(d.files, e.files) && (d.state.Some? ==> e.state.Some? && Follows(d.state.value, e.state.value))
  }

  lemma {:induction false} ExtendsTransitive(d: Disk, e: Disk, f: Disk)
    requires Extends(d, e) && Extends(e, f)
    ensures Extends(d, f)
  {
  }

  lemma {:induction false} StepExtends(dec: Decoder, sys: System, a: Action)
    requires Sound(dec, sys.disk) && PendingsSound(dec, sys.disk, sys.pending)
    ensures Extends(sys.disk, Next(dec, sys, a).disk)
  {
    StepDisk(dec, sys, a);
  }

  lemma {:induction false} OneMoreExtends(dec: Decoder, actions: seq<Action>, a: Action)
    ensures Extends(Run(dec, actions).disk, Run(dec, actions + [a]).disk)
  {
    RunOneMore(dec, actions, a);
    EveryRunIsSound(dec, actions);
    StepExtends(dec, Run(dec, actions), a);
  }

  lemma {:induction false} ExtendsOneMore(dec: Decoder, actions: seq<Action>, more: seq<Action>, last: Action)
    requires Extends(Run(dec, actions).disk, Run(dec, actions + more).disk)
    ensures Extends(Run(dec, actions).disk, Run(dec, actions + (more + [last])).disk)
  {
    OneMoreExtends(dec, actions + more, last);
    assert actions + (more + [last]) == (actions + more) + [last];
    ExtendsTransitive(Run(dec, actions).disk, Run(dec, actions + more).disk, Run(dec, (actions + more) + [last]).disk);
  }

  lemma {:induction false} LaterExtends(dec: Decoder, actions: seq<Action>, more: seq<Action>)
    ensures Extends(Run(dec, actions).disk, Run(dec, actions + more).disk)
    decreases |more|
  {
    if more == [] {
      assert actions + more == actions;
    } else {
      var shorter, last := more[..|more| - 1], more[|more| - 1];
      LaterExtends(dec, actions, shorter);
      ExtendsOneMore(dec, actions, shorter, last);
      assert more == shorter + [last];
    }
  }

  lemma {:induction false} LaterFollows(dec: Decoder, actions: seq<Action>, more: seq<Action>)
    requires Run(dec, actions).disk.state.Some?
    ensures var d, e := Run(dec, actions).disk, Run(dec, actions + more).disk;
            Grows(d.files, e.files) && e.state.Some? && Follows(d.state.value, e.state.value)
  {
    LaterExtends(dec, actions, more);
  }

  /** Admitted, discarded and failed are final, and retained artifacts are never rewritten. */
  lemma {:induction false} SettledForever(dec: Decoder, actions: seq<Action>, more: seq<Action>, g: string)
    requires Run(dec, actions).disk.state.Some? && g in Run(dec, actions).disk.state.value.generations
    requires !Run(dec, actions).disk.state.value.generations[g].status.Open()
    ensures var d, e := Run(dec, actions).disk, Run(dec, actions + more).disk;
            && e.state.Some? && g in e.state.value.generations
            && e.state.value.generations[g] == d.state.value.generations[g]
            && Grows(d.files, e.files)
  {
    LaterFollows(dec, actions, more);
  }

  lemma {:induction false} MarkerIsFaithful(s: State, l: Log, a: Annotation, i: nat)
    requires LogSound(s, Some(l)) && a in s.annotations
    ensures i < |l.source| && Standing(i, l.history).Some? ==>
              var p := Standing(i, l.history).value;
              && 0 <= p < |s.Source()| && s.Source()[p] == l.source[i]
              && (a.claimSpan.begin <= i < a.claimSpan.end <==>
                    && a.displaySpan.Some?
                    && a.displaySpan.value.begin.offset <= p < a.displaySpan.value.end.offset)
  {
    if i < |l.source| && Standing(i, l.history).Some? {
      StandingValue(l.source, l.history, i);
      if l.history != [] {
        CarriedIsFaithful(l.source, a.claimSpan, l.history, i);
        CarriedInBounds(l.source, a.claimSpan, l.history);
      }
    }
  }

  /**
   Over everything that happened since the last admission: a byte of the admitted source that no
   transaction has covered is on display unchanged, and lies inside a marker's display span
   exactly when it lay inside the span the marker claims.
   */
  lemma {:induction false} MarkersAreFaithful(dec: Decoder, actions: seq<Action>, a: Annotation, i: nat)
    requires Run(dec, actions).disk.state.Some? && a in Run(dec, actions).disk.state.value.annotations
    ensures Run(dec, actions).log.Some?
    ensures Applicable(Run(dec, actions).log.value.source, Run(dec, actions).log.value.history)
    ensures var s, l := Run(dec, actions).disk.state.value, Run(dec, actions).log.value;
            i < |l.source| && Standing(i, l.history).Some? ==>
              var p := Standing(i, l.history).value;
              && 0 <= p < |s.Source()| && s.Source()[p] == l.source[i]
              && (a.claimSpan.begin <= i < a.claimSpan.end <==>
                    && a.displaySpan.Some?
                    && a.displaySpan.value.begin.offset <= p < a.displaySpan.value.end.offset)
  {
    EveryRunIsSound(dec, actions);
    MarkerIsFaithful(Run(dec, actions).disk.state.value, Run(dec, actions).log.value, a, i);
  }
}
