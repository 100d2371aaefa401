/**
 Concrete runs that show where the host's promises end, and that the proved ones are not empty.
 */
module Exhibits {
  import opened Wrappers
  import opened Utf8
  import opened Snapshots
  import opened Traces
  import opened Replay
  import opened Edits
  import opened Transport
  import opened Projection
  import opened Generation
  import opened Host
  import opened Integrity
  import opened Runs
  import opened Safety
  import opened Completion
  import opened Materialization
  import opened Foreign
  import opened Live
  import opened Samples

  /** A parser that reads every trace file as the given events. */
  function Reading(events: seq<Event>): Decoder {
    (trace: Bytes) => Some(events)
  }

  // ----- the first generation -----

  const TOKEN := "a"
  const GENERATION := GenerationName(0, TOKEN)

  function Open(text: Text): Action {
    Initialize(Encode(text), "x", Some("d"), "", TOKEN, Whole)
  }

  function Opening(text: Text): State {
    InitialState(text, "x", "d")
  }

  function FirstState(text: Text): State {
    Issued(Opening(text), TOKEN)
  }

  function FirstFiles(text: Text): map<File, Content> {
    WithArtifacts(map[], Opening(text), TOKEN)
  }

  lemma {:induction false} OpeningPlan(text: Text)
    ensures InitializePlan(START.disk, Encode(text), "x", Some("d"), "", TOKEN) == LaunchPlan(Opening(text), TOKEN, [])
  {
    DecodeOfEncode(text);
  }

  /** After initialisation: the first generation, its source and its request. */
  lemma {:induction false} Opened(dec: Decoder, text: Text)
    ensures Run(dec, [Open(text)]).disk == Disk(Some(FirstState(text)), FirstFiles(text))
    ensures Run(dec, [Open(text)]).pending == {}
    ensures Loads(FirstState(text))
  {
    OneStep(dec, Open(text));
    NextOpen(dec, text);
    OpeningLoads(dec, text);
  }

  lemma {:induction false} OneStep(dec: Decoder, a: Action)
    ensures Run(dec, [a]) == Next(dec, START, a)
  {
    assert [a] == [] + [a];
    RunOneMore(dec, [], a);
  }

  lemma {:induction false} NextOpen(dec: Decoder, text: Text)
    ensures Next(dec, START, Open(text)).disk == Disk(Some(FirstState(text)), FirstFiles(text))
    ensures Next(dec, START, Open(text)).pending == {}
  {
    OpeningPlan(text);
    LaunchWrites(START.disk, Opening(text), TOKEN, []);
    CarrySaves(dec, START, Open(text), LaunchPlan(Opening(text), TOKEN, []));
  }

  lemma {:induction false} OpeningLoads(dec: Decoder, text: Text)
    ensures Loads(FirstState(text))
  {
    OpeningPlan(text);
    InitializedLoads(dec, START.disk, Encode(text), "x", Some("d"), "", TOKEN);
  }

  lemma {:induction false} FirstRecord(text: Text)
    ensures var s, files := FirstState(text), FirstFiles(text);
            && s.current == GENERATION && s.generations.Keys == {GENERATION}
            && s.Source() == Encode(text) && s.snapshot == Identify(Encode(text), "d", 0)
            && s.generations[GENERATION].status.Requested?
            && s.generations[GENERATION].request.snapshot == s.snapshot
            && s.generations[GENERATION].sourceFile == SourceFile(0, TOKEN)
            && s.annotations == []
            && files.Keys == {SourceFile(0, TOKEN), RequestFile(0, TOKEN)}
            && files[SourceFile(0, TOKEN)] == Data(Encode(text))
  {
  }

  /** A valid trace of the first generation. */
  ghost predicate OfTheFirst(text: Text, events: seq<Event>) {
    && Accepts(Encode(text), events) && events[0].envelope.run == GENERATION
    && Catalogue(events).snapshot == Some(Snapshot("s", Identify(Encode(text), "d", 0)))
  }

  function Completing(text: Text, events: seq<Event>): Pending {
    Pending(GENERATION, Encode(text), [0], events)
  }

  lemma {:induction false} FirstPending(text: Text, events: seq<Event>)
    requires OfTheFirst(text, events)
    ensures var dec, d, p := Reading(events), Disk(Some(FirstState(text)), FirstFiles(text)), Completing(text, events);
            && PendingSound(dec, d.files, d.state.value, p) && Honest(d.state.value, p) && TraceFileFits(d, p)
            && TraceFile(TokenOf(GENERATION)) !in d.files
  {
    FirstRecord(text);
  }

  lemma {:induction false} FirstBegins(text: Text, events: seq<Event>)
    requires OfTheFirst(text, events)
    ensures var dec, d := Reading(events), Disk(Some(FirstState(text)), FirstFiles(text));
            Begin(d, dec, GENERATION, [0]) == Success(Completing(text, events))
  {
    var dec, d := Reading(events), Disk(Some(FirstState(text)), FirstFiles(text));
    Opened(dec, text);
    FirstRecord(text);
    FirstPending(text, events);
    BeginsAgain(dec, d, d, Completing(text, events));
  }

  /** It is recorded as admitted, unless it carries internal evidence. */
  lemma {:induction false} FirstOutcome(text: Text, events: seq<Event>)
    requires OfTheFirst(text, events)
    ensures var d, p := Disk(Some(FirstState(text)), FirstFiles(text)), Completing(text, events);
            var plan := FinishPlan(d, p);
            if exists e | e in events :: Internal(e) then plan == Refuse(NotAdmissible(MissingNode))
            else PlanAdmits(plan) && plan == RecordPlan(d, FirstState(text), p, plan.outcome.admission)
  {
    var dec, d, p := Reading(events), Disk(Some(FirstState(text)), FirstFiles(text)), Completing(text, events);
    Opened(dec, text);
    EveryRunIsSound(dec, [Open(text)]);
    FirstRecord(text);
    FirstPending(text, events);
    HonestCompletion(dec, d, p);
  }

  // ----- whole runs of steps -----

  lemma {:induction false} NextBegin(dec: Decoder, sys: System, generation: string, trace: Bytes)
    requires Begin(sys.disk, dec, generation, trace).Success?
    ensures var next := Next(dec, sys, BeginComplete(generation, trace));
            next.disk == sys.disk && Begin(sys.disk, dec, generation, trace).value in next.pending
  {
  }

  lemma {:induction false} BeginStep(dec: Decoder, actions: seq<Action>, generation: string, trace: Bytes)
    requires Begin(Run(dec, actions).disk, dec, generation, trace).Success?
    ensures var after := Run(dec, actions + [BeginComplete(generation, trace)]);
            && after.disk == Run(dec, actions).disk
            && Begin(after.disk, dec, generation, trace).value in after.pending
  {
    RunOneMore(dec, actions, BeginComplete(generation, trace));
    NextBegin(dec, Run(dec, actions), generation, trace);
  }

  lemma {:induction false} NextFinish(dec: Decoder, sys: System, p: Pending)
    requires p in sys.pending
    ensures Next(dec, sys, FinishComplete(p, Whole))
         == Carry(dec, sys, FinishComplete(p, Whole), FinishPlan(sys.disk, p))
  {
  }

  lemma {:induction false} FinishIsOrderly(dec: Decoder, d: Disk, p: Pending)
    requires Sound(dec, d) && d.state.Some? && PendingSound(dec, d.files, d.state.value, p)
    ensures Orderly(d, FinishPlan(d, p).writes)
  {
    FinishIsGood(dec, d, p);
  }

  lemma {:induction false} FinishSaves(dec: Decoder, sys: System, p: Pending)
    requires p in sys.pending && FinishPlan(sys.disk, p).writes != []
    requires Orderly(sys.disk, FinishPlan(sys.disk, p).writes)
    ensures var writes := FinishPlan(sys.disk, p).writes;
            && writes[|writes| - 1].Save?
            && Next(dec, sys, FinishComplete(p, Whole)).disk == PerformAll(sys.disk, writes)
            && PerformAll(sys.disk, writes).state == Some(writes[|writes| - 1].state)
  {
    NextFinish(dec, sys, p);
    CarrySaves(dec, sys, FinishComplete(p, Whole), FinishPlan(sys.disk, p));
  }

  lemma {:induction false} RunSteady(dec: Decoder, actions: seq<Action>)
    ensures Sound(dec, Run(dec, actions).disk)
    ensures PendingsSound(dec, Run(dec, actions).disk, Run(dec, actions).pending)
  {
    EveryRunIsSound(dec, actions);
  }

  lemma {:induction false} RunFinishIsOrderly(dec: Decoder, actions: seq<Action>, p: Pending)
    requires p in Run(dec, actions).pending && FinishPlan(Run(dec, actions).disk, p).writes != []
    ensures Orderly(Run(dec, actions).disk, FinishPlan(Run(dec, actions).disk, p).writes)
  {
    RunSteady(dec, actions);
    FinishRecords(Run(dec, actions).disk, p);
    FinishIsOrderly(dec, Run(dec, actions).disk, p);
  }

  lemma {:induction false} FinishStep(dec: Decoder, actions: seq<Action>, p: Pending)
    requires p in Run(dec, actions).pending && FinishPlan(Run(dec, actions).disk, p).writes != []
    ensures var d := Run(dec, actions).disk;
            var writes := FinishPlan(d, p).writes;
            && writes[|writes| - 1].Save?
            && Run(dec, actions + [FinishComplete(p, Whole)]).disk == PerformAll(d, writes)
            && PerformAll(d, writes).state == Some(writes[|writes| - 1].state)
  {
    RunFinishIsOrderly(dec, actions, p);
    FinishSaves(dec, Run(dec, actions), p);
    RunOneMore(dec, actions, FinishComplete(p, Whole));
  }

  /** A completion begun and finished with nothing between. */
  function Complete(p: Pending): seq<Action> {
    [BeginComplete(p.generation, p.trace)] + [FinishComplete(p, Whole)]
  }

  lemma {:induction false} InTwoSteps(actions: seq<Action>, p: Pending)
    ensures actions + Complete(p) == actions + [BeginComplete(p.generation, p.trace)] + [FinishComplete(p, Whole)]
  {
  }

  lemma {:induction false} CompleteSteps(dec: Decoder, actions: seq<Action>, p: Pending)
    requires Begin(Run(dec, actions).disk, dec, p.generation, p.trace) == Success(p)
    requires FinishPlan(Run(dec, actions).disk, p).writes != []
    ensures var d := Run(dec, actions).disk;
            var writes := FinishPlan(d, p).writes;
            && writes[|writes| - 1].Save? && p in Run(dec, actions + [BeginComplete(p.generation, p.trace)]).pending
            && Run(dec, actions + [BeginComplete(p.generation, p.trace)]).disk == d
            && Run(dec, actions + Complete(p)).disk == PerformAll(d, writes)
            && PerformAll(d, writes).state == Some(writes[|writes| - 1].state)
  {
    BeginStep(dec, actions, p.generation, p.trace);
    FinishStep(dec, actions + [BeginComplete(p.generation, p.trace)], p);
    InTwoSteps(actions, p);
  }

  // ----- the first generation admitted -----

  /** The run that initialises a directory and completes its first generation. */
  function AdmittingRun(text: Text, events: seq<Event>): seq<Action> {
    [Open(text)] + Complete(Completing(text, events))
  }

  lemma {:induction false} FirstAdmitted(text: Text, events: seq<Event>)
    requires OfTheFirst(text, events) && forall e | e in events :: !Internal(e)
    ensures var dec, p := Reading(events), Completing(text, events);
            var d := Run(dec, [Open(text)]).disk;
            var plan := FinishPlan(d, p);
            && d == Disk(Some(FirstState(text)), FirstFiles(text)) && PlanAdmits(plan) && plan.writes != []
            && Begin(d, dec, p.generation, p.trace) == Success(p)
            && PerformAll(d, plan.writes)
               == Disk(Some(Recorded(FirstState(text), GENERATION, plan.outcome.admission)),
                       FirstFiles(text)[TraceFile(TokenOf(GENERATION)) := Data([0])])
  {
    var dec, p := Reading(events), Completing(text, events);
    Opened(dec, text);
    FirstRecord(text);
    FirstBegins(text, events);
    FirstOutcome(text, events);
    FirstPending(text, events);
    var d := Run(dec, [Open(text)]).disk;
    RecordWrites(d, FirstState(text), p, FinishPlan(d, p).outcome.admission);
  }

  lemma {:induction false} AdmittedDisk(text: Text, events: seq<Event>) returns (admission: Admission)
    requires OfTheFirst(text, events) && forall e | e in events :: !Internal(e)
    ensures admission.Admitted?
    ensures Run(Reading(events), AdmittingRun(text, events)).disk
         == Disk(Some(Recorded(FirstState(text), GENERATION, admission)),
                 FirstFiles(text)[TraceFile(TokenOf(GENERATION)) := Data([0])])
  {
    var dec, p := Reading(events), Completing(text, events);
    FirstAdmitted(text, events);
    CompleteSteps(dec, [Open(text)], p);
    admission := FinishPlan(Run(dec, [Open(text)]).disk, p).outcome.admission;
  }

  // ----- an admission that does not load -----

  lemma {:induction false} AdmittingPlanLoads(text: Text, events: seq<Event>)
    requires OfTheFirst(text, events)
    requires FinishPlan(Disk(Some(FirstState(text)), FirstFiles(text)), Completing(text, events)).writes != []
    ensures var plan := FinishPlan(Disk(Some(FirstState(text)), FirstFiles(text)), Completing(text, events));
            plan.outcome.Completed? && SavesLoadable(plan, plan.outcome.admission.Admitted? && EmptyEvidence(events))
  {
    var dec := Reading(events);
    Opened(dec, text);
    RunSteady(dec, [Open(text)]);
    FirstPending(text, events);
    CompletedLoads(dec, Disk(Some(FirstState(text)), FirstFiles(text)), Completing(text, events));
  }

  /** It loads again exactly if there is no empty evidence. */
  lemma {:induction false} AdmittedLoads(text: Text, events: seq<Event>)
    requires OfTheFirst(text, events) && forall e | e in events :: !Internal(e)
    ensures Stuck(Run(Reading(events), AdmittingRun(text, events)).disk) <==> EmptyEvidence(events)
  {
    FirstAdmitted(text, events);
    CompleteSteps(Reading(events), [Open(text)], Completing(text, events));
    AdmittingPlanLoads(text, events);
  }

  function FirstTrace(text: Text, end: int, edge: Edge): seq<Event> {
    Trace(Setting(GENERATION, Encode(text), 0), 0, end, edge)
  }

  lemma {:induction false} FirstTraceIsValid(text: Text, end: int, edge: Edge)
    requires 0 <= end <= |Encode(text)| && (edge == OWNED || edge == INTERNAL)
    ensures OfTheFirst(text, FirstTrace(text, end, edge))
  {
    var at := Setting(GENERATION, Encode(text), 0);
    TraceIsValid(at, 0, end, edge);
    TraceSnapshot(at, 0, end, edge);
  }

  /** On any source, a run that ends in a state nothing can load or change again. */
  lemma {:induction false} EmptyEvidenceBricksTheHost(text: Text, more: seq<Action>)
    ensures var events := FirstTrace(text, 0, OWNED);
            var dec, run := Reading(events), AdmittingRun(text, events);
            && Run(dec, run).disk.state.Some? && !Loads(Run(dec, run).disk.state.value)
            && Run(dec, run + more).disk == Run(dec, run).disk
  {
    var events := FirstTrace(text, 0, OWNED);
    FirstTraceIsValid(text, 0, OWNED);
    TraceInternal(Setting(GENERATION, Encode(text), 0), 0, 0, OWNED);
    TraceEmpty(Setting(GENERATION, Encode(text), 0), 0, 0);
    AdmittedLoads(text, events);
    UnloadableIsFinal(Reading(events), AdmittingRun(text, events), more);
  }

  /** Internal evidence makes the completion of a current generation impossible. */
  lemma {:induction false} InternalEvidenceIsNeverAdmitted(text: Text)
    ensures var events := FirstTrace(text, 0, INTERNAL);
            var d := Run(Reading(events), [Open(text)]).disk;
            && Begin(d, Reading(events), GENERATION, [0]) == Success(Completing(text, events))
            && FinishPlan(d, Completing(text, events)) == Refuse(NotAdmissible(MissingNode))
  {
    var events := FirstTrace(text, 0, INTERNAL);
    FirstTraceIsValid(text, 0, INTERNAL);
    TraceInternal(Setting(GENERATION, Encode(text), 0), 0, 0, INTERNAL);
    Opened(Reading(events), text);
    FirstBegins(text, events);
    FirstOutcome(text, events);
  }

  /** A crash that leaves the trace file empty makes the same completion fail ever after. */
  lemma {:induction false} TornTraceBlocksRetry(text: Text)
    ensures var events := FirstTrace(text, |Encode(text)|, OWNED);
            var d, p := Run(Reading(events), [Open(text)]).disk, Completing(text, events);
            var left := LeftBehind(d, p, Crash(0, Some(0)));
            && FinishPlan(d, p).outcome.Completed?
            && Begin(left, Reading(events), GENERATION, [0]) == Success(p)
            && FinishPlan(left, p) == Refuse(TraceDisagrees)
  {
    var events := FirstTrace(text, |Encode(text)|, OWNED);
    FirstTraceIsValid(text, |Encode(text)|, OWNED);
    TraceInternal(Setting(GENERATION, Encode(text), 0), 0, |Encode(text)|, OWNED);
    FirstAdmitted(text, events);
    FirstPending(text, events);
    var d, p, cut := Run(Reading(events), [Open(text)]).disk, Completing(text, events), Crash(0, Some(0));
    TornWhenNew(d, p);
    RetryExactly(Reading(events), d, p, cut);
  }

  lemma {:induction false} TornWhenNew(d: Disk, p: Pending)
    requires PlanAdmits(FinishPlan(d, p)) && FinishPlan(d, p).writes != []
    requires p.trace == [0] && TraceFile(TokenOf(p.generation)) !in d.files
    ensures !Saves(FinishPlan(d, p).writes, Crash(0, Some(0)))
    ensures !TraceFileFits(LeftBehind(d, p, Crash(0, Some(0))), p)
  {
    FinishRecords(d, p);
    var writes := FinishPlan(d, p).writes;
    assert writes[..0] == [] && writes[0] == Create(TraceFile(TokenOf(p.generation)), Data([0]));
    assert [0][..0] == [];
  }

  // ----- a range that was empty and becomes placed -----

  /** An empty node inside a replacement is shown as transported, on text it never marked. */
  lemma {:induction false} EmptyNodeBecomesPlaced()
    ensures var source: Bytes, edits: seq<Edit<Byte>> := [63, 33], [Edit(0, 2, [65])];
            var events := Trace(Setting("g", source, 0), 1, 1, OWNED);
            && Accepts(source, events) && Ordered(edits, 0, |source|)
            && var r := Annotations(source, events, edits);
            && r.Some? && |r.value| == 1
            && r.value[0].claimSpan == Range(1, 1) && r.value[0].status == Transported
            && r.value[0].displaySpan == Some(SourceSpan([65], Range(0, 1)))
  {
    var source: Bytes, edits: seq<Edit<Byte>> := [63, 33], [Edit(0, 2, [65])];
    var at := Setting("g", source, 0);
    var events := Trace(at, 1, 1, OWNED);
    TraceIsValid(at, 1, 1, OWNED);
    TraceInternal(at, 1, 1, OWNED);
    assert edits[1..] == [];
    LookupsSucceed(source, events, edits);
    OneEvidence(at, 1, 1);
    PlacedRange(edits);
    PlacedText(source, edits);
    TraceNode(at, 1, 1);
  }

  lemma {:induction false} PlacedRange(edits: seq<Edit<Byte>>)
    requires edits == [Edit(0, 2, [65])] && Ordered(edits, 0, 2)
    ensures TransportRange(Range(1, 1), edits) == Some(Range(0, 1))
  {
    TransportOfEmpty(1, edits, 2);
    assert edits[0].begin < 1 < edits[0].end && edits[0].insert != [];
  }

  lemma {:induction false} PlacedText(source: Bytes, edits: seq<Edit<Byte>>)
    requires source == [63, 33] && edits == [Edit(0, 2, [65])] && Ordered(edits, 0, 2)
    ensures Apply(source, edits) == [65]
  {
    assert edits[1..] == [] && source[0..0] == [] && source[2..] == [];
    assert ApplyFrom(source, edits[1..], 2) == source[2..];
    assert ApplyFrom(source, edits, 0) == source[0..0] + [65] + ApplyFrom(source, edits[1..], 2);
  }

  lemma {:induction false} OneEvidence(at: Setting, begin: int, end: int)
    ensures var events := Trace(at, begin, end, OWNED);
            |EvidenceOf(events)| == 1 && EvidenceOf(events)[0] == Step(at, 5, "e5", TermEvidence(OWNED))
  {
    var events := Trace(at, begin, end, OWNED);
    NoEvidenceBefore(events, 5);
    assert events[5..][1..] == [events[6]] && events[6..][1..] == [];
    assert EvidenceOf(events[5..]) == [events[5]] + EvidenceOf(events[5..][1..]);
    assert EvidenceOf([events[6]]) == EvidenceOf([events[6]][1..]);
  }

  lemma {:induction false} NoEvidenceBefore(events: seq<Event>, k: nat)
    requires k <= |events| && forall j | 0 <= j < k :: !events[j].operation.TermEvidence?
    ensures EvidenceOf(events) == EvidenceOf(events[k..])
    decreases k
  {
    if k == 0 {
      assert events[0..] == events;
    } else {
      NoEvidenceBefore(events[1..], k - 1);
      assert events[1..][k - 1..] == events[k..];
    }
  }

  lemma {:induction false} TraceNode(at: Setting, begin: int, end: int)
    requires Accepts(at.source, Trace(at, begin, end, OWNED))
    ensures var c := Catalogue(Trace(at, begin, end, OWNED));
            "n" in c.nodes && c.nodes["n"] == SourceNode("n", "s", 0, "expr", begin, end)
  {
    var events := Trace(at, begin, end, OWNED);
    CatalogueIsLedger(at.source, events);
    assert events[2].operation == NodeDeclare(SourceNode("n", "s", 0, "expr", begin, end));
  }

  // ----- materialising -----

  function FirstSynthesis(text: Text, end: int): seq<Event> {
    Synthesis(Setting(GENERATION, Encode(text), 0), end)
  }

  lemma {:induction false} FirstSynthesisIsValid(text: Text, end: int)
    requires 0 <= end <= |Encode(text)|
    ensures OfTheFirst(text, FirstSynthesis(text, end))
    ensures forall e | e in FirstSynthesis(text, end) :: !Internal(e)
    ensures !EmptyEvidence(FirstSynthesis(text, end))
  {
    var at := Setting(GENERATION, Encode(text), 0);
    SynthesisIsValid(at, end);
    SynthesisSnapshot(at, end);
    SynthesisHasNoEvidence(at, end);
  }

  /** After its admission the directory is ready to materialise. */
  lemma {:induction false} AdmittedIsReady(text: Text, end: int)
    requires 0 < end <= |Encode(text)| && Encode(text)[0] == QUESTION
    ensures var events := FirstSynthesis(text, end);
            var d := Run(Reading(events), AdmittingRun(text, events)).disk;
            && Ready(Reading(events), d, events) && Fresh(d, "b") && d.state.value.Source() == Encode(text)
  {
    var events := FirstSynthesis(text, end);
    FirstSynthesisIsValid(text, end);
    AdmittedLoads(text, events);
    SynthesisIsFillable(Setting(GENERATION, Encode(text), 0), end);
    var admission := AdmittedDisk(text, events);
    RecordedIsReady(text, events, admission);
  }

  lemma {:induction false} RecordedIsReady(text: Text, events: seq<Event>, admission: Admission)
    requires admission.Admitted? && events != []
    requires Loads(Recorded(FirstState(text), GENERATION, admission)) && Materializable(Encode(text), events)
    ensures var d := Disk(Some(Recorded(FirstState(text), GENERATION, admission)),
                          FirstFiles(text)[TraceFile(TokenOf(GENERATION)) := Data([0])]);
            Ready(Reading(events), d, events) && Fresh(d, "b") && d.state.value.Source() == Encode(text)
  {
    FirstRecord(text);
    var d := Disk(Some(Recorded(FirstState(text), GENERATION, admission)),
                  FirstFiles(text)[TraceFile(TokenOf(GENERATION)) := Data([0])]);
    ReadyFrom(d, FirstState(text), events, admission);
    TokenOfName(0, TOKEN);
  }

  lemma {:induction false} ReadyFrom(d: Disk, s: State, events: seq<Event>, admission: Admission)
    requires s.current in s.generations && d.state == Some(Recorded(s, s.current, admission)) && Loads(d.state.value)
    requires TraceFile(TokenOf(s.current)) in d.files && d.files[TraceFile(TokenOf(s.current))] == Data([0])
    requires admission.Admitted? && events != [] && Materializable(s.Source(), events)
    ensures Ready(Reading(events), d, events)
  {
  }

  /** Initialised with `?`, completed and materialised, the directory displays `B`. */
  lemma {:induction false} HoleIsFilled()
    ensures var events := FirstSynthesis([63], 1);
            var d := Run(Reading(events), AdmittingRun([63], events) + [Materialize("b", Whole)]).disk;
            && d.state.Some? && d.state.value.Source() == [66] && d.state.value.snapshot.revision == 1
            && forall a | a in d.state.value.annotations :: !a.status.Current?
  {
    var events := FirstSynthesis([63], 1);
    QuestionText();
    AdmittedIsReady([63], 1);
    FirstEnds([63], 1);
    RunsFillHoles(Reading(events), AdmittingRun([63], events), "b", events);
    FirstSynthesisIsValid([63], 1);
    AdmittedRevision([63], events);
    var run := AdmittingRun([63], events);
    FilledReads(Run(Reading(events), run).disk.state.value,
                Run(Reading(events), run + [Materialize("b", Whole)]).disk.state.value, events);
  }

  lemma {:induction false} FilledReads(s: State, t: State, events: seq<Event>)
    requires Witnesses(events) == [Witness("t", true, 1, [Filling(1)])] && Materialized(s, t, events)
    requires s.Source() == [63] && s.snapshot.revision == 0
    ensures t.Source() == [66] && t.snapshot.revision == 1 && forall a | a in t.annotations :: !a.status.Current?
  {
    MaterializedReads(s, t, events);
    FilledText();
  }

  lemma {:induction false} QuestionText()
    ensures Encode([63]) == [63] && Encode([66]) == [66]
  {
    assert Encode([63]) == EncodeScalar(63) + Encode([63][1..]);
    assert Encode([66]) == EncodeScalar(66) + Encode([66][1..]);
  }

  lemma {:induction false} FirstEnds(text: Text, end: int)
    ensures Witnesses(FirstSynthesis(text, end)) == [Witness("t", true, 1, [Filling(end)])]
    ensures EndsAligned(Encode(text), FirstSynthesis(text, end)) <==> AlignedAt(Encode(text), end)
  {
    SynthesisWitness(Setting(GENERATION, Encode(text), 0), end);
    assert Filling(end) in [Filling(end)];
  }

  lemma {:induction false} FilledText()
    ensures var edits := Converted(ToValues([Filling(1)]));
            Ordered(edits, 0, 1) ==> Apply([63], edits) == [66]
  {
    QuestionText();
    var edits := Converted(ToValues([Filling(1)]));
    assert edits[0] == ToEdit(ToValues([Filling(1)])[0]) && edits[1..] == [];
    var source: Bytes := [63];
    assert source[0..0] == [] && source[1..] == [];
  }

  lemma {:induction false} AdmittedRevision(text: Text, events: seq<Event>)
    requires OfTheFirst(text, events) && forall e | e in events :: !Internal(e)
    ensures var d := Run(Reading(events), AdmittingRun(text, events)).disk;
            d.state.Some? && d.state.value.snapshot.revision == 0
  {
    FirstRecord(text);
    var admission := AdmittedDisk(text, events);
  }

  lemma {:induction false} AccentText()
    ensures Encode([63, 233]) == [63, 195, 169]
  {
    assert Encode([63, 233]) == EncodeScalar(63) + Encode([63, 233][1..]);
    assert [63, 233][1..] == [233] && Encode([233]) == EncodeScalar(233) + Encode([233][1..]);
  }

  /** Where the hole ends inside a character, an admitted witness cannot be materialised. */
  lemma {:induction false} UnalignedHole(text: Text, end: int)
    requires 0 < end <= |Encode(text)| && Encode(text)[0] == QUESTION && !AlignedAt(Encode(text), end)
    ensures var events := FirstSynthesis(text, end);
            var dec, run := Reading(events), AdmittingRun(text, events);
            && Ready(dec, Run(dec, run).disk, events)
            && MaterializePlan(Run(dec, run).disk, dec, "b") == Refuse(NotUtf8)
            && Run(dec, run + [Materialize("b", Whole)]).disk == Run(dec, run).disk
  {
    var events := FirstSynthesis(text, end);
    AdmittedIsReady(text, end);
    FirstEnds(text, end);
    RunsFillHoles(Reading(events), AdmittingRun(text, events), "b", events);
  }

  /** Such a text is `?` followed by U+00E9, with a hole of two bytes. */
  lemma {:induction false} HoleEndsInsideCharacter()
    ensures var events := FirstSynthesis([63, 233], 2);
            var dec, run := Reading(events), AdmittingRun([63, 233], events);
            && Ready(dec, Run(dec, run).disk, events)
            && MaterializePlan(Run(dec, run).disk, dec, "b") == Refuse(NotUtf8)
            && Run(dec, run + [Materialize("b", Whole)]).disk == Run(dec, run).disk
  {
    AccentText();
    UnalignedHole([63, 233], 2);
  }

  // ----- a trace completed under another generation -----

  /** Replacing the displayed text by another one. */
  function Replace(before: Text, after: Text, token: string): Action {
    Advance(MinimalEdits(before, after), token, Whole)
  }

  function Replacing(s: State, text: Text): State
    requires s.current in s.generations
  {
    Edited(s, text, Converted(MinimalEdits(s.text, text)))
  }

  lemma {:induction false} ReplacePlan(d: Disk, s: State, text: Text, token: string)
    requires d.state == Some(s) && Loads(s) && text != s.text
    ensures var edits := Converted(MinimalEdits(s.text, text));
            && Ordered(edits, 0, |s.Source()|) && Decode(Apply(s.Source(), edits)) == Some(text)
            && AdvancePlan(d, MinimalEdits(s.text, text), token) == LaunchPlan(Replacing(s, text), token, edits)
            && AdvancesBy(d, AdvancePlan(d, MinimalEdits(s.text, text), token), edits, token)
  {
    MinimalEditApplies(s.text, text);
    DecodeOfEncode(text);
    AdvanceAdvances(d, MinimalEdits(s.text, text), token);
  }

  lemma {:induction false} ReplaceLoads(dec: Decoder, d: Disk, s: State, text: Text, token: string)
    requires Sound(dec, d) && d.state == Some(s) && Loads(s) && text != s.text && Fresh(d, token)
    ensures Loads(Issued(Replacing(s, text), token))
  {
    ReplacePlan(d, s, text, token);
    var edits := Converted(MinimalEdits(s.text, text));
    AdvancedLoads(dec, d, LaunchPlan(Replacing(s, text), token, edits), edits, token);
  }

  lemma {:induction false} NextReplace(dec: Decoder, sys: System, s: State, text: Text, token: string)
    requires sys.disk.state == Some(s) && Loads(s) && text != s.text && Fresh(sys.disk, token)
    ensures Next(dec, sys, Replace(s.text, text, token)).disk
         == Disk(Some(Issued(Replacing(s, text), token)), WithArtifacts(sys.disk.files, Replacing(s, text), token))
  {
    NextAdvance(dec, sys, MinimalEdits(s.text, text), token);
    ReplacePlan(sys.disk, s, text, token);
    var edits := Converted(MinimalEdits(s.text, text));
    LaunchWrites(sys.disk, Replacing(s, text), token, edits);
    CarrySaves(dec, sys, Replace(s.text, text, token), LaunchPlan(Replacing(s, text), token, edits));
  }

  lemma {:induction false} ReplaceStep(dec: Decoder, actions: seq<Action>, s: State, text: Text, token: string)
    requires Run(dec, actions).disk.state == Some(s) && Loads(s) && text != s.text
    requires Fresh(Run(dec, actions).disk, token)
    ensures Run(dec, actions + [Replace(s.text, text, token)]).disk
         == Disk(Some(Issued(Replacing(s, text), token)),
                 WithArtifacts(Run(dec, actions).disk.files, Replacing(s, text), token))
    ensures Loads(Issued(Replacing(s, text), token))
  {
    EveryRunIsSound(dec, actions);
    RunOneMore(dec, actions, Replace(s.text, text, token));
    NextReplace(dec, Run(dec, actions), s, text, token);
    ReplaceLoads(dec, Run(dec, actions).disk, s, text, token);
  }

  const SECOND := GenerationName(1, "b")
  const THIRD := GenerationName(2, "c")

  lemma {:induction false} NamesDiffer()
    ensures GENERATION != SECOND && GENERATION != THIRD && SECOND != THIRD && TokenOf(GENERATION) == "a"
  {
    TokenOfName(0, "a");
    TokenOfName(1, "b");
    TokenOfName(2, "c");
  }

  /** From `?` to `A` and back: three generations, the last again about `?`. */
  function BackAndForth(): seq<Action> {
    [Open([63])] + [Replace([63], [65], "b")] + [Replace([65], [63], "c")]
  }

  /** What the first generation leaves behind: a superseded record and its source, without a trace. */
  predicate LeavesFirst(s: State, files: map<File, Content>) {
    && s.document.id == "d" && s.current in s.generations
    && GENERATION in s.generations && s.generations[GENERATION].status.Superseded?
    && s.generations[GENERATION].sourceFile == SourceFile(0, TOKEN)
    && SourceFile(0, TOKEN) in files && files[SourceFile(0, TOKEN)] == Data(Encode([63]))
    && forall f | f in files :: !f.TraceFile?
  }

  lemma {:induction false} Supersedes(first: State, before: map<File, Content>, text: Text, edits: seq<Edit<Byte>>)
    requires first.current == GENERATION && GENERATION in first.generations && first.document.id == "d"
    requires first.generations[GENERATION].status.Requested? && first.snapshot.revision == 0
    requires first.generations[GENERATION].sourceFile == SourceFile(0, TOKEN)
    requires before.Keys == {SourceFile(0, TOKEN), RequestFile(0, TOKEN)}
    requires before[SourceFile(0, TOKEN)] == Data(Encode([63]))
    ensures var s := Edited(first, text, edits);
            var t, files := Issued(s, "b"), WithArtifacts(before, s, "b");
            && LeavesFirst(t, files) && t.current == SECOND && t.text == text && t.snapshot.revision == 1
            && forall f | f in files :: f.token == "a" || f.token == "b"
  {
    NamesDiffer();
  }

  lemma {:induction false} FirstText()
    ensures FirstState([63]).text == [63] && [63] != [65] && Fresh(Disk(Some(FirstState([63])), FirstFiles([63])), "b")
  {
    FirstRecord([63]);
    assert [63][0] != [65][0];
  }

  lemma {:induction false} SecondDisk(dec: Decoder) returns (s: State, files: map<File, Content>)
    ensures Run(dec, [Open([63])] + [Replace([63], [65], "b")]).disk == Disk(Some(s), files) && Loads(s)
    ensures LeavesFirst(s, files) && s.current == SECOND && s.text == [65] && s.snapshot.revision == 1
    ensures forall f | f in files :: f.token == "a" || f.token == "b"
  {
    Opened(dec, [63]);
    FirstText();
    ReplaceStep(dec, [Open([63])], FirstState([63]), [65], "b");
    FirstRecord([63]);
    Supersedes(FirstState([63]), FirstFiles([63]), [65], Converted(MinimalEdits([63], [65])));
    s := Issued(Replacing(FirstState([63]), [65]), "b");
    files := WithArtifacts(FirstFiles([63]), Replacing(FirstState([63]), [65]), "b");
  }

  lemma {:induction false} Issues(s: State, files: map<File, Content>)
    requires LeavesFirst(s, files) && s.current == SECOND && s.snapshot.revision == 1
    ensures var t, more := Issued(Replacing(s, [63]), "c"), WithArtifacts(files, Replacing(s, [63]), "c");
            && LeavesFirst(t, more) && t.current == THIRD && t.generations[THIRD].status.Requested?
            && t.Source() == Encode([63]) && t.snapshot == Identify(Encode([63]), "d", 2)
  {
    NamesDiffer();
  }

  lemma {:induction false} AndBack(dec: Decoder, actions: seq<Action>, s: State, files: map<File, Content>)
    requires Run(dec, actions).disk == Disk(Some(s), files) && Loads(s) && s.text == [65]
    requires forall f | f in files :: f.token == "a" || f.token == "b"
    ensures Run(dec, actions + [Replace([65], [63], "c")]).disk
         == Disk(Some(Issued(Replacing(s, [63]), "c")), WithArtifacts(files, Replacing(s, [63]), "c"))
    ensures Loads(Issued(Replacing(s, [63]), "c"))
  {
    assert [65][0] != [63][0];
    ReplaceStep(dec, actions, s, [63], "c");
  }

  lemma {:induction false} ThirdDisk(dec: Decoder) returns (s: State, files: map<File, Content>)
    ensures Run(dec, BackAndForth()).disk == Disk(Some(s), files) && Loads(s)
    ensures LeavesFirst(s, files) && s.current == THIRD && s.generations[THIRD].status.Requested?
    ensures s.Source() == Encode([63]) && s.snapshot == Identify(Encode([63]), "d", 2)
  {
    var second, before := SecondDisk(dec);
    AndBack(dec, [Open([63])] + [Replace([63], [65], "b")], second, before);
    Issues(second, before);
    s, files := Issued(Replacing(second, [63]), "c"), WithArtifacts(before, Replacing(second, [63]), "c");
  }

  /** A trace of the third generation. */
  function ThirdTrace(): seq<Event> {
    Trace(Setting(THIRD, Encode([63]), 2), 0, 1, OWNED)
  }

  ghost predicate OfTheThird(events: seq<Event>) {
    && Accepts(Encode([63]), events) && events[0].envelope.run == THIRD
    && Catalogue(events).snapshot == Some(Snapshot("s", Identify(Encode([63]), "d", 2)))
    && (forall e | e in events :: !Internal(e)) && !EmptyEvidence(events) && HasEvidence(events)
  }

  lemma {:induction false} ThirdTraceIsValid()
    ensures OfTheThird(ThirdTrace())
  {
    var at := Setting(THIRD, Encode([63]), 2);
    QuestionText();
    TraceIsValid(at, 0, 1, OWNED);
    TraceSnapshot(at, 0, 1, OWNED);
    TraceInternal(at, 0, 1, OWNED);
    TraceEmpty(at, 0, 1);
    assert ThirdTrace()[5].operation.TermEvidence? && ThirdTrace()[5] in ThirdTrace();
  }

  /** The first generation, told to complete with a trace of the third. */
  function Usurper(events: seq<Event>): Pending {
    Pending(GENERATION, Encode([63]), [0], events)
  }

  lemma {:induction false} UsurperPending(s: State, files: map<File, Content>, events: seq<Event>)
    requires OfTheThird(events) && LeavesFirst(s, files) && s.current == THIRD
    requires s.snapshot == Identify(Encode([63]), "d", 2)
    ensures var dec, d, p := Reading(events), Disk(Some(s), files), Usurper(events);
            && PendingSound(dec, d.files, s, p) && AboutTheDisplay(s, p) && TraceFileFits(d, p)
            && TraceFile(TokenOf(GENERATION)) !in files
  {
  }

  /** Such a completion begins, is admitted, and what it saves loads. */
  lemma {:induction false} UsurperAdmitted(s: State, files: map<File, Content>, events: seq<Event>)
    requires OfTheThird(events) && LeavesFirst(s, files) && s.current == THIRD
    requires s.snapshot == Identify(Encode([63]), "d", 2)
    requires Sound(Reading(events), Disk(Some(s), files)) && Loads(s)
    ensures var d, p := Disk(Some(s), files), Usurper(events);
            && Begin(d, Reading(events), GENERATION, [0]) == Success(p) && PlanAdmits(FinishPlan(d, p))
            && RecordsAdmission(s, FinishPlan(d, p), GENERATION) && SavesLoadable(FinishPlan(d, p), false)
  {
    var dec, d, p := Reading(events), Disk(Some(s), files), Usurper(events);
    UsurperPending(s, files, events);
    NamesDiffer();
    BeginsAgain(dec, d, d, p);
    ForeignCompletion(dec, d, p);
    CompletedLoads(dec, d, p);
  }

  lemma {:induction false} AdmissionIsShown(d: Disk, p: Pending)
    requires PlanAdmits(FinishPlan(d, p)) && FinishPlan(d, p).writes != [] && HasEvidence(p.events)
    ensures var writes := FinishPlan(d, p).writes;
            writes[|writes| - 1].Save? && writes[|writes| - 1].state.annotations != []
  {
    FinishRecords(d, p);
    var s := d.state.value;
    RecordWrites(d, s, p, FinishPlan(d, p).outcome.admission);
    AdmissionShows(s.generations[s.current].request, s.Source(), p.candidate, p.events);
  }

  /** The state in the end: evidence of the third generation, recorded under the first. */
  predicate Usurped(t: State) {
    && t.current == THIRD
    && GENERATION in t.generations && t.generations[GENERATION].status.WasAdmitted?
    && THIRD in t.generations && t.generations[THIRD].status.Requested?
    && t.annotations != [] && forall a | a in t.annotations :: a.status.Current?
  }

  ghost predicate SavesUsurped(plan: Plan) {
    && plan.writes != [] && plan.writes[|plan.writes| - 1].Save?
    && Loads(plan.writes[|plan.writes| - 1].state) && Usurped(plan.writes[|plan.writes| - 1].state)
  }

  lemma {:induction false} AdmissionUsurps(s: State, d: Disk, p: Pending)
    requires GENERATION in s.generations && THIRD in s.generations && s.current == THIRD
    requires s.generations[THIRD].status.Requested? && HasEvidence(p.events)
    requires PlanAdmits(FinishPlan(d, p)) && SavesLoadable(FinishPlan(d, p), false)
    requires RecordsAdmission(s, FinishPlan(d, p), GENERATION)
    ensures SavesUsurped(FinishPlan(d, p))
  {
    AdmissionIsShown(d, p);
    NamesDiffer();
  }

  lemma {:induction false} UsurperCompletes(events: seq<Event>)
    requires OfTheThird(events)
    ensures var d, p := Run(Reading(events), BackAndForth()).disk, Usurper(events);
            && Begin(d, Reading(events), p.generation, p.trace) == Success(p) && SavesUsurped(FinishPlan(d, p))
  {
    var s, files := ThirdDisk(Reading(events));
    RunSteady(Reading(events), BackAndForth());
    UsurperAdmitted(s, files, events);
    AdmissionUsurps(s, Disk(Some(s), files), Usurper(events));
  }

  lemma {:induction false} UsurpedFinish(dec: Decoder, actions: seq<Action>, p: Pending) returns (t: State)
    requires p in Run(dec, actions).pending && SavesUsurped(FinishPlan(Run(dec, actions).disk, p))
    ensures Run(dec, actions + [FinishComplete(p, Whole)]).disk.state == Some(t) && Loads(t) && Usurped(t)
  {
    FinishStep(dec, actions, p);
    var writes := FinishPlan(Run(dec, actions).disk, p).writes;
    t := writes[|writes| - 1].state;
  }

  lemma {:induction false} UsurpedWhole(dec: Decoder, actions: seq<Action>, p: Pending) returns (t: State)
    requires Begin(Run(dec, actions).disk, dec, p.generation, p.trace) == Success(p)
    requires SavesUsurped(FinishPlan(Run(dec, actions).disk, p))
    ensures Run(dec, actions + Complete(p)).disk.state == Some(t) && Loads(t) && Usurped(t)
  {
    BeginStep(dec, actions, p.generation, p.trace);
    t := UsurpedFinish(dec, actions + [BeginComplete(p.generation, p.trace)], p);
    InTwoSteps(actions, p);
  }

  lemma {:induction false} UsurpedRun(events: seq<Event>) returns (t: State)
    requires OfTheThird(events)
    ensures Run(Reading(events), BackAndForth() + Complete(Usurper(events))).disk.state == Some(t)
    ensures Loads(t) && Usurped(t)
  {
    UsurperCompletes(events);
    t := UsurpedWhole(Reading(events), BackAndForth(), Usurper(events));
  }

  lemma {:induction false} UsurpedIsNotKept(dec: Decoder, d: Disk, token: string)
    requires d.state.Some? && Loads(d.state.value) && Usurped(d.state.value)
    ensures !Kept(d) && MaterializePlan(d, dec, token) == Refuse(NotAdmitted)
  {
    assert d.state.value.annotations[0] in d.state.value.annotations;
    UsurpedCannotMaterialize(dec, d, token);
  }

  /**
   A run in which the first generation is recorded as admitted by a trace of the third: current
   evidence is shown, the third generation still counts as requested, and nothing can be materialised.
   */
  lemma {:induction false} TraceUsurpsAnotherGeneration(token: string)
    ensures var events := ThirdTrace();
            var d := Run(Reading(events), BackAndForth() + Complete(Usurper(events))).disk;
            && d.state.Some? && Loads(d.state.value) && Usurped(d.state.value)
            && !Kept(d) && MaterializePlan(d, Reading(events), token) == Refuse(NotAdmitted)
  {
    var events := ThirdTrace();
    ThirdTraceIsValid();
    var t := UsurpedRun(events);
    UsurpedIsNotKept(Reading(events), Run(Reading(events), BackAndForth() + Complete(Usurper(events))).disk, token);
  }
}
