/**
 Runs of the host: any interleaving of lock sections by any number of editors, solvers and
 failure reports, any of which may crash at any write.
 */
module Runs {
  import opened Wrappers
  import opened Utf8
  import opened Edits
  import opened History
  import opened Generation
  import opened Host
  import opened Integrity

  // ----- crashes -----

  /** A lock section runs to its end, or stops after some whole writes and part of the next. */
  datatype Cut = Whole | Crash(after: nat, torn: Option<nat>)

  function Truncated(c: Content, kept: nat): Content {
    match c
    case Data(b) => if kept < |b| then Data(b[..kept]) else c
    case Json(r) => Partial(r)
    case Partial(_) => c
  }

  /** Replacing the state file is atomic; creating an artifact is not. */
  function Torn(d: Disk, w: Write, torn: Option<nat>): Disk {
    match w
    case Save(_) => d
    case Create(f, c) => if torn.None? then d else d.(files := d.files[f := Truncated(c, torn.value)])
  }

  predicate Saves(writes: seq<Write>, cut: Cut) {
    writes != [] && (cut.Whole? || cut.after >= |writes|)
  }

  function Interrupted(d: Disk, writes: seq<Write>, cut: Cut): Disk {
    if cut.Whole? || cut.after >= |writes| then PerformAll(d, writes)
    else Torn(PerformAll(d, writes[..cut.after]), writes[cut.after], cut.torn)
  }

  /** Write-once artifacts first, then the state that names them. */
  ghost predicate Orderly(d: Disk, writes: seq<Write>) {
    writes != [] ==>
      && writes[|writes| - 1].Save?
      && (forall i | 0 <= i < |writes| - 1 :: writes[i].Create? && writes[i].file !in d.files)
      && (forall i, j | 0 <= i < j < |writes| - 1 :: writes[i].file != writes[j].file)
  }

  /** Any number of leading writes only adds artifacts. */
  lemma {:induction false} PrefixGrows(d: Disk, writes: seq<Write>, k: nat)
    requires Orderly(d, writes) && k < |writes|
    ensures var after := PerformAll(d, writes[..k]);
            && after.state == d.state && Grows(d.files, after.files)
            && (writes[k].Create? ==> writes[k].file !in after.files)
    decreases k
  {
    if k > 0 {
      var next := Perform(d, writes[0]);
      assert writes[..k][1..] == writes[1..][..k - 1];
      PrefixGrows(next, writes[1..], k - 1);
    }
  }

  lemma {:induction false} PerformAllConcat(d: Disk, writes: seq<Write>, w: Write)
    ensures PerformAll(d, writes + [w]) == Perform(PerformAll(d, writes), w)
    decreases |writes|
  {
    if writes == [] {
      assert writes + [w] == [w];
    } else {
      assert (writes + [w])[1..] == writes[1..] + [w];
      PerformAllConcat(Perform(d, writes[0]), writes[1..], w);
    }
  }

  /**
   Crash safety of one lock section: the durable state is the old one or the new one, and no
   artifact that existed before has changed.
   */
  lemma {:induction false} CrashSafe(d: Disk, writes: seq<Write>, cut: Cut)
    requires Orderly(d, writes)
    ensures var after := Interrupted(d, writes, cut);
            && Grows(d.files, after.files)
            && (Saves(writes, cut) ==>
                  after == PerformAll(d, writes) && after.state == Some(writes[|writes| - 1].state))
            && (!Saves(writes, cut) ==> after.state == d.state)
  {
    if writes != [] {
      var k := |writes| - 1;
      PrefixGrows(d, writes, k);
      assert writes == writes[..k] + [writes[k]];
      PerformAllConcat(d, writes[..k], writes[k]);
      if !Saves(writes, cut) {
        PrefixGrows(d, writes, cut.after);
      }
    }
  }

  // ----- the system -----

  /** Auxiliary: the source an admission was for, and every transaction since. */
  datatype Log = Log(source: Bytes, history: seq<Transaction>)

  /**
   The disk, the completions between their lock sections, and two auxiliary variables: the log
   since the last admission, and how often each generation was recorded completed or failed.
   */
  datatype System = System(disk: Disk, pending: set<Pending>, log: Option<Log>, settled: multiset<string>)

  const START := System(Disk(None, map[]), {}, None, multiset{})

  datatype Action =
    | Initialize(source: Bytes, displayName: string, document: Option<string>, hex: string, token: string, cut: Cut)
    | Advance(values: seq<EditValue>, token: string, cut: Cut)
    | Materialize(token: string, cut: Cut)
    | BeginComplete(generation: string, trace: Bytes)
    | FinishComplete(pending: Pending, cut: Cut)
    | Fail(generation: string, error: string, cut: Cut)

  /** Tokens are fresh, and only a completion that has begun can finish. */
  ghost predicate Enabled(sys: System, a: Action) {
    match a
    case Initialize(_, _, _, _, token, _) => Fresh(sys.disk, token)
    case Advance(_, token, _) => Fresh(sys.disk, token)
    case Materialize(token, _) => Fresh(sys.disk, token)
    case FinishComplete(p, _) => p in sys.pending
    case _ => true
  }

  ghost function PlanOf(dec: Decoder, d: Disk, a: Action): Plan {
    match a
    case Initialize(source, displayName, document, hex, token, _) =>
      InitializePlan(d, source, displayName, document, hex, token)
    case Advance(values, token, _) => AdvancePlan(d, values, token)
    case Materialize(token, _) => MaterializePlan(d, dec, token)
    case BeginComplete(_, _) => Plan([], Refused(NoState))
    case FinishComplete(p, _) => FinishPlan(d, p)
    case Fail(generation, error, _) => FailPlan(d, generation, error)
  }

  function CutOf(a: Action): Cut {
    if a.BeginComplete? then Whole else a.cut
  }

  function Logged(sys: System, o: Outcome): Option<Log> {
    match o
    case Launched(_, edits) =>
      if sys.log.None? then None else Some(sys.log.value.(history := sys.log.value.history + [edits]))
    case Completed(admission) =>
      if admission.Admitted? && sys.disk.state.Some? then Some(Log(sys.disk.state.value.Source(), [])) else sys.log
    case _ => sys.log
  }

  function SettledBy(a: Action): multiset<string> {
    match a
    case FinishComplete(p, _) => multiset{p.generation}
    case Fail(generation, _, _) => multiset{generation}
    case _ => multiset{}
  }

  /** The effect of a plan, as far as the action gets with it. */
  ghost function Carry(dec: Decoder, sys: System, a: Action, plan: Plan): System {
    var cut := CutOf(a);
    var saved := Saves(plan.writes, cut);
    System(Interrupted(sys.disk, plan.writes, cut),
           if a.BeginComplete? && Begin(sys.disk, dec, a.generation, a.trace).Success?
           then sys.pending + {Begin(sys.disk, dec, a.generation, a.trace).value} else sys.pending,
           if saved then Logged(sys, plan.outcome) else sys.log,
           if saved then sys.settled + SettledBy(a) else sys.settled)
  }

  ghost function Next(dec: Decoder, sys: System, a: Action): System {
    if Enabled(sys, a) then Carry(dec, sys, a, PlanOf(dec, sys.disk, a)) else sys
  }

  /** The system after a run from an empty directory. */
  ghost function Run(dec: Decoder, actions: seq<Action>): System {
    if actions == [] then START
    else Next(dec, Run(dec, actions[..|actions| - 1]), actions[|actions| - 1])
  }

  lemma {:induction false} RunOneMore(dec: Decoder, actions: seq<Action>, a: Action)
    ensures Run(dec, actions + [a]) == Next(dec, Run(dec, actions), a)
  {
    assert (actions + [a])[..|actions|] == actions;
  }

  // ----- how a state may change -----

  /** Generations are only added; a settled record never changes. */
  ghost predicate Follows(s: State, t: State) {
    && s.document == t.document && s.snapshot.revision <= t.snapshot.revision
    && forall g | g in s.generations ::
         && g in t.generations
         && t.generations[g].request == s.generations[g].request
         && t.generations[g].sourceFile == s.generations[g].sourceFile
         && (!s.generations[g].status.Open() ==> t.generations[g] == s.generations[g])
         && (s.generations[g].status.Superseded? ==> !t.generations[g].status.Requested?)
  }

  lemma {:induction false} FollowsTransitive(s: State, t: State, u: State)
    requires Follows(s, t) && Follows(t, u)
    ensures Follows(s, u)
  {
  }

  lemma {:induction false} IssuedFollows(s: State, token: string)
    requires 0 <= s.snapshot.revision && GenerationName(s.snapshot.revision, token) !in s.generations
    ensures Follows(s, Issued(s, token))
  {
  }

  /** What a plan must be for the invariant to survive it, however it is cut. */
  ghost predicate GoodPlan(dec: Decoder, d: Disk, plan: Plan) {
    && Orderly(d, plan.writes)
    && (plan.outcome.Refused? <==> plan.writes == [])
    && (plan.writes != [] ==>
          && StateSound(dec, PerformAll(d, plan.writes).files, plan.writes[|plan.writes| - 1].state)
          && (d.state.Some? ==> Follows(d.state.value, plan.writes[|plan.writes| - 1].state)))
  }

  lemma {:induction false} LaunchWrites(d: Disk, s: State, token: string, edits: seq<Edit<Byte>>)
    requires Fresh(d, token) && 0 <= s.snapshot.revision
    ensures Orderly(d, LaunchPlan(s, token, edits).writes)
    ensures PerformAll(d, LaunchPlan(s, token, edits).writes)
         == Disk(Some(Issued(s, token)), WithArtifacts(d.files, s, token))
  {
    var writes := LaunchPlan(s, token, edits).writes;
    var revision := s.snapshot.revision;
    assert SourceFile(revision, token) !in d.files && RequestFile(revision, token) !in d.files;
    var one := Perform(d, writes[0]);
    var two := Perform(one, writes[1]);
    assert writes[1..] == [writes[1], writes[2]] && writes[1..][1..] == [writes[2]];
    assert PerformAll(two, [writes[2]]) == Perform(two, writes[2]);
  }

  lemma {:induction false} IssuableFollows(dec: Decoder, d: Disk, s: State, token: string)
    requires Fresh(d, token) && Issuable(dec, d.files, s)
    requires d.state.Some? ==> Follows(d.state.value, s)
    ensures d.state.Some? ==> Follows(d.state.value, Issued(s, token))
  {
    NameIsNew(dec, d, s, s.snapshot.revision, token);
    IssuedFollows(s, token);
    if d.state.Some? {
      FollowsTransitive(d.state.value, s, Issued(s, token));
    }
  }

  lemma {:induction false} LaunchIsGood(dec: Decoder, d: Disk, s: State, token: string, edits: seq<Edit<Byte>>)
    requires Fresh(d, token) && Issuable(dec, d.files, s)
    requires d.state.Some? ==> Follows(d.state.value, s)
    ensures GoodPlan(dec, d, LaunchPlan(s, token, edits))
  {
    LaunchWrites(d, s, token, edits);
    IssuedIsSound(dec, d, s, token);
    IssuableFollows(dec, d, s, token);
  }

  lemma {:induction false} EditedFollows(s: State, text: Text, edits: seq<Edit<Byte>>)
    requires s.current in s.generations
    ensures Follows(s, Edited(s, text, edits))
  {
  }

  lemma {:induction false} EditedIsGood(dec: Decoder, d: Disk, s: State, text: Text, edits: seq<Edit<Byte>>,
                                        token: string)
    requires Fresh(d, token) && d.state == Some(s) && StateSound(dec, d.files, s) && Loads(s)
    requires Ordered(edits, 0, |s.Source()|) && Decode(Apply(s.Source(), edits)) == Some(text)
    ensures 0 <= Edited(s, text, edits).snapshot.revision
    ensures GoodPlan(dec, d, LaunchPlan(Edited(s, text, edits), token, edits))
  {
    EditedIsIssuable(dec, d.files, s, text, edits);
    EditedFollows(s, text, edits);
    LaunchIsGood(dec, d, Edited(s, text, edits), token, edits);
  }

  lemma {:induction false} AdvanceIsGood(dec: Decoder, d: Disk, s: State, edits: seq<Edit<Byte>>, token: string)
    requires Fresh(d, token) && d.state == Some(s) && StateSound(dec, d.files, s) && Loads(s)
    requires Ordered(edits, 0, |s.Source()|)
    ensures GoodPlan(dec, d, AdvancePlanLocked(s, edits, token))
  {
    var text := Decode(Apply(s.Source(), edits));
    if edits != [] && text.Some? {
      EditedIsGood(dec, d, s, text.value, edits, token);
    }
  }

  lemma {:induction false} RecordWrites(d: Disk, s: State, p: Pending, admission: Admission)
    requires p.generation in s.generations && RecordPlan(d, s, p, admission).writes != []
    ensures var plan := RecordPlan(d, s, p, admission);
            && Orderly(d, plan.writes)
            && PerformAll(d, plan.writes)
               == Disk(Some(Recorded(s, p.generation, admission)),
                       d.files[TraceFile(TokenOf(p.generation)) := Data(p.trace)])
            && plan.writes[|plan.writes| - 1] == Save(Recorded(s, p.generation, admission))
  {
    var plan, file := RecordPlan(d, s, p, admission), TraceFile(TokenOf(p.generation));
    if file in d.files {
      assert d.files[file := Data(p.trace)] == d.files;
      assert PerformAll(d, plan.writes) == Perform(d, plan.writes[0]);
    } else {
      assert plan.writes[1..] == [plan.writes[1]];
      assert PerformAll(Perform(d, plan.writes[0]), [plan.writes[1]])
          == Perform(Perform(d, plan.writes[0]), plan.writes[1]);
    }
  }

  lemma {:induction false} RecordedFollows(s: State, generation: string, admission: Admission)
    requires generation in s.generations && s.generations[generation].status.Open()
    ensures Follows(s, Recorded(s, generation, admission))
  {
  }

  lemma {:induction false} RecordIsGood(dec: Decoder, d: Disk, s: State, p: Pending, admission: Admission)
    requires d.state == Some(s) && p.generation in s.generations && RecordPlan(d, s, p, admission).writes != []
    requires Recordable(dec, d.files, d.files[TraceFile(TokenOf(p.generation)) := Data(p.trace)], s, p, admission)
    ensures GoodPlan(dec, d, RecordPlan(d, s, p, admission))
  {
    RecordWrites(d, s, p, admission);
    RecordedIsSound(dec, d.files, d.files[TraceFile(TokenOf(p.generation)) := Data(p.trace)], s, p, admission);
    RecordedFollows(s, p.generation, admission);
  }

  ghost predicate PlanAdmits(plan: Plan) {
    plan.outcome.Completed? && plan.outcome.admission.Admitted?
  }

  /** A completion is recorded only from a loaded state, for an open generation, by an admission decision. */
  lemma {:induction false} FinishRecords(d: Disk, p: Pending)
    requires FinishPlan(d, p).writes != []
    ensures d.state.Some? && Loads(d.state.value) && p.generation in d.state.value.generations
    ensures d.state.value.generations[p.generation].status.Open()
    ensures FinishPlan(d, p).outcome.Completed?
    ensures var s, admission := d.state.value, FinishPlan(d, p).outcome.admission;
            && Admit(s.generations[s.current].request, s.Source(), p.candidate, p.events) == Success(admission)
            && FinishPlan(d, p) == RecordPlan(d, s, p, admission)
  {
  }

  lemma {:induction false} RecordGrows(d: Disk, s: State, p: Pending, admission: Admission)
    requires p.generation in s.generations && RecordPlan(d, s, p, admission).writes != []
    ensures Grows(d.files, d.files[TraceFile(TokenOf(p.generation)) := Data(p.trace)])
  {
  }

  lemma {:induction false} FinishIsRecordable(dec: Decoder, d: Disk, s: State, p: Pending, admission: Admission)
    requires StateSound(dec, d.files, s) && PendingSound(dec, d.files, s, p)
    requires s.generations[p.generation].status.Open() && RecordPlan(d, s, p, admission).writes != []
    requires Admit(s.generations[s.current].request, s.Source(), p.candidate, p.events) == Success(admission)
    ensures Recordable(dec, d.files, d.files[TraceFile(TokenOf(p.generation)) := Data(p.trace)], s, p, admission)
  {
    RecordGrows(d, s, p, admission);
  }

  lemma {:induction false} RecordPlanIsGood(dec: Decoder, d: Disk, s: State, p: Pending, admission: Admission)
    requires d.state == Some(s) && StateSound(dec, d.files, s) && PendingSound(dec, d.files, s, p)
    requires s.generations[p.generation].status.Open() && RecordPlan(d, s, p, admission).writes != []
    requires Admit(s.generations[s.current].request, s.Source(), p.candidate, p.events) == Success(admission)
    ensures GoodPlan(dec, d, RecordPlan(d, s, p, admission))
  {
    FinishIsRecordable(dec, d, s, p, admission);
    RecordIsGood(dec, d, s, p, admission);
  }

  lemma {:induction false} FinishRefuses(d: Disk, p: Pending)
    requires FinishPlan(d, p).writes == []
    ensures FinishPlan(d, p).outcome.Refused?
  {
  }

  lemma {:induction false} FinishIsGood(dec: Decoder, d: Disk, p: Pending)
    requires Sound(dec, d)
    requires d.state.Some? ==> PendingSound(dec, d.files, d.state.value, p)
    ensures GoodPlan(dec, d, FinishPlan(d, p))
  {
    if FinishPlan(d, p).writes != [] {
      FinishRecords(d, p);
      RecordPlanIsGood(dec, d, d.state.value, p, FinishPlan(d, p).outcome.admission);
    } else {
      FinishRefuses(d, p);
    }
  }

  lemma {:induction false} FailWrites(d: Disk, generation: string, error: string)
    requires FailPlan(d, generation, error).writes != []
    ensures d.state.Some? && generation in d.state.value.generations
    ensures d.state.value.generations[generation].status.Open()
    ensures var s := d.state.value;
            var failed := s.generations[generation].(status := HasFailed, failure := Some(error));
            var after := s.(generations := s.generations[generation := failed]);
            && FailPlan(d, generation, error) == Plan([Save(after)], MarkedFailed(error))
            && PerformAll(d, [Save(after)]).files == d.files && Follows(s, after)
  {
  }

  lemma {:induction false} FailIsGood(dec: Decoder, d: Disk, generation: string, error: string)
    requires Sound(dec, d)
    ensures GoodPlan(dec, d, FailPlan(d, generation, error))
  {
    var plan := FailPlan(d, generation, error);
    if plan.writes != [] {
      FailWrites(d, generation, error);
      FailedIsSound(dec, d.files, d.state.value, generation, error);
    }
  }

  /** A plan that refuses, or advances the loaded state by some transaction. */
  ghost predicate AdvancesBy(d: Disk, plan: Plan, edits: seq<Edit<Byte>>, token: string) {
    || (plan.outcome.Refused? && plan.writes == [])
    || (d.state.Some? && Loads(d.state.value) && Ordered(edits, 0, |d.state.value.Source()|)
        && plan == AdvancePlanLocked(d.state.value, edits, token))
  }

  lemma {:induction false} MaterializeAdvances(d: Disk, dec: Decoder, token: string) returns (edits: seq<Edit<Byte>>)
    ensures AdvancesBy(d, MaterializePlan(d, dec, token), edits, token)
  {
    edits := [];
    if MaterializePlan(d, dec, token).writes != [] {
      var s := d.state.value;
      var trace := RetainedTrace(d.files, s.generations[s.current]).value;
      var values := ToValues(Witnesses(Events(dec, trace).value)[0].replacements);
      AcceptableIsOrdered(values, 0, |s.Source()|);
      edits := Converted(values);
    }
  }

  lemma {:induction false} AdvancingIsGood(dec: Decoder, d: Disk, plan: Plan, edits: seq<Edit<Byte>>, token: string)
    requires Fresh(d, token) && Sound(dec, d) && AdvancesBy(d, plan, edits, token)
    ensures GoodPlan(dec, d, plan)
  {
    if plan.writes != [] {
      AdvanceIsGood(dec, d, d.state.value, edits, token);
    }
  }

  lemma {:induction false} MaterializeIsGood(dec: Decoder, d: Disk, token: string)
    requires Fresh(d, token) && Sound(dec, d)
    ensures GoodPlan(dec, d, MaterializePlan(d, dec, token))
  {
    var edits := MaterializeAdvances(d, dec, token);
    AdvancingIsGood(dec, d, MaterializePlan(d, dec, token), edits, token);
  }

  lemma {:induction false} InitializeIsGood(dec: Decoder, d: Disk, source: Bytes, displayName: string,
                                            document: Option<string>, hex: string, token: string)
    requires Fresh(d, token)
    ensures GoodPlan(dec, d, InitializePlan(d, source, displayName, document, hex, token))
  {
    if d.state.None? && Decode(source).Some? {
      var s := InitialState(Decode(source).value, displayName, DocumentId(document, hex));
      InitialIsIssuable(dec, d.files, Decode(source).value, displayName, DocumentId(document, hex));
      LaunchIsGood(dec, d, s, token, []);
    }
  }

  lemma {:induction false} AdvanceTransactionIsGood(dec: Decoder, d: Disk, values: seq<EditValue>, token: string)
    requires Fresh(d, token) && Sound(dec, d)
    ensures GoodPlan(dec, d, AdvancePlan(d, values, token))
  {
    if Load(d).Some? && Acceptable(values, |d.state.value.Source()|) {
      AcceptableIsOrdered(values, 0, |d.state.value.Source()|);
      AdvanceIsGood(dec, d, d.state.value, Converted(values), token);
    }
  }

  // ----- the invariant of runs -----

  ghost predicate PendingsSound(dec: Decoder, d: Disk, pending: set<Pending>) {
    forall p | p in pending :: d.state.Some? && PendingSound(dec, d.files, d.state.value, p)
  }

  /** The generations recorded as completed or failed. */
  ghost function ClosedSet(state: Option<State>): set<string> {
    if state.None? then {}
    else set g | g in state.value.generations && !state.value.generations[g].status.Open()
  }

  lemma {:induction false} PlanIsGood(dec: Decoder, sys: System, a: Action)
    requires Sound(dec, sys.disk) && PendingsSound(dec, sys.disk, sys.pending) && Enabled(sys, a)
    ensures GoodPlan(dec, sys.disk, PlanOf(dec, sys.disk, a))
  {
    match a
    case Initialize(source, displayName, document, hex, token, _) =>
      InitializeIsGood(dec, sys.disk, source, displayName, document, hex, token);
    case Advance(values, token, _) => AdvanceTransactionIsGood(dec, sys.disk, values, token);
    case Materialize(token, _) => MaterializeIsGood(dec, sys.disk, token);
    case BeginComplete(_, _) =>
    case FinishComplete(p, _) => FinishIsGood(dec, sys.disk, p);
    case Fail(generation, error, _) => FailIsGood(dec, sys.disk, generation, error);
  }

  lemma {:induction false} PlanIsOrderly(dec: Decoder, sys: System, a: Action)
    requires Sound(dec, sys.disk) && PendingsSound(dec, sys.disk, sys.pending) && Enabled(sys, a)
    ensures Orderly(sys.disk, PlanOf(dec, sys.disk, a).writes)
  {
    PlanIsGood(dec, sys, a);
  }

  lemma {:induction false} CutSound(dec: Decoder, d: Disk, plan: Plan, cut: Cut)
    requires Sound(dec, d) && GoodPlan(dec, d, plan)
    ensures Sound(dec, Interrupted(d, plan.writes, cut))
  {
    CrashSafe(d, plan.writes, cut);
    var after := Interrupted(d, plan.writes, cut);
    if !Saves(plan.writes, cut) && after.state.Some? {
      GrowthKeepsSound(dec, d.files, after.files, after.state.value);
    }
  }

  lemma {:induction false} CutFollows(d: Disk, plan: Plan, cut: Cut)
    requires Orderly(d, plan.writes)
    requires plan.writes != [] && d.state.Some? ==> Follows(d.state.value, plan.writes[|plan.writes| - 1].state)
    ensures var after := Interrupted(d, plan.writes, cut);
            && Grows(d.files, after.files)
            && (d.state.Some? ==> after.state.Some? && Follows(d.state.value, after.state.value))
  {
    CrashSafe(d, plan.writes, cut);
  }

  lemma {:induction false} CarryDisk(dec: Decoder, sys: System, a: Action, plan: Plan)
    requires Sound(dec, sys.disk) && GoodPlan(dec, sys.disk, plan)
    ensures var next := Carry(dec, sys, a, plan);
            && Sound(dec, next.disk) && Grows(sys.disk.files, next.disk.files)
            && (sys.disk.state.Some? ==> next.disk.state.Some? && Follows(sys.disk.state.value, next.disk.state.value))
  {
    CutSound(dec, sys.disk, plan, CutOf(a));
    CutFollows(sys.disk, plan, CutOf(a));
  }

  /** One step: the disk stays sound, its artifacts stay, its state is kept or followed. */
  lemma {:induction false} StepDisk(dec: Decoder, sys: System, a: Action)
    requires Sound(dec, sys.disk) && PendingsSound(dec, sys.disk, sys.pending)
    ensures var next := Next(dec, sys, a);
            && Sound(dec, next.disk) && Grows(sys.disk.files, next.disk.files)
            && (sys.disk.state.Some? ==> next.disk.state.Some? && Follows(sys.disk.state.value, next.disk.state.value))
  {
    if Enabled(sys, a) {
      PlanIsGood(dec, sys, a);
      CarryDisk(dec, sys, a, PlanOf(dec, sys.disk, a));
    }
  }

  lemma {:induction false} CarrySaves(dec: Decoder, sys: System, a: Action, plan: Plan)
    requires Orderly(sys.disk, plan.writes) && plan.writes != [] && CutOf(a) == Whole
    ensures Carry(dec, sys, a, plan).disk == PerformAll(sys.disk, plan.writes)
    ensures Carry(dec, sys, a, plan).disk.state == Some(plan.writes[|plan.writes| - 1].state)
  {
    CrashSafe(sys.disk, plan.writes, Whole);
  }

  lemma {:induction false} PendingKept(dec: Decoder, d: Disk, e: Disk, p: Pending)
    requires d.state.Some? && PendingSound(dec, d.files, d.state.value, p)
    requires Grows(d.files, e.files) && e.state.Some? && Follows(d.state.value, e.state.value)
    ensures PendingSound(dec, e.files, e.state.value, p)
  {
  }

  lemma {:induction false} BeginIsSound(dec: Decoder, d: Disk, generation: string, trace: Bytes)
    requires Sound(dec, d) && Begin(d, dec, generation, trace).Success?
    ensures d.state.Some? && PendingSound(dec, d.files, d.state.value, Begin(d, dec, generation, trace).value)
  {
  }

  lemma {:induction false} NewPending(dec: Decoder, sys: System, a: Action, p: Pending)
    requires p in Next(dec, sys, a).pending && p !in sys.pending
    ensures a.BeginComplete? && Begin(sys.disk, dec, a.generation, a.trace) == Success(p)
    ensures Next(dec, sys, a).disk == sys.disk
  {
  }

  lemma {:induction false} StepPending(dec: Decoder, sys: System, a: Action)
    requires Sound(dec, sys.disk) && PendingsSound(dec, sys.disk, sys.pending)
    ensures var next := Next(dec, sys, a);
            PendingsSound(dec, next.disk, next.pending)
  {
    StepDisk(dec, sys, a);
    var next := Next(dec, sys, a);
    forall p | p in next.pending
      ensures next.disk.state.Some? && PendingSound(dec, next.disk.files, next.disk.state.value, p)
    {
      if p in sys.pending {
        PendingKept(dec, sys.disk, next.disk, p);
      } else {
        NewPending(dec, sys, a, p);
        BeginIsSound(dec, sys.disk, a.generation, a.trace);
      }
    }
  }

  // ----- at most one record per generation -----

  lemma {:induction false} LaunchCloses(s: State, token: string)
    requires 0 <= s.snapshot.revision && GenerationName(s.snapshot.revision, token) !in s.generations
    ensures ClosedSet(Some(Issued(s, token))) == ClosedSet(Some(s))
  {
  }

  lemma {:induction false} EditCloses(s: State, text: Text, edits: seq<Edit<Byte>>)
    requires s.current in s.generations
    ensures ClosedSet(Some(Edited(s, text, edits))) == ClosedSet(Some(s))
  {
  }

  lemma {:induction false} RecordCloses(s: State, generation: string, record: GenerationRecord)
    requires generation in s.generations && s.generations[generation].status.Open() && !record.status.Open()
    ensures generation !in ClosedSet(Some(s))
    ensures ClosedSet(Some(s.(generations := s.generations[generation := record])))
         == ClosedSet(Some(s)) + {generation}
  {
  }

  /** The state an advancing plan saves. */
  lemma {:induction false} AdvancedState(d: Disk, plan: Plan, edits: seq<Edit<Byte>>, token: string)
    requires AdvancesBy(d, plan, edits, token) && plan.writes != []
    ensures d.state.Some? && Loads(d.state.value) && Ordered(edits, 0, |d.state.value.Source()|)
    ensures Decode(Apply(d.state.value.Source(), edits)).Some? && edits != []
    ensures plan.outcome.Launched? && plan.outcome.edits == edits
    ensures var s := d.state.value;
            var text := Decode(Apply(s.Source(), edits)).value;
            && Encode(text) == Apply(s.Source(), edits)
            && plan.writes[|plan.writes| - 1] == Save(Issued(Edited(s, text, edits), token))
  {
    EncodeOfDecode(Apply(d.state.value.Source(), edits));
  }

  lemma {:induction false} AdvanceAdvances(d: Disk, values: seq<EditValue>, token: string)
    ensures AdvancesBy(d, AdvancePlan(d, values, token), Converted(values), token)
  {
    if Load(d).Some? && Acceptable(values, |d.state.value.Source()|) {
      AcceptableIsOrdered(values, 0, |d.state.value.Source()|);
    }
  }

  lemma {:induction false} AdvancingCloses(dec: Decoder, d: Disk, plan: Plan, edits: seq<Edit<Byte>>, token: string)
    requires Fresh(d, token) && Sound(dec, d) && AdvancesBy(d, plan, edits, token) && plan.writes != []
    ensures plan.writes[|plan.writes| - 1].Save?
    ensures ClosedSet(Some(plan.writes[|plan.writes| - 1].state)) == ClosedSet(d.state)
  {
    AdvancedState(d, plan, edits, token);
    var s := d.state.value;
    var text := Decode(Apply(s.Source(), edits)).value;
    EditedIsIssuable(dec, d.files, s, text, edits);
    NameIsNew(dec, d, Edited(s, text, edits), s.snapshot.revision + 1, token);
    LaunchCloses(Edited(s, text, edits), token);
    EditCloses(s, text, edits);
  }

  lemma {:induction false} InitializeCloses(d: Disk, source: Bytes, displayName: string, document: Option<string>,
                                            hex: string, token: string)
    requires InitializePlan(d, source, displayName, document, hex, token).writes != []
    ensures var writes := InitializePlan(d, source, displayName, document, hex, token).writes;
            && writes[|writes| - 1].Save?
            && ClosedSet(Some(writes[|writes| - 1].state)) == {} == ClosedSet(d.state)
  {
    LaunchCloses(InitialState(Decode(source).value, displayName, DocumentId(document, hex)), token);
  }

  lemma {:induction false} FinishCloses(d: Disk, p: Pending)
    requires FinishPlan(d, p).writes != []
    ensures var writes := FinishPlan(d, p).writes;
            && writes[|writes| - 1].Save? && p.generation !in ClosedSet(d.state)
            && ClosedSet(Some(writes[|writes| - 1].state)) == ClosedSet(d.state) + {p.generation}
  {
    FinishRecords(d, p);
    var s, admission := d.state.value, FinishPlan(d, p).outcome.admission;
    RecordWrites(d, s, p, admission);
    RecordCloses(s, p.generation, Recorded(s, p.generation, admission).generations[p.generation]);
  }

  lemma {:induction false} FailCloses(d: Disk, generation: string, error: string)
    requires FailPlan(d, generation, error).writes != []
    ensures var writes := FailPlan(d, generation, error).writes;
            && writes[|writes| - 1].Save? && generation !in ClosedSet(d.state)
            && ClosedSet(Some(writes[|writes| - 1].state)) == ClosedSet(d.state) + {generation}
  {
    var after := FailPlan(d, generation, error).writes[0].state;
    RecordCloses(d.state.value, generation, after.generations[generation]);
  }

  lemma {:induction false} MultisetOfUnion(closed: set<string>, g: string)
    requires g !in closed
    ensures multiset(closed + {g}) == multiset(closed) + multiset{g}
  {
  }

  ghost predicate Settles(d: Disk, plan: Plan, generations: multiset<string>) {
    plan.writes != [] ==>
      && plan.writes[|plan.writes| - 1].Save?
      && multiset(ClosedSet(Some(plan.writes[|plan.writes| - 1].state))) == multiset(ClosedSet(d.state)) + generations
  }

  lemma {:induction false} AdvancingSettles(dec: Decoder, d: Disk, plan: Plan, edits: seq<Edit<Byte>>, token: string)
    requires Fresh(d, token) && Sound(dec, d) && AdvancesBy(d, plan, edits, token)
    ensures Settles(d, plan, multiset{})
  {
    if plan.writes != [] {
      AdvancingCloses(dec, d, plan, edits, token);
    }
  }

  lemma {:induction false} FinishSettles(d: Disk, p: Pending)
    ensures Settles(d, FinishPlan(d, p), multiset{p.generation})
  {
    if FinishPlan(d, p).writes != [] {
      FinishCloses(d, p);
      MultisetOfUnion(ClosedSet(d.state), p.generation);
    }
  }

  lemma {:induction false} FailSettles(d: Disk, generation: string, error: string)
    ensures Settles(d, FailPlan(d, generation, error), multiset{generation})
  {
    if FailPlan(d, generation, error).writes != [] {
      FailCloses(d, generation, error);
      MultisetOfUnion(ClosedSet(d.state), generation);
    }
  }

  lemma {:induction false} InitializeSettles(d: Disk, source: Bytes, displayName: string, document: Option<string>,
                                             hex: string, token: string)
    ensures Settles(d, InitializePlan(d, source, displayName, document, hex, token), multiset{})
  {
    if InitializePlan(d, source, displayName, document, hex, token).writes != [] {
      InitializeCloses(d, source, displayName, document, hex, token);
    }
  }

  /** A saved plan closes exactly the generation its action settles. */
  lemma {:induction false} PlanSettles(dec: Decoder, sys: System, a: Action)
    requires Sound(dec, sys.disk) && Enabled(sys, a)
    ensures Settles(sys.disk, PlanOf(dec, sys.disk, a), SettledBy(a))
  {
    match a
    case Initialize(source, displayName, document, hex, token, _) =>
      InitializeSettles(sys.disk, source, displayName, document, hex, token);
    case Advance(values, token, _) =>
      AdvanceAdvances(sys.disk, values, token);
      AdvancingSettles(dec, sys.disk, PlanOf(dec, sys.disk, a), Converted(values), token);
    case Materialize(token, _) =>
      var edits := MaterializeAdvances(sys.disk, dec, token);
      AdvancingSettles(dec, sys.disk, PlanOf(dec, sys.disk, a), edits, token);
    case BeginComplete(_, _) =>
    case FinishComplete(p, _) => FinishSettles(sys.disk, p);
    case Fail(generation, error, _) => FailSettles(sys.disk, generation, error);
  }

  lemma {:induction false} CarrySettles(dec: Decoder, sys: System, a: Action, plan: Plan)
    requires Orderly(sys.disk, plan.writes) && sys.settled == multiset(ClosedSet(sys.disk.state))
    requires Settles(sys.disk, plan, SettledBy(a))
    ensures var next := Carry(dec, sys, a, plan);
            next.settled == multiset(ClosedSet(next.disk.state))
  {
    CrashSafe(sys.disk, plan.writes, CutOf(a));
  }

  lemma {:induction false} StepSettled(dec: Decoder, sys: System, a: Action)
    requires Sound(dec, sys.disk) && PendingsSound(dec, sys.disk, sys.pending)
    requires sys.settled == multiset(ClosedSet(sys.disk.state))
    ensures var next := Next(dec, sys, a);
            next.settled == multiset(ClosedSet(next.disk.state))
  {
    if Enabled(sys, a) {
      PlanIsOrderly(dec, sys, a);
      PlanSettles(dec, sys, a);
      CarrySettles(dec, sys, a, PlanOf(dec, sys.disk, a));
    }
  }
}
