/**
 The host as it runs: one object over the state file and the retained artifacts, whose methods
 are the lock sections of fine/rainfall_host.py.  Each does exactly the writes of its plan, in
 order (the journal), and answers what the plan answers.
 */
module RainHost {
  import opened Wrappers
  import opened Utf8
  import opened Snapshots
  import opened Traces
  import opened Validator
  import opened Edits
  import opened Transport
  import opened Projection
  import opened Generation
  import opened Host
  import opened Runs

  class Directory {
    var state: Option<State>
    var files: map<File, Content>
    const decoder: Decoder
    /** Every write there has been, in order. */
    ghost var journal: seq<Write>

    ghost function OnDisk(): Disk
      reads this
    {
      Disk(state, files)
    }

    constructor (decoder: Decoder)
      ensures OnDisk() == START.disk && journal == [] && this.decoder == decoder
    {
      this.decoder := decoder;
      journal := [];
      state, files := None, map[];
    }

    /** `_write_immutable`: exclusive creation. */
    method CreateArtifact(f: File, c: Content)
      requires f !in files
      modifies this`files, this`journal
      ensures OnDisk() == Perform(old(OnDisk()), Create(f, c)) && journal == old(journal) + [Create(f, c)]
    {
      journal := journal + [Create(f, c)];
      files := files[f := c];
    }

    /** `save_state`: atomic replacement. */
    method SaveState(s: State)
      modifies this`state, this`journal
      ensures OnDisk() == Perform(old(OnDisk()), Save(s)) && journal == old(journal) + [Save(s)]
    {
      journal := journal + [Save(s)];
      state := Some(s);
    }

    /** `_issue_generation` and the save that follows it in every caller. */
    method Launch(s: State, token: string, ghost edits: seq<Edit<Byte>>) returns (generation: string)
      requires Fresh(OnDisk(), token) && 0 <= s.snapshot.revision
      modifies this
      ensures generation == GenerationName(s.snapshot.revision, token)
      ensures journal == old(journal) + LaunchPlan(s, token, edits).writes
      ensures OnDisk() == PerformAll(old(OnDisk()), LaunchPlan(s, token, edits).writes)
    {
      LaunchWrites(OnDisk(), s, token, edits);
      var revision := s.snapshot.revision;
      generation := GenerationName(revision, token);
      var request := IssuedRequest(s, token);
      CreateArtifact(SourceFile(revision, token), Data(s.Source()));
      CreateArtifact(RequestFile(revision, token), Json(request));
      var record := GenerationRecord(Requested, request, SourceFile(revision, token),
                                     RequestFile(revision, token), None, None, None);
      SaveState(s.(generations := s.generations[generation := record], current := generation));
    }

    method Initialize(source: Bytes, displayName: string, document: Option<string>, hex: string, token: string)
        returns (o: Outcome)
      requires Fresh(OnDisk(), token)
      modifies this
      ensures var plan := InitializePlan(old(OnDisk()), source, displayName, document, hex, token);
              && o == plan.outcome && journal == old(journal) + plan.writes
              && OnDisk() == PerformAll(old(OnDisk()), plan.writes)
    {
      var text := Decode(source);
      if text.None? {
        return Refused(NotUtf8);
      }
      if state.Some? {
        return Refused(AlreadyInitialized);
      }
      var initial := InitialState(text.value, displayName, DocumentId(document, hex));
      var generation := Launch(initial, token, []);
      return Launched(generation, []);
    }

    /** `_transport_annotations`. */
    static method TransportAnnotations(annotations: seq<Annotation>, displayed: Bytes, edits: seq<Edit<Byte>>)
        returns (r: seq<Annotation>)
      ensures r == MovedAll(annotations, displayed, edits)
    {
      r := [];
      for i := 0 to |annotations|
        invariant r == MovedAll(annotations, displayed, edits)[..i]
      {
        var a := annotations[i];
        if a.displaySpan.None? {
          a := a.(status := Unplaced);
        } else {
          var span := a.displaySpan.value;
          var mapped := MapRange(span.begin.offset, span.end.offset, edits);
          a := a.(status := if mapped.Some? then Transported else Unplaced,
                  displaySpan := SpanOf(displayed, mapped));
        }
        r := r + [a];
      }
    }

    /** `_advance_locked`. */
    method AdvanceLocked(s: State, edits: seq<Edit<Byte>>, token: string) returns (o: Outcome)
      requires Fresh(OnDisk(), token) && Loads(s) && Ordered(edits, 0, |s.Source()|)
      modifies this
      ensures var plan := AdvancePlanLocked(s, edits, token);
              && o == plan.outcome && journal == old(journal) + plan.writes
              && OnDisk() == PerformAll(old(OnDisk()), plan.writes)
    {
      if edits == [] {
        return Refused(EmptyTransaction);
      }
      var displayed := ApplyEdits(s.Source(), edits);
      var text := Decode(displayed);
      if text.None? {
        return Refused(NotUtf8);
      }
      EncodeOfDecode(displayed);
      var annotations := TransportAnnotations(s.annotations, displayed, edits);
      var previous := s.generations[s.current];
      if previous.status.Requested? {
        previous := previous.(status := Superseded);
      }
      var edited := s.(generations := s.generations[s.current := previous],
                       snapshot := Identify(displayed, s.document.id, s.snapshot.revision + 1),
                       text := text.value, annotations := annotations);
      assert edited == Edited(s, text.value, edits);
      var generation := Launch(edited, token, edits);
      return Launched(generation, edits);
    }

    method Advance(values: seq<EditValue>, token: string) returns (o: Outcome)
      requires Fresh(OnDisk(), token)
      modifies this
      ensures var plan := AdvancePlan(old(OnDisk()), values, token);
              && o == plan.outcome && journal == old(journal) + plan.writes
              && OnDisk() == PerformAll(old(OnDisk()), plan.writes)
    {
      if state.None? || !Loads(state.value) {
        return Refused(NoState);
      }
      var s := state.value;
      var edits := LoadEdits(values, |s.Source()|);
      if edits.Failure? {
        return Refused(BadEdits);
      }
      o := AdvanceLocked(s, edits.value, token);
    }

    method Materialize(token: string) returns (o: Outcome)
      requires Fresh(OnDisk(), token)
      modifies this
      ensures var plan := MaterializePlan(old(OnDisk()), decoder, token);
              && o == plan.outcome && journal == old(journal) + plan.writes
              && OnDisk() == PerformAll(old(OnDisk()), plan.writes)
    {
      if state.None? || !Loads(state.value) {
        return Refused(NoState);
      }
      var s := state.value;
      var record := s.generations[s.current];
      if !record.status.WasAdmitted? {
        return Refused(NotAdmitted);
      }
      var trace := RetainedTrace(files, record);
      if trace.None? {
        return Refused(NoTrace);
      }
      var events := Events(decoder, trace.value);
      if events.None? {
        return Refused(InvalidTrace);
      }
      o := MaterializeTrace(s, events.value, token);
    }

    method MaterializeTrace(s: State, events: seq<Event>, token: string) returns (o: Outcome)
      requires Fresh(OnDisk(), token) && Loads(s) && events != []
      modifies this
      ensures var plan := MaterializeEvents(s, events, token);
              && o == plan.outcome && journal == old(journal) + plan.writes
              && OnDisk() == PerformAll(old(OnDisk()), plan.writes)
    {
      var verdict := Validate(s.Source(), events);
      if !verdict.Accepted? {
        return Refused(InvalidTrace);
      }
      var solutions := Witnesses(events);
      if |solutions| != 1 {
        return Refused(NoUniqueWitness);
      }
      var replacements := solutions[0].replacements;
      if replacements == [] {
        return Refused(NothingOpen);
      }
      if exists r | r in replacements :: !StartsHole(s.Source(), r) {
        return Refused(HoleTextGone);
      }
      var edits := LoadEdits(ToValues(replacements), |s.Source()|);
      if edits.Failure? {
        return Refused(BadEdits);
      }
      o := AdvanceLocked(s, edits.value, token);
    }

    /** The first half of `complete`; the lock is not held while the trace is validated. */
    method BeginComplete(generation: string, trace: Bytes) returns (r: Result<Pending, Refusal>)
      ensures r == Begin(OnDisk(), decoder, generation, trace)
    {
      if state.None? || !Loads(state.value) {
        return Failure(NoState);
      }
      var s := state.value;
      if generation !in s.generations {
        return Failure(UnknownGeneration);
      }
      var record := s.generations[generation];
      if !record.status.Open() {
        return Failure(AlreadySettled);
      }
      if record.sourceFile !in files || !files[record.sourceFile].Data? {
        return Failure(NoTrace);
      }
      var candidate := files[record.sourceFile].bytes;
      var events := Events(decoder, trace);
      if events.None? {
        return Failure(InvalidTrace);
      }
      var verdict := Validate(candidate, events.value);
      if !verdict.Accepted? {
        return Failure(InvalidTrace);
      }
      return Success(Pending(generation, candidate, trace, events.value));
    }

    /** The second half of `complete`. */
    method FinishComplete(p: Pending) returns (o: Outcome)
      requires p.events != []
      modifies this
      ensures var plan := FinishPlan(old(OnDisk()), p);
              && o == plan.outcome && journal == old(journal) + plan.writes
              && OnDisk() == PerformAll(old(OnDisk()), plan.writes)
    {
      if state.None? || !Loads(state.value) {
        return Refused(NoState);
      }
      var s := state.value;
      if p.generation !in s.generations {
        return Refused(UnknownGeneration);
      }
      if !s.generations[p.generation].status.Open() {
        return Refused(AlreadySettled);
      }
      var admission := Decide(s.generations[s.current].request, s.Source(), p.candidate, p.events);
      if admission.Failure? {
        return Refused(NotAdmissible(admission.error));
      }
      o := RecordCompletion(s, p, admission.value);
    }

    /** `_record_completion` and the final save. */
    method RecordCompletion(s: State, p: Pending, admission: Admission) returns (o: Outcome)
      requires p.generation in s.generations
      modifies this
      ensures var plan := RecordPlan(old(OnDisk()), s, p, admission);
              && o == plan.outcome && journal == old(journal) + plan.writes
              && OnDisk() == PerformAll(old(OnDisk()), plan.writes)
    {
      ghost var before := OnDisk();
      var file := TraceFile(TokenOf(p.generation));
      if file in files && files[file] != Data(p.trace) {
        return Refused(TraceDisagrees);
      }
      RecordWrites(before, s, p, admission);
      if file !in files {
        CreateArtifact(file, Data(p.trace));
      }
      SaveState(Recorded(s, p.generation, admission));
      assert files == before.files[file := Data(p.trace)];
      return Completed(admission);
    }

    method MarkFailed(generation: string, error: string) returns (o: Outcome)
      modifies this
      ensures var plan := FailPlan(old(OnDisk()), generation, error);
              && o == plan.outcome && journal == old(journal) + plan.writes
              && OnDisk() == PerformAll(old(OnDisk()), plan.writes)
    {
      if state.None? || !Loads(state.value) {
        return Refused(NoState);
      }
      var s := state.value;
      if generation !in s.generations {
        return Refused(UnknownGeneration);
      }
      var record := s.generations[generation];
      if !record.status.Open() {
        return Refused(AlreadySettled);
      }
      record := record.(status := HasFailed, failure := Some(error));
      SaveState(s.(generations := s.generations[generation := record]));
      assert PerformAll(old(OnDisk()), FailPlan(old(OnDisk()), generation, error).writes)
          == Perform(old(OnDisk()), FailPlan(old(OnDisk()), generation, error).writes[0]);
      return MarkedFailed(error);
    }
  }
}
