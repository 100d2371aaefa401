/**
 The durable state of the editor host and its lock sections (fine/rainfall_host.py).

 A lock section is given as a plan: what it answers, and the writes it makes in order.  Creating
 a retained artifact is a write-once write that a crash can cut short; replacing the state file
 is atomic.
 */
module Host {
  import opened Wrappers
  import opened Utf8
  import opened Snapshots
  import opened Traces
  import opened Replay
  import opened Edits
  import opened Transport
  import opened Projection
  import opened Generation

  // ----- the disk -----

  /** Retained artifacts: sources/<revision>-<token>.fine, requests/..., traces/<token>.jsonl. */
  datatype File =
    | SourceFile(revision: int, token: string)
    | RequestFile(revision: int, token: string)
    | TraceFile(token: string)

  datatype Content = Data(bytes: Bytes) | Json(request: Request) | Partial(request: Request)

  datatype Status = Requested | Superseded | WasAdmitted | WasDiscarded | HasFailed {
    predicate Open() {
      Requested? || Superseded?
    }
  }

  datatype GenerationRecord =
    GenerationRecord(status: Status, request: Request, sourceFile: File, requestFile: File,
                     traceFile: Option<File>, admission: Option<Admission>, failure: Option<string>)

  datatype State =
    State(document: Document, snapshot: SourceIdentity, text: Text, current: string,
          generations: map<string, GenerationRecord>, annotations: seq<Annotation>)
  {
    function Source(): Bytes {
      Encode(text)
    }
  }

  datatype Disk = Disk(state: Option<State>, files: map<File, Content>)

  datatype Write = Create(file: File, content: Content) | Save(state: State)

  function Perform(d: Disk, w: Write): Disk {
    match w
    case Create(f, c) => d.(files := d.files[f := c])
    case Save(s) => d.(state := Some(s))
  }

  function PerformAll(d: Disk, writes: seq<Write>): Disk
    decreases |writes|
  {
    if writes == [] then d else PerformAll(Perform(d, writes[0]), writes[1..])
  }

  // ----- loading -----

  predicate AnnotationLoads(a: Annotation, n: nat) {
    if a.status.Unplaced? then a.displaySpan.None?
    else a.displaySpan.Some?
         && 0 <= a.displaySpan.value.begin.offset < a.displaySpan.value.end.offset <= n
  }

  /** What `load_state` demands of the stored state. */
  predicate Loads(s: State) {
    && 0 <= s.snapshot.revision
    && s.snapshot == Identify(s.Source(), s.document.id, s.snapshot.revision)
    && s.current in s.generations
    && (forall g | g in s.generations ::
          RequestLoads(s.generations[g].request) && s.generations[g].request.generation == g)
    && s.generations[s.current].request.snapshot == s.snapshot
    && (forall a | a in s.annotations :: AnnotationLoads(a, |s.Source()|))
  }

  function Load(d: Disk): (r: Option<State>)
    ensures r.Some? <==> d.state.Some? && Loads(d.state.value)
    ensures r.Some? ==> r == d.state
  {
    if d.state.Some? && Loads(d.state.value) then d.state else None
  }

  // ----- naming -----

  predicate HexToken(token: string) {
    token != "" && ':' !in token
  }

  /** No retained artifact bears the token. */
  predicate Fresh(d: Disk, token: string) {
    HexToken(token) && forall f | f in d.files :: f.token != token
  }

  function GenerationName(revision: nat, token: string): string {
    "generation:" + Decimal(revision) + ":" + token
  }

  /** `rsplit(":", 1)[-1]`. */
  function TokenOf(name: string): string {
    if name == "" then ""
    else if name[|name| - 1] == ':' then ""
    else TokenOf(name[..|name| - 1]) + [name[|name| - 1]]
  }

  lemma {:induction false} TokenOfConcat(prefix: string, token: string)
    requires ':' !in token
    ensures TokenOf(prefix + [':'] + token) == token
  {
    var name := prefix + [':'] + token;
    if token != "" {
      var shorter := token[..|token| - 1];
      assert name[..|name| - 1] == prefix + [':'] + shorter;
      TokenOfConcat(prefix, shorter);
    }
  }

  /** The token of an issued generation can be read back from its name. */
  lemma {:induction false} TokenOfName(revision: nat, token: string)
    requires HexToken(token)
    ensures TokenOf(GenerationName(revision, token)) == token
  {
    TokenOfConcat("generation:" + Decimal(revision), token);
    assert GenerationName(revision, token) == "generation:" + Decimal(revision) + [':'] + token;
  }

  // ----- plans -----

  datatype Refusal =
    | NoState | NotUtf8 | AlreadyInitialized | BadEdits | EmptyTransaction | UnknownGeneration
    | AlreadySettled | NotAdmitted | NoTrace | InvalidTrace | NoUniqueWitness | NothingOpen
    | HoleTextGone | NotAdmissible(error: AdmitError) | TraceDisagrees

  datatype Outcome =
    | Refused(why: Refusal)
    | Launched(generation: string, edits: seq<Edit<Byte>>)
    | Completed(admission: Admission)
    | MarkedFailed(error: string)

  datatype Plan = Plan(writes: seq<Write>, outcome: Outcome)

  function Refuse(why: Refusal): Plan {
    Plan([], Refused(why))
  }

  function IssuedRequest(s: State, token: string): Request
    requires 0 <= s.snapshot.revision
  {
    var name := GenerationName(s.snapshot.revision, token);
    Request(name, Identify(s.Source(), s.document.id, s.snapshot.revision),
            RainArguments(s.document.id, s.snapshot.revision, name))
  }

  /** `_issue_generation`: the state with a new current generation for its display. */
  function Issued(s: State, token: string): State
    requires 0 <= s.snapshot.revision
  {
    var request, revision := IssuedRequest(s, token), s.snapshot.revision;
    var record := GenerationRecord(Requested, request, SourceFile(revision, token),
                                   RequestFile(revision, token), None, None, None);
    s.(generations := s.generations[request.generation := record], current := request.generation)
  }

  function LaunchPlan(s: State, token: string, edits: seq<Edit<Byte>>): Plan
    requires 0 <= s.snapshot.revision
  {
    var request, revision := IssuedRequest(s, token), s.snapshot.revision;
    Plan([Create(SourceFile(revision, token), Data(s.Source())),
          Create(RequestFile(revision, token), Json(request)),
          Save(Issued(s, token))],
         Launched(request.generation, edits))
  }

  function InitialState(text: Text, displayName: string, documentId: string): State {
    State(Document(documentId, displayName), Identify(Encode(text), documentId, 0), text, "", map[], [])
  }

  /** The given identifier, or a generated one when it is missing or empty. */
  function DocumentId(document: Option<string>, hex: string): string {
    if document.Some? && document.value != "" then document.value else "document:" + hex
  }

  function InitializePlan(d: Disk, source: Bytes, displayName: string, document: Option<string>, hex: string,
                          token: string): Plan
  {
    match Decode(source)
    case None => Refuse(NotUtf8)
    case Some(text) =>
      if d.state.Some? then Refuse(AlreadyInitialized)
      else LaunchPlan(InitialState(text, displayName, DocumentId(document, hex)), token, [])
  }

  /** One annotation through one transaction. */
  function Moved(a: Annotation, displayed: Bytes, edits: seq<Edit<Byte>>): Annotation {
    match a.displaySpan
    case None => a.(status := Unplaced)
    case Some(span) =>
      var mapped := TransportRange(Range(span.begin.offset, span.end.offset), edits);
      a.(status := if mapped.Some? then Transported else Unplaced, displaySpan := SpanOf(displayed, mapped))
  }

  function MovedAll(annotations: seq<Annotation>, displayed: Bytes, edits: seq<Edit<Byte>>)
    : (r: seq<Annotation>)
  {
    seq(|annotations|, i requires 0 <= i < |annotations| => Moved(annotations[i], displayed, edits))
  }

  function Supersede(r: GenerationRecord): GenerationRecord {
    if r.status.Requested? then r.(status := Superseded) else r
  }

  /** The state after a transaction, before the next generation is issued. */
  function Edited(s: State, text: Text, edits: seq<Edit<Byte>>): State
    requires s.current in s.generations
  {
    s.(generations := s.generations[s.current := Supersede(s.generations[s.current])],
       snapshot := Identify(Encode(text), s.document.id, s.snapshot.revision + 1),
       text := text,
       annotations := MovedAll(s.annotations, Encode(text), edits))
  }

  /** `_advance_locked`. */
  function AdvancePlanLocked(s: State, edits: seq<Edit<Byte>>, token: string): Plan
    requires s.current in s.generations && 0 <= s.snapshot.revision
    requires Ordered(edits, 0, |s.Source()|)
  {
    if edits == [] then Refuse(EmptyTransaction)
    else match Decode(Apply(s.Source(), edits))
      case None => Refuse(NotUtf8)
      case Some(text) => LaunchPlan(Edited(s, text, edits), token, edits)
  }

  ghost function AdvancePlan(d: Disk, values: seq<EditValue>, token: string): Plan {
    match Load(d)
    case None => Refuse(NoState)
    case Some(s) =>
      if !Acceptable(values, |s.Source()|) then Refuse(BadEdits)
      else
        AcceptableIsOrdered(values, 0, |s.Source()|);
        AdvancePlanLocked(s, Converted(values), token)
  }

  /**
   Reading a retained trace: UTF-8, JSON lines, events.  Parsing is not modelled; everything is
   proved for whatever a parser makes of the bytes.
   */
  type Decoder = Bytes -> Option<seq<Event>>

  /** `load_events`, which refuses an empty trace. */
  function Events(dec: Decoder, trace: Bytes): (r: Option<seq<Event>>)
    ensures r.Some? ==> r.value != [] && dec(trace) == r
  {
    if dec(trace) == Some([]) then None else dec(trace)
  }

  function Witnesses(events: seq<Event>): seq<Witness> {
    if events == [] then []
    else (if events[0].operation.MatchWitness? then [events[0].operation.solution] else [])
         + Witnesses(events[1..])
  }

  const QUESTION: Byte := 63

  /** `source[begin:end].startswith(b"?")`. */
  predicate StartsHole(source: Bytes, r: Replacement) {
    0 <= r.begin < r.end && r.begin < |source| && source[r.begin] == QUESTION
  }

  function ToValues(replacements: seq<Replacement>): (values: seq<EditValue>)
    ensures |values| == |replacements|
    ensures forall i | 0 <= i < |values| ::
              values[i] == EditValue(replacements[i].begin, replacements[i].end, replacements[i].insert)
  {
    seq(|replacements|, i requires 0 <= i < |replacements| =>
      EditValue(replacements[i].begin, replacements[i].end, replacements[i].insert))
  }

  function RetainedTrace(files: map<File, Content>, r: GenerationRecord): Option<Bytes> {
    if r.traceFile.Some? && r.traceFile.value in files && files[r.traceFile.value].Data?
    then Some(files[r.traceFile.value].bytes)
    else None
  }

  ghost function MaterializePlan(d: Disk, dec: Decoder, token: string): Plan {
    match Load(d)
    case None => Refuse(NoState)
    case Some(s) =>
      var record := s.generations[s.current];
      if !record.status.WasAdmitted? then Refuse(NotAdmitted)
      else match RetainedTrace(d.files, record)
        case None => Refuse(NoTrace)
        case Some(trace) =>
          match Events(dec, trace)
          case None => Refuse(InvalidTrace)
          case Some(events) => MaterializeEvents(s, events, token)
  }

  ghost function MaterializeEvents(s: State, events: seq<Event>, token: string): Plan
    requires s.current in s.generations && 0 <= s.snapshot.revision
  {
    if !Accepts(s.Source(), events) then Refuse(InvalidTrace)
    else if |Witnesses(events)| != 1 then Refuse(NoUniqueWitness)
    else
      var replacements := Witnesses(events)[0].replacements;
      if replacements == [] then Refuse(NothingOpen)
      else if exists r | r in replacements :: !StartsHole(s.Source(), r) then Refuse(HoleTextGone)
      else if !Acceptable(ToValues(replacements), |s.Source()|) then Refuse(BadEdits)
      else
        AcceptableIsOrdered(ToValues(replacements), 0, |s.Source()|);
        AdvancePlanLocked(s, Converted(ToValues(replacements)), token)
  }

  /** A completion between its two lock sections. */
  datatype Pending = Pending(generation: string, candidate: Bytes, trace: Bytes, events: seq<Event>)

  /** The first lock section of `complete`, and the validation that follows it without the lock. */
  ghost function Begin(d: Disk, dec: Decoder, generation: string, trace: Bytes): Result<Pending, Refusal> {
    match Load(d)
    case None => Failure(NoState)
    case Some(s) =>
      if generation !in s.generations then Failure(UnknownGeneration)
      else if !s.generations[generation].status.Open() then Failure(AlreadySettled)
      else
        var file := s.generations[generation].sourceFile;
        if file !in d.files || !d.files[file].Data? then Failure(NoTrace)
        else
          var candidate := d.files[file].bytes;
          match Events(dec, trace)
          case None => Failure(InvalidTrace)
          case Some(events) =>
            if Accepts(candidate, events) then Success(Pending(generation, candidate, trace, events))
            else Failure(InvalidTrace)
  }

  function Recorded(s: State, generation: string, admission: Admission): State
    requires generation in s.generations
  {
    var record := s.generations[generation].(
      status := if admission.Admitted? then WasAdmitted else WasDiscarded,
      admission := Some(admission), traceFile := Some(TraceFile(TokenOf(generation))));
    s.(generations := s.generations[generation := record],
       annotations := if admission.Admitted? then admission.annotations else s.annotations)
  }

  /** The second lock section of `complete`. */
  ghost function FinishPlan(d: Disk, p: Pending): Plan {
    match Load(d)
    case None => Refuse(NoState)
    case Some(s) =>
      if p.generation !in s.generations then Refuse(UnknownGeneration)
      else if !s.generations[p.generation].status.Open() then Refuse(AlreadySettled)
      else match Admit(s.generations[s.current].request, s.Source(), p.candidate, p.events)
        case Failure(error) => Refuse(NotAdmissible(error))
        case Success(admission) => RecordPlan(d, s, p, admission)
  }

  /** `_record_completion` and the final save. */
  function RecordPlan(d: Disk, s: State, p: Pending, admission: Admission): Plan
    requires p.generation in s.generations
  {
    var file, after := TraceFile(TokenOf(p.generation)), Recorded(s, p.generation, admission);
    if file in d.files then
      if d.files[file] != Data(p.trace) then Refuse(TraceDisagrees)
      else Plan([Save(after)], Completed(admission))
    else Plan([Create(file, Data(p.trace)), Save(after)], Completed(admission))
  }

  function FailPlan(d: Disk, generation: string, error: string): Plan {
    match Load(d)
    case None => Refuse(NoState)
    case Some(s) =>
      if generation !in s.generations then Refuse(UnknownGeneration)
      else if !s.generations[generation].status.Open() then Refuse(AlreadySettled)
      else
        var record := s.generations[generation].(status := HasFailed, failure := Some(error));
        Plan([Save(s.(generations := s.generations[generation := record]))], MarkedFailed(error))
  }
}
