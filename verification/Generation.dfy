/** Generation requests and the admission of completed traces (fine/rainfall_generation.py). */
module Generation {
  import opened Wrappers
  import opened Utf8
  import opened Snapshots
  import opened Traces
  import opened Replay
  import opened Validator
  import opened Edits
  import opened Projection

  datatype Request = Request(generation: string, snapshot: SourceIdentity, rainArguments: seq<string>)

  function Decimal(n: nat): string {
    if n < 10 then ['0' + n as char] else Decimal(n / 10) + ['0' + (n % 10) as char]
  }

  function RainArguments(document: string, revision: nat, generation: string): seq<string> {
    ["rain", "--document", document, "--revision", Decimal(revision), "--generation", generation]
  }

  function MakeRequest(source: Bytes, document: string, revision: int, generation: string): Option<Request> {
    if document == "" || revision < 0 || generation == "" then None
    else Some(Request(generation, Identify(source, document, revision),
                      RainArguments(document, revision, generation)))
  }

  /** What `load_request` checks of a stored request. */
  predicate RequestLoads(r: Request) {
    && r.generation != "" && r.snapshot.document != "" && 0 <= r.snapshot.revision
    && r.snapshot.digest.Sha256? && 0 <= r.snapshot.byteLength
    && r.rainArguments == RainArguments(r.snapshot.document, r.snapshot.revision, r.generation)
  }

  datatype Reason =
    | DisplayAdvanced | LateOrUnrequested | DifferentDocument | DifferentRevision | DifferentSource

  datatype Admission =
    | Admitted(generation: string, snapshot: Snapshot, annotations: seq<Annotation>)
    | Discarded(reason: Reason, requestedGeneration: string, candidateRun: string,
                requestedSnapshot: SourceIdentity, candidateSnapshot: SourceIdentity)

  datatype AdmitError = BadRequest | BadTrace | MissingNode

  /** The first reason, in the order of the code, not to admit the candidate. */
  function Objection(request: Request, display: Bytes, run: string, candidate: SourceIdentity): Option<Reason> {
    var requested := request.snapshot;
    if Identify(display, requested.document, requested.revision) != requested then Some(DisplayAdvanced)
    else if run != request.generation then Some(LateOrUnrequested)
    else if candidate.document != requested.document then Some(DifferentDocument)
    else if candidate.revision != requested.revision then Some(DifferentRevision)
    else if candidate.digest != requested.digest || candidate.byteLength != requested.byteLength
    then Some(DifferentSource)
    else None
  }

  ghost function Admit(request: Request, display: Bytes, candidate: Bytes, events: seq<Event>)
    : Result<Admission, AdmitError>
  {
    if !RequestLoads(request) then Failure(BadRequest)
    else if !Accepts(candidate, events) then Failure(BadTrace)
    else
      CatalogueHeads(candidate, events);
      var run, snapshot := events[0].envelope.run, Catalogue(events).snapshot.value;
      match Objection(request, display, run, snapshot.identity)
      case Some(reason) =>
        Success(Discarded(reason, request.generation, run, request.snapshot, snapshot.identity))
      case None =>
        match Annotations(candidate, events, [])
        case None => Failure(MissingNode)
        case Some(annotations) => Success(Admitted(request.generation, snapshot, annotations))
  }

  /** `admit`. */
  method Decide(request: Request, display: Bytes, candidate: Bytes, events: seq<Event>)
      returns (r: Result<Admission, AdmitError>)
    requires events != []
    ensures r == Admit(request, display, candidate, events)
  {
    if !RequestLoads(request) {
      return Failure(BadRequest);
    }
    var verdict := Validate(candidate, events);
    if !verdict.Accepted? {
      return Failure(BadTrace);
    }
    CatalogueHeads(candidate, events);
    var run, snapshot := events[0].envelope.run, Catalogue(events).snapshot.value;
    var objection := Objection(request, display, run, snapshot.identity);
    if objection.Some? {
      return Success(Discarded(objection.value, request.generation, run, request.snapshot, snapshot.identity));
    }
    var annotations := BuildAnnotations(candidate, events, []);
    if annotations.None? {
      return Failure(MissingNode);
    }
    return Success(Admitted(request.generation, snapshot, annotations.value));
  }

  lemma {:induction false} Unedited(source: Bytes)
    ensures Ordered<Byte>([], 0, |source|) && Apply(source, []) == source
  {
  }

  /**
   A trace is admitted only as evidence about the very bytes on display: it was made for the
   requested generation and snapshot, validates against the displayed bytes, and every annotation
   is current, in bounds and placed on the span it claims.
   */
  lemma {:induction false} AdmittedIsExact(request: Request, display: Bytes, candidate: Bytes, events: seq<Event>)
    requires Admit(request, display, candidate, events).Success?
    requires Admit(request, display, candidate, events).value.Admitted?
    ensures candidate == display && Accepts(display, events)
    ensures events[0].envelope.run == request.generation
    ensures request.snapshot == Identify(display, request.snapshot.document, request.snapshot.revision)
    ensures Catalogue(events).snapshot.Some? && Catalogue(events).snapshot.value.identity == request.snapshot
    ensures var annotations := Admit(request, display, candidate, events).value.annotations;
            && Annotations(display, events, []) == Some(annotations)
            && forall a | a in annotations ::
                 && a.status == Current && InBounds(a.claimSpan, |display|)
                 && a.displaySpan == Some(SourceSpan(display, a.claimSpan))
  {
    CatalogueHeads(candidate, events);
    var annotations := Admit(request, display, candidate, events).value.annotations;
    forall a | a in annotations
      ensures a.status == Current && InBounds(a.claimSpan, |display|)
      ensures a.displaySpan == Some(SourceSpan(display, a.claimSpan))
    {
      AnnotationInBounds(display, events, annotations, a);
    }
  }

  lemma {:induction false} NodeInBounds(source: Bytes, events: seq<Event>, id: string)
    requires Accepts(source, events) && id in Catalogue(events).nodes
    ensures 0 <= Catalogue(events).nodes[id].begin <= Catalogue(events).nodes[id].end <= |source|
  {
    assert events[..|events|] == events;
    PriorDistinct(source, events, |events|);
    var j := Declaration(events, |events|, NodeEntry, id);
    assert EventOk(source, events, j);
  }

  lemma {:induction false} AnnotationInBounds(source: Bytes, events: seq<Event>, annotations: seq<Annotation>,
                                              a: Annotation)
    requires Accepts(source, events) && Annotations(source, events, []) == Some(annotations) && a in annotations
    ensures a.status == Current && InBounds(a.claimSpan, |source|)
    ensures a.displaySpan == Some(SourceSpan(source, a.claimSpan))
  {
    var i :| 0 <= i < |annotations| && annotations[i] == a;
    var c, e := Catalogue(events), EvidenceOf(events)[i];
    Unedited(source);
    assert Annotate(c, source, [], e) == Some(a);
    NodeInBounds(source, events, e.operation.edge.source.value);
  }

  /**
   Exactly when admission goes through, for a request that loads and a trace valid for its own
   source: the display still matches the request, the run and the snapshot are the requested ones,
   and no evidence is about an internal term.
   */
  lemma {:induction false} AdmitExactly(request: Request, display: Bytes, candidate: Bytes, events: seq<Event>)
    requires RequestLoads(request) && Accepts(candidate, events)
    ensures Catalogue(events).snapshot.Some?
    ensures var r := Admit(request, display, candidate, events);
            var matches :=
              && request.snapshot == Identify(display, request.snapshot.document, request.snapshot.revision)
              && events[0].envelope.run == request.generation
              && Catalogue(events).snapshot.value.identity == request.snapshot;
            && (r.Success? && r.value.Discarded? <==> !matches)
            && (r == Failure(MissingNode) <==> matches && exists e | e in events :: Internal(e))
            && (r.Success? && r.value.Admitted? <==> matches && forall e | e in events :: !Internal(e))
  {
    CatalogueHeads(candidate, events);
    LookupsSucceed(candidate, events, []);
  }
}
