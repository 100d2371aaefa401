/** What every durable state of the host satisfies, and that each lock section keeps it. */
module Integrity {
  import opened Wrappers
  import opened Utf8
  import opened Snapshots
  import opened Replay
  import opened Edits
  import opened Transport
  import opened Projection
  import opened Generation
  import opened Host

  // ----- the invariant -----

  ghost predicate IdentitySound(s: State) {
    && s.document.id != "" && 0 <= s.snapshot.revision
    && s.snapshot == Identify(s.Source(), s.document.id, s.snapshot.revision)
    && s.current in s.generations
    && s.generations[s.current].request.snapshot == s.snapshot
  }

  /** A settled completion keeps the trace it was decided on, valid for the source it ran on. */
  ghost predicate TraceSound(dec: Decoder, files: map<File, Content>, g: string, r: GenerationRecord) {
    && r.traceFile == Some(TraceFile(TokenOf(g)))
    && RetainedTrace(files, r).Some?
    && Events(dec, RetainedTrace(files, r).value).Some?
    && r.sourceFile in files && files[r.sourceFile].Data?
    && Accepts(files[r.sourceFile].bytes, Events(dec, RetainedTrace(files, r).value).value)
    && r.admission.Some? && (r.status.WasAdmitted? <==> r.admission.value.Admitted?)
  }

  /** The artifacts a generation names exist, whole, and are what it was issued for. */
  ghost predicate RecordSound(dec: Decoder, files: map<File, Content>, s: State, g: string)
    requires g in s.generations
  {
    var r := s.generations[g];
    var revision, token := r.request.snapshot.revision, TokenOf(g);
    && 0 <= revision <= s.snapshot.revision
    && r.sourceFile == SourceFile(revision, token) && r.requestFile == RequestFile(revision, token)
    && r.sourceFile in files && files[r.sourceFile].Data?
    && MakeRequest(files[r.sourceFile].bytes, s.document.id, revision, g) == Some(r.request)
    && r.requestFile in files && files[r.requestFile] == Json(r.request)
    && (r.status.WasAdmitted? || r.status.WasDiscarded? ==> TraceSound(dec, files, g, r))
  }

  ghost predicate RecordsSound(dec: Decoder, files: map<File, Content>, s: State) {
    forall g | g in s.generations :: RecordSound(dec, files, s, g)
  }

  /** One generation per revision; only the current one can still be plainly requested. */
  ghost predicate GenerationsSound(s: State) {
    && |s.generations| == s.snapshot.revision + 1
    && (forall g, h | g in s.generations && h in s.generations && g != h ::
          s.generations[g].request.snapshot.revision != s.generations[h].request.snapshot.revision)
    && (forall g | g in s.generations && s.generations[g].status.Requested? :: g == s.current)
    && s.current in s.generations && !s.generations[s.current].status.Superseded?
  }

  /** If the current generation is admitted, then by a trace of its own run. */
  ghost predicate CurrentSound(dec: Decoder, files: map<File, Content>, s: State) {
    s.current in s.generations && s.generations[s.current].status.WasAdmitted? ==>
      && TraceSound(dec, files, s.current, s.generations[s.current])
      && Events(dec, RetainedTrace(files, s.generations[s.current]).value).value[0].envelope.run == s.current
  }

  /** The annotations are exactly those of a retained, valid trace of the current run for the display. */
  ghost predicate Evidenced(dec: Decoder, files: map<File, Content>, s: State, g: string) {
    && g in s.generations && s.generations[g].status.WasAdmitted?
    && TraceSound(dec, files, g, s.generations[g])
    && var events := Events(dec, RetainedTrace(files, s.generations[g]).value).value;
    && events[0].envelope.run == s.current
    && Accepts(s.Source(), events)
    && Catalogue(events).snapshot.Some? && Catalogue(events).snapshot.value.identity == s.snapshot
    && Annotations(s.Source(), events, []) == Some(s.annotations)
  }

  ghost predicate AnnotationShape(a: Annotation, n: nat) {
    match a.status
    case Unplaced => a.displaySpan.None?
    case Transported => AnnotationLoads(a, n)
    case Current =>
      && a.displaySpan.Some?
      && 0 <= a.displaySpan.value.begin.offset <= a.displaySpan.value.end.offset <= n
  }

  /** All annotations are current or none is, and current ones have evidence. */
  ghost predicate AnnotationsSound(dec: Decoder, files: map<File, Content>, s: State) {
    && (forall a | a in s.annotations :: AnnotationShape(a, |s.Source()|))
    && ((forall a | a in s.annotations :: !a.status.Current?) ||
        ((forall a | a in s.annotations :: a.status.Current?) && exists g :: Evidenced(dec, files, s, g)))
  }

  ghost predicate StateSound(dec: Decoder, files: map<File, Content>, s: State) {
    && IdentitySound(s)
    && RecordsSound(dec, files, s)
    && GenerationsSound(s)
    && CurrentSound(dec, files, s)
    && AnnotationsSound(dec, files, s)
  }

  ghost predicate Sound(dec: Decoder, d: Disk) {
    d.state.Some? ==> StateSound(dec, d.files, d.state.value)
  }

  // ----- artifacts are never touched again -----

  ghost predicate Grows(files: map<File, Content>, more: map<File, Content>) {
    forall f | f in files :: f in more && more[f] == files[f]
  }

  lemma {:induction false} TraceKept(dec: Decoder, files: map<File, Content>, more: map<File, Content>, g: string,
                                     r: GenerationRecord)
    requires Grows(files, more) && TraceSound(dec, files, g, r)
    ensures TraceSound(dec, more, g, r) && RetainedTrace(more, r) == RetainedTrace(files, r)
  {
  }

  lemma {:induction false} RecordKept(dec: Decoder, files: map<File, Content>, more: map<File, Content>, s: State,
                                      g: string)
    requires Grows(files, more) && g in s.generations && RecordSound(dec, files, s, g)
    ensures RecordSound(dec, more, s, g)
  {
  }

  /** Orphaned artifacts, whole or torn, do no harm. */
  lemma {:induction false} GrowthKeepsSound(dec: Decoder, files: map<File, Content>, more: map<File, Content>, s: State)
    requires Grows(files, more) && StateSound(dec, files, s)
    ensures StateSound(dec, more, s)
  {
    forall g | g in s.generations
      ensures RecordSound(dec, more, s, g)
    {
      RecordKept(dec, files, more, s, g);
    }
    forall g | Evidenced(dec, files, s, g)
      ensures Evidenced(dec, more, s, g)
    {
      TraceKept(dec, files, more, g, s.generations[g]);
    }
    if s.generations[s.current].status.WasAdmitted? {
      TraceKept(dec, files, more, s.current, s.generations[s.current]);
    }
  }

  // ----- loading -----

  /**
   A sound state loads exactly when no annotation sits on an empty span.  Only a current
   annotation can: the validator admits empty source nodes, the loader refuses empty spans.
   */
  lemma {:induction false} LoadsExactly(dec: Decoder, files: map<File, Content>, s: State)
    requires StateSound(dec, files, s)
    ensures Loads(s) <==>
            forall a | a in s.annotations && a.status.Current? && a.displaySpan.Some? ::
              a.displaySpan.value.begin.offset < a.displaySpan.value.end.offset
  {
    forall g | g in s.generations
      ensures RequestLoads(s.generations[g].request) && s.generations[g].request.generation == g
    {
      assert RecordSound(dec, files, s, g);
    }
    forall a | a in s.annotations
      ensures AnnotationLoads(a, |s.Source()|) <==>
              (a.status.Current? && a.displaySpan.Some? ==>
                 a.displaySpan.value.begin.offset < a.displaySpan.value.end.offset)
    {
      assert AnnotationShape(a, |s.Source()|);
    }
  }

  // ----- issuing a generation -----

  /** A fresh token names a new generation. */
  lemma {:induction false} NameIsNew(dec: Decoder, d: Disk, s: State, revision: nat, token: string)
    requires Fresh(d, token) && RecordsSound(dec, d.files, s)
    ensures GenerationName(revision, token) !in s.generations
  {
    TokenOfName(revision, token);
    forall g | g in s.generations
      ensures TokenOf(g) != token
    {
      assert RecordSound(dec, d.files, s, g);
      assert s.generations[g].sourceFile in d.files;
    }
  }

  /** The state before its generation is issued: sound but for the current generation. */
  ghost predicate Issuable(dec: Decoder, files: map<File, Content>, s: State) {
    && s.document.id != "" && 0 <= s.snapshot.revision
    && s.snapshot == Identify(s.Source(), s.document.id, s.snapshot.revision)
    && RecordsSound(dec, files, s)
    && Retired(s)
    && (forall a | a in s.annotations :: AnnotationShape(a, |s.Source()|) && !a.status.Current?)
  }

  function WithArtifacts(files: map<File, Content>, s: State, token: string): map<File, Content>
    requires 0 <= s.snapshot.revision
  {
    files[SourceFile(s.snapshot.revision, token) := Data(s.Source())]
         [RequestFile(s.snapshot.revision, token) := Json(IssuedRequest(s, token))]
  }

  lemma {:induction false} ArtifactsAreNew(d: Disk, s: State, token: string)
    requires Fresh(d, token) && 0 <= s.snapshot.revision
    ensures Grows(d.files, WithArtifacts(d.files, s, token))
  {
  }

  lemma {:induction false} IssuedRecords(dec: Decoder, d: Disk, s: State, token: string)
    requires Fresh(d, token) && RecordsSound(dec, d.files, s) && s.document.id != "" && 0 <= s.snapshot.revision
    requires s.snapshot == Identify(s.Source(), s.document.id, s.snapshot.revision)
    ensures RecordsSound(dec, WithArtifacts(d.files, s, token), Issued(s, token))
  {
    var after, files := Issued(s, token), WithArtifacts(d.files, s, token);
    NewRecord(dec, d.files, s, token);
    forall g | g in after.generations && g != after.current
      ensures RecordSound(dec, files, after, g)
    {
      assert RecordSound(dec, d.files, s, g);
      OldRecord(dec, d, s, token, g);
    }
  }

  lemma {:induction false} NewRecord(dec: Decoder, files: map<File, Content>, s: State, token: string)
    requires HexToken(token) && s.document.id != "" && 0 <= s.snapshot.revision
    requires s.snapshot == Identify(s.Source(), s.document.id, s.snapshot.revision)
    ensures RecordSound(dec, WithArtifacts(files, s, token), Issued(s, token), Issued(s, token).current)
  {
    TokenOfName(s.snapshot.revision, token);
  }

  lemma {:induction false} OldRecord(dec: Decoder, d: Disk, s: State, token: string, g: string)
    requires Fresh(d, token) && 0 <= s.snapshot.revision && g in s.generations && RecordSound(dec, d.files, s, g)
    requires g != GenerationName(s.snapshot.revision, token)
    ensures RecordSound(dec, WithArtifacts(d.files, s, token), Issued(s, token), g)
  {
    RecordKept(dec, d.files, WithArtifacts(d.files, s, token), s, g);
  }

  /** One older generation for each older revision, none of them still requested. */
  ghost predicate Retired(s: State) {
    && 0 <= s.snapshot.revision && |s.generations| == s.snapshot.revision
    && (forall g | g in s.generations ::
          s.generations[g].request.snapshot.revision < s.snapshot.revision && !s.generations[g].status.Requested?)
    && (forall g, h | g in s.generations && h in s.generations && g != h ::
          s.generations[g].request.snapshot.revision != s.generations[h].request.snapshot.revision)
  }

  lemma {:induction false} IssuedGenerations(s: State, token: string)
    requires Retired(s) && GenerationName(s.snapshot.revision, token) !in s.generations
    ensures GenerationsSound(Issued(s, token))
  {
    var after := Issued(s, token);
    assert after.generations.Keys == s.generations.Keys + {after.current};
  }

  lemma {:induction false} IssuedIsSound(dec: Decoder, d: Disk, s: State, token: string)
    requires Fresh(d, token) && Issuable(dec, d.files, s)
    ensures Grows(d.files, WithArtifacts(d.files, s, token))
    ensures StateSound(dec, WithArtifacts(d.files, s, token), Issued(s, token))
  {
    ArtifactsAreNew(d, s, token);
    IssuedRecords(dec, d, s, token);
    NameIsNew(dec, d, s, s.snapshot.revision, token);
    IssuedGenerations(s, token);
    assert IdentitySound(Issued(s, token));
  }

  lemma {:induction false} InitialIsIssuable(dec: Decoder, files: map<File, Content>, text: Text, displayName: string,
                                             documentId: string)
    requires documentId != ""
    ensures Issuable(dec, files, InitialState(text, displayName, documentId))
  {
  }

  // ----- advancing -----

  lemma {:induction false} MovedShape(a: Annotation, source: Bytes, edits: seq<Edit<Byte>>)
    requires Ordered(edits, 0, |source|) && AnnotationLoads(a, |source|)
    ensures var m := Moved(a, Apply(source, edits), edits);
            AnnotationShape(m, |Apply(source, edits)|) && !m.status.Current?
  {
    if a.displaySpan.Some? {
      TransportInBounds(source, Range(a.displaySpan.value.begin.offset, a.displaySpan.value.end.offset), edits);
    }
  }

  lemma {:induction false} EditedRecords(dec: Decoder, files: map<File, Content>, s: State, text: Text,
                                         edits: seq<Edit<Byte>>)
    requires RecordsSound(dec, files, s) && s.current in s.generations
    ensures RecordsSound(dec, files, Edited(s, text, edits))
  {
    var after := Edited(s, text, edits);
    forall g | g in after.generations
      ensures RecordSound(dec, files, after, g)
    {
      assert RecordSound(dec, files, s, g);
    }
  }

  lemma {:induction false} RevisionsAreBounded(dec: Decoder, files: map<File, Content>, s: State)
    requires RecordsSound(dec, files, s)
    ensures forall g | g in s.generations :: s.generations[g].request.snapshot.revision <= s.snapshot.revision
  {
    forall g | g in s.generations
      ensures s.generations[g].request.snapshot.revision <= s.snapshot.revision
    {
      assert RecordSound(dec, files, s, g);
    }
  }

  lemma {:induction false} EditedGenerations(s: State, text: Text, edits: seq<Edit<Byte>>)
    requires GenerationsSound(s) && 0 <= s.snapshot.revision
    requires forall g | g in s.generations :: s.generations[g].request.snapshot.revision <= s.snapshot.revision
    ensures Retired(Edited(s, text, edits))
  {
    assert Edited(s, text, edits).generations.Keys == s.generations.Keys;
  }

  lemma {:induction false} EditedAnnotations(s: State, text: Text, edits: seq<Edit<Byte>>)
    requires Loads(s) && Ordered(edits, 0, |s.Source()|) && Encode(text) == Apply(s.Source(), edits)
    ensures forall a | a in Edited(s, text, edits).annotations ::
              AnnotationShape(a, |Encode(text)|) && !a.status.Current?
  {
    var after := Edited(s, text, edits).annotations;
    forall a | a in after
      ensures AnnotationShape(a, |Encode(text)|) && !a.status.Current?
    {
      var i :| 0 <= i < |after| && a == after[i];
      MovedShape(s.annotations[i], s.Source(), edits);
    }
  }

  lemma {:induction false} EditedIsIssuable(dec: Decoder, files: map<File, Content>, s: State, text: Text,
                                            edits: seq<Edit<Byte>>)
    requires StateSound(dec, files, s) && Loads(s)
    requires Ordered(edits, 0, |s.Source()|) && Decode(Apply(s.Source(), edits)) == Some(text)
    ensures Issuable(dec, files, Edited(s, text, edits))
  {
    EncodeOfDecode(Apply(s.Source(), edits));
    EditedRecords(dec, files, s, text, edits);
    RevisionsAreBounded(dec, files, s);
    EditedGenerations(s, text, edits);
    EditedAnnotations(s, text, edits);
  }

  // ----- completing and failing -----

  /** Closing one open generation keeps everything about the others. */
  lemma {:induction false} ClosedGenerations(s: State, g: string, r: GenerationRecord)
    requires GenerationsSound(s) && g in s.generations && !r.status.Open()
    requires r.request == s.generations[g].request
    ensures GenerationsSound(s.(generations := s.generations[g := r]))
  {
    assert s.generations[g := r].Keys == s.generations.Keys;
  }

  lemma {:induction false} SameEvidence(dec: Decoder, files: map<File, Content>, more: map<File, Content>, s: State,
                                        after: State)
    requires AnnotationsSound(dec, files, s) && after.annotations == s.annotations && after.text == s.text
    requires forall h | Evidenced(dec, files, s, h) :: Evidenced(dec, more, after, h)
    ensures AnnotationsSound(dec, more, after)
  {
    if h :| Evidenced(dec, files, s, h) {
      assert Evidenced(dec, more, after, h);
    }
  }

  /** The annotations of another generation's evidence survive the closing of an open one. */
  lemma {:induction false} EvidenceKept(dec: Decoder, files: map<File, Content>, more: map<File, Content>, s: State,
                                        g: string, r: GenerationRecord)
    requires Grows(files, more) && AnnotationsSound(dec, files, s)
    requires g in s.generations && s.generations[g].status.Open()
    ensures AnnotationsSound(dec, more, s.(generations := s.generations[g := r]))
  {
    var after := s.(generations := s.generations[g := r]);
    forall h | Evidenced(dec, files, s, h)
      ensures Evidenced(dec, more, after, h)
    {
      StillEvidenced(dec, files, more, s, g, r, h);
    }
    SameEvidence(dec, files, more, s, after);
  }

  lemma {:induction false} StillEvidenced(dec: Decoder, files: map<File, Content>, more: map<File, Content>, s: State,
                                          g: string, r: GenerationRecord, h: string)
    requires Grows(files, more) && Evidenced(dec, files, s, h) && g != h
    ensures Evidenced(dec, more, s.(generations := s.generations[g := r]), h)
  {
    TraceKept(dec, files, more, h, s.generations[h]);
  }

  lemma {:induction false} FailedRecords(dec: Decoder, files: map<File, Content>, s: State, g: string, error: string)
    requires RecordsSound(dec, files, s) && g in s.generations
    ensures var r := s.generations[g].(status := HasFailed, failure := Some(error));
            RecordsSound(dec, files, s.(generations := s.generations[g := r]))
  {
    var r := s.generations[g].(status := HasFailed, failure := Some(error));
    var after := s.(generations := s.generations[g := r]);
    forall h | h in after.generations
      ensures RecordSound(dec, files, after, h)
    {
      assert RecordSound(dec, files, s, h);
    }
  }

  lemma {:induction false} FailedIsSound(dec: Decoder, files: map<File, Content>, s: State, g: string, error: string)
    requires StateSound(dec, files, s) && g in s.generations && s.generations[g].status.Open()
    ensures var r := s.generations[g].(status := HasFailed, failure := Some(error));
            StateSound(dec, files, s.(generations := s.generations[g := r]))
  {
    var r := s.generations[g].(status := HasFailed, failure := Some(error));
    FailedRecords(dec, files, s, g, error);
    ClosedGenerations(s, g, r);
    EvidenceKept(dec, files, files, s, g, r);
  }

  /** A completion that has passed its first lock section and validation. */
  ghost predicate PendingSound(dec: Decoder, files: map<File, Content>, s: State, p: Pending) {
    && Events(dec, p.trace) == Some(p.events) && Accepts(p.candidate, p.events)
    && p.generation in s.generations
    && s.generations[p.generation].sourceFile in files
    && files[s.generations[p.generation].sourceFile] == Data(p.candidate)
  }

  /** Everything the second lock section knows when it records an admission. */
  ghost predicate Recordable(dec: Decoder, files: map<File, Content>, more: map<File, Content>, s: State, p: Pending,
                             admission: Admission)
  {
    && StateSound(dec, files, s) && PendingSound(dec, files, s, p)
    && s.generations[p.generation].status.Open()
    && Admit(s.generations[s.current].request, s.Source(), p.candidate, p.events) == Success(admission)
    && Grows(files, more)
    && TraceFile(TokenOf(p.generation)) in more && more[TraceFile(TokenOf(p.generation))] == Data(p.trace)
  }

  lemma {:induction false} RecordedOther(dec: Decoder, files: map<File, Content>, more: map<File, Content>, s: State,
                                         generation: string, admission: Admission, g: string)
    requires Grows(files, more) && generation in s.generations && g in s.generations && g != generation
    requires RecordSound(dec, files, s, g)
    ensures RecordSound(dec, more, Recorded(s, generation, admission), g)
  {
    RecordKept(dec, files, more, s, g);
  }

  lemma {:induction false} RecordedOwn(dec: Decoder, files: map<File, Content>, more: map<File, Content>, s: State,
                                       p: Pending, admission: Admission)
    requires PendingSound(dec, files, s, p) && Grows(files, more) && RecordSound(dec, files, s, p.generation)
    requires TraceFile(TokenOf(p.generation)) in more && more[TraceFile(TokenOf(p.generation))] == Data(p.trace)
    ensures var after := Recorded(s, p.generation, admission);
            && RecordSound(dec, more, after, p.generation)
            && TraceSound(dec, more, p.generation, after.generations[p.generation])
            && RetainedTrace(more, after.generations[p.generation]) == Some(p.trace)
  {
  }

  lemma {:induction false} RecordedRecords(dec: Decoder, files: map<File, Content>, more: map<File, Content>,
                                           s: State, p: Pending, admission: Admission)
    requires Recordable(dec, files, more, s, p, admission)
    ensures RecordsSound(dec, more, Recorded(s, p.generation, admission))
    ensures var after := Recorded(s, p.generation, admission);
            && TraceSound(dec, more, p.generation, after.generations[p.generation])
            && RetainedTrace(more, after.generations[p.generation]) == Some(p.trace)
  {
    var after := Recorded(s, p.generation, admission);
    assert RecordSound(dec, files, s, p.generation);
    RecordedOwn(dec, files, more, s, p, admission);
    forall g | g in after.generations && g != p.generation
      ensures RecordSound(dec, more, after, g)
    {
      assert RecordSound(dec, files, s, g);
      RecordedOther(dec, files, more, s, p.generation, admission, g);
    }
  }

  lemma {:induction false} RecordedCurrent(dec: Decoder, files: map<File, Content>, more: map<File, Content>,
                                           s: State, p: Pending, admission: Admission)
    requires Recordable(dec, files, more, s, p, admission)
    ensures CurrentSound(dec, more, Recorded(s, p.generation, admission))
  {
    RecordedRecords(dec, files, more, s, p, admission);
    assert RecordSound(dec, files, s, s.current);
    if p.generation == s.current {
      if admission.Admitted? {
        AdmittedIsExact(s.generations[s.current].request, s.Source(), p.candidate, p.events);
      }
    } else if s.generations[s.current].status.WasAdmitted? {
      TraceKept(dec, files, more, s.current, s.generations[s.current]);
    }
  }

  lemma {:induction false} RecordedEvidence(dec: Decoder, files: map<File, Content>, more: map<File, Content>,
                                            s: State, p: Pending, admission: Admission)
    requires Recordable(dec, files, more, s, p, admission) && admission.Admitted?
    ensures Evidenced(dec, more, Recorded(s, p.generation, admission), p.generation)
    ensures forall a | a in admission.annotations :: AnnotationShape(a, |s.Source()|) && a.status.Current?
  {
    assert RecordSound(dec, files, s, p.generation);
    RecordedOwn(dec, files, more, s, p, admission);
    assert RecordSound(dec, files, s, s.current);
    AdmittedIsExact(s.generations[s.current].request, s.Source(), p.candidate, p.events);
  }

  lemma {:induction false} RecordedAnnotations(dec: Decoder, files: map<File, Content>, more: map<File, Content>,
                                               s: State, p: Pending, admission: Admission)
    requires Recordable(dec, files, more, s, p, admission)
    ensures AnnotationsSound(dec, more, Recorded(s, p.generation, admission))
  {
    if admission.Admitted? {
      RecordedEvidence(dec, files, more, s, p, admission);
    } else {
      EvidenceKept(dec, files, more, s, p.generation, Recorded(s, p.generation, admission).generations[p.generation]);
    }
  }

  lemma {:induction false} RecordedIdentity(s: State, generation: string, admission: Admission)
    requires IdentitySound(s) && GenerationsSound(s) && generation in s.generations
    ensures IdentitySound(Recorded(s, generation, admission)) && GenerationsSound(Recorded(s, generation, admission))
  {
    ClosedGenerations(s, generation, Recorded(s, generation, admission).generations[generation]);
  }

  lemma {:induction false} RecordedIsSound(dec: Decoder, files: map<File, Content>, more: map<File, Content>,
                                           s: State, p: Pending, admission: Admission)
    requires Recordable(dec, files, more, s, p, admission)
    ensures StateSound(dec, more, Recorded(s, p.generation, admission))
  {
    RecordedRecords(dec, files, more, s, p, admission);
    RecordedCurrent(dec, files, more, s, p, admission);
    RecordedAnnotations(dec, files, more, s, p, admission);
    RecordedIdentity(s, p.generation, admission);
  }
}
