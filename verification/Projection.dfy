/**
 Cataloguing an accepted trace (fine/rainfall_replay.py, `catalog`) and turning its evidence into
 annotations of a displayed document (fine/rainfall_projection.py, `project`).
 */
module Projection {
  import opened Wrappers
  import opened Utf8
  import opened Snapshots
  import opened Traces
  import opened Replay
  import opened Validator
  import opened Edits
  import opened Transport

  // ----- accepted traces -----

  /** Accepted traces are prefix-free: one of them is never the beginning of another. */
  lemma {:induction false} PrefixFree(source: Bytes, other: Bytes, events: seq<Event>, more: seq<Event>)
    requires Accepts(source, events) && more != []
    ensures !Accepts(other, events + more)
  {
    var longer, n := events + more, |events|;
    assert longer[n - 1] == events[n - 1];
    assert !EventOk(other, longer, n);
  }

  lemma {:induction false} SameKeySameEvent<V>(events: seq<Event>, entry: Entry<string, V>, i: nat, j: nat)
    requires Distinct(events, |events|, entry) && i < |events| && j < |events|
    requires entry(events[i]).Some? && entry(events[j]).Some? && entry(events[i]).value.0 == entry(events[j]).value.0
    ensures i == j
  {
  }

  /** A lift is about the declaration of its term, and comes after it. */
  lemma {:induction false} LiftFollows(source: Bytes, events: seq<Event>, j: nat, lift: nat)
    requires Prior(source, events, |events|) && j < |events| && lift < |events|
    requires events[j].operation.TermDeclare? && events[lift].operation.LiftValidate?
    requires events[lift].operation.lift.term == events[j].operation.term.id
    ensures j < lift
    ensures events[lift].operation.lift.renderingHash == events[j].operation.term.renderingHash
  {
    PriorDistinct(source, events, |events|);
    assert EventOk(source, events, lift);
    var d :| 0 <= d < lift && events[d].operation.TermDeclare?
             && events[d].operation.term.id == events[lift].operation.lift.term
             && events[d].operation.term.renderingHash == events[lift].operation.lift.renderingHash;
    SameKeySameEvent(events, TermEntry, d, j);
  }

  /** Every term is lifted exactly once, after its declaration and under the same hash. */
  lemma {:induction false} LiftedOnce(source: Bytes, events: seq<Event>, j: nat) returns (lift: nat)
    requires Accepts(source, events) && j < |events| && events[j].operation.TermDeclare?
    ensures j < lift < |events| && events[lift].operation.LiftValidate?
    ensures events[lift].operation.lift.term == events[j].operation.term.id
    ensures events[lift].operation.lift.renderingHash == events[j].operation.term.renderingHash
    ensures forall i | 0 <= i < |events| && events[i].operation.LiftValidate?
                       && events[i].operation.lift.term == events[j].operation.term.id :: i == lift
  {
    var n, id := |events|, events[j].operation.term.id;
    assert Knows(events, n, LiftEntry, id);
    lift :| 0 <= lift < n && LiftEntry(events[lift]).Some? && LiftEntry(events[lift]).value.0 == id;
    LiftFollows(source, events, j, lift);
    forall i | 0 <= i < n && events[i].operation.LiftValidate? && events[i].operation.lift.term == id
      ensures i == lift
    {
      PriorDistinct(source, events, n);
      SameKeySameEvent(events, LiftEntry, i, lift);
    }
  }

  // ----- the catalogue -----

  datatype Catalog =
    Catalog(document: Option<Document>, snapshot: Option<Snapshot>, nodes: map<string, SourceNode>,
            terms: map<string, Term>, evidence: seq<Event>)

  /** `next(...)` over the events: the first declaration, if there is one. */
  function First<V>(events: seq<Event>, entry: Entry<string, V>): Option<V> {
    if events == [] then None
    else match entry(events[0])
      case Some((_, v)) => Some(v)
      case None => First(events[1..], entry)
  }

  function EvidenceOf(events: seq<Event>): seq<Event> {
    if events == [] then []
    else (if events[0].operation.TermEvidence? then [events[0]] else []) + EvidenceOf(events[1..])
  }

  function Catalogue(events: seq<Event>): Catalog {
    Catalog(First(events, DocumentEntry), First(events, SnapshotEntry),
            Gather(events, NodeEntry), Gather(events, TermEntry), EvidenceOf(events))
  }

  lemma {:induction false} FirstFound<V>(events: seq<Event>, entry: Entry<string, V>, j: nat)
    requires j < |events| && entry(events[j]).Some?
    requires forall i | 0 <= i < |events| && entry(events[i]).Some? :: i == j
    ensures First(events, entry) == Some(entry(events[j]).value.1)
  {
    if j > 0 {
      assert entry(events[0]).None?;
      assert forall i | 0 <= i < |events| - 1 :: events[1..][i] == events[i + 1];
      FirstFound(events[1..], entry, j - 1);
    }
  }

  lemma {:induction false} EvidenceMember(events: seq<Event>, e: Event)
    ensures e in EvidenceOf(events) <==> e in events && e.operation.TermEvidence?
  {
    if events != [] {
      EvidenceMember(events[1..], e);
    }
  }

  lemma {:induction false} DocumentHead(events: seq<Event>)
    requires OnlyOne(events, DocumentEntry)
    ensures Catalogue(events).document.Some?
    ensures forall j | 0 <= j < |events| && events[j].operation.DocumentDeclare? ::
              Catalogue(events).document == Some(events[j].operation.document)
  {
    var d :| && 0 <= d < |events| && DocumentEntry(events[d]).Some?
             && forall i | 0 <= i < |events| && DocumentEntry(events[i]).Some? :: i == d;
    FirstFound(events, DocumentEntry, d);
    assert forall j | 0 <= j < |events| && events[j].operation.DocumentDeclare? :: DocumentEntry(events[j]).Some?;
  }

  lemma {:induction false} SnapshotHead(events: seq<Event>) returns (s: nat)
    requires OnlyOne(events, SnapshotEntry)
    ensures s < |events| && events[s].operation.SnapshotDeclare?
    ensures forall j | 0 <= j < |events| && events[j].operation.SnapshotDeclare? ::
              Catalogue(events).snapshot == Some(events[j].operation.snapshot)
  {
    s :| && 0 <= s < |events| && SnapshotEntry(events[s]).Some?
         && forall i | 0 <= i < |events| && SnapshotEntry(events[i]).Some? :: i == s;
    FirstFound(events, SnapshotEntry, s);
    assert forall j | 0 <= j < |events| && events[j].operation.SnapshotDeclare? :: SnapshotEntry(events[j]).Some?;
  }

  /** The catalogue names the one document and the one snapshot of an accepted trace. */
  lemma {:induction false} CatalogueHeads(source: Bytes, events: seq<Event>)
    requires Accepts(source, events)
    ensures var c := Catalogue(events);
            && c.document.Some? && c.snapshot.Some?
            && c.snapshot.value.identity
               == Identify(source, c.document.value.id, c.snapshot.value.identity.revision)
            && 0 <= c.snapshot.value.identity.revision
    ensures forall j | 0 <= j < |events| && events[j].operation.DocumentDeclare? ::
              Catalogue(events).document == Some(events[j].operation.document)
    ensures forall j | 0 <= j < |events| && events[j].operation.SnapshotDeclare? ::
              Catalogue(events).snapshot == Some(events[j].operation.snapshot)
  {
    DocumentHead(events);
    var s := SnapshotHead(events);
    assert EventOk(source, events, s);
    var d :| 0 <= d < s && DocumentEntry(events[d]).Some?
             && DocumentEntry(events[d]).value.0 == events[s].operation.snapshot.identity.document;
  }

  /**
   On an accepted trace the catalogue's dictionaries are the validator's own, and hold every
   declared node and term unchanged.
   */
  lemma {:induction false} CatalogueIsLedger(source: Bytes, events: seq<Event>)
    requires Accepts(source, events)
    ensures Catalogue(events).nodes == LedgerOf(events).nodes
    ensures Catalogue(events).terms == LedgerOf(events).terms
    ensures forall j | 0 <= j < |events| && events[j].operation.NodeDeclare? ::
              var node := events[j].operation.node;
              node.id in Catalogue(events).nodes && Catalogue(events).nodes[node.id] == node
    ensures forall j | 0 <= j < |events| && events[j].operation.TermDeclare? ::
              var term := events[j].operation.term;
              term.id in Catalogue(events).terms && Catalogue(events).terms[term.id] == term
  {
    assert events[..|events|] == events;
    LedgerHolds(events);
    PriorDistinct(source, events, |events|);
    forall j | 0 <= j < |events| && events[j].operation.NodeDeclare?
      ensures var node := events[j].operation.node;
              node.id in Catalogue(events).nodes && Catalogue(events).nodes[node.id] == node
    {
      GatherValue(events, |events|, NodeEntry, j);
    }
    forall j | 0 <= j < |events| && events[j].operation.TermDeclare?
      ensures var term := events[j].operation.term;
              term.id in Catalogue(events).terms && Catalogue(events).terms[term.id] == term
    {
      GatherValue(events, |events|, TermEntry, j);
    }
  }

  // ----- positions -----

  datatype Position = Position(offset: int, line: int, column: int)

  datatype Span = Span(begin: Position, end: Position)

  const NEWLINE: Byte := 10

  function Newlines(source: Bytes, offset: nat): nat
    requires offset <= |source|
  {
    if offset == 0 then 0
    else Newlines(source, offset - 1) + if source[offset - 1] == NEWLINE then 1 else 0
  }

  /** `rfind` of a newline before `offset`, or -1. */
  function LastNewline(source: Bytes, offset: nat): (p: int)
    requires offset <= |source|
    ensures -1 <= p < offset
  {
    if offset == 0 then -1
    else if source[offset - 1] == NEWLINE then offset - 1
    else LastNewline(source, offset - 1)
  }

  function SourcePosition(source: Bytes, offset: nat): Position
    requires offset <= |source|
  {
    Position(offset, Newlines(source, offset) + 1, offset - LastNewline(source, offset))
  }

  function SourceSpan(source: Bytes, r: Range): Span
    requires 0 <= r.begin <= r.end <= |source|
  {
    Span(SourcePosition(source, r.begin), SourcePosition(source, r.end))
  }

  /** Line and column order offsets the way a reader does; in particular they determine the offset. */
  lemma {:induction false} PositionOrder(source: Bytes, a: nat, b: nat)
    requires a < b <= |source|
    ensures var p, q := SourcePosition(source, a), SourcePosition(source, b);
            p.line < q.line || (p.line == q.line && p.column < q.column)
    decreases b
  {
    if a < b - 1 {
      PositionOrder(source, a, b - 1);
    }
  }

  // ----- annotations -----

  datatype AnnotationStatus = Current | Transported | Unplaced

  datatype Claim =
    Claim(snapshot: string, source: string, term: string, correspondence: string, event: string,
          within: seq<string>)

  datatype Annotation =
    Annotation(status: AnnotationStatus, claim: Claim, syntaxKind: string, claimSpan: Range,
               displaySpan: Option<Span>, termText: Text)

  predicate InBounds(r: Range, n: int) {
    0 <= r.begin <= r.end <= n
  }

  function SpanOf(displayed: Bytes, r: Option<Range>): Option<Span> {
    match r
    case None => None
    case Some(v) => if InBounds(v, |displayed|) then Some(SourceSpan(displayed, v)) else None
  }

  /** One evidence edge as an annotation; `None` is the failed lookup of an edge without a source node. */
  function Annotate(c: Catalog, displayed: Bytes, edits: seq<Edit<Byte>>, e: Event): Option<Annotation> {
    if !e.operation.TermEvidence? || c.snapshot.None? then None
    else
      var edge := e.operation.edge;
      if edge.source.None? || edge.source.value !in c.nodes || edge.term !in c.terms then None
      else
        var node := c.nodes[edge.source.value];
        var claimed := Range(node.begin, node.end);
        var mapped := if edits == [] then Some(claimed) else TransportRange(claimed, edits);
        var status := if edits == [] then Current else if mapped.Some? then Transported else Unplaced;
        Some(Annotation(status,
                        Claim(c.snapshot.value.id, edge.source.value, edge.term, edge.correspondence, e.id, e.within),
                        node.syntaxKind, claimed, SpanOf(displayed, mapped), c.terms[edge.term].text))
  }

  function AnnotateAll(c: Catalog, displayed: Bytes, edits: seq<Edit<Byte>>, evidence: seq<Event>)
    : (r: Option<seq<Annotation>>)
    ensures r.Some? <==> forall i | 0 <= i < |evidence| :: Annotate(c, displayed, edits, evidence[i]).Some?
    ensures r.Some? ==> |r.value| == |evidence|
    ensures r.Some? ==> forall i | 0 <= i < |evidence| ::
                          Annotate(c, displayed, edits, evidence[i]) == Some(r.value[i])
  {
    if evidence == [] then Some([])
    else
      var first, rest := Annotate(c, displayed, edits, evidence[0]), AnnotateAll(c, displayed, edits, evidence[1..]);
      assert forall i | 0 < i < |evidence| :: evidence[i] == evidence[1..][i - 1];
      assert forall i | 0 <= i < |evidence| - 1 :: evidence[1..][i] == evidence[i + 1];
      if first.None? || rest.None? then None else Some([first.value] + rest.value)
  }

  /** The annotations `project` makes of an accepted trace. */
  function Annotations(source: Bytes, events: seq<Event>, edits: seq<Edit<Byte>>): Option<seq<Annotation>>
    requires Ordered(edits, 0, |source|)
  {
    AnnotateAll(Catalogue(events), Apply(source, edits), edits, EvidenceOf(events))
  }

  /** The annotation loop of `project`. */
  method BuildAnnotations(source: Bytes, events: seq<Event>, edits: seq<Edit<Byte>>)
      returns (r: Option<seq<Annotation>>)
    requires Ordered(edits, 0, |source|)
    ensures r == Annotations(source, events, edits)
  {
    var c := Catalogue(events);
    var displayed := ApplyEdits(source, edits);
    var annotations: seq<Annotation> := [];
    for k := 0 to |c.evidence|
      invariant |annotations| == k
      invariant forall i | 0 <= i < k :: Annotate(c, displayed, edits, c.evidence[i]) == Some(annotations[i])
    {
      var a := Annotate(c, displayed, edits, c.evidence[k]);
      if a.None? {
        return None;
      }
      annotations := annotations + [a.value];
    }
    assert annotations == Annotations(source, events, edits).value;
    return Some(annotations);
  }

  predicate Internal(e: Event) {
    e.operation.TermEvidence? && e.operation.edge.correspondence == "internal_z3"
  }

  lemma {:induction false} EdgeLookup(source: Bytes, events: seq<Event>, displayed: Bytes, edits: seq<Edit<Byte>>,
                                      e: Event)
    requires Accepts(source, events) && e in events && e.operation.TermEvidence?
    ensures Annotate(Catalogue(events), displayed, edits, e).Some? <==> !Internal(e)
  {
    CatalogueHeads(source, events);
    CatalogueIsLedger(source, events);
    EdgeAgrees(source, events, e.operation.edge);
  }

  /**
   Building annotations from an accepted trace misses a lookup exactly when the trace carries
   evidence about an internal solver term, which owns no source node.
   */
  lemma {:induction false} LookupsSucceed(source: Bytes, events: seq<Event>, edits: seq<Edit<Byte>>)
    requires Accepts(source, events) && Ordered(edits, 0, |source|)
    ensures Annotations(source, events, edits).Some? <==> forall e | e in events :: !Internal(e)
  {
    var evidence := EvidenceOf(events);
    forall e: Event
      ensures e in evidence <==> e in events && e.operation.TermEvidence?
    {
      EvidenceMember(events, e);
    }
    forall e | e in evidence
      ensures Annotate(Catalogue(events), Apply(source, edits), edits, e).Some? <==> !Internal(e)
    {
      EdgeLookup(source, events, Apply(source, edits), edits, e);
    }
    assert forall e | e in events && Internal(e) :: e in evidence;
  }
}
