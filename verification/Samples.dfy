/** Two small families of valid traces: one with a piece of evidence, one with a hole to fill. */
module Samples {
  import opened Wrappers
  import opened Utf8
  import opened Snapshots
  import opened Traces
  import opened Replay
  import opened Projection
  import opened Host
  import opened Completion
  import opened Materialization

  /** The run a trace is of, and the source and revision it is about. */
  datatype Setting = Setting(run: string, source: Bytes, revision: int)

  predicate Valid(at: Setting) {
    at.run != "" && 0 <= at.revision
  }

  function EnvelopeOf(at: Setting): Envelope {
    Envelope(at.run, "r", "m")
  }

  function TermOf(at: Setting): Term {
    Term("t", EnvelopeOf(at), 0, "fine.generated-term.v1", "o", [65], Sha256(Encode([65])), "pending", [], [])
  }

  const LIFT := Lift("t", true, Sha256(Encode([65])))

  function Step(at: Setting, sequence: int, id: string, operation: Operation): Event {
    Event("fine.rainfall.v2", sequence, EnvelopeOf(at), id, [], operation)
  }

  function SnapshotOf(at: Setting): Snapshot {
    Snapshot("s", Identify(at.source, "d", at.revision))
  }

  // ----- evidence -----

  /** A complete trace with one source node, from `begin` to `end`, one term and one evidence edge. */
  function Trace(at: Setting, begin: int, end: int, edge: Edge): (events: seq<Event>)
    ensures |events| == 7
  {
    [Step(at, 0, "e0", DocumentDeclare(Document("d", "x"))),
     Step(at, 1, "e1", SnapshotDeclare(SnapshotOf(at))),
     Step(at, 2, "e2", NodeDeclare(SourceNode("n", "s", 0, "expr", begin, end))),
     Step(at, 3, "e3", TermDeclare(TermOf(at))),
     Step(at, 4, "e4", LiftValidate(LIFT)),
     Step(at, 5, "e5", TermEvidence(edge)),
     Step(at, 6, "e6", RunClose("check"))]
  }

  const OWNED := Edge("exact", "t", Some("n"), Some("s"))
  const INTERNAL := Edge("internal_z3", "t", None, None)

  lemma {:induction false} TraceHeaders(at: Setting, begin: int, end: int, edge: Edge, k: nat)
    requires k < 7
    ensures HeaderOk(Trace(at, begin, end, edge), k)
  {
    var events := Trace(at, begin, end, edge);
    forall j | 0 <= j < k
      ensures events[j].id != events[k].id && !Terminal(events[j].operation)
    {
      assert events[j].id[1] != events[k].id[1];
    }
  }

  lemma {:induction false} TraceOperations(at: Setting, begin: int, end: int, edge: Edge, k: nat)
    requires k < 7 && Valid(at) && 0 <= begin <= end <= |at.source|
    ensures OperationOk(at.source, Trace(at, begin, end, edge), k)
  {
    var events := Trace(at, begin, end, edge);
    assert DocumentEntry(events[0]) == Some(("d", Document("d", "x")));
    assert SnapshotEntry(events[1]).Some? && SnapshotEntry(events[1]).value.0 == "s";
    assert TermEntry(events[3]) == Some(("t", TermOf(at)));
    if k == 3 {
      assert SortNames([]) == [] && DeclarationNames([]) == [];
      assert TermShape(TermOf(at), EnvelopeOf(at));
    }
  }

  lemma {:induction false} TraceIsOrderly(at: Setting, begin: int, end: int, edge: Edge)
    requires Valid(at) && 0 <= begin <= end <= |at.source|
    ensures Prior(at.source, Trace(at, begin, end, edge), 7)
  {
    forall k | 0 <= k < 7
      ensures EventOk(at.source, Trace(at, begin, end, edge), k)
    {
      TraceHeaders(at, begin, end, edge, k);
      TraceOperations(at, begin, end, edge, k);
    }
  }

  lemma {:induction false} TraceHeads(at: Setting, begin: int, end: int, edge: Edge)
    ensures OnlyOne(Trace(at, begin, end, edge), DocumentEntry) && OnlyOne(Trace(at, begin, end, edge), SnapshotEntry)
  {
    var events := Trace(at, begin, end, edge);
    assert DocumentEntry(events[0]).Some? && SnapshotEntry(events[1]).Some?;
    forall i | 0 <= i < 7
      ensures DocumentEntry(events[i]).Some? ==> i == 0
      ensures SnapshotEntry(events[i]).Some? ==> i == 1
    {
    }
  }

  lemma {:induction false} TraceLifts(at: Setting, begin: int, end: int, edge: Edge)
    ensures Knows(Trace(at, begin, end, edge), 7, LiftEntry, "t")
  {
    assert LiftEntry(Trace(at, begin, end, edge)[4]) == Some(("t", LIFT));
  }

  lemma {:induction false} TraceIsConclusive(at: Setting, begin: int, end: int, edge: Edge)
    ensures Conclusive(Trace(at, begin, end, edge))
  {
    var events := Trace(at, begin, end, edge);
    TraceHeads(at, begin, end, edge);
    TraceLifts(at, begin, end, edge);
    forall j | 0 <= j < 7
      ensures events[j].operation.TermDeclare? ==> events[j].operation.term.id == "t"
      ensures events[j].operation != SynthRunOpen(true)
    {
    }
  }

  lemma {:induction false} TraceEdges(at: Setting, begin: int, end: int, edge: Edge)
    requires edge == OWNED || edge == INTERNAL
    ensures EdgeOk(Trace(at, begin, end, edge), edge)
  {
    var events := Trace(at, begin, end, edge);
    assert TermEntry(events[3]) == Some(("t", TermOf(at)));
    assert events[2].operation == NodeDeclare(SourceNode("n", "s", 0, "expr", begin, end));
  }

  /** One edge is checked on behalf of all. */
  lemma {:induction false} AcceptedBy(source: Bytes, events: seq<Event>, edge: Edge)
    requires events != [] && EnvelopeComplete(events[0].envelope)
    requires Prior(source, events, |events|) && Conclusive(events) && EdgeOk(events, edge)
    requires forall j | 0 <= j < |events| && events[j].operation.TermEvidence? :: events[j].operation.edge == edge
    ensures Accepts(source, events)
  {
  }

  /** The trace is valid, for an empty node and for an internal edge too. */
  lemma {:induction false} TraceIsValid(at: Setting, begin: int, end: int, edge: Edge)
    requires Valid(at) && 0 <= begin <= end <= |at.source| && (edge == OWNED || edge == INTERNAL)
    ensures Accepts(at.source, Trace(at, begin, end, edge))
  {
    TraceIsOrderly(at, begin, end, edge);
    TraceIsConclusive(at, begin, end, edge);
    TraceEdges(at, begin, end, edge);
    OnlyEdge(at, begin, end, edge);
    AcceptedBy(at.source, Trace(at, begin, end, edge), edge);
  }

  lemma {:induction false} OnlyEdge(at: Setting, begin: int, end: int, edge: Edge)
    ensures var events := Trace(at, begin, end, edge);
            forall j | 0 <= j < 7 && events[j].operation.TermEvidence? :: events[j].operation.edge == edge
  {
  }

  lemma {:induction false} TraceInternal(at: Setting, begin: int, end: int, edge: Edge)
    requires edge == OWNED || edge == INTERNAL
    ensures (exists e | e in Trace(at, begin, end, edge) :: Internal(e)) <==> edge == INTERNAL
  {
    var events := Trace(at, begin, end, edge);
    assert events[5] in events && (Internal(events[5]) <==> edge == INTERNAL);
    assert forall j | 0 <= j < 7 && j != 5 :: !Internal(events[j]);
  }

  lemma {:induction false} TraceEmpty(at: Setting, begin: int, end: int)
    ensures EmptyEvidence(Trace(at, begin, end, OWNED)) <==> begin >= end
  {
    var events := Trace(at, begin, end, OWNED);
    assert events[5].operation == TermEvidence(OWNED);
    assert events[2].operation == NodeDeclare(SourceNode("n", "s", 0, "expr", begin, end));
    assert forall n | 0 <= n < 7 && events[n].operation.NodeDeclare? :: n == 2;
  }

  lemma {:induction false} TraceSnapshot(at: Setting, begin: int, end: int, edge: Edge)
    requires Accepts(at.source, Trace(at, begin, end, edge))
    ensures Catalogue(Trace(at, begin, end, edge)).snapshot == Some(SnapshotOf(at))
  {
    CatalogueHeads(at.source, Trace(at, begin, end, edge));
    assert Trace(at, begin, end, edge)[1].operation == SnapshotDeclare(SnapshotOf(at));
  }

  // ----- something to materialise -----

  const HOLE := Hole("h", "s", "n", "x", "Int", "fine.qf-lia-int.v1", [])
  const ARM := Arm("h", "C", [66], "t", "verified")

  function Filling(end: int): Replacement {
    Replacement("h", 0, end, [66])
  }

  /** The source begins with a hole that ends at `end`; its verified body is `B`. */
  function Synthesis(at: Setting, end: int): (events: seq<Event>)
    ensures |events| == 10
  {
    [Step(at, 0, "e0", DocumentDeclare(Document("d", "x"))),
     Step(at, 1, "e1", SnapshotDeclare(SnapshotOf(at))),
     Step(at, 2, "e2", NodeDeclare(SourceNode("n", "s", 0, "expr.hole", 0, end))),
     Step(at, 3, "e3", TermDeclare(TermOf(at))),
     Step(at, 4, "e4", LiftValidate(LIFT)),
     Step(at, 5, "e5", SynthRunOpen(true)),
     Step(at, 6, "e6", HoleDeclare(HOLE)),
     Step(at, 7, "e7", ArmClose(ARM)),
     Step(at, 8, "e8", MatchWitness(Witness("t", true, 1, [Filling(end)]))),
     Step(at, 9, "e9", RunClose("synth"))]
  }

  lemma {:induction false} SynthesisHeaders(at: Setting, end: int, k: nat)
    requires k < 10
    ensures HeaderOk(Synthesis(at, end), k)
  {
    var events := Synthesis(at, end);
    forall j | 0 <= j < k
      ensures events[j].id != events[k].id && !Terminal(events[j].operation)
    {
      assert events[j].id[1] != events[k].id[1];
    }
  }

  lemma {:induction false} SynthesisBasics(at: Setting, end: int, k: nat)
    requires k < 10 && k != 6 && k != 7 && k != 8 && Valid(at) && 0 <= end <= |at.source|
    ensures OperationOk(at.source, Synthesis(at, end), k)
  {
    var events := Synthesis(at, end);
    assert DocumentEntry(events[0]) == Some(("d", Document("d", "x")));
    assert SnapshotEntry(events[1]).Some? && SnapshotEntry(events[1]).value.0 == "s";
    assert TermEntry(events[3]) == Some(("t", TermOf(at)));
    if k == 3 {
      assert SortNames([]) == [] && DeclarationNames([]) == [];
      assert TermShape(TermOf(at), EnvelopeOf(at));
    }
  }

  lemma {:induction false} SynthesisHole(at: Setting, end: int)
    ensures HoleOk(Synthesis(at, end), 6, HOLE) && ArmOk(Synthesis(at, end), 7, ARM)
  {
    var events := Synthesis(at, end);
    assert SnapshotEntry(events[1]).Some? && SnapshotEntry(events[1]).value.0 == "s";
    assert TermEntry(events[3]) == Some(("t", TermOf(at)));
    assert HoleEntry(events[6]) == Some(("h", HOLE));
    assert events[2].operation == NodeDeclare(SourceNode("n", "s", 0, "expr.hole", 0, end));
    assert forall j | 0 <= j < 6 :: HoleEntry(events[j]).None?;
    assert forall j | 0 <= j < 7 :: ArmEntry(events[j]).None?;
  }

  lemma {:induction false} FillingIsVerified(at: Setting, end: int)
    ensures ReplacementOk(Synthesis(at, end), 8, Filling(end))
  {
    var events := Synthesis(at, end);
    assert events[2].operation == NodeDeclare(SourceNode("n", "s", 0, "expr.hole", 0, end));
    assert events[6].operation == HoleDeclare(HOLE) && events[7].operation == ArmClose(ARM);
  }

  lemma {:induction false} FillingNamesTheHole(at: Setting, end: int)
    ensures NamesEveryHole(Synthesis(at, end), 8, [Filling(end)])
  {
    var events := Synthesis(at, end);
    forall j | 0 <= j < 8 && events[j].operation.HoleDeclare?
      ensures exists i :: 0 <= i < |[Filling(end)]| && [Filling(end)][i].hole == events[j].operation.hole.id
    {
      assert [Filling(end)][0].hole == events[j].operation.hole.id;
    }
  }

  lemma {:induction false} SynthesisFilling(at: Setting, end: int)
    ensures WitnessOk(Synthesis(at, end), 8, Witness("t", true, 1, [Filling(end)]))
  {
    var events := Synthesis(at, end);
    assert TermEntry(events[3]) == Some(("t", TermOf(at)));
    assert events[5].operation == SynthRunOpen(true);
    assert forall j | 0 <= j < 8 :: !events[j].operation.MatchWitness?;
    FillingIsVerified(at, end);
    FillingNamesTheHole(at, end);
  }

  lemma {:induction false} SynthesisIsOrderly(at: Setting, end: int)
    requires Valid(at) && 0 <= end <= |at.source|
    ensures Prior(at.source, Synthesis(at, end), 10)
  {
    forall k | 0 <= k < 10
      ensures EventOk(at.source, Synthesis(at, end), k)
    {
      SynthesisHeaders(at, end, k);
      if k == 6 || k == 7 {
        SynthesisHole(at, end);
      } else if k == 8 {
        SynthesisFilling(at, end);
      } else {
        SynthesisBasics(at, end, k);
      }
    }
  }

  lemma {:induction false} SynthesisIsConclusive(at: Setting, end: int)
    ensures Conclusive(Synthesis(at, end))
  {
    var events := Synthesis(at, end);
    assert DocumentEntry(events[0]).Some? && SnapshotEntry(events[1]).Some?;
    forall i | 0 <= i < 10
      ensures DocumentEntry(events[i]).Some? ==> i == 0
      ensures SnapshotEntry(events[i]).Some? ==> i == 1
      ensures events[i].operation.TermDeclare? ==> events[i].operation.term.id == "t"
    {
    }
    assert LiftEntry(events[4]) == Some(("t", LIFT));
    assert events[8].operation.MatchWitness?;
  }

  lemma {:induction false} SynthesisHasNoEvidence(at: Setting, end: int)
    ensures forall j | 0 <= j < 10 :: !Synthesis(at, end)[j].operation.TermEvidence?
  {
  }

  /** The synthesis trace is valid. */
  lemma {:induction false} SynthesisIsValid(at: Setting, end: int)
    requires Valid(at) && 0 <= end <= |at.source|
    ensures Accepts(at.source, Synthesis(at, end))
  {
    SynthesisIsOrderly(at, end);
    SynthesisIsConclusive(at, end);
    SynthesisHasNoEvidence(at, end);
    assert EnvelopeComplete(EnvelopeOf(at)) && Synthesis(at, end)[0].envelope == EnvelopeOf(at);
  }

  lemma {:induction false} SynthesisSnapshot(at: Setting, end: int)
    requires Accepts(at.source, Synthesis(at, end))
    ensures Catalogue(Synthesis(at, end)).snapshot == Some(SnapshotOf(at))
  {
    CatalogueHeads(at.source, Synthesis(at, end));
    assert Synthesis(at, end)[1].operation == SnapshotDeclare(SnapshotOf(at));
  }

  lemma {:induction false} NoWitness(events: seq<Event>)
    requires forall e | e in events :: !e.operation.MatchWitness?
    ensures Witnesses(events) == []
    decreases |events|
  {
    if events != [] {
      NoWitness(events[1..]);
    }
  }

  lemma {:induction false} OneWitness(events: seq<Event>, k: nat)
    requires k < |events| && events[k].operation.MatchWitness?
    requires forall j | 0 <= j < |events| && j != k :: !events[j].operation.MatchWitness?
    ensures Witnesses(events) == [events[k].operation.solution]
    decreases |events|
  {
    assert forall j | 0 <= j < |events| - 1 :: events[1..][j] == events[j + 1];
    if k == 0 {
      NoWitness(events[1..]);
    } else {
      OneWitness(events[1..], k - 1);
    }
  }

  lemma {:induction false} SynthesisWitness(at: Setting, end: int)
    ensures Witnesses(Synthesis(at, end)) == [Witness("t", true, 1, [Filling(end)])]
  {
    var events := Synthesis(at, end);
    assert events[8].operation.solution == Witness("t", true, 1, [Filling(end)]);
    OneWitness(events, 8);
  }

  /** While the source still starts with a question mark, there is something to materialise. */
  lemma {:induction false} SynthesisIsFillable(at: Setting, end: int)
    requires 0 < end <= |at.source| && at.source[0] == 63
    ensures Materializable(at.source, Synthesis(at, end))
  {
    SynthesisWitness(at, end);
    assert forall r | r in [Filling(end)] :: r == Filling(end);
  }
}
