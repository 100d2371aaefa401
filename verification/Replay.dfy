/**
 The one-pass trace validator (fine/rainfall_replay.py, `validate`): a declarative specification
 over event positions, the loop that grows a ledger of sets and dictionaries, and the proof that
 the loop accepts exactly the traces the specification describes.
 */
module Replay {
  import opened Wrappers
  import opened Utf8
  import opened Snapshots
  import opened Traces

  // ----- the specification -----

  ghost predicate KnownTerm(events: seq<Event>, k: nat, term: string)
    requires k <= |events|
  {
    Knows(events, k, TermEntry, term)
  }

  ghost predicate KnownTerms(events: seq<Event>, k: nat, terms: seq<string>)
    requires k <= |events|
  {
    forall i | 0 <= i < |terms| :: KnownTerm(events, k, terms[i])
  }

  ghost predicate HeaderOk(events: seq<Event>, k: nat)
    requires k < |events|
  {
    var e := events[k];
    && e.schema == "fine.rainfall.v2"
    && e.sequence == k
    && e.envelope == events[0].envelope
    && !Knows(events, k, IdEntry, e.id)
    && (forall i | 0 <= i < |e.within| :: e.within[i] != "")
    && (forall j | 0 <= j < k :: !Terminal(events[j].operation))
  }

  ghost predicate SnapshotOk(source: Bytes, events: seq<Event>, k: nat, s: Snapshot)
    requires k <= |events|
  {
    && !Knows(events, k, SnapshotEntry, s.id)
    && Knows(events, k, DocumentEntry, s.identity.document)
    && 0 <= s.identity.revision
    && s.identity == Identify(source, s.identity.document, s.identity.revision)
  }

  ghost predicate NodeOk(source: Bytes, events: seq<Event>, k: nat, n: SourceNode)
    requires k <= |events|
  {
    && !Knows(events, k, NodeEntry, n.id)
    && Knows(events, k, SnapshotEntry, n.snapshot)
    && 0 <= n.parseId && !Knows(events, k, ParseIdEntry, n.parseId)
    && n.syntaxKind != ""
    && 0 <= n.begin <= n.end <= |source|
  }

  predicate Aliases(names: seq<string>) {
    DistinctNames(names) && forall i | 0 <= i < |names| :: names[i] != ""
  }

  function SortNames(sorts: seq<SortBinding>): seq<string> {
    seq(|sorts|, i requires 0 <= i < |sorts| => sorts[i].name)
  }

  function DeclarationNames(declarations: seq<DeclarationBinding>): seq<string> {
    seq(|declarations|, i requires 0 <= i < |declarations| => declarations[i].name)
  }

  /** The parts of a term declaration that do not depend on earlier events. */
  predicate TermShape(t: Term, envelope: Envelope) {
    var sorts := SortNames(t.sorts);
    && t.envelope == envelope
    && 0 <= t.handle
    && t.representation == "fine.generated-term.v1"
    && t.origin != "" && t.text != []
    && t.renderingHash == Sha256(Encode(t.text))
    && t.reifyValidation == "pending"
    && Aliases(sorts) && Aliases(DeclarationNames(t.declarations))
    && (forall d | d in t.declarations :: d.range in sorts && forall s | s in d.domain :: s in sorts)
  }

  ghost predicate TermOk(events: seq<Event>, k: nat, t: Term)
    requires k < |events|
  {
    && !KnownTerm(events, k, t.id)
    && !Knows(events, k, HandleEntry, t.handle)
    && TermShape(t, events[0].envelope)
  }

  ghost predicate LiftOk(events: seq<Event>, k: nat, l: Lift)
    requires k <= |events|
  {
    && !Knows(events, k, LiftEntry, l.term)
    && l.exactIdentity
    && exists j :: 0 <= j < k && events[j].operation.TermDeclare?
                   && events[j].operation.term.id == l.term
                   && events[j].operation.term.renderingHash == l.renderingHash
  }

  predicate HoleShape(h: Hole) {
    h.name != "" && h.expectedType == "Int" && h.grammar == "fine.qf-lia-int.v1"
  }

  ghost predicate HoleOk(events: seq<Event>, k: nat, h: Hole)
    requires k <= |events|
  {
    && !Knows(events, k, HoleEntry, h.id)
    && Knows(events, k, SnapshotEntry, h.snapshot)
    && (exists j :: 0 <= j < k && events[j].operation.NodeDeclare?
                    && events[j].operation.node.id == h.source
                    && events[j].operation.node.snapshot == h.snapshot
                    && events[j].operation.node.syntaxKind == "expr.hole")
    && HoleShape(h)
    && KnownTerms(events, k, h.inputs)
  }

  ghost predicate ArmOk(events: seq<Event>, k: nat, a: Arm)
    requires k <= |events|
  {
    && Knows(events, k, HoleEntry, a.hole)
    && !Knows(events, k, ArmEntry, a.hole)
    && a.ctor != "" && a.body != [] && a.status == "verified"
    && KnownTerm(events, k, a.semanticTerm)
  }

  /** The replacement is the verified body of a declared hole, put on the hole's own span. */
  ghost predicate ReplacementOk(events: seq<Event>, k: nat, r: Replacement)
    requires k <= |events|
  {
    && r.insert != []
    && (exists h, n :: 0 <= h < k && 0 <= n < k
                       && events[h].operation.HoleDeclare? && events[h].operation.hole.id == r.hole
                       && events[n].operation.NodeDeclare?
                       && events[n].operation.node.id == events[h].operation.hole.source
                       && events[n].operation.node.begin == r.begin
                       && events[n].operation.node.end == r.end)
    && (exists a :: 0 <= a < k && events[a].operation.ArmClose?
                    && events[a].operation.arm.hole == r.hole
                    && events[a].operation.arm.body == r.insert)
  }

  ghost predicate Apart(replacements: seq<Replacement>) {
    forall i, j | 0 <= i < j < |replacements| ::
      replacements[i].hole != replacements[j].hole && replacements[i].end <= replacements[j].begin
  }

  ghost predicate NamesEveryHole(events: seq<Event>, k: nat, replacements: seq<Replacement>)
    requires k <= |events|
  {
    forall j | 0 <= j < k && events[j].operation.HoleDeclare? ::
      exists i :: 0 <= i < |replacements| && replacements[i].hole == events[j].operation.hole.id
  }

  /** The replacements fill exactly the holes declared so far, each once, in source order. */
  ghost predicate ReplacementsOk(events: seq<Event>, k: nat, replacements: seq<Replacement>)
    requires k <= |events|
  {
    && (forall i | 0 <= i < |replacements| :: ReplacementOk(events, k, replacements[i]))
    && Apart(replacements)
    && NamesEveryHole(events, k, replacements)
  }

  ghost predicate WitnessOk(events: seq<Event>, k: nat, w: Witness)
    requires k <= |events|
  {
    && (exists j :: 0 <= j < k && events[j].operation == SynthRunOpen(true))
    && (forall j | 0 <= j < k :: !events[j].operation.MatchWitness?)
    && KnownTerm(events, k, w.semanticTerm) && w.verified
    && w.openArms == |w.replacements|
    && ReplacementsOk(events, k, w.replacements)
  }

  ghost predicate InstanceOk(events: seq<Event>, k: nat, c: Clause)
    requires k <= |events|
  {
    && (exists j :: 0 <= j < k && events[j].id == c.acceptedEvent
                    && events[j].operation == InstanceAccepted(Instance(Some(c.quantifier), Some(c.instance))))
    && KnownTerm(events, k, c.quantifier) && KnownTerm(events, k, c.instance)
    && KnownTerms(events, k, c.bindings)
    && c.relation == "accepted-instance-became-admitted-clause"
  }

  ghost predicate ClauseOk(events: seq<Event>, k: nat, c: Clause)
    requires k <= |events|
  {
    && KnownTerm(events, k, c.proofHint)
    && KnownTerms(events, k, c.literals)
    && c.literalCount == |c.literals|
    && (forall i | 0 <= i < |c.dependencies| :: 0 <= c.dependencies[i])
    && (c.kind == "infer" && c.proofHintHead == "inst" ==> InstanceOk(events, k, c))
  }

  ghost predicate OperationOk(source: Bytes, events: seq<Event>, k: nat)
    requires k < |events|
  {
    match events[k].operation
    case DocumentDeclare(d) => !Knows(events, k, DocumentEntry, d.id)
    case SnapshotDeclare(s) => SnapshotOk(source, events, k, s)
    case NodeDeclare(n) => NodeOk(source, events, k, n)
    case TermDeclare(t) => TermOk(events, k, t)
    case LiftValidate(l) => LiftOk(events, k, l)
    case HoleDeclare(h) => HoleOk(events, k, h)
    case ArmClose(a) => ArmOk(events, k, a)
    case MatchWitness(w) => WitnessOk(events, k, w)
    case ClauseStep(c) => ClauseOk(events, k, c)
    case _ => true
  }

  /** Event `k` is in order, given the events before it. */
  ghost predicate EventOk(source: Bytes, events: seq<Event>, k: nat)
    requires k < |events|
  {
    HeaderOk(events, k) && OperationOk(source, events, k)
  }

  ghost predicate Prior(source: Bytes, events: seq<Event>, k: nat)
    requires k <= |events|
  {
    forall j | 0 <= j < k :: EventOk(source, events, j)
  }

  /** A source-to-term edge, checked against the whole trace. */
  ghost predicate EdgeOk(events: seq<Event>, e: Edge) {
    && e.correspondence in {"exact", "desugared", "generated", "internal_z3"}
    && KnownTerm(events, |events|, e.term)
    && (if e.correspondence == "internal_z3" then e.source.None?
        else
          && e.source.Some?
          && exists j :: 0 <= j < |events| && events[j].operation.NodeDeclare?
                         && events[j].operation.node.id == e.source.value
                         && e.snapshot == Some(events[j].operation.node.snapshot))
  }

  /** The evidence edges, in the order of the trace. */
  function Edges(events: seq<Event>): seq<Edge> {
    if events == [] then []
    else
      var e := events[|events| - 1];
      Edges(events[..|events| - 1]) + if e.operation.TermEvidence? then [e.operation.edge] else []
  }

  ghost predicate OnlyOne<K, V>(events: seq<Event>, entry: Entry<K, V>) {
    exists j :: && 0 <= j < |events| && entry(events[j]).Some?
                && forall i | 0 <= i < |events| && entry(events[i]).Some? :: i == j
  }

  /** The trace is complete: nothing is missing at its end. */
  ghost predicate Conclusive(events: seq<Event>)
    requires events != []
  {
    && OnlyOne(events, DocumentEntry)
    && OnlyOne(events, SnapshotEntry)
    && Terminal(events[|events| - 1].operation)
    && (forall j | 0 <= j < |events| && events[j].operation.TermDeclare? ::
          Knows(events, |events|, LiftEntry, events[j].operation.term.id))
    && ((exists j :: 0 <= j < |events| && events[j].operation == SynthRunOpen(true)) ==>
          exists j :: 0 <= j < |events| && events[j].operation.MatchWitness?)
  }

  predicate EnvelopeComplete(e: Envelope) {
    e.run != "" && e.recorder != "" && e.manager != ""
  }

  /** A valid replay of `source`. */
  ghost predicate Accepts(source: Bytes, events: seq<Event>) {
    && events != []
    && EnvelopeComplete(events[0].envelope)
    && Prior(source, events, |events|)
    && Conclusive(events)
    && (forall j | 0 <= j < |events| && events[j].operation.TermEvidence? ::
          EdgeOk(events, events[j].operation.edge))
  }

  // ----- the ledger -----

  /** The sets and dictionaries the validator grows. */
  datatype Ledger =
    Ledger(documents: set<string>, snapshots: map<string, Snapshot>, nodes: map<string, SourceNode>,
           parseIds: set<int>, terms: map<string, Term>, handles: set<int>, lifted: set<string>,
           holes: map<string, Hole>, arms: map<string, Arm>, byId: map<string, Event>,
           evidence: seq<Edge>, terminal: bool, matchRun: bool, witnesses: nat)

  const EMPTY := Ledger({}, map[], map[], {}, map[], {}, {}, map[], map[], map[], [], false, false, 0)

  function AddedKey<K, V>(keys: set<K>, found: Option<(K, V)>): set<K> {
    match found
    case None => keys
    case Some((key, _)) => keys + {key}
  }

  /** Each set and dictionary takes up what the event declares for it. */
  function Record(l: Ledger, e: Event): Ledger {
    Ledger(AddedKey(l.documents, DocumentEntry(e)),
           Added(l.snapshots, SnapshotEntry(e)),
           Added(l.nodes, NodeEntry(e)),
           AddedKey(l.parseIds, ParseIdEntry(e)),
           Added(l.terms, TermEntry(e)),
           AddedKey(l.handles, HandleEntry(e)),
           AddedKey(l.lifted, LiftEntry(e)),
           Added(l.holes, HoleEntry(e)),
           Added(l.arms, ArmEntry(e)),
           Added(l.byId, IdEntry(e)),
           if e.operation.TermEvidence? then l.evidence + [e.operation.edge] else l.evidence,
           l.terminal || Terminal(e.operation),
           l.matchRun || e.operation == SynthRunOpen(true),
           if e.operation.MatchWitness? then l.witnesses + 1 else l.witnesses)
  }

  function LedgerOf(events: seq<Event>): Ledger {
    if events == [] then EMPTY
    else Record(LedgerOf(events[..|events| - 1]), events[|events| - 1])
  }

  // ----- the checks, against the ledger -----

  predicate AllIn<V>(keys: seq<string>, m: map<string, V>) {
    forall i | 0 <= i < |keys| :: keys[i] in m
  }

  predicate AdmitsHeader(l: Ledger, envelope: Envelope, k: nat, e: Event) {
    && e.schema == "fine.rainfall.v2" && e.sequence == k && e.envelope == envelope
    && e.id !in l.byId
    && (forall i | 0 <= i < |e.within| :: e.within[i] != "")
    && !l.terminal
  }

  predicate AdmitsSnapshot(source: Bytes, l: Ledger, s: Snapshot) {
    && s.id !in l.snapshots && s.identity.document in l.documents
    && 0 <= s.identity.revision && s.identity.byteLength == |source|
    && s.identity.digest == Sha256(source)
  }

  predicate AdmitsNode(source: Bytes, l: Ledger, n: SourceNode) {
    && n.id !in l.nodes && n.snapshot in l.snapshots
    && 0 <= n.parseId && n.parseId !in l.parseIds
    && n.syntaxKind != "" && 0 <= n.begin <= n.end <= |source|
  }

  predicate AdmitsLift(l: Ledger, v: Lift) {
    && v.term in l.terms && v.term !in l.lifted && v.exactIdentity
    && v.renderingHash == l.terms[v.term].renderingHash
  }

  predicate AdmitsHole(l: Ledger, h: Hole) {
    && h.id !in l.holes && h.snapshot in l.snapshots && h.source in l.nodes
    && l.nodes[h.source].snapshot == h.snapshot && l.nodes[h.source].syntaxKind == "expr.hole"
    && HoleShape(h) && AllIn(h.inputs, l.terms)
  }

  predicate AdmitsArm(l: Ledger, a: Arm) {
    && a.hole in l.holes && a.hole !in l.arms && a.ctor != "" && a.body != []
    && a.semanticTerm in l.terms && a.status == "verified"
  }

  predicate AdmitsReplacement(l: Ledger, r: Replacement) {
    && r.hole in l.holes && r.insert != [] && l.holes[r.hole].source in l.nodes
    && l.nodes[l.holes[r.hole].source].begin == r.begin && l.nodes[l.holes[r.hole].source].end == r.end
    && r.hole in l.arms && r.insert == l.arms[r.hole].body
  }

  function Named(replacements: seq<Replacement>): set<string> {
    set i | 0 <= i < |replacements| :: replacements[i].hole
  }

  ghost predicate AdmitsReplacements(l: Ledger, replacements: seq<Replacement>) {
    && (forall i | 0 <= i < |replacements| :: AdmitsReplacement(l, replacements[i]))
    && Apart(replacements)
    && Named(replacements) == l.holes.Keys
  }

  ghost predicate AdmitsWitness(l: Ledger, w: Witness) {
    && l.matchRun && l.witnesses == 0
    && w.semanticTerm in l.terms && w.verified && w.openArms == |w.replacements|
    && AdmitsReplacements(l, w.replacements)
    && l.arms.Keys == l.holes.Keys
  }

  predicate AdmitsInstance(l: Ledger, c: Clause) {
    && c.acceptedEvent in l.byId
    && l.byId[c.acceptedEvent].operation.InstanceAccepted?
    && c.quantifier in l.terms && c.instance in l.terms
    && l.byId[c.acceptedEvent].operation.accepted == Instance(Some(c.quantifier), Some(c.instance))
    && AllIn(c.bindings, l.terms)
    && c.relation == "accepted-instance-became-admitted-clause"
  }

  predicate AdmitsClause(l: Ledger, c: Clause) {
    && c.proofHint in l.terms && AllIn(c.literals, l.terms) && c.literalCount == |c.literals|
    && (forall i | 0 <= i < |c.dependencies| :: 0 <= c.dependencies[i])
    && (c.kind == "infer" && c.proofHintHead == "inst" ==> AdmitsInstance(l, c))
  }

  ghost predicate AdmitsOperation(source: Bytes, l: Ledger, envelope: Envelope, op: Operation) {
    match op
    case DocumentDeclare(d) => d.id !in l.documents
    case SnapshotDeclare(s) => AdmitsSnapshot(source, l, s)
    case NodeDeclare(n) => AdmitsNode(source, l, n)
    case TermDeclare(t) => t.id !in l.terms && t.handle !in l.handles && TermShape(t, envelope)
    case LiftValidate(v) => AdmitsLift(l, v)
    case HoleDeclare(h) => AdmitsHole(l, h)
    case ArmClose(a) => AdmitsArm(l, a)
    case MatchWitness(w) => AdmitsWitness(l, w)
    case ClauseStep(c) => AdmitsClause(l, c)
    case _ => true
  }

  /** Lexicographic order of ranges. */
  predicate Precedes(r: (int, int), s: (int, int)) {
    r.0 < s.0 || (r.0 == s.0 && r.1 <= s.1)
  }

  /** The loop over the replacements of a match witness. */
  method CheckReplacements(l: Ledger, replacements: seq<Replacement>) returns (ok: bool)
    requires forall h | h in l.holes :: l.holes[h].source in l.nodes
    requires forall n | n in l.nodes :: l.nodes[n].begin <= l.nodes[n].end
    ensures ok <==> AdmitsReplacements(l, replacements)
  {
    var named: set<string> := {};
    var ranges: seq<(int, int)> := [];
    var i := 0;
    while i < |replacements|
      invariant 0 <= i <= |replacements| && |ranges| == i
      invariant named == set j | 0 <= j < i :: replacements[j].hole
      invariant forall j | 0 <= j < i :: AdmitsReplacement(l, replacements[j])
      invariant forall j | 0 <= j < i :: ranges[j] == (replacements[j].begin, replacements[j].end)
      invariant forall j | 0 <= j < i :: ranges[j].0 <= ranges[j].1
      invariant forall j, m | 0 <= j < m < i :: replacements[j].hole != replacements[m].hole
    {
      var r := replacements[i];
      if r.hole in named || !AdmitsReplacement(l, r) {
        return false;
      }
      named := named + {r.hole};
      ranges := ranges + [(r.begin, r.end)];
      i := i + 1;
    }
    var apart := CheckOrder(ranges);
    assert apart <==> forall j, m | 0 <= j < m < |replacements| :: replacements[j].end <= replacements[m].begin;
    return apart && named == l.holes.Keys;
  }

  /** Neighbouring ranges in order means all ranges in order. */
  lemma {:induction false} Chain(ranges: seq<(int, int)>)
    requires forall j | 0 <= j < |ranges| :: ranges[j].0 <= ranges[j].1
    requires forall j | 0 < j < |ranges| :: ranges[j - 1].1 <= ranges[j].0
    ensures forall i, j | 0 <= i < j < |ranges| :: ranges[i].1 <= ranges[j].0
  {
    if ranges != [] {
      var last := |ranges| - 1;
      Chain(ranges[..last]);
      forall i | 0 <= i < last
        ensures ranges[i].1 <= ranges[last].0
      {
        if i < last - 1 {
          assert ranges[..last][i].1 <= ranges[..last][last - 1].0;
        }
      }
      forall i, j | 0 <= i < j < |ranges|
        ensures ranges[i].1 <= ranges[j].0
      {
        if j < last {
          assert ranges[..last][i].1 <= ranges[..last][j].0;
        }
      }
    }
  }

  lemma {:induction false} InOrder(ranges: seq<(int, int)>)
    requires forall j | 0 <= j < |ranges| :: ranges[j].0 <= ranges[j].1
    ensures && (forall j | 0 < j < |ranges| :: Precedes(ranges[j - 1], ranges[j]))
            && (forall j | 0 < j < |ranges| :: ranges[j - 1].1 <= ranges[j].0)
        <==> forall i, j | 0 <= i < j < |ranges| :: ranges[i].1 <= ranges[j].0
  {
    if forall j | 0 < j < |ranges| :: ranges[j - 1].1 <= ranges[j].0 {
      Chain(ranges);
    }
  }

  /** The spans are in sorted order and none reaches into the next. */
  method CheckOrder(ranges: seq<(int, int)>) returns (ok: bool)
    requires forall j | 0 <= j < |ranges| :: ranges[j].0 <= ranges[j].1
    ensures ok <==> forall i, j | 0 <= i < j < |ranges| :: ranges[i].1 <= ranges[j].0
  {
    InOrder(ranges);
    var sorted := forall j | 0 < j < |ranges| :: Precedes(ranges[j - 1], ranges[j]);
    var inOrder := forall j | 0 < j < |ranges| :: ranges[j - 1].1 <= ranges[j].0;
    return sorted && inOrder;
  }
}
