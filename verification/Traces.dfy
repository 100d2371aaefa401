/**
 The vocabulary of a Rainfall replay: the events a solver run emits, as far as
 fine/rainfall_replay.py looks at them.  JSON shapes are types here.
 */
module Traces {
  import opened Wrappers
  import opened Utf8
  import opened Snapshots

  datatype Envelope = Envelope(run: string, recorder: string, manager: string)

  datatype Document = Document(id: string, displayName: string)

  datatype Snapshot = Snapshot(id: string, identity: SourceIdentity)

  datatype SourceNode =
    SourceNode(id: string, snapshot: string, parseId: int, syntaxKind: string, begin: int, end: int)

  datatype SortBinding = SortBinding(name: string)

  datatype DeclarationBinding = DeclarationBinding(name: string, domain: seq<string>, range: string)

  datatype Term =
    Term(id: string, envelope: Envelope, handle: int, representation: string, origin: string,
         text: Text, renderingHash: Digest, reifyValidation: string,
         sorts: seq<SortBinding>, declarations: seq<DeclarationBinding>)

  datatype Lift = Lift(term: string, exactIdentity: bool, renderingHash: Digest)

  datatype Hole =
    Hole(id: string, snapshot: string, source: string, name: string, expectedType: string,
         grammar: string, inputs: seq<string>)

  datatype Arm = Arm(hole: string, ctor: string, body: Text, semanticTerm: string, status: string)

  datatype Replacement = Replacement(hole: string, begin: int, end: int, insert: Text)

  datatype Witness =
    Witness(semanticTerm: string, verified: bool, openArms: int, replacements: seq<Replacement>)

  datatype Edge =
    Edge(correspondence: string, term: string, source: Option<string>, snapshot: Option<string>)

  datatype Clause =
    Clause(kind: string, proofHint: string, literals: seq<string>, literalCount: int,
           dependencies: seq<int>, proofHintHead: string, acceptedEvent: string,
           quantifier: string, instance: string, bindings: seq<string>, relation: string)

  datatype Instance = Instance(quantifier: Option<string>, instance: Option<string>)

  datatype Operation =
    | DocumentDeclare(document: Document)      // source.document.declare
    | SnapshotDeclare(snapshot: Snapshot)      // source.snapshot.declare
    | NodeDeclare(node: SourceNode)            // source.node.declare
    | TermDeclare(term: Term)                  // term.declare
    | LiftValidate(lift: Lift)                 // term.lift.validate
    | HoleDeclare(hole: Hole)                  // synth.hole.declare
    | ArmClose(arm: Arm)                       // synth.arm.close
    | MatchWitness(solution: Witness)          // fine.match-witness
    | TermEvidence(edge: Edge)                 // source.term.evidence
    | ClauseStep(clause: Clause)               // z3.clause.<kind>
    | InstanceAccepted(accepted: Instance)     // z3.mbqi-instance, z3.quantifier-instance
    | SynthRunOpen(matched: bool)              // synth.run.open, with a matched parameter or not
    | RunClose(run: string)                    // check, synth, bisim, predicate-check, predicate-induction
    | ProofRunClose(status: string)            // proof.run.close
    | Other(name: string)

  datatype Event =
    Event(schema: string, sequence: int, envelope: Envelope, id: string, within: seq<string>,
          operation: Operation)

  /** Closes the replay: nothing may follow. */
  predicate Terminal(op: Operation) {
    op.RunClose? || (op.ProofRunClose? && op.status != "verified")
  }

  // ----- gathering declarations by key -----

  /** What one event declares under a key, if anything. */
  type Entry<!K, !V> = Event -> Option<(K, V)>

  function DocumentEntry(e: Event): Option<(string, Document)> {
    if e.operation.DocumentDeclare? then Some((e.operation.document.id, e.operation.document)) else None
  }

  function SnapshotEntry(e: Event): Option<(string, Snapshot)> {
    if e.operation.SnapshotDeclare? then Some((e.operation.snapshot.id, e.operation.snapshot)) else None
  }

  function NodeEntry(e: Event): Option<(string, SourceNode)> {
    if e.operation.NodeDeclare? then Some((e.operation.node.id, e.operation.node)) else None
  }

  function ParseIdEntry(e: Event): Option<(int, SourceNode)> {
    if e.operation.NodeDeclare? then Some((e.operation.node.parseId, e.operation.node)) else None
  }

  function TermEntry(e: Event): Option<(string, Term)> {
    if e.operation.TermDeclare? then Some((e.operation.term.id, e.operation.term)) else None
  }

  function HandleEntry(e: Event): Option<(int, Term)> {
    if e.operation.TermDeclare? then Some((e.operation.term.handle, e.operation.term)) else None
  }

  function LiftEntry(e: Event): Option<(string, Lift)> {
    if e.operation.LiftValidate? then Some((e.operation.lift.term, e.operation.lift)) else None
  }

  function HoleEntry(e: Event): Option<(string, Hole)> {
    if e.operation.HoleDeclare? then Some((e.operation.hole.id, e.operation.hole)) else None
  }

  function ArmEntry(e: Event): Option<(string, Arm)> {
    if e.operation.ArmClose? then Some((e.operation.arm.hole, e.operation.arm)) else None
  }

  function IdEntry(e: Event): Option<(string, Event)> {
    Some((e.id, e))
  }

  function Added<K, V>(m: map<K, V>, found: Option<(K, V)>): map<K, V> {
    match found
    case None => m
    case Some((key, value)) => m[key := value]
  }

  /** A dictionary built by walking the events; a later entry replaces an earlier one. */
  function Gather<K, V>(events: seq<Event>, entry: Entry<K, V>): map<K, V> {
    if events == [] then map[]
    else Added(Gather(events[..|events| - 1], entry), entry(events[|events| - 1]))
  }

  /** Some event before `k` declares `key`. */
  ghost predicate Knows<K(!new), V>(events: seq<Event>, k: nat, entry: Entry<K, V>, key: K)
    requires k <= |events|
  {
    exists j :: 0 <= j < k && entry(events[j]).Some? && entry(events[j]).value.0 == key
  }

  /** No two of the first `k` events declare the same key. */
  ghost predicate Distinct<K(!new), V>(events: seq<Event>, k: nat, entry: Entry<K, V>)
    requires k <= |events|
  {
    forall i, j | 0 <= i < j < k && entry(events[i]).Some? && entry(events[j]).Some? ::
      entry(events[i]).value.0 != entry(events[j]).value.0
  }

  lemma {:induction false} FreshIsDistinct<K(!new), V>(events: seq<Event>, k: nat, entry: Entry<K, V>)
    requires k <= |events|
    requires forall j | 0 <= j < k && entry(events[j]).Some? ::
               !Knows(events, j, entry, entry(events[j]).value.0)
    ensures Distinct(events, k, entry)
  {
  }

  lemma {:induction false} GatherStep<K, V>(events: seq<Event>, k: nat, entry: Entry<K, V>)
    requires k < |events|
    ensures Gather(events[..k + 1], entry) == Added(Gather(events[..k], entry), entry(events[k]))
  {
    assert events[..k + 1][..k] == events[..k];
  }

  /** The keys gathered are the keys declared. */
  lemma {:induction false} GatherKeys<K(!new), V>(events: seq<Event>, k: nat, entry: Entry<K, V>, key: K)
    requires k <= |events|
    ensures key in Gather(events[..k], entry) <==> Knows(events, k, entry, key)
  {
    if k > 0 {
      GatherStep(events, k - 1, entry);
      GatherKeys(events, k - 1, entry, key);
    }
  }

  /** Without collisions, the value gathered under a key is the one any declaration of it gave. */
  lemma {:induction false} GatherValue<K(!new), V>(events: seq<Event>, k: nat, entry: Entry<K, V>, j: nat)
    requires j < k <= |events| && Distinct(events, k, entry) && entry(events[j]).Some?
    ensures var (key, value) := entry(events[j]).value;
            var m := Gather(events[..k], entry);
            key in m && m[key] == value
  {
    GatherStep(events, k - 1, entry);
    if j < k - 1 {
      GatherValue(events, k - 1, entry, j);
    }
  }

  lemma {:induction false} Declaration<K(!new), V>(events: seq<Event>, k: nat, entry: Entry<K, V>, key: K)
        returns (j: nat)
    requires k <= |events| && key in Gather(events[..k], entry) && Distinct(events, k, entry)
    ensures j < k && entry(events[j]) == Some((key, Gather(events[..k], entry)[key]))
  {
    GatherKeys(events, k, entry, key);
    j :| 0 <= j < k && entry(events[j]).Some? && entry(events[j]).value.0 == key;
    GatherValue(events, k, entry, j);
  }
}
