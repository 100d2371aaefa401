/** `validate` itself, and the proof that it refines `Replay.Accepts`. */
module Validator {
  import opened Wrappers
  import opened Utf8
  import opened Traces
  import opened Replay

  // ----- what the ledger holds -----

  lemma {:induction false} LedgerStep(events: seq<Event>, k: nat)
    requires k < |events|
    ensures LedgerOf(events[..k + 1]) == Record(LedgerOf(events[..k]), events[k])
  {
    assert events[..k + 1][..k] == events[..k];
  }

  /** The ledger after some events holds what they declared. */
  lemma {:induction false} LedgerHolds(events: seq<Event>)
    ensures var l := LedgerOf(events);
            && l.documents == Gather(events, DocumentEntry).Keys
            && l.snapshots == Gather(events, SnapshotEntry)
            && l.nodes == Gather(events, NodeEntry)
            && l.parseIds == Gather(events, ParseIdEntry).Keys
            && l.terms == Gather(events, TermEntry)
            && l.handles == Gather(events, HandleEntry).Keys
            && l.lifted == Gather(events, LiftEntry).Keys
            && l.holes == Gather(events, HoleEntry)
            && l.arms == Gather(events, ArmEntry)
            && l.byId == Gather(events, IdEntry)
  {
    if events != [] {
      LedgerHolds(events[..|events| - 1]);
    }
  }

  lemma {:induction false} LedgerTerminal(events: seq<Event>, k: nat)
    requires k <= |events|
    ensures LedgerOf(events[..k]).terminal <==> exists j :: 0 <= j < k && Terminal(events[j].operation)
  {
    if k > 0 {
      LedgerTerminal(events, k - 1);
      LedgerStep(events, k - 1);
    }
  }

  lemma {:induction false} LedgerMatchRun(events: seq<Event>, k: nat)
    requires k <= |events|
    ensures LedgerOf(events[..k]).matchRun <==> exists j :: 0 <= j < k && events[j].operation == SynthRunOpen(true)
  {
    if k > 0 {
      LedgerMatchRun(events, k - 1);
      LedgerStep(events, k - 1);
    }
  }

  lemma {:induction false} LedgerWitnesses(events: seq<Event>, k: nat)
    requires k <= |events|
    ensures LedgerOf(events[..k]).witnesses == 0 <==> forall j | 0 <= j < k :: !events[j].operation.MatchWitness?
  {
    if k > 0 {
      LedgerWitnesses(events, k - 1);
      LedgerStep(events, k - 1);
    }
  }

  lemma {:induction false} LedgerFlags(events: seq<Event>, k: nat)
    requires k <= |events|
    ensures var l := LedgerOf(events[..k]);
            && (l.terminal <==> exists j :: 0 <= j < k && Terminal(events[j].operation))
            && (l.matchRun <==> exists j :: 0 <= j < k && events[j].operation == SynthRunOpen(true))
            && (l.witnesses == 0 <==> forall j | 0 <= j < k :: !events[j].operation.MatchWitness?)
  {
    LedgerTerminal(events, k);
    LedgerMatchRun(events, k);
    LedgerWitnesses(events, k);
  }

  /** Orderly events never declare a key twice. */
  lemma {:induction false} PriorDistinct(source: Bytes, events: seq<Event>, k: nat)
    requires k <= |events| && Prior(source, events, k)
    ensures Distinct(events, k, DocumentEntry) && Distinct(events, k, SnapshotEntry)
    ensures Distinct(events, k, NodeEntry)
    ensures Distinct(events, k, TermEntry)
    ensures Distinct(events, k, LiftEntry) && Distinct(events, k, IdEntry)
    ensures Distinct(events, k, HoleEntry) && Distinct(events, k, ArmEntry)
  {
    forall j | 0 <= j < k
      ensures DocumentEntry(events[j]).Some? ==>
                !Knows(events, j, DocumentEntry, DocumentEntry(events[j]).value.0)
      ensures SnapshotEntry(events[j]).Some? ==>
                !Knows(events, j, SnapshotEntry, SnapshotEntry(events[j]).value.0)
      ensures NodeEntry(events[j]).Some? ==>
                !Knows(events, j, NodeEntry, NodeEntry(events[j]).value.0)
      ensures TermEntry(events[j]).Some? ==>
                !Knows(events, j, TermEntry, TermEntry(events[j]).value.0)
      ensures LiftEntry(events[j]).Some? ==>
                !Knows(events, j, LiftEntry, LiftEntry(events[j]).value.0)
      ensures IdEntry(events[j]).Some? ==>
                !Knows(events, j, IdEntry, IdEntry(events[j]).value.0)
      ensures HoleEntry(events[j]).Some? ==>
                !Knows(events, j, HoleEntry, HoleEntry(events[j]).value.0)
      ensures ArmEntry(events[j]).Some? ==>
                !Knows(events, j, ArmEntry, ArmEntry(events[j]).value.0)
    {
      assert EventOk(source, events, j);
    }
    FreshIsDistinct(events, k, DocumentEntry);
    FreshIsDistinct(events, k, SnapshotEntry);
    FreshIsDistinct(events, k, NodeEntry);
    FreshIsDistinct(events, k, TermEntry);
    FreshIsDistinct(events, k, LiftEntry);
    FreshIsDistinct(events, k, IdEntry);
    FreshIsDistinct(events, k, HoleEntry);
    FreshIsDistinct(events, k, ArmEntry);
  }

  // ----- checking the ledger is checking the events -----

  lemma {:induction false} TermsAgree(events: seq<Event>, k: nat, terms: seq<string>)
    requires k <= |events|
    ensures AllIn(terms, LedgerOf(events[..k]).terms) <==> KnownTerms(events, k, terms)
  {
    LedgerHolds(events[..k]);
    forall i | 0 <= i < |terms|
      ensures terms[i] in LedgerOf(events[..k]).terms <==> KnownTerm(events, k, terms[i])
    {
      GatherKeys(events, k, TermEntry, terms[i]);
    }
  }

  lemma {:induction false} TermAgrees(events: seq<Event>, k: nat, term: string)
    requires k <= |events|
    ensures term in LedgerOf(events[..k]).terms <==> KnownTerm(events, k, term)
  {
    LedgerHolds(events[..k]);
    GatherKeys(events, k, TermEntry, term);
  }

  lemma {:induction false} DocumentAgrees(events: seq<Event>, k: nat, d: Document)
    requires k <= |events|
    ensures d.id in LedgerOf(events[..k]).documents <==> Knows(events, k, DocumentEntry, d.id)
  {
    LedgerHolds(events[..k]);
    GatherKeys(events, k, DocumentEntry, d.id);
  }

  lemma {:induction false} TermDeclareAgrees(events: seq<Event>, k: nat, t: Term)
    requires k < |events|
    ensures var l := LedgerOf(events[..k]);
            t.id !in l.terms && t.handle !in l.handles && TermShape(t, events[0].envelope) <==> TermOk(events, k, t)
  {
    LedgerHolds(events[..k]);
    TermAgrees(events, k, t.id);
    GatherKeys(events, k, HandleEntry, t.handle);
  }

  lemma {:induction false} HeaderAgrees(events: seq<Event>, k: nat)
    requires k < |events|
    ensures AdmitsHeader(LedgerOf(events[..k]), events[0].envelope, k, events[k]) <==> HeaderOk(events, k)
  {
    LedgerHolds(events[..k]);
    LedgerFlags(events, k);
    GatherKeys(events, k, IdEntry, events[k].id);
  }

  lemma {:induction false} SnapshotAgrees(source: Bytes, events: seq<Event>, k: nat, s: Snapshot)
    requires k <= |events|
    ensures AdmitsSnapshot(source, LedgerOf(events[..k]), s) <==> SnapshotOk(source, events, k, s)
  {
    LedgerHolds(events[..k]);
    GatherKeys(events, k, SnapshotEntry, s.id);
    GatherKeys(events, k, DocumentEntry, s.identity.document);
  }

  lemma {:induction false} NodeAgrees(source: Bytes, events: seq<Event>, k: nat, n: SourceNode)
    requires k <= |events|
    ensures AdmitsNode(source, LedgerOf(events[..k]), n) <==> NodeOk(source, events, k, n)
  {
    LedgerHolds(events[..k]);
    GatherKeys(events, k, NodeEntry, n.id);
    GatherKeys(events, k, SnapshotEntry, n.snapshot);
    GatherKeys(events, k, ParseIdEntry, n.parseId);
  }

  lemma {:induction false} LiftAgrees(source: Bytes, events: seq<Event>, k: nat, v: Lift)
    requires k <= |events| && Prior(source, events, k)
    ensures AdmitsLift(LedgerOf(events[..k]), v) <==> LiftOk(events, k, v)
  {
    LedgerHolds(events[..k]);
    PriorDistinct(source, events, k);
    GatherKeys(events, k, LiftEntry, v.term);
    if AdmitsLift(LedgerOf(events[..k]), v) {
      var j := Declaration(events, k, TermEntry, v.term);
    }
    if LiftOk(events, k, v) {
      var j :| 0 <= j < k && events[j].operation.TermDeclare?
               && events[j].operation.term.id == v.term
               && events[j].operation.term.renderingHash == v.renderingHash;
      GatherValue(events, k, TermEntry, j);
    }
  }

  lemma {:induction false} HoleAgrees(source: Bytes, events: seq<Event>, k: nat, h: Hole)
    requires k <= |events| && Prior(source, events, k)
    ensures AdmitsHole(LedgerOf(events[..k]), h) <==> HoleOk(events, k, h)
  {
    LedgerHolds(events[..k]);
    PriorDistinct(source, events, k);
    TermsAgree(events, k, h.inputs);
    GatherKeys(events, k, HoleEntry, h.id);
    GatherKeys(events, k, SnapshotEntry, h.snapshot);
    if AdmitsHole(LedgerOf(events[..k]), h) {
      var j := Declaration(events, k, NodeEntry, h.source);
    }
    if HoleOk(events, k, h) {
      var j :| 0 <= j < k && events[j].operation.NodeDeclare?
               && events[j].operation.node.id == h.source
               && events[j].operation.node.snapshot == h.snapshot
               && events[j].operation.node.syntaxKind == "expr.hole";
      GatherValue(events, k, NodeEntry, j);
    }
  }

  lemma {:induction false} ArmAgrees(events: seq<Event>, k: nat, a: Arm)
    requires k <= |events|
    ensures AdmitsArm(LedgerOf(events[..k]), a) <==> ArmOk(events, k, a)
  {
    LedgerHolds(events[..k]);
    TermAgrees(events, k, a.semanticTerm);
    GatherKeys(events, k, HoleEntry, a.hole);
    GatherKeys(events, k, ArmEntry, a.hole);
  }

  lemma {:induction false} ClauseAgrees(source: Bytes, events: seq<Event>, k: nat, c: Clause)
    requires k <= |events| && Prior(source, events, k)
    ensures AdmitsClause(LedgerOf(events[..k]), c) <==> ClauseOk(events, k, c)
  {
    TermAgrees(events, k, c.proofHint);
    TermsAgree(events, k, c.literals);
    InstanceAgrees(source, events, k, c);
  }

  lemma {:induction false} InstanceAgrees(source: Bytes, events: seq<Event>, k: nat, c: Clause)
    requires k <= |events| && Prior(source, events, k)
    ensures AdmitsInstance(LedgerOf(events[..k]), c) <==> InstanceOk(events, k, c)
  {
    LedgerHolds(events[..k]);
    PriorDistinct(source, events, k);
    TermAgrees(events, k, c.quantifier);
    TermAgrees(events, k, c.instance);
    TermsAgree(events, k, c.bindings);
    if AdmitsInstance(LedgerOf(events[..k]), c) {
      var j := Declaration(events, k, IdEntry, c.acceptedEvent);
    }
    if InstanceOk(events, k, c) {
      var j :| 0 <= j < k && events[j].id == c.acceptedEvent
               && events[j].operation == InstanceAccepted(Instance(Some(c.quantifier), Some(c.instance)));
      GatherValue(events, k, IdEntry, j);
    }
  }

  lemma {:induction false} ReplacementAdmitted(source: Bytes, events: seq<Event>, k: nat, r: Replacement)
    requires k <= |events| && Prior(source, events, k)
    requires AdmitsReplacement(LedgerOf(events[..k]), r)
    ensures ReplacementOk(events, k, r)
  {
    LedgerHolds(events[..k]);
    PriorDistinct(source, events, k);
    var h := Declaration(events, k, HoleEntry, r.hole);
    var n := Declaration(events, k, NodeEntry, events[h].operation.hole.source);
    var a := Declaration(events, k, ArmEntry, r.hole);
  }

  lemma {:induction false} ReplacementFound(source: Bytes, events: seq<Event>, k: nat, r: Replacement, h: nat, n: nat,
                                            a: nat)
    requires k <= |events| && Prior(source, events, k) && r.insert != []
    requires h < k && events[h].operation.HoleDeclare? && events[h].operation.hole.id == r.hole
    requires n < k && events[n].operation.NodeDeclare?
    requires events[n].operation.node.id == events[h].operation.hole.source
    requires events[n].operation.node.begin == r.begin && events[n].operation.node.end == r.end
    requires a < k && events[a].operation.ArmClose?
    requires events[a].operation.arm.hole == r.hole && events[a].operation.arm.body == r.insert
    ensures AdmitsReplacement(LedgerOf(events[..k]), r)
  {
    LedgerHolds(events[..k]);
    PriorDistinct(source, events, k);
    GatherValue(events, k, HoleEntry, h);
    GatherValue(events, k, NodeEntry, n);
    GatherValue(events, k, ArmEntry, a);
  }

  lemma {:induction false} ReplacementAgrees(source: Bytes, events: seq<Event>, k: nat, r: Replacement)
    requires k <= |events| && Prior(source, events, k)
    ensures AdmitsReplacement(LedgerOf(events[..k]), r) <==> ReplacementOk(events, k, r)
  {
    if AdmitsReplacement(LedgerOf(events[..k]), r) {
      ReplacementAdmitted(source, events, k, r);
    }
    if ReplacementOk(events, k, r) {
      var h, n :| 0 <= h < k && 0 <= n < k
                  && events[h].operation.HoleDeclare? && events[h].operation.hole.id == r.hole
                  && events[n].operation.NodeDeclare?
                  && events[n].operation.node.id == events[h].operation.hole.source
                  && events[n].operation.node.begin == r.begin
                  && events[n].operation.node.end == r.end;
      var a :| 0 <= a < k && events[a].operation.ArmClose?
               && events[a].operation.arm.hole == r.hole
               && events[a].operation.arm.body == r.insert;
      ReplacementFound(source, events, k, r, h, n, a);
    }
  }

  /** Arms are closed for declared holes only, and holes stand on declared, ordered nodes. */
  lemma {:induction false} HolesAreGrounded(source: Bytes, events: seq<Event>, k: nat)
    requires k <= |events| && Prior(source, events, k)
    ensures var l := LedgerOf(events[..k]);
            && l.arms.Keys <= l.holes.Keys
            && (forall h | h in l.holes :: l.holes[h].source in l.nodes)
            && (forall n | n in l.nodes :: l.nodes[n].begin <= l.nodes[n].end)
  {
    var l := LedgerOf(events[..k]);
    LedgerHolds(events[..k]);
    PriorDistinct(source, events, k);
    forall a | a in l.arms
      ensures a in l.holes
    {
      var j := Declaration(events, k, ArmEntry, a);
      assert EventOk(source, events, j);
      GatherKeys(events, k, HoleEntry, a);
    }
    forall h | h in l.holes
      ensures l.holes[h].source in l.nodes
    {
      var j := Declaration(events, k, HoleEntry, h);
      assert EventOk(source, events, j);
      GatherKeys(events, k, NodeEntry, l.holes[h].source);
    }
    forall n | n in l.nodes
      ensures l.nodes[n].begin <= l.nodes[n].end
    {
      var j := Declaration(events, k, NodeEntry, n);
      assert EventOk(source, events, j);
    }
  }

  /** Naming every declared hole is naming every hole of the ledger. */
  lemma {:induction false} NamedAgrees(source: Bytes, events: seq<Event>, k: nat, replacements: seq<Replacement>)
    requires k <= |events| && Prior(source, events, k)
    ensures LedgerOf(events[..k]).holes.Keys <= Named(replacements) <==>
            NamesEveryHole(events, k, replacements)
  {
    var l := LedgerOf(events[..k]);
    LedgerHolds(events[..k]);
    PriorDistinct(source, events, k);
    if l.holes.Keys <= Named(replacements) {
      forall j | 0 <= j < k && events[j].operation.HoleDeclare?
        ensures exists i :: 0 <= i < |replacements| && replacements[i].hole == events[j].operation.hole.id
      {
        GatherValue(events, k, HoleEntry, j);
        assert events[j].operation.hole.id in Named(replacements);
      }
    } else {
      var h :| h in l.holes && h !in Named(replacements);
      var j := Declaration(events, k, HoleEntry, h);
    }
  }

  lemma {:induction false} KeysForced(l: Ledger, replacements: seq<Replacement>)
    requires forall i | 0 <= i < |replacements| :: AdmitsReplacement(l, replacements[i])
    requires l.holes.Keys <= Named(replacements) && l.arms.Keys <= l.holes.Keys
    ensures Named(replacements) == l.holes.Keys == l.arms.Keys
  {
    assert Named(replacements) <= l.arms.Keys;
  }

  lemma {:induction false} ReplacementsAdmitted(source: Bytes, events: seq<Event>, k: nat,
                                                replacements: seq<Replacement>)
    requires k <= |events| && Prior(source, events, k)
    requires AdmitsReplacements(LedgerOf(events[..k]), replacements)
    ensures ReplacementsOk(events, k, replacements)
  {
    NamedAgrees(source, events, k, replacements);
    forall i | 0 <= i < |replacements|
      ensures ReplacementOk(events, k, replacements[i])
    {
      ReplacementAdmitted(source, events, k, replacements[i]);
    }
  }

  lemma {:induction false} ReplacementsInOrder(source: Bytes, events: seq<Event>, k: nat,
                                               replacements: seq<Replacement>)
    requires k <= |events| && Prior(source, events, k)
    requires ReplacementsOk(events, k, replacements)
    ensures var l := LedgerOf(events[..k]);
            AdmitsReplacements(l, replacements) && l.arms.Keys == l.holes.Keys
  {
    var l := LedgerOf(events[..k]);
    assert forall i | 0 <= i < |replacements| :: AdmitsReplacement(l, replacements[i]) by {
      forall i | 0 <= i < |replacements|
        ensures AdmitsReplacement(l, replacements[i])
      {
        ReplacementAgrees(source, events, k, replacements[i]);
      }
    }
    NamedAgrees(source, events, k, replacements);
    HolesAreGrounded(source, events, k);
    KeysForced(l, replacements);
  }

  lemma {:induction false} WitnessAgrees(source: Bytes, events: seq<Event>, k: nat, w: Witness)
    requires k <= |events| && Prior(source, events, k)
    ensures AdmitsWitness(LedgerOf(events[..k]), w) <==> WitnessOk(events, k, w)
  {
    LedgerFlags(events, k);
    TermAgrees(events, k, w.semanticTerm);
    if AdmitsReplacements(LedgerOf(events[..k]), w.replacements) {
      ReplacementsAdmitted(source, events, k, w.replacements);
    }
    if ReplacementsOk(events, k, w.replacements) {
      ReplacementsInOrder(source, events, k, w.replacements);
    }
  }

  lemma {:induction false} DeclarationAgrees(source: Bytes, events: seq<Event>, k: nat)
    requires k < |events| && Prior(source, events, k)
    requires var op := events[k].operation;
             op.DocumentDeclare? || op.SnapshotDeclare? || op.NodeDeclare? || op.TermDeclare? || op.LiftValidate?
    ensures AdmitsOperation(source, LedgerOf(events[..k]), events[0].envelope, events[k].operation)
        <==> OperationOk(source, events, k)
  {
    match events[k].operation
    case DocumentDeclare(d) => DocumentAgrees(events, k, d);
    case SnapshotDeclare(s) => SnapshotAgrees(source, events, k, s);
    case NodeDeclare(n) => NodeAgrees(source, events, k, n);
    case TermDeclare(t) => TermDeclareAgrees(events, k, t);
    case LiftValidate(v) => LiftAgrees(source, events, k, v);
  }

  /** The check against the ledger decides whether the event is in order. */
  lemma {:induction false} OperationAgrees(source: Bytes, events: seq<Event>, k: nat)
    requires k < |events| && Prior(source, events, k)
    ensures AdmitsOperation(source, LedgerOf(events[..k]), events[0].envelope, events[k].operation)
        <==> OperationOk(source, events, k)
  {
    match events[k].operation
    case HoleDeclare(h) => HoleAgrees(source, events, k, h);
    case ArmClose(a) => ArmAgrees(events, k, a);
    case MatchWitness(w) => WitnessAgrees(source, events, k, w);
    case ClauseStep(c) => ClauseAgrees(source, events, k, c);
    case DocumentDeclare(_) => DeclarationAgrees(source, events, k);
    case SnapshotDeclare(_) => DeclarationAgrees(source, events, k);
    case NodeDeclare(_) => DeclarationAgrees(source, events, k);
    case TermDeclare(_) => DeclarationAgrees(source, events, k);
    case LiftValidate(_) => DeclarationAgrees(source, events, k);
    case _ =>
  }

  // ----- the checks after the loop -----

  lemma {:induction false} OnlyOneAgrees<K(!new), V>(events: seq<Event>, entry: Entry<K, V>)
    requires Distinct(events, |events|, entry)
    ensures |Gather(events, entry).Keys| == 1 <==> OnlyOne(events, entry)
  {
    assert events[..|events|] == events;
    var keys := Gather(events, entry).Keys;
    if |keys| == 1 {
      var key :| key in keys;
      assert keys == {key} by {
        assert |keys - {key}| == 0;
      }
      var j := Declaration(events, |events|, entry, key);
      forall i | 0 <= i < |events| && entry(events[i]).Some?
        ensures i == j
      {
        GatherValue(events, |events|, entry, i);
      }
    }
    if OnlyOne(events, entry) {
      var j :| && 0 <= j < |events| && entry(events[j]).Some?
               && forall i | 0 <= i < |events| && entry(events[i]).Some? :: i == j;
      var key := entry(events[j]).value.0;
      GatherValue(events, |events|, entry, j);
      forall other | other in keys
        ensures other == key
      {
        var i := Declaration(events, |events|, entry, other);
      }
      assert keys == {key};
    }
  }

  /** Every declared term has been lifted exactly when the two key sets agree. */
  lemma {:induction false} LiftedAgrees(source: Bytes, events: seq<Event>)
    requires Prior(source, events, |events|)
    ensures var l := LedgerOf(events);
            l.lifted == l.terms.Keys <==>
            forall j | 0 <= j < |events| && events[j].operation.TermDeclare? ::
              Knows(events, |events|, LiftEntry, events[j].operation.term.id)
  {
    var n, l := |events|, LedgerOf(events);
    assert events[..n] == events;
    LedgerHolds(events);
    PriorDistinct(source, events, n);
    forall t | t in l.lifted
      ensures t in l.terms
    {
      var j := Declaration(events, n, LiftEntry, t);
      assert EventOk(source, events, j);
      GatherKeys(events, n, TermEntry, t);
    }
    forall j | 0 <= j < n && events[j].operation.TermDeclare?
      ensures var t := events[j].operation.term.id;
              t in l.terms && (t in l.lifted <==> Knows(events, n, LiftEntry, t))
    {
      GatherValue(events, n, TermEntry, j);
      GatherKeys(events, n, LiftEntry, events[j].operation.term.id);
    }
    if l.lifted != l.terms.Keys {
      var t :| t in l.terms && t !in l.lifted;
      var j := Declaration(events, n, TermEntry, t);
    }
  }

  predicate Concluded(l: Ledger, last: Event) {
    && |l.documents| == 1 && |l.snapshots| == 1
    && Terminal(last.operation)
    && l.lifted == l.terms.Keys
    && (l.matchRun ==> l.witnesses == 1)
  }

  lemma {:induction false} HeadsAgree(source: Bytes, events: seq<Event>)
    requires Prior(source, events, |events|)
    ensures |LedgerOf(events).documents| == 1 <==> OnlyOne(events, DocumentEntry)
    ensures |LedgerOf(events).snapshots.Keys| == 1 <==> OnlyOne(events, SnapshotEntry)
  {
    LedgerHolds(events);
    PriorDistinct(source, events, |events|);
    OnlyOneAgrees(events, DocumentEntry);
    OnlyOneAgrees(events, SnapshotEntry);
  }

  lemma {:induction false} ConclusionAgrees(source: Bytes, events: seq<Event>)
    requires events != [] && Prior(source, events, |events|)
    ensures Concluded(LedgerOf(events), events[|events| - 1]) <==> Conclusive(events)
  {
    var n := |events|;
    assert events[..n] == events;
    LedgerFlags(events, n);
    HeadsAgree(source, events);
    LiftedAgrees(source, events);
    AtMostOneWitness(source, events, n);
  }

  lemma {:induction false} AtMostOneWitness(source: Bytes, events: seq<Event>, k: nat)
    requires k <= |events| && Prior(source, events, k)
    ensures LedgerOf(events[..k]).witnesses <= 1
  {
    if k > 0 {
      AtMostOneWitness(source, events, k - 1);
      LedgerStep(events, k - 1);
      LedgerFlags(events, k - 1);
      assert EventOk(source, events, k - 1);
    }
  }

  predicate AdmitsEdge(l: Ledger, e: Edge) {
    && e.correspondence in {"exact", "desugared", "generated", "internal_z3"}
    && e.term in l.terms
    && (if e.correspondence == "internal_z3" then e.source.None?
        else e.source.Some? && e.source.value in l.nodes
             && e.snapshot == Some(l.nodes[e.source.value].snapshot))
  }

  lemma {:induction false} EdgeAgrees(source: Bytes, events: seq<Event>, e: Edge)
    requires Prior(source, events, |events|)
    ensures AdmitsEdge(LedgerOf(events), e) <==> EdgeOk(events, e)
  {
    var n := |events|;
    assert events[..n] == events;
    LedgerHolds(events);
    PriorDistinct(source, events, n);
    TermAgrees(events, n, e.term);
    if e.source.Some? {
      if e.source.value in LedgerOf(events).nodes {
        var j := Declaration(events, n, NodeEntry, e.source.value);
      }
      forall j | 0 <= j < n && events[j].operation.NodeDeclare?
        ensures events[j].operation.node.id in LedgerOf(events).nodes
        ensures LedgerOf(events).nodes[events[j].operation.node.id] == events[j].operation.node
      {
        GatherValue(events, n, NodeEntry, j);
      }
    }
  }

  lemma {:induction false} EvidenceAgrees(events: seq<Event>)
    ensures LedgerOf(events).evidence == Edges(events)
  {
    if events != [] {
      EvidenceAgrees(events[..|events| - 1]);
    }
  }

  lemma {:induction false} EdgesMember(events: seq<Event>, e: Edge)
    ensures e in Edges(events) <==> exists j :: 0 <= j < |events| && events[j].operation == TermEvidence(e)
  {
    if events != [] {
      EdgesMember(events[..|events| - 1], e);
    }
  }

  /** The first edge that is out of order, if any. */
  ghost predicate FirstBadEdge(events: seq<Event>, index: nat) {
    && index < |Edges(events)| && !EdgeOk(events, Edges(events)[index])
    && forall m | 0 <= m < index :: EdgeOk(events, Edges(events)[m])
  }

  // ----- the validator -----

  datatype Verdict =
    | Accepted(events: nat, nodes: nat, terms: nat, edges: nat)
    | BadEnvelope
    | BadEvent(sequence: nat)
    | Inconclusive
    | BadEdge(index: nat)

  method CheckOperation(source: Bytes, l: Ledger, envelope: Envelope, op: Operation) returns (ok: bool)
    requires forall h | h in l.holes :: l.holes[h].source in l.nodes
    requires forall n | n in l.nodes :: l.nodes[n].begin <= l.nodes[n].end
    ensures ok <==> AdmitsOperation(source, l, envelope, op)
  {
    match op
    case DocumentDeclare(d) => ok := d.id !in l.documents;
    case SnapshotDeclare(s) => ok := AdmitsSnapshot(source, l, s);
    case NodeDeclare(n) => ok := AdmitsNode(source, l, n);
    case TermDeclare(t) => ok := t.id !in l.terms && t.handle !in l.handles && TermShape(t, envelope);
    case LiftValidate(v) => ok := AdmitsLift(l, v);
    case HoleDeclare(h) => ok := AdmitsHole(l, h);
    case ArmClose(a) => ok := AdmitsArm(l, a);
    case MatchWitness(w) =>
      ok := CheckReplacements(l, w.replacements);
      ok := ok && l.matchRun && l.witnesses == 0 && w.semanticTerm in l.terms && w.verified
            && w.openArms == |w.replacements| && l.arms.Keys == l.holes.Keys;
    case ClauseStep(c) => ok := AdmitsClause(l, c);
    case _ => ok := true;
  }

  lemma {:induction false} EventAgrees(source: Bytes, events: seq<Event>, k: nat)
    requires k < |events| && Prior(source, events, k)
    ensures var l, envelope := LedgerOf(events[..k]), events[0].envelope;
            (AdmitsHeader(l, envelope, k, events[k]) && AdmitsOperation(source, l, envelope, events[k].operation))
            <==> EventOk(source, events, k)
  {
    HeaderAgrees(events, k);
    OperationAgrees(source, events, k);
  }

  /** The loop over the events, growing the ledger; it stops at the first event out of order. */
  method CheckEvents(source: Bytes, events: seq<Event>) returns (ledger: Ledger, k: nat)
    requires events != []
    ensures k <= |events| && Prior(source, events, k) && (k < |events| ==> !EventOk(source, events, k))
    ensures k == |events| ==> ledger == LedgerOf(events)
  {
    ledger, k := EMPTY, 0;
    while k < |events|
      invariant k <= |events| && Prior(source, events, k) && ledger == LedgerOf(events[..k])
    {
      EventAgrees(source, events, k);
      HolesAreGrounded(source, events, k);
      var ok := CheckOperation(source, ledger, events[0].envelope, events[k].operation);
      if !AdmitsHeader(ledger, events[0].envelope, k, events[k]) || !ok {
        return;
      }
      LedgerStep(events, k);
      ledger, k := Record(ledger, events[k]), k + 1;
    }
    assert events[..k] == events;
  }

  /**
   One pass over the events accepts exactly the valid replays.  A refusal names the first event
   out of order, or says that the orderly events do not make a complete trace.
   */
  method Validate(source: Bytes, events: seq<Event>) returns (v: Verdict)
    requires events != []
    ensures v.Accepted? <==> Accepts(source, events)
    ensures v.BadEnvelope? <==> !EnvelopeComplete(events[0].envelope)
    ensures v.BadEvent? ==> v.sequence < |events| && Prior(source, events, v.sequence)
                            && !EventOk(source, events, v.sequence)
    ensures v.Inconclusive? ==> Prior(source, events, |events|) && !Conclusive(events)
    ensures v.BadEdge? ==> Prior(source, events, |events|) && Conclusive(events) && FirstBadEdge(events, v.index)
    ensures v.Accepted? ==> v.events == |events| && v.terms == |Gather(events, TermEntry)|
                            && v.nodes == |Gather(events, NodeEntry)| && v.edges == |Edges(events)|
  {
    var envelope := events[0].envelope;
    if !EnvelopeComplete(envelope) {
      return BadEnvelope;
    }
    var ledger, first := CheckEvents(source, events);
    if first < |events| {
      return BadEvent(first);
    }
    ConclusionAgrees(source, events);
    if !Concluded(ledger, events[|events| - 1]) {
      return Inconclusive;
    }
    var bad := CheckEdges(ledger);
    if bad.Some? {
      BadEdgeIsFirst(source, events, bad.value);
      return BadEdge(bad.value);
    }
    Justified(source, events);
    LedgerHolds(events);
    EvidenceAgrees(events);
    return Accepted(|events|, |ledger.nodes|, |ledger.terms|, |ledger.evidence|);
  }

  /** The loop over the evidence, after the loop over the events. */
  method CheckEdges(l: Ledger) returns (bad: Option<nat>)
    ensures bad.None? <==> forall e | e in l.evidence :: AdmitsEdge(l, e)
    ensures bad.Some? ==> bad.value < |l.evidence| && !AdmitsEdge(l, l.evidence[bad.value])
    ensures bad.Some? ==> forall m | 0 <= m < bad.value :: AdmitsEdge(l, l.evidence[m])
  {
    for i := 0 to |l.evidence|
      invariant forall m | 0 <= m < i :: AdmitsEdge(l, l.evidence[m])
    {
      if !AdmitsEdge(l, l.evidence[i]) {
        return Some(i);
      }
    }
    return None;
  }

  lemma {:induction false} BadEdgeIsFirst(source: Bytes, events: seq<Event>, index: nat)
    requires Prior(source, events, |events|) && index < |LedgerOf(events).evidence|
    requires !AdmitsEdge(LedgerOf(events), LedgerOf(events).evidence[index])
    requires forall m | 0 <= m < index :: AdmitsEdge(LedgerOf(events), LedgerOf(events).evidence[m])
    ensures FirstBadEdge(events, index) && !Accepts(source, events)
  {
    EvidenceAgrees(events);
    forall m | 0 <= m <= index
      ensures AdmitsEdge(LedgerOf(events), Edges(events)[m]) <==> EdgeOk(events, Edges(events)[m])
    {
      EdgeAgrees(source, events, Edges(events)[m]);
    }
    EdgesMember(events, Edges(events)[index]);
  }

  lemma {:induction false} Justified(source: Bytes, events: seq<Event>)
    requires Prior(source, events, |events|)
    requires forall e | e in LedgerOf(events).evidence :: AdmitsEdge(LedgerOf(events), e)
    ensures forall j | 0 <= j < |events| && events[j].operation.TermEvidence? ::
              EdgeOk(events, events[j].operation.edge)
  {
    EvidenceAgrees(events);
    forall j | 0 <= j < |events| && events[j].operation.TermEvidence?
      ensures EdgeOk(events, events[j].operation.edge)
    {
      EdgesMember(events, events[j].operation.edge);
      EdgeAgrees(source, events, events[j].operation.edge);
    }
  }
}
