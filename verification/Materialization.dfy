/** Writing the verified arms of an admitted match witness into the source (fine/rainfall_host.py, `materialize`). */
module Materialization {
  import opened Wrappers
  import opened Utf8
  import opened Snapshots
  import opened Traces
  import opened Replay
  import opened Edits
  import opened Transport
  import opened History
  import opened Host
  import opened Integrity
  import opened Runs
  import opened Safety

  // ----- edits that keep the text well-formed -----

  lemma {:induction false} SliceBetween(t: Text, p: nat, q: nat) returns (u: Text)
    requires p <= q <= |Encode(t)| && Boundary(Encode(t), p) && Boundary(Encode(t), q)
    ensures Encode(t)[p..q] == Encode(u)
  {
    var k := SplitAtBoundary(t, p);
    var rest := Encode(t)[p..];
    assert q < |Encode(t)| ==> rest[q - p] == Encode(t)[q];
    var m := SplitAtBoundary(t[k..], q - p);
    u := t[k..][..m];
    assert rest[..q - p] == Encode(t)[p..q];
  }

  /** A character boundary of the source. */
  ghost predicate AlignedAt(source: Bytes, p: int) {
    0 <= p <= |source| && Boundary(source, p)
  }

  /** Unaligned, the rest of the document starts inside a character. */
  lemma {:induction false} RestStartsInside(source: Bytes, edits: seq<Edit<Byte>>, cursor: nat)
    requires Ordered(edits, cursor, |source|) && cursor <= |source| && !Boundary(source, cursor)
    requires edits != [] ==> AlignedAt(source, edits[0].begin)
    ensures Decode(ApplyFrom(source, edits, cursor)).None?
  {
    OrderedBounds(edits, cursor, |source|);
    assert ApplyFrom(source, edits, cursor)[0] == source[cursor];
  }

  /**
   A transaction whose edits all begin on character boundaries leaves valid UTF-8 exactly when
   they all end on character boundaries too.
   */
  lemma {:induction false} AlignedEdits(t: Text, values: seq<EditValue>, cursor: nat)
    requires Ordered(Converted(values), cursor, |Encode(t)|) && AlignedAt(Encode(t), cursor)
    requires forall k | 0 <= k < |values| :: AlignedAt(Encode(t), values[k].begin)
    ensures Decode(ApplyFrom(Encode(t), Converted(values), cursor)).Some? <==>
            forall k | 0 <= k < |values| :: AlignedAt(Encode(t), values[k].end)
    decreases |values|
  {
    var source, edits := Encode(t), Converted(values);
    OrderedBounds(edits, cursor, |source|);
    if values == [] {
      var k := SplitAtBoundary(t, cursor);
      DecodeOfEncode(t[k..]);
    } else {
      var v, later := values[0], values[1..];
      assert edits[1..] == Converted(later);
      assert forall k | 0 <= k < |later| :: later[k] == values[k + 1];
      assert forall k | 1 <= k < |values| :: values[k] == later[k - 1];
      var u := SliceBetween(t, cursor, v.begin);
      var rest := ApplyFrom(source, edits[1..], v.end);
      EncodeConcat(u, v.insert);
      assert ApplyFrom(source, edits, cursor) == Encode(u + v.insert) + rest;
      DecodePrefix(u + v.insert, rest);
      if Boundary(source, v.end) {
        AlignedEdits(t, later, v.end);
      } else {
        RestStartsInside(source, edits[1..], v.end);
      }
    }
  }

  lemma {:induction false} AsciiIsBoundary(source: Bytes, p: nat)
    requires p < |source| && source[p] < 0x80
    ensures AlignedAt(source, p)
  {
  }

  // ----- the witness -----

  lemma {:induction false} WitnessFound(events: seq<Event>, w: Witness) returns (k: nat)
    requires w in Witnesses(events)
    ensures k < |events| && events[k].operation == MatchWitness(w)
  {
    if events[0].operation == MatchWitness(w) {
      k := 0;
    } else {
      k := WitnessFound(events[1..], w);
      k := k + 1;
    }
  }

  lemma {:induction false} HoleInBounds(source: Bytes, events: seq<Event>, k: nat, r: Replacement)
    requires Prior(source, events, |events|) && k < |events| && ReplacementOk(events, k, r)
    ensures 0 <= r.begin <= r.end <= |source|
  {
    var h, n :| 0 <= h < k && 0 <= n < k
                && events[h].operation.HoleDeclare? && events[h].operation.hole.id == r.hole
                && events[n].operation.NodeDeclare?
                && events[n].operation.node.id == events[h].operation.hole.source
                && events[n].operation.node.begin == r.begin
                && events[n].operation.node.end == r.end;
    assert EventOk(source, events, n);
  }

  lemma {:induction false} ApartIsAcceptable(source: Bytes, replacements: seq<Replacement>)
    requires forall r | r in replacements :: 0 <= r.begin < r.end <= |source|
    requires Apart(replacements)
    ensures Acceptable(ToValues(replacements), |source|)
  {
    var values := ToValues(replacements);
    forall i | 0 <= i < |values|
      ensures 0 <= values[i].begin < values[i].end <= |source|
    {
      assert replacements[i] in replacements;
    }
  }

  /** The holes of a valid trace, once they hold text, make an acceptable transaction. */
  lemma {:induction false} HolesAreAcceptable(source: Bytes, events: seq<Event>, k: nat, replacements: seq<Replacement>)
    requires Prior(source, events, |events|) && k < |events| && ReplacementsOk(events, k, replacements)
    requires forall r | r in replacements :: StartsHole(source, r)
    ensures Acceptable(ToValues(replacements), |source|)
  {
    forall r | r in replacements
      ensures 0 <= r.begin < r.end <= |source|
    {
      HoleInBounds(source, events, k, r);
    }
    ApartIsAcceptable(source, replacements);
  }

  /** The retained trace of an admitted current generation still validates against the display. */
  lemma {:induction false} AdmittedTraceStands(dec: Decoder, d: Disk)
    requires Sound(dec, d) && d.state.Some? && Loads(d.state.value)
    requires d.state.value.generations[d.state.value.current].status.WasAdmitted?
    ensures var s := d.state.value;
            var trace := RetainedTrace(d.files, s.generations[s.current]);
            trace.Some? && Events(dec, trace.value).Some? && Accepts(s.Source(), Events(dec, trace.value).value)
  {
    var s := d.state.value;
    assert RecordSound(dec, d.files, s, s.current);
  }

  /** There is something to write: one witness, with open arms, over holes that still hold their text. */
  ghost predicate Materializable(source: Bytes, events: seq<Event>) {
    && |Witnesses(events)| == 1 && Witnesses(events)[0].replacements != []
    && forall r | r in Witnesses(events)[0].replacements :: StartsHole(source, r)
  }

  lemma {:induction false} StartIsAligned(t: Text)
    ensures AlignedAt(Encode(t), 0)
  {
    if t != [] {
      EncodeScalarShape(t[0]);
    }
  }

  lemma {:induction false} HoleBegins(source: Bytes, replacements: seq<Replacement>, i: nat)
    requires i < |replacements| && forall r | r in replacements :: StartsHole(source, r)
    ensures AlignedAt(source, ToValues(replacements)[i].begin)
  {
    assert StartsHole(source, replacements[i]);
    AsciiIsBoundary(source, replacements[i].begin);
  }

  lemma {:induction false} EndsOfValues(source: Bytes, replacements: seq<Replacement>)
    ensures (forall k | 0 <= k < |replacements| :: AlignedAt(source, ToValues(replacements)[k].end)) <==>
            forall r | r in replacements :: AlignedAt(source, r.end)
  {
    forall k | 0 <= k < |replacements|
      ensures ToValues(replacements)[k].end == replacements[k].end
    {
    }
  }

  lemma {:induction false} MaterializeDecodes(s: State, replacements: seq<Replacement>)
    requires Acceptable(ToValues(replacements), |s.Source()|)
    requires Ordered(Converted(ToValues(replacements)), 0, |s.Source()|)
    requires forall r | r in replacements :: StartsHole(s.Source(), r)
    ensures Decode(Apply(s.Source(), Converted(ToValues(replacements)))).Some? <==>
            forall r | r in replacements :: AlignedAt(s.Source(), r.end)
  {
    var values := ToValues(replacements);
    forall i | 0 <= i < |values|
      ensures AlignedAt(s.Source(), values[i].begin)
    {
      HoleBegins(s.Source(), replacements, i);
    }
    StartIsAligned(s.text);
    AlignedEdits(s.text, values, 0);
    EndsOfValues(s.Source(), replacements);
  }

  lemma {:induction false} WitnessIsVerified(source: Bytes, events: seq<Event>)
    requires Accepts(source, events) && Materializable(source, events)
    ensures Acceptable(ToValues(Witnesses(events)[0].replacements), |source|)
    ensures exists k :: 0 <= k < |events| && ReplacementsOk(events, k, Witnesses(events)[0].replacements)
  {
    var w := Witnesses(events)[0];
    var k := WitnessFound(events, w);
    assert EventOk(source, events, k);
    HolesAreAcceptable(source, events, k, w.replacements);
  }

  /** What `materialize` makes of a valid trace with something to write. */
  lemma {:induction false} MaterializeValid(s: State, token: string, events: seq<Event>)
    requires s.current in s.generations && 0 <= s.snapshot.revision
    requires Accepts(s.Source(), events) && Materializable(s.Source(), events)
    ensures var replacements := Witnesses(events)[0].replacements;
            var edits := Converted(ToValues(replacements));
            && Acceptable(ToValues(replacements), |s.Source()|) && Ordered(edits, 0, |s.Source()|)
            && MaterializeEvents(s, events, token) == AdvancePlanLocked(s, edits, token)
    ensures exists k :: 0 <= k < |events| && ReplacementsOk(events, k, Witnesses(events)[0].replacements)
  {
    WitnessIsVerified(s.Source(), events);
    AcceptableIsOrdered(ToValues(Witnesses(events)[0].replacements), 0, |s.Source()|);
  }

  /** The loaded state's own trace is the one materialised. */
  lemma {:induction false} MaterializeLoaded(dec: Decoder, d: Disk, token: string, events: seq<Event>)
    requires d.state.Some? && Loads(d.state.value)
    requires d.state.value.generations[d.state.value.current].status.WasAdmitted?
    requires var trace := RetainedTrace(d.files, d.state.value.generations[d.state.value.current]);
             trace.Some? && Events(dec, trace.value) == Some(events)
    ensures MaterializePlan(d, dec, token) == MaterializeEvents(d.state.value, events, token)
  {
  }

  lemma {:induction false} AdvanceOutcome(s: State, replacements: seq<Replacement>, token: string)
    requires s.current in s.generations && 0 <= s.snapshot.revision && replacements != []
    requires Acceptable(ToValues(replacements), |s.Source()|)
    requires Ordered(Converted(ToValues(replacements)), 0, |s.Source()|)
    requires forall r | r in replacements :: StartsHole(s.Source(), r)
    ensures var edits := Converted(ToValues(replacements));
            var plan := AdvancePlanLocked(s, edits, token);
            if forall r | r in replacements :: AlignedAt(s.Source(), r.end)
            then plan.outcome == Launched(GenerationName(s.snapshot.revision + 1, token), edits)
            else plan == Refuse(NotUtf8)
  {
    MaterializeDecodes(s, replacements);
  }

  /**
   The plan advances by exactly the replacements of the witness, each the verified body of a
   declared hole on the hole's own span and every hole once, and is refused only if a hole ends
   inside a character.
   */
  ghost predicate FillsHoles(s: State, events: seq<Event>, plan: Plan, token: string)
    requires s.current in s.generations && 0 <= s.snapshot.revision && |Witnesses(events)| == 1
  {
    var replacements := Witnesses(events)[0].replacements;
    var edits := Converted(ToValues(replacements));
    && Ordered(edits, 0, |s.Source()|)
    && plan == AdvancePlanLocked(s, edits, token)
    && (if forall r | r in replacements :: AlignedAt(s.Source(), r.end)
        then plan.outcome == Launched(GenerationName(s.snapshot.revision + 1, token), edits)
        else plan == Refuse(NotUtf8))
    && exists k :: 0 <= k < |events| && ReplacementsOk(events, k, replacements)
  }

  lemma {:induction false} MaterializeFills(s: State, token: string, events: seq<Event>)
    requires s.current in s.generations && 0 <= s.snapshot.revision
    requires Accepts(s.Source(), events) && Materializable(s.Source(), events)
    ensures FillsHoles(s, events, MaterializeEvents(s, events, token), token)
  {
    MaterializeValid(s, token, events);
    AdvanceOutcome(s, Witnesses(events)[0].replacements, token);
  }

  /**
   With an admitted current generation and something to write, `materialize` never fails on the
   retained trace or on its own edits: it fills the holes.
   */
  lemma {:induction false} MaterializeExactly(dec: Decoder, d: Disk, token: string, events: seq<Event>)
    requires Sound(dec, d) && d.state.Some? && Loads(d.state.value)
    requires d.state.value.generations[d.state.value.current].status.WasAdmitted?
    requires var trace := RetainedTrace(d.files, d.state.value.generations[d.state.value.current]);
             trace.Some? && Events(dec, trace.value) == Some(events)
    requires Materializable(d.state.value.Source(), events)
    ensures FillsHoles(d.state.value, events, MaterializePlan(d, dec, token), token)
  {
    AdmittedTraceStands(dec, d);
    MaterializeLoaded(dec, d, token, events);
    MaterializeFills(d.state.value, token, events);
  }

  /**
   In any run: the trace of an admitted current generation is still on disk, still reads, still
   validates against the display, and if there is something to write, `materialize` writes it.
   */
  lemma {:induction false} RunsMaterialize(dec: Decoder, actions: seq<Action>, token: string)
    requires var d := Run(dec, actions).disk;
             && d.state.Some? && Loads(d.state.value)
             && d.state.value.generations[d.state.value.current].status.WasAdmitted?
    ensures var d := Run(dec, actions).disk;
            var s := d.state.value;
            var trace := RetainedTrace(d.files, s.generations[s.current]);
            && trace.Some? && Events(dec, trace.value).Some?
            && var events := Events(dec, trace.value).value;
            && Accepts(s.Source(), events)
            && (Materializable(s.Source(), events) ==> FillsHoles(s, events, MaterializePlan(d, dec, token), token))
  {
    EveryRunIsSound(dec, actions);
    var d := Run(dec, actions).disk;
    AdmittedTraceStands(dec, d);
    var events := Events(dec, RetainedTrace(d.files, d.state.value.generations[d.state.value.current]).value).value;
    if Materializable(d.state.value.Source(), events) {
      MaterializeExactly(dec, d, token, events);
    }
  }

  /** After any transaction, materialised or not, no annotation is current. */
  lemma {:induction false} AdvanceRetiresEvidence(d: Disk, plan: Plan, edits: seq<Edit<Byte>>, token: string)
    requires AdvancesBy(d, plan, edits, token) && plan.writes != []
    ensures plan.writes[|plan.writes| - 1].Save?
    ensures forall a | a in plan.writes[|plan.writes| - 1].state.annotations :: !a.status.Current?
  {
    AdvancedState(d, plan, edits, token);
    EditedAnnotations(d.state.value, Decode(Apply(d.state.value.Source(), edits)).value, edits);
  }

  predicate InHole(replacements: seq<Replacement>, i: int) {
    exists r | r in replacements :: r.begin <= i < r.end
  }

  /**
   What the filled source reads like: where a hole stood there is its body, and every byte outside
   the holes is still there, in order.
   */
  ghost predicate HolesFilled(source: Bytes, after: Bytes, replacements: seq<Replacement>) {
    var edits := Converted(ToValues(replacements));
    && Ordered(edits, 0, |source|) && after == Apply(source, edits)
    && (forall k, i | && 0 <= k < |replacements| && 0 <= i < |source|
                      && replacements[k].begin <= i < replacements[k].end ::
          Image(source, edits, 0, i) == Encode(replacements[k].insert))
    && (forall i | 0 <= i < |source| && !InHole(replacements, i) ::
          0 <= Lo(i, edits) < |after| && after[Lo(i, edits)] == source[i])
    && (forall i, j | 0 <= i < j < |source| && !InHole(replacements, i) && !InHole(replacements, j) ::
          Lo(i, edits) < Lo(j, edits))
  }

  lemma {:induction false} HoleByte(source: Bytes, replacements: seq<Replacement>, i: nat)
    requires Acceptable(ToValues(replacements), |source|) && i < |source|
    ensures Ordered(Converted(ToValues(replacements)), 0, |source|)
    ensures var edits := Converted(ToValues(replacements));
            && (forall k | 0 <= k < |replacements| && replacements[k].begin <= i < replacements[k].end ::
                  Image(source, edits, 0, i) == Encode(replacements[k].insert))
            && (!InHole(replacements, i) ==> !Covered(i, edits))
  {
    var edits := Converted(ToValues(replacements));
    AcceptableIsOrdered(ToValues(replacements), 0, |source|);
    ImageMeaning(source, edits, 0, i);
    forall k | 0 <= k < |replacements|
      ensures Covers(edits[k], i) <==> replacements[k].begin <= i < replacements[k].end
      ensures edits[k].insert == Encode(replacements[k].insert)
    {
      assert edits[k] == ToEdit(ToValues(replacements)[k]);
    }
  }

  lemma {:induction false} HolesHoldBodies(source: Bytes, replacements: seq<Replacement>)
    requires Acceptable(ToValues(replacements), |source|)
    ensures Ordered(Converted(ToValues(replacements)), 0, |source|)
    ensures HolesFilled(source, Apply(source, Converted(ToValues(replacements))), replacements)
  {
    var edits := Converted(ToValues(replacements));
    AcceptableIsOrdered(ToValues(replacements), 0, |source|);
    forall i | 0 <= i < |source|
      ensures forall k | 0 <= k < |replacements| && replacements[k].begin <= i < replacements[k].end ::
                Image(source, edits, 0, i) == Encode(replacements[k].insert)
      ensures !InHole(replacements, i) ==>
                && !Covered(i, edits) && 0 <= Lo(i, edits) < |Apply(source, edits)|
                && Apply(source, edits)[Lo(i, edits)] == source[i]
    {
      HoleByte(source, replacements, i);
      if !InHole(replacements, i) {
        SurvivorValue(source, edits, i);
      }
    }
    forall i, j | 0 <= i < j < |source| && !InHole(replacements, i) && !InHole(replacements, j)
      ensures Lo(i, edits) < Lo(j, edits)
    {
      ImageOrder(i, j, edits, 0, |source|);
    }
  }

  /** The state after a materialisation, against the state before it and the trace it came from. */
  ghost predicate Materialized(s: State, t: State, events: seq<Event>)
    requires |Witnesses(events)| == 1
  {
    var replacements := Witnesses(events)[0].replacements;
    && (exists k :: 0 <= k < |events| && ReplacementsOk(events, k, replacements))
    && HolesFilled(s.Source(), t.Source(), replacements)
    && t.snapshot == Identify(t.Source(), s.document.id, s.snapshot.revision + 1)
    && forall a | a in t.annotations :: !a.status.Current?
  }

  lemma {:induction false} MaterializedReads(s: State, t: State, events: seq<Event>)
    requires |Witnesses(events)| == 1 && Materialized(s, t, events)
    ensures var edits := Converted(ToValues(Witnesses(events)[0].replacements));
            Ordered(edits, 0, |s.Source()|) && t.Source() == Apply(s.Source(), edits)
    ensures t.snapshot.revision == s.snapshot.revision + 1 && forall a | a in t.annotations :: !a.status.Current?
  {
  }

  /** What an advancing plan saves: the edited source at the next revision, with nothing current. */
  lemma {:induction false} AdvancedReads(d: Disk, plan: Plan, edits: seq<Edit<Byte>>, token: string)
    requires AdvancesBy(d, plan, edits, token) && plan.outcome.Launched?
    ensures d.state.Some? && Ordered(edits, 0, |d.state.value.Source()|)
    ensures plan.writes != [] && plan.writes[|plan.writes| - 1].Save?
    ensures var s, t := d.state.value, plan.writes[|plan.writes| - 1].state;
            && t.Source() == Apply(s.Source(), edits)
            && t.snapshot == Identify(t.Source(), s.document.id, s.snapshot.revision + 1)
            && forall a | a in t.annotations :: !a.status.Current?
  {
    AdvancedState(d, plan, edits, token);
    AdvanceRetiresEvidence(d, plan, edits, token);
  }

  lemma {:induction false} FilledState(d: Disk, events: seq<Event>, plan: Plan, token: string)
    requires d.state.Some? && Loads(d.state.value) && |Witnesses(events)| == 1
    requires Acceptable(ToValues(Witnesses(events)[0].replacements), |d.state.value.Source()|)
    requires FillsHoles(d.state.value, events, plan, token) && plan.outcome.Launched?
    ensures plan.writes != [] && plan.writes[|plan.writes| - 1].Save?
    ensures Materialized(d.state.value, plan.writes[|plan.writes| - 1].state, events)
  {
    var replacements := Witnesses(events)[0].replacements;
    AdvancedReads(d, plan, Converted(ToValues(replacements)), token);
    HolesHoldBodies(d.state.value.Source(), replacements);
  }

  /** The current generation is admitted by these events, and there is something to write. */
  ghost predicate Ready(dec: Decoder, d: Disk, events: seq<Event>) {
    && d.state.Some? && Loads(d.state.value)
    && d.state.value.generations[d.state.value.current].status.WasAdmitted?
    && var trace := RetainedTrace(d.files, d.state.value.generations[d.state.value.current]);
    trace.Some? && Events(dec, trace.value) == Some(events) && Materializable(d.state.value.Source(), events)
  }

  ghost predicate EndsAligned(source: Bytes, events: seq<Event>)
    requires |Witnesses(events)| == 1
  {
    forall r | r in Witnesses(events)[0].replacements :: AlignedAt(source, r.end)
  }

  lemma {:induction false} ReadyIsAcceptable(dec: Decoder, d: Disk, events: seq<Event>)
    requires Sound(dec, d) && Ready(dec, d, events)
    ensures Acceptable(ToValues(Witnesses(events)[0].replacements), |d.state.value.Source()|)
  {
    AdmittedTraceStands(dec, d);
    WitnessIsVerified(d.state.value.Source(), events);
  }

  lemma {:induction false} ReadyPlan(dec: Decoder, d: Disk, token: string, events: seq<Event>)
    requires Sound(dec, d) && Ready(dec, d, events)
    ensures var plan := MaterializePlan(d, dec, token);
            && FillsHoles(d.state.value, events, plan, token)
            && Acceptable(ToValues(Witnesses(events)[0].replacements), |d.state.value.Source()|)
            && if EndsAligned(d.state.value.Source(), events) then plan.outcome.Launched? else plan == Refuse(NotUtf8)
  {
    MaterializeExactly(dec, d, token, events);
    ReadyIsAcceptable(dec, d, events);
  }

  lemma {:induction false} FilledOrRefused(d: Disk, events: seq<Event>, plan: Plan, token: string)
    requires d.state.Some? && Loads(d.state.value) && |Witnesses(events)| == 1
    requires Acceptable(ToValues(Witnesses(events)[0].replacements), |d.state.value.Source()|)
    requires FillsHoles(d.state.value, events, plan, token)
    requires if EndsAligned(d.state.value.Source(), events) then plan.outcome.Launched? else plan == Refuse(NotUtf8)
    ensures if EndsAligned(d.state.value.Source(), events)
            then && plan.writes != [] && plan.writes[|plan.writes| - 1].Save?
                 && Materialized(d.state.value, plan.writes[|plan.writes| - 1].state, events)
            else plan == Refuse(NotUtf8)
  {
    if EndsAligned(d.state.value.Source(), events) {
      FilledState(d, events, plan, token);
    }
  }

  lemma {:induction false} ReadyState(dec: Decoder, d: Disk, token: string, events: seq<Event>)
    requires Sound(dec, d) && Ready(dec, d, events)
    ensures var plan := MaterializePlan(d, dec, token);
            if EndsAligned(d.state.value.Source(), events)
            then && plan.writes != [] && plan.writes[|plan.writes| - 1].Save?
                 && Materialized(d.state.value, plan.writes[|plan.writes| - 1].state, events)
            else plan == Refuse(NotUtf8)
  {
    ReadyPlan(dec, d, token, events);
    FilledOrRefused(d, events, MaterializePlan(d, dec, token), token);
  }

  lemma {:induction false} NextMaterialize(dec: Decoder, sys: System, token: string)
    requires SystemSound(dec, sys) && Fresh(sys.disk, token)
    ensures var plan, next := MaterializePlan(sys.disk, dec, token), Next(dec, sys, Materialize(token, Whole));
            if plan.writes == [] then next.disk == sys.disk
            else plan.writes[|plan.writes| - 1].Save? && next.disk.state == Some(plan.writes[|plan.writes| - 1].state)
  {
    PlanIsOrderly(dec, sys, Materialize(token, Whole));
    if MaterializePlan(sys.disk, dec, token).writes != [] {
      CarrySaves(dec, sys, Materialize(token, Whole), MaterializePlan(sys.disk, dec, token));
    }
  }

  /**
   One more step of any run: with an admitted current generation and something to write, the holes
   are filled with their verified bodies, everything else is kept, and no annotation is current;
   if some hole ends inside a character, nothing changes at all.
   */
  lemma {:induction false} RunsFillHoles(dec: Decoder, actions: seq<Action>, token: string, events: seq<Event>)
    requires Fresh(Run(dec, actions).disk, token) && Ready(dec, Run(dec, actions).disk, events)
    ensures var d, e := Run(dec, actions).disk, Run(dec, actions + [Materialize(token, Whole)]).disk;
            if EndsAligned(d.state.value.Source(), events)
            then e.state.Some? && Materialized(d.state.value, e.state.value, events)
            else e == d && MaterializePlan(d, dec, token) == Refuse(NotUtf8)
  {
    EveryRunIsSound(dec, actions);
    RunOneMore(dec, actions, Materialize(token, Whole));
    NextMaterialize(dec, Run(dec, actions), token);
    ReadyState(dec, Run(dec, actions).disk, token, events);
  }
}
