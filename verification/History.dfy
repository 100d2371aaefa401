/**
 Whole edit histories: what a marker that has been transported through any number of
 transactions still says about the document it was made for
 (fine/rainfall_host.py, `_transport_annotations` under repeated `_advance_locked`).
 */
module History {
  import opened Wrappers
  import opened Utf8
  import opened Edits
  import opened Transport

  type Transaction = seq<Edit<Byte>>

  // ----- histories -----

  ghost predicate Applicable(source: Bytes, h: seq<Transaction>)
    decreases |h|, 0
  {
    h == [] ||
    (var before := h[..|h| - 1];
     Applicable(source, before) && Ordered(h[|h| - 1], 0, |BytesAfter(source, before)|))
  }

  /** The document after a history. */
  ghost function BytesAfter(source: Bytes, h: seq<Transaction>): Bytes
    requires Applicable(source, h)
    decreases |h|, 1
  {
    if h == [] then source else Apply(BytesAfter(source, h[..|h| - 1]), h[|h| - 1])
  }

  /** Where a range has been carried; once unplaced it is never placed again. */
  function Carried(r: Range, h: seq<Transaction>): Option<Range> {
    if h == [] then Some(r)
    else match Carried(r, h[..|h| - 1])
      case None => None
      case Some(s) => TransportRange(s, h[|h| - 1])
  }

  /** Where byte `i` now stands, if no transaction has covered it. */
  ghost function Standing(i: nat, h: seq<Transaction>): Option<int> {
    if h == [] then Some(i)
    else match Standing(i, h[..|h| - 1])
      case None => None
      case Some(p) => if Covered(p, h[|h| - 1]) then None else Some(Lo(p, h[|h| - 1]))
  }

  lemma {:induction false} Extend(source: Bytes, h: seq<Transaction>, edits: Transaction)
    requires Applicable(source, h) && Ordered(edits, 0, |BytesAfter(source, h)|)
    ensures Applicable(source, h + [edits])
    ensures BytesAfter(source, h + [edits]) == Apply(BytesAfter(source, h), edits)
    ensures forall r :: Carried(r, h + [edits]) ==
              match Carried(r, h) { case None => None case Some(s) => TransportRange(s, edits) }
  {
    assert (h + [edits])[..|h|] == h;
  }

  lemma {:induction false} CarriedInBounds(source: Bytes, r: Range, h: seq<Transaction>)
    requires Applicable(source, h) && 0 <= r.begin < r.end <= |source|
    ensures Carried(r, h).Some? ==>
              0 <= Carried(r, h).value.begin < Carried(r, h).value.end <= |BytesAfter(source, h)|
    decreases |h|
  {
    if h != [] {
      var before := h[..|h| - 1];
      CarriedInBounds(source, r, before);
      if Carried(r, before).Some? {
        TransportInBounds(BytesAfter(source, before), Carried(r, before).value, h[|h| - 1]);
      }
    }
  }

  /** An untouched byte keeps its value. */
  lemma {:induction false} StandingValue(source: Bytes, h: seq<Transaction>, i: nat)
    requires Applicable(source, h) && i < |source|
    ensures Standing(i, h).Some? ==>
              && 0 <= Standing(i, h).value < |BytesAfter(source, h)|
              && BytesAfter(source, h)[Standing(i, h).value] == source[i]
    decreases |h|
  {
    if h != [] {
      var before := h[..|h| - 1];
      StandingValue(source, before, i);
      if Standing(i, h).Some? {
        var p := Standing(i, before).value;
        SurvivorValue(BytesAfter(source, before), h[|h| - 1], p);
      }
    }
  }

  lemma {:induction false} SurvivorValue<T>(source: seq<T>, edits: seq<Edit<T>>, i: nat)
    requires Ordered(edits, 0, |source|) && i < |source| && !Covered(i, edits)
    ensures 0 <= Lo(i, edits) < |Apply(source, edits)|
    ensures Apply(source, edits)[Lo(i, edits)] == source[i]
  {
    ImageBounds(source, edits, 0, i);
    ImageMeaning(source, edits, 0, i);
    assert Image(source, edits, 0, i)[0] == source[i];
  }

  /** Untouched bytes keep their order. */
  lemma {:induction false} StandingOrder(source: Bytes, h: seq<Transaction>, i: nat, j: nat)
    requires Applicable(source, h) && i < j < |source|
    ensures Standing(i, h).Some? && Standing(j, h).Some? ==> Standing(i, h).value < Standing(j, h).value
    decreases |h|
  {
    if h != [] {
      var before := h[..|h| - 1];
      StandingOrder(source, before, i, j);
      if Standing(i, h).Some? && Standing(j, h).Some? {
        StandingValue(source, before, i);
        ImageOrder(Standing(i, before).value, Standing(j, before).value, h[|h| - 1],
                   0, |BytesAfter(source, before)|);
      }
    }
  }

  /**
   Over any history, an untouched byte of the original document stands inside the carried range
   exactly when it lay inside the original range.  In particular an unplaced range has lost every
   byte it had.
   */
  lemma {:induction false} CarriedIsFaithful(source: Bytes, r: Range, h: seq<Transaction>, i: nat)
    requires Applicable(source, h) && 0 <= r.begin < r.end <= |source| && i < |source|
    requires Standing(i, h).Some?
    ensures var c, p := Carried(r, h), Standing(i, h).value;
            r.begin <= i < r.end <==> c.Some? && c.value.begin <= p < c.value.end
    decreases |h|
  {
    if h != [] {
      var before := h[..|h| - 1];
      CarriedIsFaithful(source, r, before, i);
      if Carried(r, before).Some? {
        CarriedInBounds(source, r, before);
        StandingValue(source, before, i);
        TransportKeepsSurvivors(Carried(r, before).value, h[|h| - 1], |BytesAfter(source, before)|,
                                Standing(i, before).value);
      }
    }
  }

  lemma {:induction false} UnplacedStays(r: Range, h: seq<Transaction>, later: seq<Transaction>)
    requires Carried(r, h).None?
    ensures Carried(r, h + later).None?
    decreases |later|
  {
    if later == [] {
      assert h + later == h;
    } else {
      assert (h + later)[..|h + later| - 1] == h + later[..|later| - 1];
      UnplacedStays(r, h, later[..|later| - 1]);
    }
  }

  // ----- provenance: the same edits applied to tagged bytes -----

  /** A byte with the offset it had in the original document, if it came from there. */
  datatype Cell = Cell(value: Byte, origin: Option<nat>)

  function Original(source: Bytes): seq<Cell> {
    seq(|source|, i requires 0 <= i < |source| => Cell(source[i], Some(i)))
  }

  function Inserted(b: Bytes): seq<Cell> {
    seq(|b|, i requires 0 <= i < |b| => Cell(b[i], None))
  }

  function Tagged(edits: Transaction): (r: seq<Edit<Cell>>)
    ensures |r| == |edits|
    ensures forall k | 0 <= k < |r| ::
              r[k].begin == edits[k].begin && r[k].end == edits[k].end && r[k].insert == Inserted(edits[k].insert)
  {
    if edits == [] then []
    else [Edit(edits[0].begin, edits[0].end, Inserted(edits[0].insert))] + Tagged(edits[1..])
  }

  lemma {:induction false} TaggedPlaces(edits: Transaction, from: int, n: int, i: int)
    ensures Ordered(Tagged(edits), from, n) <==> Ordered(edits, from, n)
    ensures Lo(i, Tagged(edits)) == Lo(i, edits)
    ensures Covered(i, Tagged(edits)) <==> Covered(i, edits)
    decreases |edits|
  {
    if edits != [] {
      TaggedPlaces(edits[1..], edits[0].end, n, i);
      assert Tagged(edits)[1..] == Tagged(edits[1..]);
    }
    assert forall k | 0 <= k < |edits| :: Covers(Tagged(edits)[k], i) <==> Covers(edits[k], i);
  }

  /** The tagged document after a history: `Apply` itself, run on tagged bytes. */
  ghost function Tracked(source: Bytes, h: seq<Transaction>): (cells: seq<Cell>)
    requires Applicable(source, h)
    ensures |cells| == |BytesAfter(source, h)|
    decreases |h|
  {
    if h == [] then Original(source)
    else
      var cells := Tracked(source, h[..|h| - 1]);
      TaggedPlaces(h[|h| - 1], 0, |cells|, 0);
      SameLength(cells, BytesAfter(source, h[..|h| - 1]), h[|h| - 1], 0);
      Apply(cells, Tagged(h[|h| - 1]))
  }

  lemma {:induction false} SameLength(cells: seq<Cell>, source: Bytes, edits: Transaction, cursor: nat)
    requires Ordered(edits, cursor, |source|) && Ordered(Tagged(edits), cursor, |cells|)
    requires |cells| == |source|
    ensures |ApplyFrom(cells, Tagged(edits), cursor)| == |ApplyFrom(source, edits, cursor)|
    decreases |edits|
  {
    if edits != [] {
      OrderedBounds(edits, cursor, |source|);
      assert Tagged(edits)[1..] == Tagged(edits[1..]);
      SameLength(cells, source, edits[1..], edits[0].end);
    }
  }

  /** Every element of an edited document either survived from the source or was inserted. */
  lemma {:induction false} OutputOrigin<T>(source: seq<T>, edits: seq<Edit<T>>, cursor: nat, j: nat)
      returns (survivor: Option<nat>)
    requires Ordered(edits, cursor, |source|) && j < |ApplyFrom(source, edits, cursor)|
    ensures survivor.Some? ==>
              && cursor <= survivor.value < |source| && !Covered(survivor.value, edits)
              && Lo(survivor.value, edits) == cursor + j
              && ApplyFrom(source, edits, cursor)[j] == source[survivor.value]
    ensures survivor.None? ==>
              exists k :: 0 <= k < |edits| && ApplyFrom(source, edits, cursor)[j] in edits[k].insert
    decreases |edits|
  {
    if edits == [] {
      survivor := Some(cursor + j);
    } else {
      var e := edits[0];
      OrderedBounds(edits, cursor, |source|);
      var ahead := e.begin - cursor;
      if j < ahead {
        survivor := Some(cursor + j);
        CoveredStep(cursor + j, edits, cursor, |source|);
      } else if j < ahead + |e.insert| {
        survivor := None;
        assert ApplyFrom(source, edits, cursor)[j] == e.insert[j - ahead];
      } else {
        survivor := OutputOrigin(source, edits[1..], e.end, j - ahead - |e.insert|);
        if survivor.Some? {
          CoveredStep(survivor.value, edits, cursor, |source|);
        } else {
          var k :| 0 <= k < |edits[1..]|
                   && ApplyFrom(source, edits[1..], e.end)[j - ahead - |e.insert|] in edits[1..][k].insert;
          assert edits[k + 1] == edits[1..][k];
        }
      }
    }
  }

  /**
   `Standing` is what actually happens to the bytes: running the edits on tagged bytes leaves
   the byte of offset `i` at position `j` exactly when `Standing(i, h)` says so.
   */
  lemma {:induction false} StandingIsProvenance(source: Bytes, h: seq<Transaction>, i: nat, j: nat)
    requires Applicable(source, h) && i < |source| && j < |BytesAfter(source, h)|
    ensures Tracked(source, h)[j].origin == Some(i) <==> Standing(i, h) == Some(j)
    decreases |h|
  {
    if h != [] {
      var before, edits := h[..|h| - 1], h[|h| - 1];
      var cells := Tracked(source, before);
      TaggedPlaces(edits, 0, |cells|, 0);
      if Tracked(source, h)[j].origin == Some(i) {
        var survivor := OutputOrigin(cells, Tagged(edits), 0, j);
        TaggedPlaces(edits, 0, |cells|, survivor.value);
        StandingIsProvenance(source, before, i, survivor.value);
      }
      if Standing(i, h) == Some(j) {
        StandingValue(source, before, i);
        var p := Standing(i, before).value;
        StandingIsProvenance(source, before, i, p);
        TaggedPlaces(edits, 0, |cells|, p);
        SurvivorValue(cells, Tagged(edits), p);
      }
    }
  }
}
