/**
 Byte-edit transactions and the transport of byte ranges through them
 (fine/rainfall_projection.py).

 The reference meaning of a transaction is per byte: `Lo(i)..Hi(i)` is the interval of the edited
 document that stands where byte `i` stood, that is, the byte itself when no edit covers it, and
 the whole insertion of the covering edit otherwise.  Everything the accumulated-delta loop of
 `transport_range` computes is stated in these terms.

 Edits are generic in what they insert, so that the same `Apply` also moves provenance-tagged
 bytes (module `History`).
 */
module Edits {
  import opened Wrappers
  import opened Utf8

  /** One entry of a transaction as the caller sends it. */
  datatype EditValue = EditValue(begin: int, end: int, insert: Text)

  datatype Edit<T> = Edit(begin: int, end: int, insert: seq<T>) {
    function Delta(): int {
      |insert| - (end - begin)
    }
  }

  function ToEdit(v: EditValue): Edit<Byte> {
    Edit(v.begin, v.end, Encode(v.insert))
  }

  // ----- accepting a transaction -----

  /** Two insertions at one offset: their order would be ambiguous. */
  predicate Ambiguous(v: EditValue, w: EditValue) {
    v.begin == v.end == w.begin == w.end
  }

  /** What `load_edits` admits, said pairwise over the whole transaction. */
  ghost predicate Acceptable(values: seq<EditValue>, n: nat) {
    && (forall i | 0 <= i < |values| :: 0 <= values[i].begin <= values[i].end <= n)
    && (forall i, j | 0 <= i < j < |values| ::
          values[i].end <= values[j].begin && !Ambiguous(values[i], values[j]))
  }

  /** The same bounds and order, as consumed edit by edit from offset `from`. */
  predicate Ordered<T>(edits: seq<Edit<T>>, from: int, n: int) {
    if edits == [] then from <= n
    else from <= edits[0].begin <= edits[0].end && Ordered(edits[1..], edits[0].end, n)
  }

  function Converted(values: seq<EditValue>): (edits: seq<Edit<Byte>>)
    ensures |edits| == |values|
    ensures forall i | 0 <= i < |values| :: edits[i] == ToEdit(values[i])
  {
    if values == [] then [] else [ToEdit(values[0])] + Converted(values[1..])
  }

  lemma {:induction false} AcceptableIsOrdered(values: seq<EditValue>, from: nat, n: nat)
    requires Acceptable(values, n) && from <= n
    requires values != [] ==> from <= values[0].begin
    ensures Ordered(Converted(values), from, n)
  {
    if values != [] {
      AcceptableIsOrdered(values[1..], values[0].end, n);
    }
  }

  /**
   `load_edits`.  A refusal names the first offending entry: everything before it is acceptable,
   nothing that includes it is.
   */
  method LoadEdits(values: seq<EditValue>, n: nat) returns (r: Result<seq<Edit<Byte>>, nat>)
    ensures r.Success? <==> Acceptable(values, n)
    ensures r.Success? ==> r.value == Converted(values) && Ordered(r.value, 0, n)
    ensures r.Failure? ==> r.error < |values| && Acceptable(values[..r.error], n)
    ensures r.Failure? ==> forall m | r.error < m <= |values| :: !Acceptable(values[..m], n)
  {
    var edits: seq<Edit<Byte>> := [];
    var previousBegin, previousEnd := -1, 0;
    var k := 0;
    while k < |values|
      invariant 0 <= k <= |values| && |edits| == k
      invariant Acceptable(values[..k], n)
      invariant forall i | 0 <= i < k :: edits[i] == ToEdit(values[i])
      invariant if k == 0 then previousBegin == -1 && previousEnd == 0
                else previousBegin == values[k - 1].begin && previousEnd == values[k - 1].end
    {
      var v := values[k];
      if !(0 <= v.begin <= v.end <= n) || v.begin < previousEnd
         || (v.begin == v.end == previousBegin == previousEnd) {
        Refused(values, k, n);
        return Failure(k);
      }
      Extended(values, k, n);
      edits := edits + [ToEdit(v)];
      previousBegin, previousEnd := v.begin, v.end;
      k := k + 1;
    }
    assert values[..k] == values;
    AcceptableIsOrdered(values, 0, n);
    return Success(edits);
  }

  lemma {:induction false} Extended(values: seq<EditValue>, k: nat, n: nat)
    requires k < |values| && Acceptable(values[..k], n)
    requires 0 <= values[k].begin <= values[k].end <= n
    requires k > 0 ==> values[k - 1].end <= values[k].begin && !Ambiguous(values[k - 1], values[k])
    ensures Acceptable(values[..k + 1], n)
  {
    var before, after := values[..k], values[..k + 1];
    forall i, j | 0 <= i < j < |after|
      ensures after[i].end <= after[j].begin && !Ambiguous(after[i], after[j])
    {
      assert after[i] == before[i];
      if j < k {
        assert after[j] == before[j];
      } else if i < k - 1 {
        assert before[i].end <= before[k - 1].begin && !Ambiguous(before[i], before[k - 1]);
      }
    }
  }

  lemma {:induction false} Refused(values: seq<EditValue>, k: nat, n: nat)
    requires k < |values| && Acceptable(values[..k], n)
    requires var v := values[k];
             || !(0 <= v.begin <= v.end <= n)
             || (k > 0 && (v.begin < values[k - 1].end || Ambiguous(values[k - 1], v)))
    ensures forall m | k < m <= |values| :: !Acceptable(values[..m], n)
  {
    forall m | k < m <= |values|
      ensures !Acceptable(values[..m], n)
    {
      var w := values[..m];
      assert w[k] == values[k];
      assert k > 0 ==> w[k - 1] == values[k - 1];
    }
  }

  // ----- applying a transaction -----

  /** The edited document from source offset `cursor` on. */
  function ApplyFrom<T>(source: seq<T>, edits: seq<Edit<T>>, cursor: nat): (out: seq<T>)
    requires Ordered(edits, cursor, |source|)
  {
    OrderedBounds(edits, cursor, |source|);
    if edits == [] then source[cursor..]
    else source[cursor..edits[0].begin] + edits[0].insert + ApplyFrom(source, edits[1..], edits[0].end)
  }

  function Apply<T>(source: seq<T>, edits: seq<Edit<T>>): (out: seq<T>)
    requires Ordered(edits, 0, |source|)
  {
    ApplyFrom(source, edits, 0)
  }

  lemma {:induction false} OrderedBounds<T>(edits: seq<Edit<T>>, from: int, n: int)
    requires Ordered(edits, from, n)
    ensures from <= n
    ensures edits != [] ==> from <= edits[0].begin <= edits[0].end <= n
  {
    if edits != [] {
      OrderedBounds(edits[1..], edits[0].end, n);
    }
  }

  /** `apply_edits`, collecting pieces behind a moving cursor. */
  method ApplyEdits(source: Bytes, edits: seq<Edit<Byte>>) returns (out: Bytes)
    requires Ordered(edits, 0, |source|)
    ensures out == Apply(source, edits)
  {
    out := [];
    var cursor := 0;
    for k := 0 to |edits|
      invariant 0 <= cursor && Ordered(edits[k..], cursor, |source|)
      invariant out + ApplyFrom(source, edits[k..], cursor) == Apply(source, edits)
    {
      assert edits[k..][1..] == edits[k + 1..];
      OrderedBounds(edits[k..], cursor, |source|);
      out := out + source[cursor..edits[k].begin] + edits[k].insert;
      cursor := edits[k].end;
    }
    OrderedBounds(edits[|edits|..], cursor, |source|);
    out := out + source[cursor..];
  }

  // ----- the per-byte meaning -----

  predicate Covers<T>(e: Edit<T>, i: int) {
    e.begin <= i < e.end
  }

  ghost predicate Covered<T>(i: int, edits: seq<Edit<T>>) {
    exists k :: 0 <= k < |edits| && Covers(edits[k], i)
  }

  /** Covered by an edit that puts nothing in its place. */
  ghost predicate Deleted<T>(i: int, edits: seq<Edit<T>>) {
    exists k :: 0 <= k < |edits| && Covers(edits[k], i) && edits[k].insert == []
  }

  function Lo<T>(i: int, edits: seq<Edit<T>>): int {
    if edits == [] || i < edits[0].begin then i
    else if i < edits[0].end then edits[0].begin
    else Lo(i, edits[1..]) + edits[0].Delta()
  }

  function Hi<T>(i: int, edits: seq<Edit<T>>): int {
    if edits == [] || i < edits[0].begin then i + 1
    else if i < edits[0].end then edits[0].begin + |edits[0].insert|
    else Hi(i, edits[1..]) + edits[0].Delta()
  }

  lemma {:induction false} CoveredStep<T>(i: int, edits: seq<Edit<T>>, from: int, n: int)
    requires Ordered(edits, from, n) && edits != []
    ensures i < edits[0].begin ==> !Covered(i, edits) && !Deleted(i, edits)
    ensures Covers(edits[0], i) ==> Covered(i, edits) && (Deleted(i, edits) <==> edits[0].insert == [])
    ensures edits[0].end <= i ==> (Covered(i, edits) <==> Covered(i, edits[1..]))
    ensures edits[0].end <= i ==> (Deleted(i, edits) <==> Deleted(i, edits[1..]))
  {
    forall k | 0 <= k < |edits| - 1
      ensures edits[0].end <= edits[1..][k].begin
    {
      LaterBegins(edits[1..], edits[0].end, n, k);
    }
    assert forall k | 0 <= k < |edits| - 1 :: edits[1..][k] == edits[k + 1];
    assert forall k | 1 <= k < |edits| :: edits[k] == edits[1..][k - 1];
  }

  lemma {:induction false} LaterBegins<T>(edits: seq<Edit<T>>, from: int, n: int, k: nat)
    requires Ordered(edits, from, n) && k < |edits|
    ensures from <= edits[k].begin <= edits[k].end <= n
  {
    OrderedBounds(edits, from, n);
    if k > 0 {
      LaterBegins(edits[1..], edits[0].end, n, k - 1);
    }
  }

  lemma {:induction false} SliceOfConcat<T>(a: seq<T>, b: seq<T>, x: nat, y: nat)
    requires x <= y <= |b|
    ensures (a + b)[|a| + x..|a| + y] == b[x..y]
  {
  }

  /** The intervals lie inside the edited document, and are empty for deleted bytes only. */
  lemma {:induction false} ImageBounds<T>(source: seq<T>, edits: seq<Edit<T>>, cursor: nat, i: nat)
    requires Ordered(edits, cursor, |source|) && cursor <= i < |source|
    ensures cursor <= Lo(i, edits) <= Hi(i, edits) <= cursor + |ApplyFrom(source, edits, cursor)|
    ensures Lo(i, edits) == Hi(i, edits) <==> Deleted(i, edits)
    decreases |edits|
  {
    if edits != [] {
      OrderedBounds(edits, cursor, |source|);
      CoveredStep(i, edits, cursor, |source|);
      if edits[0].end <= i {
        ImageBounds(source, edits[1..], edits[0].end, i);
      }
    }
  }

  /** The slice of the edited document that stands where byte `i` stood. */
  ghost function Image<T>(source: seq<T>, edits: seq<Edit<T>>, cursor: nat, i: nat): seq<T>
    requires Ordered(edits, cursor, |source|) && cursor <= i < |source|
  {
    ImageBounds(source, edits, cursor, i);
    ApplyFrom(source, edits, cursor)[Lo(i, edits) - cursor..Hi(i, edits) - cursor]
  }

  lemma {:induction false} ApplyHead<T>(source: seq<T>, edits: seq<Edit<T>>, cursor: nat)
    requires Ordered(edits, cursor, |source|) && edits != []
    ensures var e := edits[0];
            && 0 <= cursor <= e.begin <= e.end <= |source|
            && ApplyFrom(source, edits, cursor)
               == (source[cursor..e.begin] + e.insert) + ApplyFrom(source, edits[1..], e.end)
  {
    OrderedBounds(edits, cursor, |source|);
  }

  lemma {:induction false} ImageStep<T>(source: seq<T>, edits: seq<Edit<T>>, cursor: nat, i: nat)
    requires Ordered(edits, cursor, |source|) && cursor <= i < |source| && edits != []
    requires edits[0].end <= i
    ensures Image(source, edits, cursor, i) == Image(source, edits[1..], edits[0].end, i)
  {
    var e := edits[0];
    ApplyHead(source, edits, cursor);
    ImageBounds(source, edits[1..], e.end, i);
    var head, rest := source[cursor..e.begin] + e.insert, ApplyFrom(source, edits[1..], e.end);
    var x, y := Lo(i, edits[1..]) - e.end, Hi(i, edits[1..]) - e.end;
    assert Lo(i, edits) - cursor == |head| + x && Hi(i, edits) - cursor == |head| + y;
    SliceOfConcat(head, rest, x, y);
  }

  /**
   What the interval of a byte holds in the edited document: the byte itself if it is uncovered,
   and the covering edit's insertion if it is not.
   */
  lemma {:induction false} ImageMeaning<T>(source: seq<T>, edits: seq<Edit<T>>, cursor: nat, i: nat)
    requires Ordered(edits, cursor, |source|) && cursor <= i < |source|
    ensures !Covered(i, edits) ==> Image(source, edits, cursor, i) == [source[i]]
    ensures forall k | 0 <= k < |edits| && Covers(edits[k], i) ::
              Image(source, edits, cursor, i) == edits[k].insert
    decreases |edits|
  {
    if edits != [] {
      var e := edits[0];
      OrderedBounds(edits, cursor, |source|);
      CoveredStep(i, edits, cursor, |source|);
      forall k | 1 <= k < |edits|
        ensures edits[k] == edits[1..][k - 1] && e.end <= edits[k].begin
      {
        LaterBegins(edits[1..], e.end, |source|, k - 1);
      }
      if e.end <= i {
        ImageStep(source, edits, cursor, i);
        ImageMeaning(source, edits[1..], e.end, i);
      } else {
        assert ApplyFrom(source, edits, cursor)
            == source[cursor..e.begin] + (e.insert + ApplyFrom(source, edits[1..], e.end));
      }
    }
  }
}
