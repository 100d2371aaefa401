/**
 `transport_range` (fine/rainfall_projection.py): the accumulated-delta loop, and the proof that
 it computes the image of a byte range under the per-byte meaning of module `Edits`.
 */
module Transport {
  import opened Wrappers
  import opened Utf8
  import opened Edits

  /** A half-open byte range. */
  datatype Range = Range(begin: int, end: int)

  /** One iteration: rebase a range that already lives in the partly edited document. */
  function Rebase<T>(r: Range, e: Edit<T>, accumulated: int): Range {
    var begin, end := e.begin + accumulated, e.end + accumulated;
    if end <= r.begin then Range(r.begin + e.Delta(), r.end + e.Delta())
    else if begin >= r.end then r
    else Range(if r.begin >= begin then begin else r.begin,
               if r.end <= end then begin + |e.insert| else r.end + e.Delta())
  }

  function RebaseAll<T>(r: Range, edits: seq<Edit<T>>, accumulated: int): Range
    decreases |edits|
  {
    if edits == [] then r
    else RebaseAll(Rebase(r, edits[0], accumulated), edits[1..], accumulated + edits[0].Delta())
  }

  function Placed(r: Range): Option<Range> {
    if r.begin >= r.end then None else Some(r)
  }

  /** `None` is an unplaced range. */
  function TransportRange<T>(r: Range, edits: seq<Edit<T>>): Option<Range> {
    Placed(RebaseAll(r, edits, 0))
  }

  /** The loop of `transport_range`, with its three moving variables. */
  method MapRange(begin: int, end: int, edits: seq<Edit<Byte>>) returns (r: Option<Range>)
    ensures r == TransportRange(Range(begin, end), edits)
  {
    var mappedBegin, mappedEnd := begin, end;
    var accumulated := 0;
    for k := 0 to |edits|
      invariant RebaseAll(Range(mappedBegin, mappedEnd), edits[k..], accumulated)
             == RebaseAll(Range(begin, end), edits, 0)
    {
      assert edits[k..][1..] == edits[k + 1..];
      var editBegin, editEnd := edits[k].begin + accumulated, edits[k].end + accumulated;
      var delta := |edits[k].insert| - (edits[k].end - edits[k].begin);
      if editEnd <= mappedBegin {
        mappedBegin := mappedBegin + delta;
        mappedEnd := mappedEnd + delta;
      } else if editBegin >= mappedEnd {
      } else {
        if mappedBegin >= editBegin {
          mappedBegin := editBegin;
        }
        if mappedEnd <= editEnd {
          mappedEnd := editBegin + |edits[k].insert|;
        } else {
          mappedEnd := mappedEnd + delta;
        }
      }
      accumulated := accumulated + delta;
    }
    if mappedBegin >= mappedEnd {
      return None;
    }
    return Some(Range(mappedBegin, mappedEnd));
  }

  // ----- the reference -----

  ghost predicate AllDeleted<T>(r: Range, edits: seq<Edit<T>>) {
    forall i | r.begin <= i < r.end :: Deleted(i, edits)
  }

  /** The first byte of the range that leaves something behind. */
  ghost function FirstKept<T>(r: Range, edits: seq<Edit<T>>): (i: int)
    requires !AllDeleted(r, edits)
    ensures r.begin <= i < r.end && !Deleted(i, edits)
    ensures forall j | r.begin <= j < i :: Deleted(j, edits)
    decreases r.end - r.begin
  {
    if !Deleted(r.begin, edits) then r.begin
    else FirstKept(Range(r.begin + 1, r.end), edits)
  }

  /** From where the first remaining byte stands to where the last byte stood. */
  ghost function RangeImage<T>(r: Range, edits: seq<Edit<T>>): Option<Range> {
    if AllDeleted(r, edits) then None
    else Some(Range(Lo(FirstKept(r, edits), edits), Hi(r.end - 1, edits)))
  }

  function Shift(r: Option<Range>, delta: int): Option<Range> {
    match r
    case None => None
    case Some(v) => Some(Range(v.begin + delta, v.end + delta))
  }

  // ----- the loop, phase by phase -----

  /** Edits at or behind the end of a non-empty range leave it alone. */
  lemma {:induction false} Behind<T>(r: Range, edits: seq<Edit<T>>, accumulated: int, from: int, n: int)
    requires Ordered(edits, from, n) && r.begin < r.end <= from + accumulated
    ensures RebaseAll(r, edits, accumulated) == r
    decreases |edits|
  {
    if edits != [] {
      Behind(r, edits[1..], accumulated + edits[0].Delta(), edits[0].end, n);
    }
  }

  /** A range that has collapsed stays collapsed: later edits can only shift it. */
  lemma {:induction false} Collapsed<T>(at: int, edits: seq<Edit<T>>, accumulated: int, from: int, n: int)
    requires Ordered(edits, from, n) && at <= from + accumulated
    ensures Placed(RebaseAll(Range(at, at), edits, accumulated)).None?
    decreases |edits|
  {
    if edits != [] {
      var e := edits[0];
      var next := Rebase(Range(at, at), e, accumulated);
      assert next.begin == next.end <= e.end + accumulated + e.Delta();
      Collapsed(next.begin, edits[1..], accumulated + e.Delta(), e.end, n);
    }
  }

  /** Once the beginning is in front of every remaining edit, only the end still moves. */
  lemma {:induction false} Started<T>(begin: int, end: int, edits: seq<Edit<T>>, accumulated: int, from: int, n: int)
    requires Ordered(edits, from, n) && begin < from + accumulated && from < end <= n
    ensures RebaseAll(Range(begin, end + accumulated), edits, accumulated)
         == Range(begin, Hi(end - 1, edits) + accumulated)
    ensures from <= Hi(end - 1, edits)
    decreases |edits|
  {
    if edits != [] {
      var e := edits[0];
      OrderedBounds(edits, from, n);
      if end <= e.begin {
        Behind(Range(begin, end + accumulated), edits, accumulated, e.begin, n);
      } else if end <= e.end {
        Behind(Range(begin, e.begin + accumulated + |e.insert|), edits[1..], accumulated + e.Delta(), e.end, n);
      } else {
        Started(begin, end, edits[1..], accumulated + e.Delta(), e.end, n);
      }
    }
  }

  /** Skipping an edit in front of the range, or one that deletes its first bytes. */
  lemma {:induction false} SkipFirst<T>(r: Range, edits: seq<Edit<T>>, from: int, n: int)
    requires Ordered(edits, from, n) && edits != [] && r.begin < r.end
    requires edits[0].end <= r.begin || (edits[0].begin <= r.begin && edits[0].insert == [])
    requires edits[0].end < r.end
    ensures var r' := Range(if edits[0].end <= r.begin then r.begin else edits[0].end, r.end);
            RangeImage(r, edits) == Shift(RangeImage(r', edits[1..]), edits[0].Delta())
  {
    var e := edits[0];
    var r' := Range(if e.end <= r.begin then r.begin else e.end, r.end);
    forall i: int
      ensures e.end <= i ==> (Deleted(i, edits) <==> Deleted(i, edits[1..]))
      ensures Covers(e, i) && e.insert == [] ==> Deleted(i, edits)
    {
      CoveredStep(i, edits, from, n);
    }
    assert AllDeleted(r, edits) <==> AllDeleted(r', edits[1..]);
    if !AllDeleted(r, edits) {
      var i, i' := FirstKept(r, edits), FirstKept(r', edits[1..]);
      assert i == i';
    }
  }

  /** The first edit overlaps the range and leaves something of its first byte's place. */
  lemma {:induction false} OverlappedKept<T>(r: Range, edits: seq<Edit<T>>, accumulated: int, from: int, n: int)
    requires Ordered(edits, from, n) && r.begin < r.end <= n && edits != []
    requires edits[0].begin < r.end && r.begin < edits[0].end
    requires r.begin < edits[0].begin || edits[0].insert != []
    ensures Placed(RebaseAll(Range(r.begin + accumulated, r.end + accumulated), edits, accumulated))
         == Shift(RangeImage(r, edits), accumulated)
  {
    var e := edits[0];
    var rest, after := edits[1..], accumulated + e.Delta();
    OrderedBounds(edits, from, n);
    assert FirstKept(r, edits) == r.begin by {
      CoveredStep(r.begin, edits, from, n);
    }
    var begin := if r.begin >= e.begin then e.begin else r.begin;
    assert Lo(r.begin, edits) == begin;
    if r.end <= e.end {
      Behind(Range(begin + accumulated, e.begin + accumulated + |e.insert|), rest, after, e.end, n);
    } else {
      assert Rebase(Range(r.begin + accumulated, r.end + accumulated), e, accumulated)
          == Range(begin + accumulated, r.end + after);
      Started(begin + accumulated, r.end, rest, after, e.end, n);
      assert Hi(r.end - 1, edits) == Hi(r.end - 1, rest) + e.Delta();
    }
  }

  /** The loop skips such an edit by shifting what it leaves of the range. */
  lemma {:induction false} SkippedRebase<T>(r: Range, edits: seq<Edit<T>>, accumulated: int, from: int, n: int)
    requires Ordered(edits, from, n) && edits != [] && r.begin < r.end
    requires edits[0].end <= r.begin || (edits[0].begin <= r.begin && edits[0].insert == [])
    requires edits[0].end < r.end
    ensures var after := accumulated + edits[0].Delta();
            var begin := if edits[0].end <= r.begin then r.begin else edits[0].end;
            var moved := Range(r.begin + accumulated, r.end + accumulated);
            RebaseAll(moved, edits, accumulated) == RebaseAll(Range(begin + after, r.end + after), edits[1..], after)
  {
  }

  lemma {:induction false} Skipped<T>(r: Range, edits: seq<Edit<T>>, accumulated: int, from: int, n: int, begin: int)
    requires Ordered(edits, from, n) && edits != [] && r.begin < r.end
    requires edits[0].end <= r.begin || (edits[0].begin <= r.begin && edits[0].insert == [])
    requires edits[0].end < r.end && begin == if edits[0].end <= r.begin then r.begin else edits[0].end
    requires var after := accumulated + edits[0].Delta();
             Placed(RebaseAll(Range(begin + after, r.end + after), edits[1..], after))
             == Shift(RangeImage(Range(begin, r.end), edits[1..]), after)
    ensures Placed(RebaseAll(Range(r.begin + accumulated, r.end + accumulated), edits, accumulated))
         == Shift(RangeImage(r, edits), accumulated)
  {
    SkipFirst(r, edits, from, n);
    SkippedRebase(r, edits, accumulated, from, n);
  }

  /** A range inside a plain deletion has no image. */
  lemma {:induction false} Erased<T>(r: Range, edits: seq<Edit<T>>, accumulated: int, from: int, n: int)
    requires Ordered(edits, from, n) && edits != [] && edits[0].insert == []
    requires edits[0].begin <= r.begin < r.end <= edits[0].end
    ensures Placed(RebaseAll(Range(r.begin + accumulated, r.end + accumulated), edits, accumulated)).None?
    ensures RangeImage(r, edits).None?
  {
    var e := edits[0];
    forall i | r.begin <= i < r.end
      ensures Deleted(i, edits)
    {
      CoveredStep(i, edits, from, n);
    }
    Collapsed(e.begin + accumulated, edits[1..], accumulated + e.Delta(), e.end, n);
  }

  /** A range in front of every edit has itself as its image. */
  lemma {:induction false} Ahead<T>(r: Range, edits: seq<Edit<T>>, accumulated: int, from: int, n: int)
    requires Ordered(edits, from, n) && edits != [] && r.begin < r.end <= edits[0].begin
    ensures Placed(RebaseAll(Range(r.begin + accumulated, r.end + accumulated), edits, accumulated))
         == Shift(RangeImage(r, edits), accumulated)
  {
    OrderedBounds(edits, from, n);
    CoveredStep(r.begin, edits, from, n);
    Behind(Range(r.begin + accumulated, r.end + accumulated), edits, accumulated, edits[0].begin, n);
  }

  /** The loop equals the reference, for a range no earlier edit has reached. */
  lemma {:induction false} Untouched<T>(r: Range, edits: seq<Edit<T>>, accumulated: int, from: int, n: int)
    requires Ordered(edits, from, n) && r.begin < r.end <= n
    ensures Placed(RebaseAll(Range(r.begin + accumulated, r.end + accumulated), edits, accumulated))
         == Shift(RangeImage(r, edits), accumulated)
    decreases |edits|
  {
    if edits == [] {
      assert !Deleted(r.begin, edits);
    } else {
      var e := edits[0];
      OrderedBounds(edits, from, n);
      if e.end <= r.begin {
        Untouched(r, edits[1..], accumulated + e.Delta(), e.end, n);
        Skipped(r, edits, accumulated, from, n, r.begin);
      } else if r.end <= e.begin {
        Ahead(r, edits, accumulated, from, n);
      } else if r.begin < e.begin || e.insert != [] {
        OverlappedKept(r, edits, accumulated, from, n);
      } else if r.end <= e.end {
        Erased(r, edits, accumulated, from, n);
      } else {
        Untouched(Range(e.end, r.end), edits[1..], accumulated + e.Delta(), e.end, n);
        Skipped(r, edits, accumulated, from, n, e.end);
      }
    }
  }

  // ----- what transport guarantees -----

  /** The intervals of bytes keep the bytes' order, and a surviving byte shares its place with no other. */
  lemma {:induction false} ImageOrder<T>(i: int, j: int, edits: seq<Edit<T>>, from: int, n: int)
    requires Ordered(edits, from, n) && from <= i < j
    ensures from <= Lo(i, edits) <= Lo(j, edits) && Hi(i, edits) <= Hi(j, edits)
    ensures Lo(i, edits) <= Hi(i, edits) && Lo(j, edits) <= Hi(j, edits)
    ensures !Covered(i, edits) || !Covered(j, edits) ==> Hi(i, edits) <= Lo(j, edits)
    ensures !Covered(i, edits) ==> Hi(i, edits) == Lo(i, edits) + 1
    ensures !Covered(j, edits) ==> Hi(j, edits) == Lo(j, edits) + 1
    decreases |edits|
  {
    if edits != [] {
      var e := edits[0];
      CoveredStep(i, edits, from, n);
      CoveredStep(j, edits, from, n);
      if e.end <= i {
        ImageOrder(i, j, edits[1..], e.end, n);
      } else if e.end <= j {
        ImageOrder(j, j + 1, edits[1..], e.end, n);
      }
    }
  }

  /**
   The accumulated-delta loop computes the image of the range, and leaves a non-empty range
   unplaced exactly when every byte of it was deleted outright.
   */
  lemma {:induction false} TransportExact<T>(r: Range, edits: seq<Edit<T>>, n: nat)
    requires Ordered(edits, 0, n) && 0 <= r.begin < r.end <= n
    ensures TransportRange(r, edits) == RangeImage(r, edits)
    ensures TransportRange(r, edits).None? <==>
            forall i | r.begin <= i < r.end :: Deleted(i, edits)
  {
    Untouched(r, edits, 0, 0, n);
  }

  /** A placed range is non-empty and inside the edited document. */
  lemma {:induction false} TransportInBounds<T>(source: seq<T>, r: Range, edits: seq<Edit<T>>)
    requires Ordered(edits, 0, |source|) && 0 <= r.begin < r.end <= |source|
    ensures var t := TransportRange(r, edits);
            t.Some? ==> 0 <= t.value.begin < t.value.end <= |Apply(source, edits)|
  {
    TransportExact(r, edits, |source|);
    if !AllDeleted(r, edits) {
      ImageBounds(source, edits, 0, FirstKept(r, edits));
      ImageBounds(source, edits, 0, r.end - 1);
    }
  }

  /**
   A byte that no edit covers is inside the transported range exactly when it was inside the
   range before; an unplaced range held no such byte.
   */
  lemma {:induction false} TransportKeepsSurvivors<T>(r: Range, edits: seq<Edit<T>>, n: nat, i: nat)
    requires Ordered(edits, 0, n) && 0 <= r.begin < r.end <= n
    requires i < n && !Covered(i, edits)
    ensures var t := TransportRange(r, edits);
            r.begin <= i < r.end <==> t.Some? && t.value.begin <= Lo(i, edits) < t.value.end
  {
    TransportExact(r, edits, n);
    assert !Deleted(i, edits);
    if !AllDeleted(r, edits) {
      var first, last := FirstKept(r, edits), r.end - 1;
      if i < first {
        ImageOrder(i, first, edits, 0, n);
      } else if first < i {
        ImageOrder(first, i, edits, 0, n);
      }
      if i < last {
        ImageOrder(i, last, edits, 0, n);
      } else if last < i {
        ImageOrder(last, i, edits, 0, n);
      } else {
        ImageOrder(i, i + 1, edits, 0, n);
      }
    }
  }

  lemma {:induction false} FirstKeptOrder<T>(r: Range, s: Range, edits: seq<Edit<T>>, n: nat)
    requires Ordered(edits, 0, n) && 0 <= r.begin <= s.begin
    requires r.begin < r.end && s.begin < s.end && !AllDeleted(r, edits) && !AllDeleted(s, edits)
    ensures Lo(FirstKept(r, edits), edits) <= Lo(FirstKept(s, edits), edits)
  {
    var f, g := FirstKept(r, edits), FirstKept(s, edits);
    assert f <= g;
    if f < g {
      ImageOrder(f, g, edits, 0, n);
    }
  }

  /** Transport is monotone in both ends; in particular nested ranges stay nested. */
  lemma {:induction false} TransportMonotone<T>(r: Range, s: Range, edits: seq<Edit<T>>, n: nat)
    requires Ordered(edits, 0, n)
    requires 0 <= r.begin < r.end <= n && 0 <= s.begin < s.end <= n
    ensures var t, u := TransportRange(r, edits), TransportRange(s, edits);
            t.Some? && u.Some? ==>
              && (r.begin <= s.begin ==> t.value.begin <= u.value.begin)
              && (r.end <= s.end ==> t.value.end <= u.value.end)
  {
    TransportExact(r, edits, n);
    TransportExact(s, edits, n);
    if !AllDeleted(r, edits) && !AllDeleted(s, edits) {
      if r.begin <= s.begin {
        FirstKeptOrder(r, s, edits, n);
      }
      if r.end < s.end {
        ImageOrder(r.end - 1, s.end - 1, edits, 0, n);
      }
    }
  }

  /** Strictly inside an edit that inserts something. */
  ghost predicate Replaced<T>(at: int, edits: seq<Edit<T>>) {
    exists k :: 0 <= k < |edits| && edits[k].begin < at < edits[k].end && edits[k].insert != []
  }

  lemma {:induction false} ReplacedStep<T>(at: int, edits: seq<Edit<T>>, from: int, n: int)
    requires Ordered(edits, from, n) && edits != []
    ensures at < edits[0].end ==>
              (Replaced(at, edits) <==> edits[0].begin < at && edits[0].insert != [])
    ensures edits[0].end <= at ==> (Replaced(at, edits) <==> Replaced(at, edits[1..]))
  {
    var rest := edits[1..];
    forall k | 0 <= k < |rest|
      ensures edits[0].end <= rest[k].begin && rest[k] == edits[k + 1]
    {
      LaterBegins(rest, edits[0].end, n, k);
    }
    assert forall k | 1 <= k < |edits| :: edits[k] == rest[k - 1];
  }

  lemma {:induction false} EmptyRebased<T>(at: int, edits: seq<Edit<T>>, accumulated: int, from: int, n: int)
    requires Ordered(edits, from, n)
    ensures Placed(RebaseAll(Range(at + accumulated, at + accumulated), edits, accumulated))
         == if Replaced(at, edits)
            then Some(Range(Lo(at, edits) + accumulated, Hi(at, edits) + accumulated)) else None
    decreases |edits|
  {
    if edits != [] {
      var e := edits[0];
      var rest, after := edits[1..], accumulated + e.Delta();
      OrderedBounds(edits, from, n);
      ReplacedStep(at, edits, from, n);
      if e.end <= at {
        EmptyRebased(at, rest, after, e.end, n);
      } else if at <= e.begin {
        Collapsed(at + accumulated, edits, accumulated, e.begin, n);
      } else if e.insert == [] {
        Collapsed(e.begin + accumulated, rest, after, e.end, n);
      } else {
        Behind(Range(e.begin + accumulated, e.begin + accumulated + |e.insert|), rest, after, e.end, n);
      }
    }
  }

  /**
   An empty range is the exception to "a deleted range becomes unplaced": strictly inside a
   replacement it comes to span the whole insertion, text it never marked; anywhere else it is
   unplaced.
   */
  lemma {:induction false} TransportOfEmpty<T>(at: int, edits: seq<Edit<T>>, n: nat)
    requires Ordered(edits, 0, n)
    ensures TransportRange(Range(at, at), edits)
         == if Replaced(at, edits) then Some(Range(Lo(at, edits), Hi(at, edits))) else None
  {
    EmptyRebased(at, edits, 0, 0, n);
  }
}
