/**
 How small `minimal_edit` (fine/rainfall_live.py) is among all edits a host would accept, not only
 those that replace whole characters.
 */
module ByteOptimality {
  import opened Wrappers
  import opened Utf8
  import opened Edits
  import opened Live

  /** `y` is what is left of `x` without the elements from `p` to `q`. */
  predicate IsCut<T(==)>(x: seq<T>, y: seq<T>, p: int, q: int) {
    0 <= p <= q <= |x| && x[..p] + x[q..] == y
  }

  /** Taking out one stretch of `x` leaves `y`. */
  ghost predicate Deletes<T>(x: seq<T>, y: seq<T>) {
    exists p, q :: IsCut(x, y, p, q)
  }

  /** An edit the host accepts and that turns the one text into the other. */
  ghost predicate Turns(a: Text, b: Text, v: EditValue) {
    && Acceptable([v], |Encode(a)|)
    && (AcceptableIsOrdered([v], 0, |Encode(a)|);
        Apply(Encode(a), Converted([v])) == Encode(b))
  }

  /** No single edit removes or inserts fewer bytes than the one returned. */
  ghost predicate Smallest(a: Text, b: Text)
    requires a != b
  {
    forall v | Turns(a, b, v) ::
      && Removed(MinimalEdits(a, b)[0]) <= Removed(v)
      && |Encode(MinimalEdits(a, b)[0].insert)| <= |Encode(v.insert)|
  }

  // ----- an edit in three pieces -----

  lemma {:induction false} TurnsPieces(a: Text, b: Text, v: EditValue)
    requires Turns(a, b, v)
    ensures 0 <= v.begin <= v.end <= |Encode(a)|
    ensures Encode(b) == Encode(a)[..v.begin] + Encode(v.insert) + Encode(a)[v.end..]
  {
    AcceptableIsOrdered([v], 0, |Encode(a)|);
    ApplyOne(Encode(a), v);
  }

  /** What is inserted less what is removed is the same for every such edit. */
  lemma {:induction false} TurnsGain(a: Text, b: Text, v: EditValue)
    requires Turns(a, b, v)
    ensures |Encode(v.insert)| - Removed(v) == |Encode(b)| - |Encode(a)|
  {
    TurnsPieces(a, b, v);
  }

  lemma {:induction false} CutTurns(a: Text, b: Text, p: int, q: int)
    requires IsCut(Encode(a), Encode(b), p, q)
    ensures Turns(a, b, EditValue(p, q, []))
  {
    var bytes, v := Encode(a), EditValue(p, q, []);
    assert bytes[..p] + bytes[p..q] + bytes[q..] == bytes;
    Splice(bytes[..p], bytes[p..q], bytes[q..], v);
    assert bytes[..p] + Encode(v.insert) + bytes[q..] == bytes[..p] + bytes[q..];
  }

  // ----- an edit that inserts something keeps to character boundaries -----

  lemma {:induction false} StartsCharacter(t: Text)
    requires t != []
    ensures |Encode(t)| > 0 && !Continuation(Encode(t)[0])
  {
    EncodeScalarShape(t[0]);
  }

  /** Encoded text with encoded text in front is encoded text behind, too. */
  lemma {:induction false} RestIsText(t: Text, u: Text, rest: Bytes) returns (w: Text)
    requires Encode(t) == Encode(u) + rest
    ensures t == u + w && Encode(w) == rest
  {
    DecodePrefix(u, rest);
    DecodeOfEncode(t);
    w := Decode(rest).value;
    EncodeOfDecode(rest);
  }

  lemma {:induction false} SameText(t: Text, u: Text)
    requires Encode(t) == Encode(u)
    ensures t == u
  {
    DecodeOfEncode(t);
    DecodeOfEncode(u);
  }

  lemma {:induction false} LongerText(t: Text, m: nat, k: nat)
    requires m < k <= |t|
    ensures |Encode(t[..m])| < |Encode(t[..k])|
  {
    EncodeThree(t[..k], m, k);
    assert t[..k][..m] == t[..m] && t[..k][m..k] != [];
    StartsCharacter(t[..k][m..k]);
  }

  lemma {:induction false} Halves(x: Bytes, y: Bytes)
    ensures (x + y)[..|x|] == x && (x + y)[|x|..] == y
  {
  }

  /** Encoded text whose second piece is no continuation is cut between two characters. */
  lemma {:induction false} CutBetween(t: Text, x: Bytes, y: Bytes) returns (k: nat)
    requires Encode(t) == x + y && (y == [] || !Continuation(y[0]))
    ensures k <= |t| && Encode(t[..k]) == x && Encode(t[k..]) == y
  {
    assert y != [] ==> (x + y)[|x|] == y[0];
    k := SplitAtBoundary(t, |x|);
    Halves(x, y);
  }

  lemma {:induction false} CommonHead(a: Text, head: Text, over: Bytes)
    requires Encode(a) == Encode(head) + over
    ensures |head| <= |a| && a[..|head|] == head
  {
    var w := RestIsText(a, head, over);
  }

  /** The bytes in front of an insertion are the text both have in common. */
  lemma {:induction false} HeadIsCommon(a: Text, b: Text, head: Bytes, insert: Text, tail: Bytes, over: Bytes)
      returns (k: nat)
    requires insert != [] && Encode(a) == head + over && Encode(b) == head + (Encode(insert) + tail)
    ensures k <= |a| && k <= |b| && a[..k] == b[..k] && Encode(a[..k]) == head
    ensures Encode(b[k..]) == Encode(insert) + tail
  {
    StartsCharacter(insert);
    k := CutBetween(b, head, Encode(insert) + tail);
    CommonHead(a, b[..k], over);
  }

  /** The bytes behind an insertion are text, and begin on a boundary of the text they end. */
  lemma {:induction false} TailIsCommon(a: Text, rest: Text, insert: Text, tail: Bytes, under: Bytes)
      returns (m: nat)
    requires Encode(a) == under + tail && Encode(rest) == Encode(insert) + tail
    ensures m <= |a| && Encode(a[..m]) == under && rest == insert + a[m..]
  {
    var w := RestIsText(rest, insert, tail);
    if w != [] {
      StartsCharacter(w);
    }
    m := CutBetween(a, under, tail);
    SameText(a[m..], w);
  }

  lemma {:induction false} PiecesAreMiddle(a: Text, b: Text, k: nat, m: nat, insert: Text)
    requires k <= m <= |a| && k <= |b| && a[..k] == b[..k] && b[k..] == insert + a[m..]
    ensures var s := |a| - m;
            && k + s <= Min(|a|, |b|) && SameSuffix(a, b, s) && b[k..|b| - s] == insert
  {
    var s := |a| - m;
    assert |b| - s == k + |insert|;
    assert b[|b| - s..] == b[k..][|insert|..] == a[m..];
    assert b[k..|b| - s] == b[k..][..|insert|] == insert;
  }

  lemma {:induction false} PiecesMeet(a: Text, k: nat, m: nat, begin: nat, end: nat)
    requires k <= |a| && m <= |a| && |Encode(a[..k])| == begin <= end == |Encode(a[..m])|
    ensures k <= m
  {
    if m < k {
      LongerText(a, m, k);
    }
  }

  lemma {:induction false} BytePieces(bytes: Bytes, b: Bytes, insert: Bytes, begin: nat, end: nat)
    requires begin <= end <= |bytes| && b == bytes[..begin] + insert + bytes[end..]
    ensures bytes == bytes[..begin] + bytes[begin..] && bytes == bytes[..end] + bytes[end..]
    ensures b == bytes[..begin] + (insert + bytes[end..])
  {
  }

  lemma {:induction false} CommonPieces(a: Text, b: Text, insert: Text, begin: nat, end: nat)
      returns (k: nat, m: nat)
    requires insert != [] && begin <= end <= |Encode(a)|
    requires Encode(b) == Encode(a)[..begin] + Encode(insert) + Encode(a)[end..]
    ensures k <= m <= |a| && k <= |b| && a[..k] == b[..k] && b[k..] == insert + a[m..]
    ensures |Encode(a[..k])| == begin && |Encode(a[..m])| == end
  {
    var bytes := Encode(a);
    BytePieces(bytes, Encode(b), Encode(insert), begin, end);
    k := HeadIsCommon(a, b, bytes[..begin], insert, bytes[end..], bytes[begin..]);
    m := TailIsCommon(a, b[k..], insert, bytes[end..], bytes[..end]);
    PiecesMeet(a, k, m, begin, end);
  }

  /** So an edit that inserts something replaces whole characters. */
  lemma {:induction false} InsertingIsMiddle(a: Text, b: Text, v: EditValue) returns (k: nat, s: nat)
    requires Turns(a, b, v) && v.insert != []
    ensures k + s <= Min(|a|, |b|) && a[..k] == b[..k] && SameSuffix(a, b, s) && v == Middle(a, b, k, s)
  {
    TurnsPieces(a, b, v);
    var m;
    k, m := CommonPieces(a, b, v.insert, v.begin, v.end);
    PiecesAreMiddle(a, b, k, m, v.insert);
    s := |a| - m;
  }

  // ----- when nothing need be inserted -----

  /** The returned edit inserts nothing exactly when characters can be deleted to the same effect. */
  lemma {:induction false} DeletingInsertsNothing(a: Text, b: Text)
    requires a != b
    ensures MinimalEdits(a, b)[0].insert == [] <==> Deletes(a, b)
  {
    if p, q :| IsCut(a, b, p, q) {
      CutInsertsNothing(a, b, p, q);
    }
    if MinimalEdits(a, b)[0].insert == [] {
      NothingInsertedCuts(a, b, Prefix(a, b, 0), Suffix(a, b, Prefix(a, b, 0), 0));
    }
  }

  lemma {:induction false} NothingInsertedCuts(a: Text, b: Text, p: nat, s: nat)
    requires p + s <= Min(|a|, |b|) && a[..p] == b[..p] && SameSuffix(a, b, s) && b[p..|b| - s] == []
    ensures IsCut(a, b, p, |a| - s)
  {
    assert b == b[..p] + b[|b| - s..];
  }

  lemma {:induction false} CutInsertsNothing(a: Text, b: Text, p: int, q: int)
    requires a != b && IsCut(a, b, p, q)
    ensures MinimalEdits(a, b)[0].insert == []
  {
    var s := |a| - q;
    assert b[..p] == a[..p] && b[|b| - s..] == a[q..] && b[p..|b| - s] == [];
    MinimalEditIsOptimal(a, b, p, s);
  }

  // ----- the exact condition -----

  lemma {:induction false} NoSmallerEdit(a: Text, b: Text, v: EditValue)
    requires a != b && Turns(a, b, v) && (Deletes(Encode(a), Encode(b)) ==> Deletes(a, b))
    ensures Removed(MinimalEdits(a, b)[0]) <= Removed(v)
    ensures |Encode(MinimalEdits(a, b)[0].insert)| <= |Encode(v.insert)|
  {
    if v.insert != [] {
      var k, s := InsertingIsMiddle(a, b, v);
      MinimalEditIsOptimal(a, b, k, s);
    } else {
      TurnsPieces(a, b, v);
      assert IsCut(Encode(a), Encode(b), v.begin, v.end);
      DeletingInsertsNothing(a, b);
      ReturnedTurns(a, b);
      TurnsGain(a, b, v);
      TurnsGain(a, b, MinimalEdits(a, b)[0]);
    }
  }

  lemma {:induction false} ReturnedTurns(a: Text, b: Text)
    requires a != b
    ensures Turns(a, b, MinimalEdits(a, b)[0])
  {
    MinimalEditApplies(a, b);
    assert MinimalEdits(a, b) == [MinimalEdits(a, b)[0]];
  }

  /**
   The returned edit is the smallest of all acceptable ones exactly when a change that can be made
   by deleting bytes can also be made by deleting characters.
   */
  lemma {:induction false} SmallestExactly(a: Text, b: Text)
    requires a != b
    ensures Smallest(a, b) <==> (Deletes(Encode(a), Encode(b)) ==> Deletes(a, b))
  {
    if Deletes(Encode(a), Encode(b)) ==> Deletes(a, b) {
      forall v | Turns(a, b, v)
        ensures Removed(MinimalEdits(a, b)[0]) <= Removed(v)
        ensures |Encode(MinimalEdits(a, b)[0].insert)| <= |Encode(v.insert)|
      {
        NoSmallerEdit(a, b, v);
      }
    } else {
      var p, q :| IsCut(Encode(a), Encode(b), p, q);
      CutTurns(a, b, p, q);
      DeletingInsertsNothing(a, b);
      StartsCharacter(MinimalEdits(a, b)[0].insert);
    }
  }

  /**
   The exception: from U+00E9 U+0128 to U+00E8 two bytes can be deleted, no character can, and
   `minimal_edit` removes four bytes and inserts two.
   */
  lemma {:induction false} SplittingCanBeSmaller()
    ensures var a: Text, b: Text := [233, 296], [232];
            && a != b && Deletes(Encode(a), Encode(b)) && !Deletes(a, b) && !Smallest(a, b)
            && Removed(MinimalEdits(a, b)[0]) == 4 && |Encode(MinimalEdits(a, b)[0].insert)| == 2
  {
    var a: Text, b: Text := [233, 296], [232];
    assert a[0] != b[0];
    AccentedTexts();
    var bytes := Encode(a);
    assert bytes[..1] == [0xC3] && bytes[3..] == [0xA8];
    assert IsCut(bytes, Encode(b), 1, 3);
    assert Prefix(a, b, 0) == 0 && Suffix(a, b, 0, 0) == 0;
    assert a[..2] == a && b[0..1] == b && a[..0] == [];
    DeletingInsertsNothing(a, b);
    SmallestExactly(a, b);
  }

  lemma {:induction false} AccentedTexts()
    ensures Encode([233, 296]) == [0xC3, 0xA9, 0xC4, 0xA8] && Encode([232]) == [0xC3, 0xA8]
  {
    assert Encode([233, 296]) == EncodeScalar(233) + Encode([233, 296][1..]);
    assert [233, 296][1..] == [296] && Encode([296]) == EncodeScalar(296) + Encode([296][1..]);
    assert Encode([232]) == EncodeScalar(232) + Encode([232][1..]);
  }
}
