/**
 Comparing two quantifier profiles (contrib/qprofdiff/main.cpp, `diff` and the DIFF_LT
 comparators).  The result is the order any stable sort must produce.
 */
module ProfileDiff {
  import opened Words

  /** What the difference of two 32-bit values reads as when it is stored in a signed integer. */
  function Signed(x: int): (r: int)
    requires -WORDS < x < WORDS
    ensures -WORDS / 2 <= r < WORDS / 2 && (r - x) % WORDS == 0
  {
    if x >= WORDS / 2 then x - WORDS
    else if x < -WORDS / 2 then x + WORDS
    else x
  }

  /** `-(int)w`. */
  function Negated(w: Word): int {
    Signed(-(w as int))
  }

  datatype MapEntry = MapEntry(numInstances: Word, maxGeneration: Word, maxCost: Word)

  datatype DiffEntry =
    DiffEntry(numInstances: int, maxGeneration: int, maxCost: int, leftOnly: bool, rightOnly: bool)

  datatype Item = Item(qid: string, e: DiffEntry)

  datatype Key = NumInstances | MaxGeneration | MaxCost

  function Delta(k: Key, e: DiffEntry): int {
    match k
    case NumInstances => e.numInstances
    case MaxGeneration => e.maxGeneration
    case MaxCost => e.maxCost
  }

  // ----- the order of quantifier identifiers -----

  predicate Less(a: string, b: string) {
    b != [] && (a == [] || a[0] < b[0] || (a[0] == b[0] && Less(a[1..], b[1..])))
  }

  lemma {:induction false} LessTotal(a: string, b: string)
    ensures !(Less(a, b) && Less(b, a))
    ensures a == b || Less(a, b) || Less(b, a)
    ensures Less(a, b) ==> a != b
    decreases |a|
  {
    if a != [] && b != [] {
      LessTotal(a[1..], b[1..]);
      assert a == [a[0]] + a[1..] && b == [b[0]] + b[1..];
    }
  }

  lemma {:induction false} LessTransitive(a: string, b: string, c: string)
    requires Less(a, b) && Less(b, c)
    ensures Less(a, c)
    decreases |a|
  {
    if a != [] && a[0] == b[0] && b[0] == c[0] {
      LessTransitive(a[1..], b[1..], c[1..]);
    }
  }

  // ----- the comparator -----

  /** `diff_item_lt_*`. */
  predicate Lt(k: Key, l: Item, r: Item) {
    var ltDelta, eqDelta := Delta(k, l.e) < Delta(k, r.e), Delta(k, l.e) == Delta(k, r.e);
    if l.e.leftOnly then r.e.leftOnly && (if eqDelta then Less(l.qid, r.qid) else ltDelta)
    else if l.e.rightOnly then r.e.rightOnly ==> (if eqDelta then Less(l.qid, r.qid) else ltDelta)
    else if r.e.rightOnly then false
    else if r.e.leftOnly then true
    else ltDelta
  }

  predicate Sided(i: Item) {
    !(i.e.leftOnly && i.e.rightOnly)
  }

  /** Only on the right, on both sides, only on the left: the order of the classes. */
  function Class(i: Item): nat {
    if i.e.rightOnly then 0 else if i.e.leftOnly then 2 else 1
  }

  /** The order the report is meant to have: class, then difference, then identifier. */
  predicate Before(k: Key, l: Item, r: Item) {
    || Class(l) < Class(r)
    || (Class(l) == Class(r) && Delta(k, l.e) < Delta(k, r.e))
    || (Class(l) == Class(r) && Delta(k, l.e) == Delta(k, r.e) && Less(l.qid, r.qid))
  }

  /** Neither is smaller: only entries present on both sides, with equal differences, tie. */
  predicate Tied(k: Key, l: Item, r: Item) {
    !Lt(k, l, r) && !Lt(k, r, l)
  }

  /** The comparator is the intended order, except that it does not break ties between two-sided entries. */
  lemma {:induction false} LtIsBefore(k: Key, l: Item, r: Item)
    requires Sided(l) && Sided(r)
    ensures Lt(k, l, r) <==> Before(k, l, r) && !(Class(l) == Class(r) == 1 && Delta(k, l.e) == Delta(k, r.e))
    ensures Tied(k, l, r) ==>
              Class(l) == Class(r) && Delta(k, l.e) == Delta(k, r.e) && (Class(l) == 1 || l.qid == r.qid)
  {
    LessTotal(l.qid, r.qid);
  }

  /** A strict weak order: irreflexive, transitive, and being tied is transitive too. */
  lemma {:induction false} LtIsStrictWeak(k: Key, a: Item, b: Item, c: Item)
    requires Sided(a) && Sided(b) && Sided(c)
    ensures !Lt(k, a, a)
    ensures Lt(k, a, b) && Lt(k, b, c) ==> Lt(k, a, c)
    ensures Tied(k, a, b) && Tied(k, b, c) ==> Tied(k, a, c)
  {
    LtIsBefore(k, a, b);
    LtIsBefore(k, b, c);
    LtIsBefore(k, a, c);
    LtIsBefore(k, c, a);
    LessTotal(a.qid, a.qid);
    if Less(a.qid, b.qid) && Less(b.qid, c.qid) {
      LessTransitive(a.qid, b.qid, c.qid);
    }
  }

  // ----- stable sorting -----

  /** `source` tells where each element of `after` came from. */
  ghost predicate Rearranges(before: seq<Item>, after: seq<Item>, source: seq<nat>) {
    && |before| == |after| == |source|
    && (forall i | 0 <= i < |source| :: source[i] < |before| && after[i] == before[source[i]])
    && (forall i, j | 0 <= i < j < |source| :: source[i] != source[j])
  }

  /** What `stable_sort` promises: no inversion, and ties in their original order. */
  ghost predicate StablySorted(k: Key, before: seq<Item>, after: seq<Item>, source: seq<nat>) {
    && Rearranges(before, after, source)
    && (forall i, j | 0 <= i < j < |after| :: !Lt(k, after[j], after[i]))
    && (forall i, j | 0 <= i < j < |after| && Tied(k, after[i], after[j]) :: source[i] < source[j])
  }

  ghost predicate ByIdentifier(items: seq<Item>) {
    forall i, j | 0 <= i < j < |items| :: Less(items[i].qid, items[j].qid)
  }

  /**
   Sorted stably from identifier order, the report is strictly ordered by class, difference and
   identifier, although the comparator ignores the identifier of two-sided entries.
   */
  lemma {:induction false} StableSortOrders(k: Key, before: seq<Item>, after: seq<Item>, source: seq<nat>, i: nat,
                                            j: nat)
    requires StablySorted(k, before, after, source) && ByIdentifier(before)
    requires (forall x | x in before :: Sided(x)) && i < j < |after|
    ensures Before(k, after[i], after[j])
  {
    assert after[i] in before && after[j] in before;
    LtIsBefore(k, after[i], after[j]);
    if Tied(k, after[i], after[j]) {
      assert Less(before[source[i]].qid, before[source[j]].qid);
    }
  }

  // ----- the merge -----

  function Both(l: MapEntry, r: MapEntry): DiffEntry {
    DiffEntry(Signed(l.numInstances - r.numInstances), Signed(l.maxGeneration - r.maxGeneration),
              Signed(l.maxCost - r.maxCost), false, false)
  }

  function LeftOnly(l: MapEntry): DiffEntry {
    DiffEntry(Signed(l.numInstances), Signed(l.maxGeneration), Signed(l.maxCost), true, false)
  }

  function RightOnly(r: MapEntry): DiffEntry {
    DiffEntry(Negated(r.numInstances), Negated(r.maxGeneration), Negated(r.maxCost), false, true)
  }

  type Profile = map<string, MapEntry>

  /** The entry an identifier of either profile gets. */
  function Compared(left: Profile, right: Profile, qid: string): DiffEntry
    requires qid in left || qid in right
  {
    if qid in left then (if qid in right then Both(left[qid], right[qid]) else LeftOnly(left[qid]))
    else RightOnly(right[qid])
  }

  /** The first loop of `diff`, over the left profile. */
  method MergeLeft(left: Profile, right: Profile) returns (d: map<string, DiffEntry>)
    ensures Merged(left, right, d, {})
  {
    d := map[];
    var todo := left.Keys;
    while todo != {}
      invariant todo <= left.Keys && d.Keys == left.Keys - todo
      invariant forall qid | qid in d :: d[qid] == Compared(left, right, qid)
      decreases |todo|
    {
      var qid :| qid in todo;
      d := d[qid := if qid in right then Both(left[qid], right[qid]) else LeftOnly(left[qid])];
      todo := todo - {qid};
    }
  }

  /** `d` has the right entries for all left identifiers and the right ones in `done`. */
  ghost predicate Merged(left: Profile, right: Profile, d: map<string, DiffEntry>, done: set<string>) {
    && (forall qid :: qid in d <==> qid in left || (qid in right && qid in done))
    && (forall qid | qid in d :: d[qid] == Compared(left, right, qid))
  }

  lemma {:induction false} MergedStep(left: Profile, right: Profile, d: map<string, DiffEntry>, done: set<string>,
                                      qid: string)
    requires Merged(left, right, d, done) && qid in right
    ensures Merged(left, right, if qid in left then d else d[qid := RightOnly(right[qid])], done + {qid})
  {
    if qid !in left {
      assert Compared(left, right, qid) == RightOnly(right[qid]);
    }
  }

  lemma {:induction false} MergedWhole(left: Profile, right: Profile, d: map<string, DiffEntry>)
    requires Merged(left, right, d, right.Keys)
    ensures d.Keys == left.Keys + right.Keys
  {
  }

  /** The second loop of `diff`, over the right profile. */
  method Merge(left: Profile, right: Profile) returns (d: map<string, DiffEntry>)
    ensures d.Keys == left.Keys + right.Keys && Merged(left, right, d, right.Keys)
  {
    d := MergeLeft(left, right);
    var todo := right.Keys;
    ghost var done: set<string> := {};
    while todo != {}
      invariant todo <= right.Keys && done == right.Keys - todo && Merged(left, right, d, done)
      decreases |todo|
    {
      var qid :| qid in todo;
      MergedStep(left, right, d, done, qid);
      if qid !in left {
        d := d[qid := RightOnly(right[qid])];
      }
      todo, done := todo - {qid}, done + {qid};
    }
    assert done == right.Keys;
    MergedWhole(left, right, d);
  }

  ghost predicate IsLeast(keys: set<string>, k: string) {
    k in keys && forall other | other in keys && other != k :: Less(k, other)
  }

  lemma {:induction false} LeastExists(keys: set<string>) returns (k: string)
    requires keys != {}
    ensures IsLeast(keys, k)
    decreases |keys|
  {
    var x :| x in keys;
    var rest := keys - {x};
    if rest == {} {
      k := x;
      assert forall other | other in keys :: other == x || other in rest;
    } else {
      var y := LeastExists(rest);
      LessTotal(x, y);
      k := if Less(x, y) then x else y;
      forall other | other in keys && other != k
        ensures Less(k, other)
      {
        if k == x && other != y {
          LessTransitive(x, y, other);
        }
      }
    }
  }

  /** The items so far are the entries of the keys taken, in order, and below every key to come. */
  ghost predicate Walked(d: map<string, DiffEntry>, items: seq<Item>, todo: set<string>) {
    && todo <= d.Keys && ByIdentifier(items)
    && (forall i | 0 <= i < |items| :: items[i].qid in d && items[i].e == d[items[i].qid])
    && (forall i, qid | 0 <= i < |items| && qid in todo :: Less(items[i].qid, qid))
    && forall qid | qid in d && qid !in todo :: exists i :: 0 <= i < |items| && items[i].qid == qid
  }

  lemma {:induction false} WalkedStep(d: map<string, DiffEntry>, items: seq<Item>, todo: set<string>, qid: string)
    requires Walked(d, items, todo) && IsLeast(todo, qid)
    ensures Walked(d, items + [Item(qid, d[qid])], todo - {qid})
  {
    var after, rest := items + [Item(qid, d[qid])], todo - {qid};
    assert after[|items|].qid == qid;
    forall q | q in d && q !in rest
      ensures exists i :: 0 <= i < |after| && after[i].qid == q
    {
      if q != qid {
        var i :| 0 <= i < |items| && items[i].qid == q;
        assert after[i].qid == q;
      }
    }
  }

  /** Walking an ordered map from its least key up. */
  method Flatten(d: map<string, DiffEntry>) returns (items: seq<Item>)
    ensures ByIdentifier(items)
    ensures forall i | 0 <= i < |items| :: items[i].qid in d && items[i].e == d[items[i].qid]
    ensures forall qid | qid in d :: exists i :: 0 <= i < |items| && items[i].qid == qid
  {
    items := [];
    var todo := d.Keys;
    while todo != {}
      invariant Walked(d, items, todo)
      decreases |todo|
    {
      ghost var least := LeastExists(todo);
      var qid :| qid in todo && forall other | other in todo && other != qid :: Less(qid, other);
      WalkedStep(d, items, todo, qid);
      items := items + [Item(qid, d[qid])];
      todo := todo - {qid};
    }
  }

  /** The entries of a merge are never on both exclusive sides, and their class says where they came from. */
  lemma {:induction false} ClassOfCompared(left: Profile, right: Profile, qid: string)
    requires qid in left || qid in right
    ensures Sided(Item(qid, Compared(left, right, qid)))
    ensures Class(Item(qid, Compared(left, right, qid)))
         == if qid !in left then 0 else if qid in right then 1 else 2
  {
  }

  /**
   The whole of `diff`: for every order a stable sort may deliver, each identifier of either
   profile appears exactly once, in its class, and the list is strictly ordered.
   */
  method Diff(left: Profile, right: Profile) returns (items: seq<Item>)
    ensures forall qid :: qid in left || qid in right <==> exists i :: 0 <= i < |items| && items[i].qid == qid
    ensures forall i | 0 <= i < |items| ::
              && (items[i].qid in left || items[i].qid in right)
              && items[i].e == Compared(left, right, items[i].qid) && Sided(items[i])
              && Class(items[i]) == (if items[i].qid !in left then 0 else if items[i].qid in right then 1 else 2)
    ensures forall i, j | 0 <= i < j < |items| :: items[i].qid != items[j].qid
    ensures forall k, after, source, i, j | StablySorted(k, items, after, source) && 0 <= i < j < |after| ::
              Before(k, after[i], after[j])
  {
    var d := Merge(left, right);
    items := Flatten(d);
    forall i | 0 <= i < |items|
      ensures Sided(items[i])
      ensures Class(items[i]) == if items[i].qid !in left then 0 else if items[i].qid in right then 1 else 2
    {
      ClassOfCompared(left, right, items[i].qid);
    }
    forall i, j | 0 <= i < j < |items|
      ensures items[i].qid != items[j].qid
    {
      LessTotal(items[i].qid, items[j].qid);
    }
    forall k, after, source, i, j | StablySorted(k, items, after, source) && 0 <= i < j < |after|
      ensures Before(k, after[i], after[j])
    {
      StableSortOrders(k, items, after, source, i, j);
    }
  }
}
