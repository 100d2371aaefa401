/** The browser editor's client of the host (fine/rainfall_live.py): minimal edits and `replace_source`. */
module Live {
  import opened Utf8
  import opened Edits
  import opened Host
  import opened Integrity
  import opened Runs
  import opened Safety
  import opened RainHost

  function Min(a: nat, b: nat): nat {
    if a < b then a else b
  }

  /** The longest common prefix, searched upwards from `p`. */
  function Prefix(a: Text, b: Text, p: nat): (r: nat)
    requires p <= Min(|a|, |b|) && a[..p] == b[..p]
    ensures p <= r <= Min(|a|, |b|) && a[..r] == b[..r]
    ensures r == Min(|a|, |b|) || a[r] != b[r]
    decreases |a| - p
  {
    if p < Min(|a|, |b|) && a[p] == b[p] then
      assert a[..p + 1] == a[..p] + [a[p]] && b[..p + 1] == b[..p] + [b[p]];
      Prefix(a, b, p + 1)
    else p
  }

  predicate SameSuffix(a: Text, b: Text, s: nat)
    requires s <= |a| && s <= |b|
  {
    a[|a| - s..] == b[|b| - s..]
  }

  /** The longest common suffix that leaves the first `p` characters alone, searched upwards from `s`. */
  function Suffix(a: Text, b: Text, p: nat, s: nat): (r: nat)
    requires p + s <= Min(|a|, |b|) && SameSuffix(a, b, s)
    ensures s <= r && p + r <= Min(|a|, |b|) && SameSuffix(a, b, r)
    ensures p + r == Min(|a|, |b|) || a[|a| - r - 1] != b[|b| - r - 1]
    decreases |a| - s
  {
    if p + s < Min(|a|, |b|) && a[|a| - s - 1] == b[|b| - s - 1] then
      assert a[|a| - s - 1..] == [a[|a| - s - 1]] + a[|a| - s..];
      assert b[|b| - s - 1..] == [b[|b| - s - 1]] + b[|b| - s..];
      Suffix(a, b, p, s + 1)
    else s
  }

  /** Replacing the middle of `a` between a common prefix and suffix by the middle of `b`, in bytes. */
  function Middle(a: Text, b: Text, p: nat, s: nat): EditValue
    requires p + s <= Min(|a|, |b|)
  {
    EditValue(|Encode(a[..p])|, |Encode(a[..|a| - s])|, b[p..|b| - s])
  }

  function MinimalEdits(a: Text, b: Text): seq<EditValue> {
    if a == b then []
    else
      var p := Prefix(a, b, 0);
      [Middle(a, b, p, Suffix(a, b, p, 0))]
  }

  lemma {:induction false} PrefixStep(a: Text, b: Text, p: nat)
    requires p < Min(|a|, |b|) && a[..p] == b[..p] && a[p] == b[p]
    ensures a[..p + 1] == b[..p + 1] && Prefix(a, b, p + 1) == Prefix(a, b, p)
  {
    assert a[..p + 1] == a[..p] + [a[p]] && b[..p + 1] == b[..p] + [b[p]];
  }

  lemma {:induction false} SuffixStep(a: Text, b: Text, p: nat, s: nat)
    requires p + s < Min(|a|, |b|) && SameSuffix(a, b, s) && a[|a| - s - 1] == b[|b| - s - 1]
    ensures SameSuffix(a, b, s + 1) && Suffix(a, b, p, s + 1) == Suffix(a, b, p, s)
  {
    assert a[|a| - s - 1..] == [a[|a| - s - 1]] + a[|a| - s..];
    assert b[|b| - s - 1..] == [b[|b| - s - 1]] + b[|b| - s..];
  }

  /** The first loop of `minimal_edit`. */
  method CommonPrefix(before: Text, after: Text) returns (prefix: nat)
    ensures prefix == Prefix(before, after, 0)
    ensures prefix <= Min(|before|, |after|) && before[..prefix] == after[..prefix]
    ensures prefix < Min(|before|, |after|) ==> before[prefix] != after[prefix]
  {
    prefix := 0;
    var limit := Min(|before|, |after|);
    while prefix < limit && before[prefix] == after[prefix]
      invariant prefix <= limit && before[..prefix] == after[..prefix]
      invariant Prefix(before, after, prefix) == Prefix(before, after, 0)
    {
      PrefixStep(before, after, prefix);
      prefix := prefix + 1;
    }
  }

  /** The second loop of `minimal_edit`. */
  method CommonSuffix(before: Text, after: Text, prefix: nat) returns (suffix: nat)
    requires prefix <= Min(|before|, |after|)
    ensures suffix == Suffix(before, after, prefix, 0)
    ensures prefix + suffix <= Min(|before|, |after|) && SameSuffix(before, after, suffix)
    ensures prefix + suffix < Min(|before|, |after|) ==>
              before[|before| - suffix - 1] != after[|after| - suffix - 1]
  {
    suffix := 0;
    var beforeLeft, afterLeft := |before| - prefix, |after| - prefix;
    while suffix < beforeLeft && suffix < afterLeft
          && before[|before| - suffix - 1] == after[|after| - suffix - 1]
      invariant suffix <= beforeLeft && suffix <= afterLeft && SameSuffix(before, after, suffix)
      invariant Suffix(before, after, prefix, suffix) == Suffix(before, after, prefix, 0)
    {
      SuffixStep(before, after, prefix, suffix);
      suffix := suffix + 1;
    }
  }

  lemma {:induction false} ReturnedEdit(a: Text, b: Text, p: nat, s: nat)
    requires a != b && p == Prefix(a, b, 0) && s == Suffix(a, b, p, 0)
    ensures MinimalEdits(a, b) == [EditValue(|Encode(a[..p])|, |Encode(a[..|a| - s])|, b[p..|b| - s])]
  {
  }

  /** `minimal_edit`. */
  method MinimalEdit(before: Text, after: Text) returns (edits: seq<EditValue>)
    ensures edits == MinimalEdits(before, after) && Acceptable(edits, |Encode(before)|)
    ensures Ordered(Converted(edits), 0, |Encode(before)|)
    ensures Apply(Encode(before), Converted(edits)) == Encode(after)
  {
    MinimalEditApplies(before, after);
    if before == after {
      return [];
    }
    var prefix := CommonPrefix(before, after);
    var suffix := CommonSuffix(before, after, prefix);
    var beforeEnd := if suffix != 0 then |before| - suffix else |before|;
    var afterEnd := if suffix != 0 then |after| - suffix else |after|;
    ReturnedEdit(before, after, prefix, suffix);
    return [EditValue(|Encode(before[..prefix])|, |Encode(before[..beforeEnd])|, after[prefix..afterEnd])];
  }

  // ----- the edit is right, and as small as possible -----

  lemma {:induction false} EncodeThree(t: Text, p: nat, q: nat)
    requires p <= q <= |t|
    ensures Encode(t) == Encode(t[..p]) + Encode(t[p..q]) + Encode(t[q..])
    ensures Encode(t[..q]) == Encode(t[..p]) + Encode(t[p..q])
  {
    assert t[..q] == t[..p] + t[p..q] && t == t[..q] + t[q..];
    EncodeConcat(t[..p], t[p..q]);
    EncodeConcat(t[..q], t[q..]);
  }

  lemma {:induction false} ApplyOne(source: Bytes, v: EditValue)
    requires Ordered(Converted([v]), 0, |source|)
    ensures 0 <= v.begin <= v.end <= |source|
    ensures Apply(source, Converted([v])) == source[..v.begin] + Encode(v.insert) + source[v.end..]
  {
    var edits := Converted([v]);
    OrderedBounds(edits, 0, |source|);
    assert edits == [ToEdit(v)] && edits[1..] == [];
    assert ApplyFrom(source, edits[1..], v.end) == source[v.end..];
  }

  /** One edit between two given pieces of the source. */
  lemma {:induction false} Splice(x: Bytes, y: Bytes, z: Bytes, v: EditValue)
    requires v.begin == |x| && v.end == |x + y|
    ensures Acceptable([v], |x + y + z|)
    ensures Ordered(Converted([v]), 0, |x + y + z|)
    ensures Apply(x + y + z, Converted([v])) == x + Encode(v.insert) + z
  {
    AcceptableIsOrdered([v], 0, |x + y + z|);
    ApplyOne(x + y + z, v);
    assert (x + y + z)[..|x|] == x && (x + y + z)[|x + y|..] == z;
  }

  lemma {:induction false} MiddleOffsets(a: Text, b: Text, p: nat, s: nat)
    requires p + s <= Min(|a|, |b|)
    ensures var x, y, z := Encode(a[..p]), Encode(a[p..|a| - s]), Encode(a[|a| - s..]);
            && Encode(a) == x + y + z
            && Middle(a, b, p, s).begin == |x| && Middle(a, b, p, s).end == |x + y|
  {
    EncodeThree(a, p, |a| - s);
  }

  lemma {:induction false} MiddleTarget(a: Text, b: Text, p: nat, s: nat)
    requires p + s <= Min(|a|, |b|) && a[..p] == b[..p] && SameSuffix(a, b, s)
    ensures Encode(b) == Encode(a[..p]) + Encode(Middle(a, b, p, s).insert) + Encode(a[|a| - s..])
  {
    EncodeThree(b, p, |b| - s);
  }

  /** Any such replacement is acceptable and turns the one text into the other. */
  lemma {:induction false} MiddleApplies(a: Text, b: Text, p: nat, s: nat)
    requires p + s <= Min(|a|, |b|) && a[..p] == b[..p] && SameSuffix(a, b, s)
    ensures Acceptable([Middle(a, b, p, s)], |Encode(a)|)
    ensures Ordered(Converted([Middle(a, b, p, s)]), 0, |Encode(a)|)
    ensures Apply(Encode(a), Converted([Middle(a, b, p, s)])) == Encode(b)
  {
    MiddleOffsets(a, b, p, s);
    MiddleTarget(a, b, p, s);
    Splice(Encode(a[..p]), Encode(a[p..|a| - s]), Encode(a[|a| - s..]), Middle(a, b, p, s));
  }

  /** The transaction for a changed text is always accepted, and applying it yields the new text. */
  lemma {:induction false} MinimalEditApplies(a: Text, b: Text)
    ensures MinimalEdits(a, b) == [] <==> a == b
    ensures Acceptable(MinimalEdits(a, b), |Encode(a)|)
    ensures Ordered(Converted(MinimalEdits(a, b)), 0, |Encode(a)|)
    ensures Apply(Encode(a), Converted(MinimalEdits(a, b))) == Encode(b)
  {
    if a == b {
      assert Converted([]) == [];
    } else {
      var p := Prefix(a, b, 0);
      MiddleApplies(a, b, p, Suffix(a, b, p, 0));
    }
  }

  function Removed(v: EditValue): int {
    v.end - v.begin
  }

  lemma {:induction false} PrefixIsLongest(a: Text, b: Text, q: nat)
    requires q <= Min(|a|, |b|) && a[..q] == b[..q]
    ensures q <= Prefix(a, b, 0)
  {
    assert forall i | 0 <= i < q :: a[i] == a[..q][i] && b[i] == b[..q][i];
  }

  lemma {:induction false} SuffixIsLongest(a: Text, b: Text, p: nat, t: nat)
    requires p + t <= Min(|a|, |b|) && SameSuffix(a, b, t)
    ensures t <= Suffix(a, b, p, 0)
  {
    var x, y := |a| - t, |b| - t;
    assert forall i | x <= i < |a| :: a[i] == a[x..][i - x];
    assert forall i | y <= i < |b| :: b[i] == b[y..][i - y];
  }

  lemma {:induction false} SliceOfSlice(t: Text, p: nat, e: nat, q: nat, f: nat)
    requires q <= p <= e <= f <= |t|
    ensures t[q..f][p - q..e - q] == t[p..e]
  {
    var wide := t[q..f];
    forall i | 0 <= i < e - p
      ensures wide[p - q..e - q][i] == t[p..e][i]
    {
      assert wide[p - q + i] == t[p + i];
    }
  }

  lemma {:induction false} WiderMiddle(t: Text, p: nat, e: nat, q: nat, f: nat)
    requires q <= p <= e <= f <= |t|
    ensures |Encode(t[p..e])| <= |Encode(t[q..f])|
  {
    EncodeThree(t[q..f], p - q, e - q);
    SliceOfSlice(t, p, e, q, f);
  }

  /** When prefix and suffix overlap, the suffix search only stops because it has used up the shorter text. */
  lemma {:induction false} ShorterSuffix(a: Text, b: Text, p: nat, t: nat)
    requires p <= Min(|a|, |b|) && t <= Min(|a|, |b|) < p + t && SameSuffix(a, b, t)
    ensures p + Suffix(a, b, p, 0) == Min(|a|, |b|)
  {
    var m := Min(|a|, |b|) - p;
    assert a[|a| - m..] == a[|a| - t..][t - m..] && b[|b| - m..] == b[|b| - t..][t - m..];
    SuffixIsLongest(a, b, p, m);
  }

  lemma {:induction false} MiddleLength(t: Text, p: nat, s: nat)
    requires p + s <= |t|
    ensures |Encode(t[p..|t| - s])| == |Encode(t)| - |Encode(t[..p])| - |Encode(t[|t| - s..])|
    ensures |Encode(t[p..|t| - s])| == |Encode(t[..|t| - s])| - |Encode(t[..p])|
  {
    EncodeThree(t, p, |t| - s);
  }

  /** What is inserted less what is removed depends on the two texts only. */
  lemma {:induction false} SameGain(a: Text, b: Text, p: nat, s: nat)
    requires p + s <= Min(|a|, |b|) && a[..p] == b[..p] && SameSuffix(a, b, s)
    ensures |Encode(b[p..|b| - s])| - |Encode(a[p..|a| - s])| == |Encode(b)| - |Encode(a)|
    ensures Removed(Middle(a, b, p, s)) == |Encode(a[p..|a| - s])|
  {
    MiddleLength(a, p, s);
    MiddleLength(b, p, s);
  }

  lemma {:induction false} NoLargerRemoval(a: Text, b: Text, p: nat, s: nat, q: nat, t: nat)
    requires p + s <= Min(|a|, |b|) && q + t <= Min(|a|, |b|) && q <= p
    requires t <= s || p + s == Min(|a|, |b|)
    ensures |Encode(a[p..|a| - s])| <= |Encode(a[q..|a| - t])| || b[p..|b| - s] == []
  {
    if t <= s {
      WiderMiddle(a, p, |a| - s, q, |a| - t);
    } else if |a| <= |b| {
      assert a[p..|a| - s] == [];
    }
  }

  lemma {:induction false} SmallerMiddle(a: Text, b: Text, p: nat, s: nat, q: nat, t: nat)
    requires p + s <= Min(|a|, |b|) && a[..p] == b[..p] && SameSuffix(a, b, s)
    requires q + t <= Min(|a|, |b|) && a[..q] == b[..q] && SameSuffix(a, b, t)
    requires q <= p && (t <= s || p + s == Min(|a|, |b|))
    ensures Removed(Middle(a, b, p, s)) <= Removed(Middle(a, b, q, t))
    ensures |Encode(Middle(a, b, p, s).insert)| <= |Encode(Middle(a, b, q, t).insert)|
  {
    NoLargerRemoval(a, b, p, s, q, t);
    SameGain(a, b, p, s);
    SameGain(a, b, q, t);
  }

  lemma {:induction false} SuffixReaches(a: Text, b: Text, p: nat, t: nat)
    requires p <= Min(|a|, |b|) && t <= Min(|a|, |b|) && SameSuffix(a, b, t)
    ensures t <= Suffix(a, b, p, 0) || p + Suffix(a, b, p, 0) == Min(|a|, |b|)
  {
    if p + t <= Min(|a|, |b|) {
      SuffixIsLongest(a, b, p, t);
    } else {
      ShorterSuffix(a, b, p, t);
    }
  }

  /**
   No single replacement between a common prefix and a common suffix removes or inserts fewer
   characters, or fewer bytes.
   */
  lemma {:induction false} MinimalEditIsOptimal(a: Text, b: Text, q: nat, t: nat)
    requires a != b && q + t <= Min(|a|, |b|) && a[..q] == b[..q] && SameSuffix(a, b, t)
    ensures var p := Prefix(a, b, 0);
            var s := Suffix(a, b, p, 0);
            && MinimalEdits(a, b) == [Middle(a, b, p, s)]
            && |a[p..|a| - s]| <= |a[q..|a| - t]| && |b[p..|b| - s]| <= |b[q..|b| - t]|
    ensures Removed(MinimalEdits(a, b)[0]) <= Removed(Middle(a, b, q, t))
    ensures |Encode(MinimalEdits(a, b)[0].insert)| <= |Encode(Middle(a, b, q, t).insert)|
  {
    var p := Prefix(a, b, 0);
    var s := Suffix(a, b, p, 0);
    PrefixIsLongest(a, b, q);
    SuffixReaches(a, b, p, t);
    SmallerMiddle(a, b, p, s, q, t);
  }

  // ----- replacing the source -----

  const MAX_SOURCE_BYTES := 2 * 1024 * 1024

  datatype Reply = TooLarge | Unchanged(generation: string) | Acted(outcome: Outcome)

  /** `replace_source`, with nothing between its two lock sections. */
  method ReplaceSource(host: Directory, source: Text, token: string) returns (r: Reply)
    requires Fresh(host.OnDisk(), token) && host.state.Some? && Loads(host.state.value)
    modifies host
    ensures r.TooLarge? <==> |Encode(source)| > MAX_SOURCE_BYTES
    ensures r.TooLarge? || r.Unchanged? ==> host.OnDisk() == old(host.OnDisk())
    ensures !r.TooLarge? ==> host.state.Some? && host.state.value.text == source
  {
    if |Encode(source)| > MAX_SOURCE_BYTES {
      return TooLarge;
    }
    var s := host.state.value;
    var edits := MinimalEdit(s.text, source);
    MinimalEditApplies(s.text, source);
    if edits == [] {
      return Unchanged(s.current);
    }
    ReplacementAdvances(host.OnDisk(), source, token);
    var outcome := host.Advance(edits, token);
    return Acted(outcome);
  }

  /** Advancing by the minimal edits of the displayed text to another text displays that text. */
  lemma {:induction false} ReplacementAdvances(d: Disk, text: Text, token: string)
    requires Fresh(d, token) && d.state.Some? && Loads(d.state.value) && d.state.value.text != text
    ensures var plan := AdvancePlan(d, MinimalEdits(d.state.value.text, text), token);
            && plan.outcome.Launched?
            && PerformAll(d, plan.writes).state.Some? && PerformAll(d, plan.writes).state.value.text == text
  {
    var s := d.state.value;
    var values := MinimalEdits(s.text, text);
    MinimalEditApplies(s.text, text);
    DecodeOfEncode(text);
    LaunchWrites(d, Edited(s, text, Converted(values)), token, Converted(values));
  }

  /** Lock sections of solvers and failure reports: they never edit. */
  predicate Solving(a: Action) {
    a.BeginComplete? || a.FinishComplete? || a.Fail?
  }

  ghost predicate SavesText(plan: Plan, text: Text) {
    plan.writes != [] ==>
      plan.writes[|plan.writes| - 1].Save? && plan.writes[|plan.writes| - 1].state.text == text
  }

  lemma {:induction false} FinishKeepsText(d: Disk, p: Pending)
    requires d.state.Some?
    ensures SavesText(FinishPlan(d, p), d.state.value.text)
  {
    if FinishPlan(d, p).writes != [] {
      FinishRecords(d, p);
      RecordWrites(d, d.state.value, p, FinishPlan(d, p).outcome.admission);
    }
  }

  lemma {:induction false} SolvingPlanKeepsText(dec: Decoder, d: Disk, a: Action)
    requires d.state.Some? && Solving(a)
    ensures SavesText(PlanOf(dec, d, a), d.state.value.text)
  {
    if a.FinishComplete? {
      FinishKeepsText(d, a.pending);
    }
  }

  lemma {:induction false} CarryKeepsText(dec: Decoder, sys: System, a: Action, plan: Plan)
    requires sys.disk.state.Some? && Orderly(sys.disk, plan.writes) && SavesText(plan, sys.disk.state.value.text)
    ensures var next := Carry(dec, sys, a, plan);
            next.disk.state.Some? && next.disk.state.value.text == sys.disk.state.value.text
  {
    CrashSafe(sys.disk, plan.writes, CutOf(a));
  }

  lemma {:induction false} SolvingKeepsText(dec: Decoder, sys: System, a: Action)
    requires SystemSound(dec, sys) && sys.disk.state.Some? && Solving(a)
    ensures var next := Next(dec, sys, a);
            next.disk.state.Some? && next.disk.state.value.text == sys.disk.state.value.text
  {
    if Enabled(sys, a) {
      PlanIsOrderly(dec, sys, a);
      SolvingPlanKeepsText(dec, sys.disk, a);
      CarryKeepsText(dec, sys, a, PlanOf(dec, sys.disk, a));
    }
  }

  lemma {:induction false} SolvingRunKeepsText(dec: Decoder, actions: seq<Action>, between: seq<Action>)
    requires Run(dec, actions).disk.state.Some? && forall a | a in between :: Solving(a)
    ensures var d := Run(dec, actions + between).disk;
            d.state.Some? && d.state.value.text == Run(dec, actions).disk.state.value.text
    decreases |between|
  {
    if between == [] {
      assert actions + between == actions;
    } else {
      var shorter := between[..|between| - 1];
      assert (actions + between)[..|actions + between| - 1] == actions + shorter;
      SolvingRunKeepsText(dec, actions, shorter);
      EveryRunIsSound(dec, actions + shorter);
      SolvingKeepsText(dec, Run(dec, actions + shorter), between[|between| - 1]);
    }
  }

  lemma {:induction false} NextAdvance(dec: Decoder, sys: System, values: seq<EditValue>, token: string)
    requires Fresh(sys.disk, token)
    ensures Next(dec, sys, Advance(values, token, Whole))
         == Carry(dec, sys, Advance(values, token, Whole), AdvancePlan(sys.disk, values, token))
  {
  }

  lemma {:induction false} ReplacementStep(dec: Decoder, sys: System, text: Text, token: string)
    requires Sound(dec, sys.disk) && PendingsSound(dec, sys.disk, sys.pending)
    requires Fresh(sys.disk, token) && sys.disk.state.Some? && Loads(sys.disk.state.value)
    requires sys.disk.state.value.text != text
    ensures var values := MinimalEdits(sys.disk.state.value.text, text);
            var next := Next(dec, sys, Advance(values, token, Whole));
            next.disk.state.Some? && next.disk.state.value.text == text
  {
    var values := MinimalEdits(sys.disk.state.value.text, text);
    NextAdvance(dec, sys, values, token);
    ReplacementAdvances(sys.disk, text, token);
    AdvanceTransactionIsGood(dec, sys.disk, values, token);
    CarrySaves(dec, sys, Advance(values, token, Whole), AdvancePlan(sys.disk, values, token));
  }

  /**
   When the session is the only editor, `replace_source` displays its text whatever completions
   and failures come between reading the display and advancing it, as long as the host still loads.
   */
  lemma {:induction false} ReplaceSourceLands(dec: Decoder, actions: seq<Action>, between: seq<Action>, text: Text,
                                              token: string)
    requires Run(dec, actions).disk.state.Some? && forall a | a in between :: Solving(a)
    requires var d := Run(dec, actions + between).disk;
             Fresh(d, token) && d.state.Some? && Loads(d.state.value)
    ensures var values := MinimalEdits(Run(dec, actions).disk.state.value.text, text);
            var run := if values == [] then actions + between else actions + between + [Advance(values, token, Whole)];
            var d := Run(dec, run).disk;
            d.state.Some? && d.state.value.text == text
  {
    SolvingRunKeepsText(dec, actions, between);
    var read := Run(dec, actions).disk.state.value.text;
    MinimalEditApplies(read, text);
    if read != text {
      EveryRunIsSound(dec, actions + between);
      ReplacementStep(dec, Run(dec, actions + between), text, token);
      RunOneMore(dec, actions + between, Advance(MinimalEdits(read, text), token, Whole));
    }
  }
}
