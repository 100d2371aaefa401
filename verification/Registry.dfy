/**
 The component registry of the build scripts (scripts/mk_util.py): dependencies are completed one
 level deep when a component is defined, and link lines are sorted by definition time.
 */
module Registry {
  import opened Wrappers

  /** A component: when it was defined, what it declared, and its completed dependencies. */
  datatype Component = Component(id: nat, declared: seq<string>, deps: seq<string>)

  type Components = map<string, Component>

  datatype Problem = UnknownComponent(name: string) | AlreadyDefined

  // ----- the dependency graph -----

  /** A chain of declared dependencies, of at least one step. */
  ghost predicate IsChain(cs: Components, chain: seq<string>) {
    |chain| >= 2 && forall i | 0 <= i < |chain| - 1 :: chain[i] in cs && chain[i + 1] in cs[chain[i]].declared
  }

  ghost predicate DependsOn(cs: Components, a: string, b: string) {
    exists chain :: IsChain(cs, chain) && chain[0] == a && chain[|chain| - 1] == b
  }

  /** Declared dependencies are defined earlier. */
  ghost predicate Grounded(cs: Components) {
    && (forall c | c in cs :: forall d | d in cs[c].declared :: d in cs && cs[d].id < cs[c].id)
    && (forall a, b | a in cs && b in cs && a != b :: cs[a].id != cs[b].id)
  }

  /** The completed dependencies are exactly the transitive ones, each once. */
  ghost predicate Complete(cs: Components, c: string)
    requires c in cs
  {
    DistinctNames(cs[c].deps) && forall d :: d in cs[c].deps <==> DependsOn(cs, c, d)
  }

  ghost predicate Valid(cs: Components, next: nat) {
    && Grounded(cs)
    && (forall c | c in cs :: cs[c].id < next && Complete(cs, c))
  }

  lemma {:induction false} ChainDescends(cs: Components, chain: seq<string>)
    requires Grounded(cs) && IsChain(cs, chain)
    ensures chain[0] in cs && chain[|chain| - 1] in cs && cs[chain[|chain| - 1]].id < cs[chain[0]].id
    decreases |chain|
  {
    assert chain[1] in cs[chain[0]].declared;
    if |chain| > 2 {
      assert forall i | 0 <= i < |chain| - 1 :: chain[1..][i] == chain[i + 1];
      ChainDescends(cs, chain[1..]);
    }
  }

  /** Dependencies point back in definition time; in particular there is no cycle. */
  lemma {:induction false} DependenciesAreOlder(cs: Components, a: string, b: string)
    requires Grounded(cs) && DependsOn(cs, a, b)
    ensures a in cs && b in cs && cs[b].id < cs[a].id && a != b
  {
    var chain :| IsChain(cs, chain) && chain[0] == a && chain[|chain| - 1] == b;
    ChainDescends(cs, chain);
  }

  /** One step and then the rest. */
  lemma {:induction false} DependsOnSplit(cs: Components, a: string, b: string)
    requires a in cs
    ensures DependsOn(cs, a, b) <==> exists d :: d in cs[a].declared && (d == b || DependsOn(cs, d, b))
  {
    if DependsOn(cs, a, b) {
      var chain :| IsChain(cs, chain) && chain[0] == a && chain[|chain| - 1] == b;
      assert chain[1] in cs[chain[0]].declared;
      if |chain| > 2 {
        assert forall i | 0 <= i < |chain| - 1 :: chain[1..][i] == chain[i + 1];
        assert IsChain(cs, chain[1..]);
        assert DependsOn(cs, chain[1], b);
      }
    }
    if d :| d in cs[a].declared && (d == b || DependsOn(cs, d, b)) {
      if d == b {
        assert IsChain(cs, [a, b]);
      } else {
        var chain :| IsChain(cs, chain) && chain[0] == d && chain[|chain| - 1] == b;
        var longer := [a] + chain;
        assert IsChain(cs, longer) && longer[0] == a && longer[|longer| - 1] == b;
      }
    }
  }

  lemma {:induction false} ChainKept(cs: Components, name: string, c: Component, chain: seq<string>)
    requires Grounded(cs) && name !in cs && chain != [] && chain[0] in cs
    ensures IsChain(cs[name := c], chain) <==> IsChain(cs, chain)
    decreases |chain|
  {
    var more := cs[name := c];
    if |chain| >= 2 {
      assert forall i | 0 <= i < |chain| - 1 :: chain[1..][i] == chain[i + 1];
      if chain[1] in cs[chain[0]].declared {
        ChainKept(cs, name, c, chain[1..]);
        if |chain| > 2 {
          if IsChain(more, chain) {
            assert IsChain(more, chain[1..]);
            assert forall i | 1 <= i < |chain| - 1 :: chain[i] == chain[1..][i - 1];
          }
          if IsChain(cs, chain) {
            assert IsChain(cs, chain[1..]);
            assert forall i | 1 <= i < |chain| - 1 :: chain[i] == chain[1..][i - 1];
          }
        }
      }
    }
  }

  /** Defining a new component changes nothing for the ones before it. */
  lemma {:induction false} OldDependenciesKept(cs: Components, name: string, c: Component, a: string, b: string)
    requires Grounded(cs) && name !in cs && a in cs
    ensures DependsOn(cs[name := c], a, b) <==> DependsOn(cs, a, b)
  {
    forall chain: seq<string> | chain != [] && chain[0] == a
      ensures IsChain(cs[name := c], chain) <==> IsChain(cs, chain)
    {
      ChainKept(cs, name, c, chain);
    }
  }

  // ----- completing the dependencies -----

  /** The declared dependencies and theirs, one level deep. */
  ghost predicate OneLevel(cs: Components, declared: seq<string>, d: string) {
    exists i :: 0 <= i < |declared| && declared[i] in cs && (d == declared[i] || d in cs[declared[i]].deps)
  }

  /** `find_all_deps`: two nested loops over a growing list without duplicates. */
  method FindAllDeps(cs: Components, declared: seq<string>) returns (r: Result<seq<string>, Problem>)
    ensures r.Success? <==> forall d | d in declared :: d in cs
    ensures r.Success? ==> DistinctNames(r.value) && forall d :: d in r.value <==> OneLevel(cs, declared, d)
    ensures r.Failure? ==> r.error.UnknownComponent? && r.error.name in declared && r.error.name !in cs
  {
    var found: seq<string> := [];
    for k := 0 to |declared|
      invariant DistinctNames(found) && forall d | d in declared[..k] :: d in cs
      invariant forall d :: d in found <==> OneLevel(cs, declared[..k], d)
    {
      var dep := declared[k];
      if dep !in cs {
        return Failure(UnknownComponent(dep));
      }
      ghost var before := found;
      if dep !in found {
        found := found + [dep];
      }
      var nested := cs[dep].deps;
      for m := 0 to |nested|
        invariant DistinctNames(found)
        invariant forall d :: d in found <==> d in before || d == dep || d in nested[..m]
      {
        if nested[m] !in found {
          found := found + [nested[m]];
        }
        assert nested[..m + 1] == nested[..m] + [nested[m]];
      }
      assert nested[..|nested|] == nested;
      OneLevelStep(cs, declared, k);
    }
    assert declared[..|declared|] == declared;
    return Success(found);
  }

  lemma {:induction false} OneLevelStep(cs: Components, declared: seq<string>, k: nat)
    requires k < |declared| && declared[k] in cs
    ensures forall d :: OneLevel(cs, declared[..k + 1], d) <==>
              OneLevel(cs, declared[..k], d) || d == declared[k] || d in cs[declared[k]].deps
  {
    var shorter, longer := declared[..k], declared[..k + 1];
    forall d: string
      ensures OneLevel(cs, longer, d) <==> OneLevel(cs, shorter, d) || d == declared[k] || d in cs[declared[k]].deps
    {
      assert forall i | 0 <= i < k :: longer[i] == shorter[i];
      assert longer[k] == declared[k];
    }
  }

  /** Because the dependencies' own lists are complete, one level suffices. */
  lemma {:induction false} OneLevelSuffices(cs: Components, next: nat, name: string, declared: seq<string>,
                                            deps: seq<string>)
    requires Valid(cs, next) && name !in cs && (forall d | d in declared :: d in cs)
    requires DistinctNames(deps) && forall d :: d in deps <==> OneLevel(cs, declared, d)
    ensures Valid(cs[name := Component(next, declared, deps)], next + 1)
  {
    var c := Component(next, declared, deps);
    var more := cs[name := c];
    forall a | a in cs
      ensures Complete(more, a)
    {
      assert Complete(cs, a);
      forall d: string
        ensures d in more[a].deps <==> DependsOn(more, a, d)
      {
        OldDependenciesKept(cs, name, c, a, d);
      }
    }
    forall d: string
      ensures d in deps <==> DependsOn(more, name, d)
    {
      NewDependencies(cs, next, name, c, d);
    }
  }

  lemma {:induction false} NewDependencies(cs: Components, next: nat, name: string, c: Component, d: string)
    requires Valid(cs, next) && name !in cs && (forall x | x in c.declared :: x in cs)
    ensures OneLevel(cs, c.declared, d) <==> DependsOn(cs[name := c], name, d)
  {
    var more := cs[name := c];
    DependsOnSplit(more, name, d);
    forall x | x in c.declared
      ensures d in cs[x].deps <==> DependsOn(more, x, d)
    {
      assert Complete(cs, x);
      OldDependenciesKept(cs, name, c, x, d);
    }
    if x :| x in c.declared && (x == d || DependsOn(more, x, d)) {
      var i :| 0 <= i < |c.declared| && c.declared[i] == x;
      assert OneLevel(cs, c.declared, d);
    }
  }

  /** The registry. */
  class Catalogue {
    var components: Components
    var next: nat

    constructor ()
      ensures Valid(components, next) && components == map[]
    {
      components, next := map[], 0;
    }

    /** Building a `Component` and registering it. */
    method Define(name: string, declared: seq<string>) returns (problem: Option<Problem>)
      requires Valid(components, next)
      modifies this
      ensures Valid(components, next)
      ensures problem.Some? ==> components == old(components) && next == old(next)
      ensures problem.None? <==> name !in old(components) && forall d | d in declared :: d in old(components)
      ensures problem.None? ==>
                && name in components && components[name].declared == declared && components[name].id == old(next)
                && components == old(components)[name := components[name]]
                && (forall d :: d in components[name].deps <==> DependsOn(components, name, d))
    {
      if name in components {
        return Some(AlreadyDefined);
      }
      var deps := FindAllDeps(components, declared);
      if deps.Failure? {
        return Some(deps.error);
      }
      OneLevelSuffices(components, next, name, declared, deps.value);
      components := components[name := Component(next, declared, deps.value)];
      next := next + 1;
      assert Complete(components, name);
      return None;
    }
  }

  // ----- link order -----

  function InsertNewestFirst(cs: Components, name: string, sorted: seq<string>): (r: seq<string>)
    requires name in cs && forall s | s in sorted :: s in cs
    ensures multiset(r) == multiset(sorted) + multiset{name}
  {
    if sorted == [] || cs[name].id >= cs[sorted[0]].id then [name] + sorted
    else
      assert sorted == [sorted[0]] + sorted[1..];
      [sorted[0]] + InsertNewestFirst(cs, name, sorted[1..])
  }

  /** `sort_components`: newest definition first. */
  function SortComponents(cs: Components, names: seq<string>): (r: seq<string>)
    requires forall n | n in names :: n in cs
    ensures multiset(r) == multiset(names)
  {
    if names == [] then []
    else
      assert names == [names[0]] + names[1..];
      var rest := SortComponents(cs, names[1..]);
      assert forall s | s in rest :: s in multiset(rest);
      InsertNewestFirst(cs, names[0], rest)
  }

  ghost predicate NewestFirst(cs: Components, names: seq<string>) {
    && (forall n | n in names :: n in cs)
    && forall i, j | 0 <= i < j < |names| :: cs[names[i]].id >= cs[names[j]].id
  }

  lemma {:induction false} InsertMembers(cs: Components, name: string, sorted: seq<string>, s: string)
    requires name in cs && (forall s | s in sorted :: s in cs) && s in InsertNewestFirst(cs, name, sorted)
    ensures s == name || s in sorted
  {
    assert s in multiset(InsertNewestFirst(cs, name, sorted));
  }

  lemma {:induction false} NewestFirstCons(cs: Components, first: string, rest: seq<string>)
    requires first in cs && NewestFirst(cs, rest) && forall s | s in rest :: cs[s].id <= cs[first].id
    ensures NewestFirst(cs, [first] + rest)
  {
  }

  lemma {:induction false} InsertKeepsOrder(cs: Components, name: string, sorted: seq<string>)
    requires name in cs && NewestFirst(cs, sorted)
    ensures NewestFirst(cs, InsertNewestFirst(cs, name, sorted))
    decreases |sorted|
  {
    if sorted == [] || cs[name].id >= cs[sorted[0]].id {
      NewestFirstCons(cs, name, sorted);
    } else {
      var tail := InsertNewestFirst(cs, name, sorted[1..]);
      InsertKeepsOrder(cs, name, sorted[1..]);
      forall s | s in tail
        ensures cs[s].id <= cs[sorted[0]].id
      {
        InsertMembers(cs, name, sorted[1..], s);
      }
      NewestFirstCons(cs, sorted[0], tail);
    }
  }

  lemma {:induction false} SortedNewestFirst(cs: Components, names: seq<string>)
    requires forall n | n in names :: n in cs
    ensures NewestFirst(cs, SortComponents(cs, names))
    decreases |names|
  {
    if names != [] {
      SortedNewestFirst(cs, names[1..]);
      InsertKeepsOrder(cs, names[0], SortComponents(cs, names[1..]));
    }
  }

  /** In a sorted link line every library comes before everything it depends on. */
  lemma {:induction false} LinkOrder(cs: Components, next: nat, names: seq<string>, i: nat, j: nat)
    requires Valid(cs, next) && (forall n | n in names :: n in cs)
    requires i < |SortComponents(cs, names)| && j < |SortComponents(cs, names)|
    requires DependsOn(cs, SortComponents(cs, names)[i], SortComponents(cs, names)[j])
    ensures i < j
  {
    SortedNewestFirst(cs, names);
    DependenciesAreOlder(cs, SortComponents(cs, names)[i], SortComponents(cs, names)[j]);
  }
}
