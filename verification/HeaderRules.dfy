/**
 Makefile rules for header files (scripts/mk_util.py, `add_h_rule` and its callers): a
 depth-first walk over the include graph, cyclic or not, with one global set of processed headers.
 Which component owns an included file is taken as given.
 */
module HeaderRules {

  /** A file, by the directory of the component that owns it and its name. */
  datatype File = File(directory: string, name: string)

  /** `target.node: source prerequisites.node ...` */
  datatype Rule = Rule(target: File, prerequisites: seq<File>)

  type Includes = File -> seq<File>

  // ----- reachability -----

  ghost predicate IsPath(includes: Includes, path: seq<File>) {
    path != [] && forall i | 0 <= i < |path| - 1 :: path[i + 1] in includes(path[i])
  }

  ghost predicate Reaches(includes: Includes, a: File, b: File) {
    exists path :: IsPath(includes, path) && path[0] == a && path[|path| - 1] == b
  }

  lemma {:induction false} ReachesSelf(includes: Includes, a: File)
    ensures Reaches(includes, a, a)
  {
    assert IsPath(includes, [a]) && [a][|[a]| - 1] == a;
  }

  lemma {:induction false} ReachesFirst(includes: Includes, a: File, b: File, c: File)
    requires b in includes(a) && Reaches(includes, b, c)
    ensures Reaches(includes, a, c)
  {
    var path :| IsPath(includes, path) && path[0] == b && path[|path| - 1] == c;
    var longer := [a] + path;
    assert IsPath(includes, longer) && longer[0] == a && longer[|longer| - 1] == c;
  }

  lemma {:induction false} ReachesLast(includes: Includes, a: File, b: File, c: File)
    requires Reaches(includes, a, b) && c in includes(b)
    ensures Reaches(includes, a, c)
  {
    var path :| IsPath(includes, path) && path[0] == a && path[|path| - 1] == b;
    var longer := path + [c];
    assert IsPath(includes, longer) && longer[0] == a && longer[|longer| - 1] == c;
  }

  ghost predicate Closed(includes: Includes, files: set<File>) {
    forall f | f in files :: forall g | g in includes(f) :: g in files
  }

  lemma {:induction false} PathStays(includes: Includes, files: set<File>, path: seq<File>)
    requires Closed(includes, files) && IsPath(includes, path) && path[0] in files
    ensures path[|path| - 1] in files
    decreases |path|
  {
    if |path| > 1 {
      PathStays(includes, files, path[1..]);
    }
  }

  /** A closed set holds everything its members reach. */
  lemma {:induction false} ClosedHoldsReach(includes: Includes, files: set<File>, a: File, b: File)
    requires Closed(includes, files) && a in files && Reaches(includes, a, b)
    ensures b in files
  {
    var path :| IsPath(includes, path) && path[0] == a && path[|path| - 1] == b;
    PathStays(includes, files, path);
  }

  function Targets(rules: seq<Rule>): set<File> {
    set i | 0 <= i < |rules| :: rules[i].target
  }

  lemma {:induction false} TargetsConcat(rules: seq<Rule>, r: Rule)
    ensures Targets(rules + [r]) == Targets(rules) + {r.target}
  {
    var more := rules + [r];
    forall f | f in Targets(rules) + {r.target}
      ensures f in Targets(more)
    {
      if f == r.target {
        assert more[|rules|].target == f;
      } else {
        var i :| 0 <= i < |rules| && rules[i].target == f;
        assert more[i].target == f;
      }
    }
  }

  // ----- progress -----

  /** The global set of processed headers, and the rules written. */
  datatype Progress = Progress(processed: set<File>, rules: seq<Rule>) {

    /** Headers whose rule is still being prepared further up the call stack. */
    ghost function Open(): set<File> {
      processed - Targets(rules)
    }
  }

  ghost predicate Written(rules: seq<Rule>, k: int, f: File) {
    exists j :: 0 <= j < k <= |rules| && rules[j].target == f
  }

  /** A rule comes after those of its prerequisites, except where these include its target in turn. */
  ghost predicate InOrder(includes: Includes, rules: seq<Rule>) {
    forall i, f | 0 <= i < |rules| && f in rules[i].prerequisites ::
      Written(rules, i, f) || Reaches(includes, f, rules[i].target)
  }

  /** Every one of the files includes `file`, directly or not. */
  ghost predicate AllReach(includes: Includes, files: set<File>, file: File) {
    forall f | f in files :: Reaches(includes, f, file)
  }

  /** No two rules for one header; rules only for processed headers; their prerequisites processed. */
  ghost predicate Valid(includes: Includes, p: Progress) {
    && Targets(p.rules) <= p.processed
    && (forall i, j | 0 <= i < j < |p.rules| :: p.rules[i].target != p.rules[j].target)
    && (forall r | r in p.rules :: r.prerequisites == includes(r.target))
    && (forall r | r in p.rules :: forall f | f in r.prerequisites :: f in p.processed)
    && InOrder(includes, p.rules)
  }

  ghost predicate ReachedFrom(includes: Includes, roots: set<File>, f: File) {
    exists root :: root in roots && Reaches(includes, root, f)
  }

  /** `q` continues `p` by everything below `roots`, with every rule it started finished. */
  ghost predicate Extended(includes: Includes, p: Progress, q: Progress, roots: set<File>) {
    && Valid(includes, q)
    && p.processed <= q.processed && p.rules <= q.rules && q.Open() == p.Open()
    && roots <= q.processed
    && (forall f | f in q.processed - p.processed :: ReachedFrom(includes, roots, f))
  }

  lemma {:induction false} ExtendedTwice(includes: Includes, p: Progress, q: Progress, r: Progress, roots: set<File>,
                                         more: set<File>)
    requires Extended(includes, p, q, roots) && Extended(includes, q, r, more)
    ensures Extended(includes, p, r, roots + more)
  {
    forall f | f in r.processed - p.processed
      ensures ReachedFrom(includes, roots + more, f)
    {
      assert ReachedFrom(includes, roots, f) || ReachedFrom(includes, more, f);
    }
  }

  function Marked(p: Progress, header: File): Progress {
    p.(processed := p.processed + {header})
  }

  function Emitted(includes: Includes, p: Progress, header: File): Progress {
    p.(rules := p.rules + [Rule(header, includes(header))])
  }

  function Included(includes: Includes, file: File): set<File> {
    set f | f in includes(file)
  }

  lemma {:induction false} EmittedIsValid(includes: Includes, p: Progress, header: File)
    requires Valid(includes, p) && header in p.Open() && Included(includes, header) <= p.processed
    requires AllReach(includes, p.Open(), header)
    ensures Valid(includes, Emitted(includes, p, header))
    ensures Emitted(includes, p, header).Open() == p.Open() - {header}
  {
    var rule := Rule(header, includes(header));
    TargetsConcat(p.rules, rule);
    forall i | 0 <= i < |p.rules|
      ensures p.rules[i].target != header
    {
      assert p.rules[i].target in Targets(p.rules);
    }
    EmittedInOrder(includes, p, header);
  }

  lemma {:induction false} EmittedInOrder(includes: Includes, p: Progress, header: File)
    requires InOrder(includes, p.rules) && Included(includes, header) <= p.processed
    requires AllReach(includes, p.Open(), header)
    ensures InOrder(includes, Emitted(includes, p, header).rules)
  {
    var rules, n := Emitted(includes, p, header).rules, |p.rules|;
    forall i, f | 0 <= i < |rules| && f in rules[i].prerequisites
      ensures Written(rules, i, f) || Reaches(includes, f, rules[i].target)
    {
      if i < n {
        if j :| 0 <= j < i && p.rules[j].target == f {
          assert rules[j].target == f;
        } else {
          assert !Written(p.rules, i, f);
        }
      } else if f in Targets(p.rules) {
        var j :| 0 <= j < n && p.rules[j].target == f;
        assert rules[j].target == f;
      } else {
        assert f in Included(includes, header) && f in p.Open();
      }
    }
  }

  lemma {:induction false} MarkedReach(includes: Includes, p: Progress, header: File)
    requires AllReach(includes, p.Open(), header)
    ensures AllReach(includes, Marked(p, header).Open(), header)
  {
    ReachesSelf(includes, header);
  }

  lemma {:induction false} IncludedReach(includes: Includes, files: set<File>, file: File, header: File)
    requires AllReach(includes, files, file) && header in includes(file)
    ensures AllReach(includes, files, header)
  {
    forall f | f in files
      ensures Reaches(includes, f, header)
    {
      ReachesLast(includes, f, file, header);
    }
  }

  /** Marking a header, doing everything below it and then writing its rule extends the progress. */
  lemma {:induction false} HeaderFinished(includes: Includes, p: Progress, q: Progress, header: File)
    requires Valid(includes, p) && header !in p.processed && AllReach(includes, p.Open(), header)
    requires Extended(includes, Marked(p, header), q, Included(includes, header))
    ensures Extended(includes, p, Emitted(includes, q, header), {header})
  {
    assert header !in Targets(p.rules) && header in Marked(p, header).Open();
    MarkedReach(includes, p, header);
    EmittedIsValid(includes, q, header);
    forall f | f in q.processed - p.processed
      ensures Reaches(includes, header, f)
    {
      ReachesSelf(includes, header);
      if f != header {
        assert ReachedFrom(includes, Included(includes, header), f);
        var root :| root in Included(includes, header) && Reaches(includes, root, f);
        ReachesFirst(includes, header, root, f);
      }
    }
  }

  /** The files of a finite universe reachable from `roots`. */
  ghost function Reach(includes: Includes, universe: set<File>, roots: set<File>): set<File> {
    set g | g in universe && ReachedFrom(includes, roots, g)
  }

  /** Between top-level calls no rule is open: the processed headers are the rules' targets, and are closed. */
  lemma {:induction false} Settled(includes: Includes, p: Progress)
    requires Valid(includes, p) && p.Open() == {}
    ensures p.processed == Targets(p.rules) && Closed(includes, p.processed)
    ensures forall r | r in p.rules :: forall f | f in r.prerequisites :: f in Targets(p.rules)
  {
    forall f | f in p.processed
      ensures f in Targets(p.rules) && forall g | g in includes(f) :: g in p.processed
    {
      assert f !in p.Open();
      var i :| 0 <= i < |p.rules| && p.rules[i].target == f;
      assert p.rules[i] in p.rules;
    }
  }

  /** A top-level call adds a rule for exactly the reachable headers that had none. */
  lemma {:induction false} TopLevel(includes: Includes, universe: set<File>, p: Progress, q: Progress, roots: set<File>)
    requires Closed(includes, universe) && roots <= universe && p.processed <= universe
    requires Valid(includes, p) && p.Open() == {} && Extended(includes, p, q, roots)
    ensures Targets(q.rules) == Targets(p.rules) + Reach(includes, universe, roots)
    ensures q.Open() == {} && q.processed <= universe
  {
    Settled(includes, p);
    Settled(includes, q);
    forall f | f in Reach(includes, universe, roots)
      ensures f in q.processed
    {
      var root :| root in roots && Reaches(includes, root, f);
      ClosedHoldsReach(includes, q.processed, root, f);
    }
    forall f | f in q.processed - p.processed
      ensures f in Reach(includes, universe, roots)
    {
      var root :| root in roots && Reaches(includes, root, f);
      ClosedHoldsReach(includes, universe, root, f);
    }
  }

  /** No file includes itself, directly or not. */
  ghost predicate Acyclic(includes: Includes) {
    forall a, b | b in includes(a) :: !Reaches(includes, b, a)
  }

  /** Without include cycles every rule stands after the rules of all its prerequisites. */
  lemma {:induction false} RulesInOrder(includes: Includes, p: Progress, i: nat, f: File) returns (j: nat)
    requires Valid(includes, p) && Acyclic(includes) && i < |p.rules| && f in p.rules[i].prerequisites
    ensures j < i && p.rules[j].target == f
  {
    assert p.rules[i] in p.rules;
    assert Written(p.rules, i, f);
    j :| 0 <= j < i && p.rules[j].target == f;
  }

  // ----- the generator -----

  /** The include graph over a finite set of files, and what has been written so far. */
  class Generator {
    const includes: Includes
    ghost const universe: set<File>
    var processed: set<File>
    var rules: seq<Rule>

    ghost function View(): Progress
      reads this
    {
      Progress(processed, rules)
    }

    constructor (includes: Includes, ghost universe: set<File>)
      ensures View() == Progress({}, []) && this.includes == includes && this.universe == universe
    {
      this.includes, this.universe := includes, universe;
      processed, rules := {}, [];
    }

    /** `add_h_rule`. */
    method AddHeaderRule(header: File)
      requires Closed(includes, universe) && processed <= universe && header in universe
      requires Valid(includes, View()) && AllReach(includes, View().Open(), header)
      modifies this
      ensures Extended(includes, old(View()), View(), {header}) && processed <= universe
      decreases universe - processed, 0
    {
      if header in processed {
        return;
      }
      ghost var before := View();
      MarkedReach(includes, before, header);
      processed := processed + {header};
      AddRuleForEachInclude(header);
      HeaderFinished(includes, before, View(), header);
      rules := rules + [Rule(header, includes(header))];
    }

    /** `add_rule_for_each_include`. */
    method AddRuleForEachInclude(file: File)
      requires Closed(includes, universe) && processed <= universe && Included(includes, file) <= universe
      requires Valid(includes, View()) && AllReach(includes, View().Open(), file)
      modifies this
      ensures Extended(includes, old(View()), View(), Included(includes, file)) && processed <= universe
      decreases universe - processed, 1
    {
      var files := includes(file);
      ghost var done: set<File> := {};
      for k := 0 to |files|
        invariant processed <= universe && done == (set f | f in files[..k])
        invariant Extended(includes, old(View()), View(), done)
      {
        ghost var before := View();
        IncludedReach(includes, before.Open(), file, files[k]);
        AddHeaderRule(files[k]);
        ExtendedTwice(includes, old(View()), before, View(), done, {files[k]});
        done := done + {files[k]};
      }
      assert files[..|files|] == files;
    }

    /** The header rules of one compiled file, and the prerequisites of its object (`add_cpp_rules`). */
    method AddCppRules(file: File) returns (prerequisites: seq<File>)
      requires Closed(includes, universe) && processed <= universe && Included(includes, file) <= universe
      requires Valid(includes, View()) && View().Open() == {}
      modifies this
      ensures Valid(includes, View()) && View().Open() == {} && processed <= universe && old(rules) <= rules
      ensures Targets(rules) == old(Targets(rules)) + Reach(includes, universe, Included(includes, file))
      ensures prerequisites == includes(file) && forall f | f in prerequisites :: f in Targets(rules)
      ensures forall r | r in rules :: forall f | f in r.prerequisites :: f in Targets(rules)
    {
      ghost var before := View();
      AddRuleForEachInclude(file);
      TopLevel(includes, universe, before, View(), Included(includes, file));
      Settled(includes, View());
      prerequisites := includes(file);
    }
  }
}
