/**
 * Goals and criteria: `compile_goal` of `contracts/goal.py` with the criterion types it produces.
 *
 * Path and text checks, shell quoting and `repr` are given as functions (`Checks`).
 */
module GoalCompile {
  import opened Prelude

  datatype CriterionId = CriterionId(text: string)

  datatype DesiredKind =
    | FileExists(path: string)
    | FileContains(path: string, pattern: string)
    | Command(run: string, expectExit: int)
    | Assertion(expr: string)
    | Schema(target: string, schemaRef: string)
    | Metric(metric: string, op: string, threshold: real)
    | Judge(rubric: string)

  datatype Desired = Desired(id: CriterionId, kind: DesiredKind, weight: real, timeout: nat)

  datatype ConstraintValue = Text(text: string) | Number(number: real) | Texts(texts: seq<string>)

  datatype ConstraintKind = MustPassCommand | MustNotModify | BudgetCeiling | NoExternalEffects

  datatype Constraint = Constraint(id: CriterionId, kind: ConstraintKind, value: ConstraintValue, weight: real)

  datatype Goal = Goal(desired: seq<Desired>, constraints: seq<Constraint>)

  datatype CriterionKind =
    | RunCommand(run: string, expectExit: int)
    | Assert(expr: string)
    | MatchSchema(target: string, schemaRef: string)
    | Measure(metric: string, op: string, threshold: real)
    | AskJudge(rubric: string)

  const DEFAULT_TIMEOUT: nat := 300

  datatype Criterion = Criterion(id: CriterionId, kind: CriterionKind, weight: real, timeout: nat)

  /** `is_required`. */
  predicate IsRequired(c: Criterion) {
    c.weight >= 1.0
  }

  datatype CompileError = BadPath(id: CriterionId) | BadText(id: CriterionId) | BadValue(id: CriterionId)

  datatype Checks = Checks(pathOk: string -> bool, textOk: string -> bool, quote: string -> string, repr: string -> string)

  /** `_at_least_one_hard_criterion`. */
  ghost predicate HasHardCriterion(g: Goal) {
    exists d :: d in g.desired && d.weight >= 1.0 && !d.kind.Judge?
  }

  /** `_desired_to_criterion`. */
  function CompileDesired(k: Checks, d: Desired): Result<Criterion, CompileError> {
    match d.kind
    case FileExists(path) =>
      if !k.pathOk(path) then Err(BadPath(d.id))
      else if !k.textOk(path) then Err(BadText(d.id))
      else Ok(Criterion(d.id, Assert("file_exists(" + k.repr(path) + ")"), d.weight, d.timeout))
    case FileContains(path, pattern) =>
      if !k.pathOk(path) then Err(BadPath(d.id))
      else if !k.textOk(path) || !k.textOk(pattern) then Err(BadText(d.id))
      else Ok(Criterion(d.id, Assert("file_contains(" + k.repr(path) + ", " + k.repr(pattern) + ")"), d.weight, d.timeout))
    case Command(run, expectExit) => Ok(Criterion(d.id, RunCommand(run, expectExit), d.weight, d.timeout))
    case Assertion(expr) => Ok(Criterion(d.id, Assert(expr), d.weight, d.timeout))
    case Schema(target, schemaRef) => Ok(Criterion(d.id, MatchSchema(target, schemaRef), d.weight, d.timeout))
    case Metric(metric, op, threshold) => Ok(Criterion(d.id, Measure(metric, op, threshold), d.weight, d.timeout))
    case Judge(rubric) => Ok(Criterion(d.id, AskJudge(rubric), d.weight, d.timeout))
  }

  function TestEach(k: Checks, paths: seq<string>): string {
    if paths == [] then "true"
    else if |paths| == 1 then "test -e " + k.quote(paths[0])
    else "test -e " + k.quote(paths[0]) + " && " + TestEach(k, paths[1..])
  }

  /** `_constraint_to_criterion`, for the two kinds that become criteria. */
  function CompileConstraint(k: Checks, c: Constraint): Result<Criterion, CompileError>
    requires Compiled(c)
  {
    if c.kind == MustPassCommand then
      if c.value.Text? then Ok(Criterion(c.id, RunCommand(c.value.text, 0), c.weight, DEFAULT_TIMEOUT)) else Err(BadValue(c.id))
    else if c.value.Number? then Err(BadValue(c.id))
    else
      var paths := if c.value.Texts? then c.value.texts else [c.value.text];
      if exists p :: p in paths && !k.pathOk(p) then Err(BadPath(c.id))
      else Ok(Criterion(c.id, RunCommand(TestEach(k, paths), 0), c.weight, DEFAULT_TIMEOUT))
  }

  /** Budget ceilings and the ban on external effects are enforced elsewhere. */
  predicate Compiled(c: Constraint) {
    c.kind == MustPassCommand || c.kind == MustNotModify
  }

  /** The constraints that become criteria, in order. */
  function CompiledOnly(cs: seq<Constraint>): (out: seq<Constraint>)
    ensures forall c :: c in out <==> c in cs && Compiled(c)
  {
    if cs == [] then []
    else
      var rest := CompiledOnly(cs[..|cs| - 1]);
      if Compiled(cs[|cs| - 1]) then rest + [cs[|cs| - 1]] else rest
  }

  ghost predicate CompiledTo(k: Checks, ds: seq<Desired>, cs: seq<Constraint>, criteria: seq<Criterion>) {
    && (forall c :: c in cs ==> Compiled(c))
    && |criteria| == |ds| + |cs|
    && (forall i :: 0 <= i < |ds| ==> CompileDesired(k, ds[i]) == Ok(criteria[i]))
    && (forall i :: 0 <= i < |cs| ==> CompileConstraint(k, cs[i]) == Ok(criteria[|ds| + i]))
  }

  /** The first desired state that does not compile, and why. */
  ghost predicate StateFails(k: Checks, ds: seq<Desired>, i: nat, error: CompileError) {
    && i < |ds| && CompileDesired(k, ds[i]) == Err(error)
    && forall j :: 0 <= j < i ==> CompileDesired(k, ds[j]).Ok?
  }

  /** The first constraint that should compile and does not, and why. */
  ghost predicate ConstraintFails(k: Checks, cs: seq<Constraint>, i: nat, error: CompileError) {
    && i < |cs| && Compiled(cs[i]) && CompileConstraint(k, cs[i]) == Err(error)
    && forall j :: 0 <= j < i && Compiled(cs[j]) ==> CompileConstraint(k, cs[j]).Ok?
  }

  /** The first loop of `compile_goal`. */
  method CompileStates(k: Checks, ds: seq<Desired>) returns (r: Result<seq<Criterion>, CompileError>)
    ensures r.Ok? ==> CompiledTo(k, ds, [], r.value)
    ensures r.Err? <==> exists d :: d in ds && CompileDesired(k, d).Err?
    ensures r.Err? ==> exists i :: StateFails(k, ds, i, r.error)
  {
    var criteria: seq<Criterion> := [];
    for i := 0 to |ds|
      invariant CompiledTo(k, ds[..i], [], criteria)
      invariant forall j :: 0 <= j < i ==> CompileDesired(k, ds[j]).Ok?
    {
      var one := CompileDesired(k, ds[i]);
      if one.Err? {
        assert ds[i] in ds && StateFails(k, ds, i, one.error);
        return Err(one.error);
      }
      criteria := criteria + [one.value];
    }
    assert ds[..|ds|] == ds;
    r := Ok(criteria);
  }

  /**
   * `compile_goal`: one criterion for every desired state, then one for every compiled
   * constraint, in order; it fails iff one of them does not compile, with the error of the first.
   */
  method Compile(k: Checks, g: Goal) returns (r: Result<seq<Criterion>, CompileError>)
    ensures r.Ok? ==> CompiledTo(k, g.desired, CompiledOnly(g.constraints), r.value)
    ensures r.Err? <==>
            || (exists d :: d in g.desired && CompileDesired(k, d).Err?)
            || (exists c :: c in g.constraints && Compiled(c) && CompileConstraint(k, c).Err?)
    ensures r.Err? ==> (exists i :: StateFails(k, g.desired, i, r.error))
                       || ((forall d :: d in g.desired ==> CompileDesired(k, d).Ok?) && exists i :: ConstraintFails(k, g.constraints, i, r.error))
  {
    var states := CompileStates(k, g.desired);
    if states.Err? { return Err(states.error); }
    var criteria := states.value;
    for i := 0 to |g.constraints|
      invariant CompiledTo(k, g.desired, CompiledOnly(g.constraints[..i]), criteria)
      invariant forall j :: 0 <= j < i && Compiled(g.constraints[j]) ==> CompileConstraint(k, g.constraints[j]).Ok?
    {
      assert g.constraints[..i + 1][..i] == g.constraints[..i];
      var c := g.constraints[i];
      if Compiled(c) {
        var one := CompileConstraint(k, c);
        if one.Err? {
          assert c in g.constraints && ConstraintFails(k, g.constraints, i, one.error);
          return Err(one.error);
        }
        criteria := criteria + [one.value];
      }
    }
    assert g.constraints[..|g.constraints|] == g.constraints;
    r := Ok(criteria);
  }

  /** Compiling keeps ids, weights and timeouts, and only a judge state becomes a judge criterion. */
  lemma CompileKeeps(k: Checks, ds: seq<Desired>, cs: seq<Constraint>, criteria: seq<Criterion>, i: nat)
    requires CompiledTo(k, ds, cs, criteria) && i < |criteria|
    ensures i < |ds| ==> criteria[i].id == ds[i].id && criteria[i].weight == ds[i].weight && criteria[i].timeout == ds[i].timeout
                         && (criteria[i].kind.AskJudge? <==> ds[i].kind.Judge?)
    ensures i >= |ds| ==> criteria[i].id == cs[i - |ds|].id && criteria[i].weight == cs[i - |ds|].weight
                          && criteria[i].timeout == 300 && criteria[i].kind.RunCommand?
  {
    if i < |ds| {
      assert CompileDesired(k, ds[i]) == Ok(criteria[i]);
    } else {
      assert CompileConstraint(k, cs[i - |ds|]) == Ok(criteria[|ds| + (i - |ds|)]);
    }
  }

  /** A valid goal always compiles to at least one required criterion that a machine checks. */
  lemma CompiledGoalIsHard(k: Checks, g: Goal, criteria: seq<Criterion>)
    requires HasHardCriterion(g)
    requires CompiledTo(k, g.desired, CompiledOnly(g.constraints), criteria)
    ensures exists c :: c in criteria && IsRequired(c) && !c.kind.AskJudge?
  {
    var d :| d in g.desired && d.weight >= 1.0 && !d.kind.Judge?;
    var i :| 0 <= i < |g.desired| && g.desired[i] == d;
    CompileKeeps(k, g.desired, CompiledOnly(g.constraints), criteria, i);
    assert criteria[i] in criteria;
  }

  // ----- what a compiled goal checks

  /**
   * A working directory and the tools that check it: which files exist and what they contain, how
   * commands exit, and what assertions, schemas, metrics and judges say.
   */
  datatype World = World(
    present: string -> bool,
    contains: (string, string) -> bool,
    exitOf: string -> int,
    holds: string -> bool,
    matches: (string, string) -> bool,
    measures: (string, string, real) -> bool,
    approves: string -> bool)

  /** The assertion language and the shell mean what they say, on arguments that pass the checks. */
  ghost predicate Faithful(w: World, k: Checks) {
    && (forall p :: k.pathOk(p) && k.textOk(p) ==> (w.holds("file_exists(" + k.repr(p) + ")") <==> w.present(p)))
    && (forall p, t :: k.pathOk(p) && k.textOk(p) && k.textOk(t) ==>
                         (w.holds("file_contains(" + k.repr(p) + ", " + k.repr(t) + ")") <==> w.contains(p, t)))
    && w.exitOf("true") == 0
    && (forall p :: k.pathOk(p) ==> (w.exitOf("test -e " + k.quote(p)) == 0 <==> w.present(p)))
    && (forall p, rest :: k.pathOk(p) ==>
                            (w.exitOf("test -e " + k.quote(p) + " && " + rest) == 0 <==> w.present(p) && w.exitOf(rest) == 0))
  }

  /** The desired state is reached. */
  predicate Reached(w: World, kind: DesiredKind) {
    match kind
    case FileExists(path) => w.present(path)
    case FileContains(path, pattern) => w.contains(path, pattern)
    case Command(run, expectExit) => w.exitOf(run) == expectExit
    case Assertion(expr) => w.holds(expr)
    case Schema(target, schemaRef) => w.matches(target, schemaRef)
    case Metric(metric, op, threshold) => w.measures(metric, op, threshold)
    case Judge(rubric) => w.approves(rubric)
  }

  /** The constraint is kept, as far as the contract layer checks it: protected paths are still there. */
  ghost predicate Kept(w: World, c: Constraint) {
    match c.kind
    case MustPassCommand => c.value.Text? ==> w.exitOf(c.value.text) == 0
    case MustNotModify => (c.value.Texts? ==> forall p :: p in c.value.texts ==> w.present(p)) && (c.value.Text? ==> w.present(c.value.text))
    case _ => true
  }

  /** The criterion's check passes. */
  predicate Passes(w: World, kind: CriterionKind) {
    match kind
    case RunCommand(run, expectExit) => w.exitOf(run) == expectExit
    case Assert(expr) => w.holds(expr)
    case MatchSchema(target, schemaRef) => w.matches(target, schemaRef)
    case Measure(metric, op, threshold) => w.measures(metric, op, threshold)
    case AskJudge(rubric) => w.approves(rubric)
  }

  /** A compiled desired state checks exactly what was desired. */
  lemma StateMeansCheck(k: Checks, d: Desired, w: World)
    requires Faithful(w, k) && CompileDesired(k, d).Ok?
    ensures Passes(w, CompileDesired(k, d).value.kind) <==> Reached(w, d.kind)
  {
  }

  lemma {:induction false} TestEachMeans(k: Checks, paths: seq<string>, w: World)
    requires Faithful(w, k) && forall p :: p in paths ==> k.pathOk(p)
    ensures w.exitOf(TestEach(k, paths)) == 0 <==> forall p :: p in paths ==> w.present(p)
  {
    if paths != [] {
      assert paths == [paths[0]] + paths[1..];
      assert k.pathOk(paths[0]);
      if |paths| > 1 {
        TestEachMeans(k, paths[1..], w);
        var rest := TestEach(k, paths[1..]);
        assert w.exitOf("test -e " + k.quote(paths[0]) + " && " + rest) == 0 <==> w.present(paths[0]) && w.exitOf(rest) == 0;
      }
    }
  }

  lemma ConstraintMeansCheck(k: Checks, c: Constraint, w: World)
    requires Faithful(w, k) && Compiled(c) && CompileConstraint(k, c).Ok?
    ensures Passes(w, CompileConstraint(k, c).value.kind) <==> Kept(w, c)
  {
    if c.kind == MustNotModify {
      var paths := if c.value.Texts? then c.value.texts else [c.value.text];
      TestEachMeans(k, paths, w);
      if c.value.Text? { assert c.value.text in paths; }
    }
  }

  /**
   * Compilation preserves meaning: in any world whose shell and assertion language mean what they
   * say, all criteria of a compiled goal pass iff all its desired states are reached and all its
   * constraints that compile are kept.
   */
  lemma CompiledMeansGoal(k: Checks, g: Goal, criteria: seq<Criterion>, w: World)
    requires Faithful(w, k) && CompiledTo(k, g.desired, CompiledOnly(g.constraints), criteria)
    ensures (forall i :: 0 <= i < |criteria| ==> Passes(w, criteria[i].kind))
       <==> (forall d :: d in g.desired ==> Reached(w, d.kind)) && forall c :: c in g.constraints && Compiled(c) ==> Kept(w, c)
  {
    var cs, n := CompiledOnly(g.constraints), |g.desired|;
    forall i | 0 <= i < n ensures Passes(w, criteria[i].kind) <==> Reached(w, g.desired[i].kind) {
      assert CompileDesired(k, g.desired[i]) == Ok(criteria[i]);
      StateMeansCheck(k, g.desired[i], w);
    }
    forall i | 0 <= i < |cs| ensures Passes(w, criteria[n + i].kind) <==> Kept(w, cs[i]) {
      assert CompileConstraint(k, cs[i]) == Ok(criteria[n + i]);
      ConstraintMeansCheck(k, cs[i], w);
    }
    if forall i :: 0 <= i < |criteria| ==> Passes(w, criteria[i].kind) {
      forall d | d in g.desired ensures Reached(w, d.kind) {
        var i :| 0 <= i < n && g.desired[i] == d;
        assert Passes(w, criteria[i].kind);
      }
      forall c | c in g.constraints && Compiled(c) ensures Kept(w, c) {
        assert c in cs;
        var i :| 0 <= i < |cs| && cs[i] == c;
        assert Passes(w, criteria[n + i].kind);
      }
    }
    if (forall d :: d in g.desired ==> Reached(w, d.kind)) && forall c :: c in g.constraints && Compiled(c) ==> Kept(w, c) {
      forall i | 0 <= i < |criteria| ensures Passes(w, criteria[i].kind) {
        if i < n { assert g.desired[i] in g.desired; } else { assert cs[i - n] in cs && criteria[n + (i - n)] == criteria[i]; }
      }
    }
  }

  /** What a constraint asks the shell to look at. */
  ghost predicate Protects(c: Constraint, p: string) {
    (c.value.Text? && p == c.value.text) || (c.value.Texts? && p in c.value.texts)
  }

  /** What does not compile: an unsafe path, a text that would break its assertion, a value of the wrong type. */
  lemma CompileFailsIff(k: Checks, d: Desired, c: Constraint)
    ensures CompileDesired(k, d) == Err(BadPath(d.id))
       <==> (d.kind.FileExists? || d.kind.FileContains?) && !k.pathOk(d.kind.path)
    ensures CompileDesired(k, d) == Err(BadText(d.id))
       <==> (d.kind.FileExists? || d.kind.FileContains?) && k.pathOk(d.kind.path)
            && (!k.textOk(d.kind.path) || (d.kind.FileContains? && !k.textOk(d.kind.pattern)))
    ensures CompileDesired(k, d).Ok? || CompileDesired(k, d) == Err(BadPath(d.id)) || CompileDesired(k, d) == Err(BadText(d.id))
    ensures c.kind == MustPassCommand ==> (CompileConstraint(k, c) == Err(BadValue(c.id)) <==> !c.value.Text?)
    ensures c.kind == MustNotModify ==> (CompileConstraint(k, c) == Err(BadValue(c.id)) <==> c.value.Number?)
    ensures c.kind == MustNotModify ==> (CompileConstraint(k, c) == Err(BadPath(c.id)) <==> exists p :: Protects(c, p) && !k.pathOk(p))
    ensures Compiled(c) ==> CompileConstraint(k, c).Ok? || CompileConstraint(k, c) == Err(BadValue(c.id)) || CompileConstraint(k, c) == Err(BadPath(c.id))
    ensures Compiled(c) <==> !(c.kind == BudgetCeiling || c.kind == NoExternalEffects)
  {
    if c.kind == MustNotModify && !c.value.Number? {
      var paths := if c.value.Texts? then c.value.texts else [c.value.text];
      assert forall p :: p in paths <==> Protects(c, p);
    }
  }
}
