/**
 * The run graph of `contracts/graph.py`: fifteen nodes, their routes, and the walks through them.
 *
 * What a node does to the run state is left open, except for what `NodeEffect` says: who charges
 * attempts, who raises and clears failure signals, and how `validate` and `join` score criteria.
 */
module RunGraph {
  import opened Prelude
  import opened GoalCompile

  datatype Node =
    | Intake | Retrieve | Plan | FanOut | Solve | Validate | Join | ClassifyFailure | Evolve
    | Distill | Review | Store | RecordDeadEnd | RejectDraft | Finalize

  datatype Strategy = Apply | Adapt | Scratch | Portfolio | Decomposition | Abstain

  datatype FailureClass = Environment | Tool | Retrieval | Planning | Execution | Criteria | Budget | Merge

  datatype Verdict = Reusable | OneOff | Duplicate

  /** A criterion locked by `intake`, and whether its sensitivity proof is valid. */
  datatype Locked = Locked(criterion: Criterion, proven: bool)

  /**
   * A recorded result. `actual` is the outcome of the check itself, which the record keeps in its
   * excerpt; `excerpt` stands for the rest of that text.
   */
  datatype CriterionResult = CriterionResult(id: CriterionId, passed: bool, actual: bool, excerpt: nat)

  datatype MergeAudit = MergeAudit(expected: nat, received: nat, missing: seq<string>)

  /** A failure signal; `budget` is its `class_hint`, or a detail that says "budget exhausted". */
  datatype Signal = Signal(budget: bool)

  /** The fields of `RunState` that routing reads, and those that decide them. */
  datatype RunState = RunState(
    criteria: seq<Locked>,
    results: seq<CriterionResult>,
    resultsHistory: seq<seq<CriterionResult>>,
    strategy: Option<Strategy>,
    branches: nat,
    mergeAudits: seq<MergeAudit>,
    transcript: bool,
    signal: Option<Signal>,
    failure: Option<FailureClass>,
    verdict: Option<Verdict>,
    attempts: nat,
    maxAttempts: nat)

  // ----- the predicates

  function RequiredIds(s: RunState): set<CriterionId> {
    set c | c in s.criteria && IsRequired(c.criterion) :: c.criterion.id
  }

  function PassedIds(s: RunState): set<CriterionId> {
    set r | r in s.results && r.passed :: r.id
  }

  /** `_required_criteria_pass`. */
  predicate RequiredPass(s: RunState) {
    var required := RequiredIds(s);
    if required == {} then true else required <= PassedIds(s)
  }

  predicate HasBranches(s: RunState) {
    s.branches > 0
  }

  predicate IsComplete(m: MergeAudit) {
    m.received >= m.expected && m.missing == []
  }

  /** `_join_complete_and_passing`. */
  predicate JoinPasses(s: RunState) {
    s.mergeAudits != [] && (forall m :: m in s.mergeAudits ==> IsComplete(m)) && RequiredPass(s)
  }

  /** `_budget_remains_with_progress`. */
  predicate MayRetry(s: RunState) {
    && s.failure.Some?
    && s.failure.value != Criteria && s.failure.value != Budget
    && s.attempts < s.maxAttempts
    && !(|s.resultsHistory| >= 2 && s.resultsHistory[|s.resultsHistory| - 1] == s.resultsHistory[|s.resultsHistory| - 2])
  }

  // ----- the route table

  datatype Guard =
    | Always | WhenAbstain | WhenFanOut | WhenSingle | WhenFailure | WhenNoFailure | WhenCompleted
    | WhenBranches | WhenPlainPass | WhenPlainFail | WhenJoinPass | WhenJoinFail | WhenRetry | WhenNoRetry
    | WhenReusable | WhenOneOff | WhenApproved | WhenRejected

  predicate Holds(g: Guard, s: RunState) {
    match g
    case Always => true
    case WhenAbstain => s.strategy == Some(Abstain)
    case WhenFanOut => s.strategy == Some(Portfolio) || s.strategy == Some(Decomposition)
    case WhenSingle => s.strategy == Some(Apply) || s.strategy == Some(Adapt) || s.strategy == Some(Scratch)
    case WhenFailure => s.signal.Some?
    case WhenNoFailure => s.signal.None?
    case WhenCompleted => s.transcript && s.signal.None?
    case WhenBranches => HasBranches(s)
    case WhenPlainPass => !HasBranches(s) && RequiredPass(s) && s.signal.None?
    case WhenPlainFail => !HasBranches(s) && (!RequiredPass(s) || s.signal.Some?)
    case WhenJoinPass => JoinPasses(s)
    case WhenJoinFail => !JoinPasses(s)
    case WhenRetry => MayRetry(s)
    case WhenNoRetry => !MayRetry(s)
    case WhenReusable => s.verdict == Some(Reusable)
    case WhenOneOff => s.verdict == Some(OneOff)
    case WhenApproved => true
    case WhenRejected => true
  }

  /**
   * `ROUTES`: the predicate on the route between two nodes, if there is one. No pair of nodes has
   * two routes, so a route is named by its ends.
   */
  function GuardOf(source: Node, target: Node): Option<Guard> {
    match source
    case Intake => if target == Retrieve then Some(Always) else None
    case Retrieve => if target == Plan then Some(Always) else None
    case Plan =>
      if target == Finalize then Some(WhenAbstain)
      else if target == FanOut then Some(WhenFanOut)
      else if target == Solve then Some(WhenSingle) else None
    case FanOut =>
      if target == ClassifyFailure then Some(WhenFailure)
      else if target == Solve then Some(WhenNoFailure) else None
    case Solve =>
      if target == ClassifyFailure then Some(WhenFailure)
      else if target == Validate then Some(WhenCompleted) else None
    case Validate =>
      if target == Join then Some(WhenBranches)
      else if target == Distill then Some(WhenPlainPass)
      else if target == ClassifyFailure then Some(WhenPlainFail) else None
    case Join =>
      if target == Distill then Some(WhenJoinPass)
      else if target == ClassifyFailure then Some(WhenJoinFail) else None
    case ClassifyFailure =>
      if target == Evolve then Some(WhenRetry)
      else if target == RecordDeadEnd then Some(WhenNoRetry) else None
    case Evolve => if target == Solve then Some(Always) else None
    case Distill =>
      if target == Review then Some(WhenReusable)
      else if target == Finalize then Some(WhenOneOff) else None
    case Review =>
      if target == Store then Some(WhenApproved)
      else if target == RejectDraft then Some(WhenRejected) else None
    case Store => if target == Finalize then Some(Always) else None
    case RecordDeadEnd => if target == Finalize then Some(Always) else None
    case RejectDraft => if target == Finalize then Some(Always) else None
    case Finalize => None
  }

  predicate MayGo(n: Node, s: RunState, target: Node) {
    GuardOf(n, target).Some? && Holds(GuardOf(n, target).value, s)
  }

  /** `legal_routes`, by their targets. */
  function LegalTargets(n: Node, s: RunState): set<Node> {
    set t: Node | MayGo(n, s, t)
  }

  /** The node has set the result its routes read. */
  predicate ResultSet(n: Node, s: RunState) {
    match n
    case Plan => s.strategy.Some?
    case Solve => s.transcript || s.signal.Some?
    case Distill => s.verdict == Some(Reusable) || s.verdict == Some(OneOff)
    case Finalize => false
    case _ => true
  }

  /** Where a node goes once its result is set. */
  function TheTarget(n: Node, s: RunState): Node {
    match n
    case Intake => Retrieve
    case Retrieve => Plan
    case Plan =>
      if s.strategy == Some(Abstain) then Finalize
      else if s.strategy == Some(Portfolio) || s.strategy == Some(Decomposition) then FanOut
      else Solve
    case FanOut => if s.signal.Some? then ClassifyFailure else Solve
    case Solve => if s.signal.Some? then ClassifyFailure else Validate
    case Validate =>
      if HasBranches(s) then Join
      else if RequiredPass(s) && s.signal.None? then Distill
      else ClassifyFailure
    case Join => if JoinPasses(s) then Distill else ClassifyFailure
    case ClassifyFailure => if MayRetry(s) then Evolve else RecordDeadEnd
    case Evolve => Solve
    case Distill => if s.verdict == Some(Reusable) then Review else Finalize
    case Review => Store
    case _ => Finalize
  }

  lemma PlanTarget(s: RunState, t: Node)
    ensures MayGo(Plan, s, t) <==> s.strategy.Some? && t == TheTarget(Plan, s)
  {
    match s.strategy
    case None =>
    case Some(Apply) =>
    case Some(Adapt) =>
    case Some(Scratch) =>
    case Some(Portfolio) =>
    case Some(Decomposition) =>
    case Some(Abstain) =>
  }

  lemma ValidateTarget(s: RunState, t: Node)
    ensures MayGo(Validate, s, t) <==> t == TheTarget(Validate, s)
  {
    assert GuardOf(Validate, t).Some? <==> t == Join || t == Distill || t == ClassifyFailure;
  }

  lemma JoinTarget(s: RunState, t: Node)
    ensures MayGo(Join, s, t) <==> t == TheTarget(Join, s)
  {
    assert GuardOf(Join, t).Some? <==> t == Distill || t == ClassifyFailure;
  }

  lemma ClassifyTarget(s: RunState, t: Node)
    ensures MayGo(ClassifyFailure, s, t) <==> t == TheTarget(ClassifyFailure, s)
  {
    assert GuardOf(ClassifyFailure, t).Some? <==> t == Evolve || t == RecordDeadEnd;
  }

  lemma DispatchTarget(n: Node, s: RunState, t: Node)
    requires n == FanOut || n == Solve || n == Distill
    ensures MayGo(n, s, t) <==> ResultSet(n, s) && t == TheTarget(n, s)
  {
    if n == Distill && s.verdict.Some? {
      var verdict := s.verdict.value;
      assert verdict == Reusable || verdict == OneOff || verdict == Duplicate;
    }
  }

  lemma OneTarget(n: Node, s: RunState, t: Node)
    requires n != Review
    ensures MayGo(n, s, t) <==> ResultSet(n, s) && t == TheTarget(n, s)
  {
    match n
    case Plan => PlanTarget(s, t);
    case Validate => ValidateTarget(s, t);
    case Join => JoinTarget(s, t);
    case ClassifyFailure => ClassifyTarget(s, t);
    case FanOut => DispatchTarget(n, s, t);
    case Solve => DispatchTarget(n, s, t);
    case Distill => DispatchTarget(n, s, t);
    case _ =>
  }

  /** Exactly one route is legal iff the node's result is set, except at `review`, where two are. */
  lemma ExactlyOneRoute(n: Node, s: RunState)
    ensures n != Review && ResultSet(n, s) ==> LegalTargets(n, s) == {TheTarget(n, s)}
    ensures n != Review && !ResultSet(n, s) ==> LegalTargets(n, s) == {}
    ensures n == Review ==> LegalTargets(n, s) == {Store, RejectDraft}
  {
    if n != Review {
      forall t: Node ensures t in LegalTargets(n, s) <==> ResultSet(n, s) && t == TheTarget(n, s) {
        OneTarget(n, s, t);
      }
    }
  }

  // ----- walks

  /** A required criterion without a valid proof is advisory: it is recorded as passed. */
  predicate RecordsOutcome(c: Locked, r: CriterionResult) {
    r.id == c.criterion.id && r.passed == if IsRequired(c.criterion) && !c.proven then true else r.actual
  }

  predicate Fails(c: Locked, r: CriterionResult) {
    IsRequired(c.criterion) && c.proven && !r.actual
  }

  /** `score_criteria`: one result per criterion, and a signal iff a required, proven one failed. */
  predicate Scored(s: RunState) {
    && |s.results| == |s.criteria|
    && (forall i :: 0 <= i < |s.criteria| ==> RecordsOutcome(s.criteria[i], s.results[i]))
    && (s.signal.Some? <==> exists i :: 0 <= i < |s.criteria| && Fails(s.criteria[i], s.results[i]))
  }

  /**
   * What running a node may do to the state. `fan_out` raises no other signal than a refused
   * reservation, `validate` and `join` score the criteria, `join` always leaves an audit, and
   * `classify_failure` calls a refused reservation or a spent budget a budget failure.
   */
  predicate NodeEffect(n: Node, s: RunState, t: RunState) {
    && t.maxAttempts == s.maxAttempts
    && (if n == Solve then t.attempts > s.attempts else t.attempts == s.attempts)
    && (n != Intake ==> t.criteria == s.criteria)
    && (match n
        case Intake => t.signal == s.signal
        case Retrieve => t.signal == s.signal
        case Plan => t.signal == s.signal
        case FanOut => t.signal == s.signal || t.signal == Some(Signal(true))
        case Validate => Scored(t) && t.resultsHistory == s.resultsHistory + [t.results]
        case Join =>
          && |t.mergeAudits| == |s.mergeAudits| + 1
          && (t.signal.Some? || (Scored(t) && t.resultsHistory == s.resultsHistory + [t.results]))
        case ClassifyFailure =>
          && t.signal == s.signal
          && (s.signal == Some(Signal(true)) || s.attempts >= s.maxAttempts ==> t.failure == Some(Budget))
        case Evolve => t.signal == None && !t.transcript
        case _ => true)
  }

  /** One node run: the state its route was chosen on. */
  datatype Hop = Hop(node: Node, state: RunState)

  /** A legal route, which `join` takes to `distill` only without a failure signal, and the next node's effect. */
  predicate Follows(a: Hop, b: Hop) {
    && MayGo(a.node, a.state, b.node)
    && (a.node == Join && b.node == Distill ==> a.state.signal.None?)
    && NodeEffect(b.node, a.state, b.state)
  }

  /** A run from `intake` on, up to any point: its hops in order. */
  ghost predicate IsWalk(w: seq<Hop>) {
    && w != [] && w[0].node == Intake
    && w[0].state.attempts == 0 && w[0].state.maxAttempts >= 1 && w[0].state.signal == None
    && forall i :: 0 <= i < |w| - 1 ==> Follows(w[i], w[i + 1])
  }

  function Left(s: RunState): nat {
    if s.attempts < s.maxAttempts then s.maxAttempts - s.attempts else 0
  }

  /** The most hops a run can still make when it enters `n` in state `s`. */
  function Bound(n: Node, s: RunState): nat {
    var solve := if Left(s) == 0 then 7 else 5 * Left(s) + 2;
    match n
    case Intake => solve + 4
    case Retrieve => solve + 3
    case Plan => solve + 2
    case FanOut => solve + 1
    case Solve => solve
    case Evolve => solve + 1
    case ClassifyFailure => if Left(s) == 0 || s.signal == Some(Signal(true)) then 3 else solve + 2
    case Join => if Left(s) == 0 then 5 else solve + 3
    case Validate => if Left(s) == 0 then 6 else solve + 4
    case Distill => 4
    case Review => 3
    case Store => 2
    case RecordDeadEnd => 2
    case RejectDraft => 2
    case Finalize => 1
  }

  /** Every hop uses up at least one of the hops still possible. */
  lemma BoundFalls(s: RunState, a: Hop, b: Node)
    requires NodeEffect(a.node, s, a.state) && MayGo(a.node, a.state, b)
    requires a.node == FanOut ==> s.signal == None
    ensures Bound(b, a.state) < Bound(a.node, s)
  {
    match a.node
    case Solve =>
    case ClassifyFailure => RetryLeavesAttempts(s, a.state, b);
    case _ =>
  }

  lemma RetryLeavesAttempts(s: RunState, t: RunState, b: Node)
    requires NodeEffect(ClassifyFailure, s, t) && MayGo(ClassifyFailure, t, b)
    ensures b == RecordDeadEnd || (b == Evolve && Left(t) == Left(s) > 0 && s.signal != Some(Signal(true)))
  {
  }

  predicate BeforeSolving(n: Node) {
    n == Intake || n == Retrieve || n == Plan
  }

  /** What one hop charges, and how it moves towards a `solve`. */
  lemma HopCharges(w: seq<Hop>, i: nat)
    requires IsWalk(w) && i + 1 < |w|
    ensures w[i + 1].state.maxAttempts == w[i].state.maxAttempts
    ensures w[i + 1].node == Solve ==> w[i + 1].state.attempts > w[i].state.attempts
                                       && (BeforeSolving(w[i].node) || w[i].node == FanOut || w[i].node == Evolve)
    ensures w[i + 1].node != Solve ==> w[i + 1].state.attempts == w[i].state.attempts
    ensures BeforeSolving(w[i + 1].node) ==> BeforeSolving(w[i].node) && w[i + 1].state.signal == w[i].state.signal
    ensures w[i + 1].node == FanOut ==> BeforeSolving(w[i].node)
    ensures w[i + 1].node == Evolve ==> w[i + 1].state.attempts < w[i + 1].state.maxAttempts
  {
    assert Follows(w[i], w[i + 1]);
  }

  /** Nothing is charged and no signal raised before the first dispatch. */
  lemma {:induction false} QuietStart(w: seq<Hop>, i: nat)
    requires IsWalk(w) && i < |w|
    ensures BeforeSolving(w[i].node) ==> w[i].state.attempts == 0 && w[i].state.signal == None
    ensures w[i].node == FanOut ==> i > 0 && w[i - 1].state.signal == None && w[i].state.attempts == 0
  {
    if i > 0 {
      QuietStart(w, i - 1);
      HopCharges(w, i - 1);
    }
  }

  lemma {:induction false} WalkWithin(w: seq<Hop>, i: nat)
    requires IsWalk(w) && i < |w|
    ensures w[i].state.maxAttempts == w[0].state.maxAttempts
    ensures i > 0 ==> i + Bound(w[i].node, w[i - 1].state) <= 5 * w[0].state.maxAttempts + 6
  {
    if i > 0 {
      WalkWithin(w, i - 1);
      assert Follows(w[i - 1], w[i]);
      if i > 1 {
        assert Follows(w[i - 2], w[i - 1]);
        QuietStart(w, i - 1);
        BoundFalls(w[i - 2].state, w[i - 1], w[i].node);
      }
    }
  }

  /** Every run ends: with `m` attempts allowed it makes at most `5m + 6` hops. */
  lemma WalksAreShort(w: seq<Hop>)
    requires IsWalk(w)
    ensures |w| <= 5 * w[0].state.maxAttempts + 6
  {
    WalkWithin(w, |w| - 1);
  }

  // ----- what every walk guarantees

  function Solves(w: seq<Hop>): nat {
    if w == [] then 0 else Solves(w[..|w| - 1]) + if w[|w| - 1].node == Solve then 1 else 0
  }

  lemma {:induction false} WalkPrefix(w: seq<Hop>, n: nat)
    requires IsWalk(w) && 0 < n <= |w|
    ensures IsWalk(w[..n])
  {
    forall i | 0 <= i < n - 1 ensures Follows(w[..n][i], w[..n][i + 1]) {
      assert Follows(w[i], w[i + 1]);
    }
  }

  /** Each `solve` was charged for, and only a run with attempts left gets to another one. */
  lemma {:induction false} SolvesAreCharged(w: seq<Hop>)
    requires IsWalk(w)
    ensures w[|w| - 1].state.maxAttempts == w[0].state.maxAttempts
    ensures Solves(w) <= w[|w| - 1].state.attempts && Solves(w) <= w[0].state.maxAttempts
    ensures BeforeSolving(w[|w| - 1].node) || w[|w| - 1].node == FanOut ==> w[|w| - 1].state.attempts == 0
    ensures w[|w| - 1].node == Evolve ==> w[|w| - 1].state.attempts < w[|w| - 1].state.maxAttempts
    decreases |w|
  {
    var n := |w| - 1;
    if n > 0 {
      var front := w[..n];
      WalkPrefix(w, n);
      SolvesAreCharged(front);
      HopCharges(w, n - 1);
      assert front[n - 1] == w[n - 1] && front[0] == w[0];
    } else {
      assert w[..0] == [];
    }
  }

  /** `solve` is entered at most `max_attempts` times. */
  lemma SolveAtMostMaxAttempts(w: seq<Hop>)
    requires IsWalk(w)
    ensures Solves(w) <= w[0].state.maxAttempts
  {
    SolvesAreCharged(w);
  }

  /**
   * A run enters `distill` only after every required criterion passed; with branches, only after a
   * non-empty set of merge audits that are all complete.
   */
  lemma DistillMeansPassed(w: seq<Hop>, i: nat)
    requires IsWalk(w) && i + 1 < |w| && w[i + 1].node == Distill
    ensures RequiredIds(w[i].state) <= PassedIds(w[i].state)
    ensures (w[i].node == Validate || w[i].node == Join) && w[i].state.signal == None
    ensures w[i].node == Validate ==> !HasBranches(w[i].state)
    ensures w[i].node == Join ==> w[i].state.mergeAudits != [] && forall m :: m in w[i].state.mergeAudits ==> IsComplete(m)
  {
    assert Follows(w[i], w[i + 1]);
  }

  /**
   * A failure is retried exactly when it was classified, as neither criteria nor budget, attempts
   * are left, and the last two scorings differ: a walk never retries without progress.
   */
  lemma RetryMeansProgress(w: seq<Hop>, i: nat)
    requires IsWalk(w) && i + 1 < |w| && w[i].node == ClassifyFailure
    ensures var s, n := w[i].state, |w[i].state.resultsHistory|;
            && (w[i + 1].node == Evolve || w[i + 1].node == RecordDeadEnd)
            && (w[i + 1].node == Evolve
                <==> (s.failure.Some? && s.failure.value != Criteria && s.failure.value != Budget && s.attempts < s.maxAttempts
                      && (n < 2 || s.resultsHistory[n - 1] != s.resultsHistory[n - 2])))
  {
    assert Follows(w[i], w[i + 1]);
  }

  /** For every criterion of full weight some result of its id has passed. */
  ghost predicate EachRequiredPassed(s: RunState) {
    forall c :: c in s.criteria && c.criterion.weight >= 1.0 ==> exists r :: r in s.results && r.id == c.criterion.id && r.passed
  }

  lemma RequiredPassIs(s: RunState)
    ensures RequiredPass(s) <==> EachRequiredPassed(s)
  {
    if RequiredPass(s) {
      forall c | c in s.criteria && c.criterion.weight >= 1.0 ensures exists r :: r in s.results && r.id == c.criterion.id && r.passed {
        assert c.criterion.id in RequiredIds(s) && c.criterion.id in PassedIds(s);
      }
    }
    if EachRequiredPassed(s) {
      forall id | id in RequiredIds(s) ensures id in PassedIds(s) {
        var c :| c in s.criteria && IsRequired(c.criterion) && c.criterion.id == id;
        var r :| r in s.results && r.id == c.criterion.id && r.passed;
      }
    }
  }

  /** Where a walk goes from `validate`: to `join` with branches, else on iff all required criteria passed without a signal. */
  lemma ValidateDecides(w: seq<Hop>, i: nat)
    requires IsWalk(w) && i + 1 < |w| && w[i].node == Validate
    ensures w[i + 1].node == Join <==> w[i].state.branches > 0
    ensures w[i + 1].node == Distill <==> w[i].state.branches == 0 && w[i].state.signal.None? && EachRequiredPassed(w[i].state)
    ensures w[i + 1].node == Join || w[i + 1].node == Distill || w[i + 1].node == ClassifyFailure
  {
    assert Follows(w[i], w[i + 1]);
    RequiredPassIs(w[i].state);
  }

  /** Where a walk goes from `join`: on iff there are audits, each received all it expected and misses nothing, and all required criteria passed. */
  lemma JoinDecides(w: seq<Hop>, i: nat)
    requires IsWalk(w) && i + 1 < |w| && w[i].node == Join
    ensures var s := w[i].state;
            w[i + 1].node == Distill
            <==> (|s.mergeAudits| > 0 && EachRequiredPassed(s)
                  && forall m :: m in s.mergeAudits ==> m.expected <= m.received && |m.missing| == 0)
    ensures w[i + 1].node == Distill || w[i + 1].node == ClassifyFailure
  {
    assert Follows(w[i], w[i + 1]);
    RequiredPassIs(w[i].state);
  }

  /** `join` is entered only from `validate`, with branches. */
  lemma JoinMeansBranches(w: seq<Hop>, i: nat)
    requires IsWalk(w) && i + 1 < |w| && w[i + 1].node == Join
    ensures w[i].node == Validate && HasBranches(w[i].state)
  {
    assert Follows(w[i], w[i + 1]);
  }

  predicate Closing(n: Node) {
    n == Store || n == RecordDeadEnd || n == RejectDraft
  }

  lemma NothingAfterFinalize(w: seq<Hop>, i: nat)
    requires IsWalk(w) && i + 1 < |w|
    ensures w[i].node != Finalize
    ensures Closing(w[i].node) ==> w[i + 1].node == Finalize
  {
    assert Follows(w[i], w[i + 1]);
  }

  lemma ClosingIsNearTheEnd(w: seq<Hop>, i: nat)
    requires IsWalk(w) && i < |w|
    ensures w[i].node == Finalize ==> i == |w| - 1
    ensures Closing(w[i].node) ==> i >= |w| - 2
  {
    if i + 1 < |w| { NothingAfterFinalize(w, i); }
    if i + 2 < |w| { NothingAfterFinalize(w, i + 1); }
  }

  /** `finalize` ends a run, and at most one of store, dead end and rejection comes before it. */
  lemma FinalizeOnce(w: seq<Hop>, i: nat, j: nat)
    requires IsWalk(w) && i < |w| && j < |w|
    ensures w[i].node == Finalize ==> i == |w| - 1
    ensures Closing(w[i].node) && Closing(w[j].node) ==> i == j
  {
    ClosingIsNearTheEnd(w, i);
    ClosingIsNearTheEnd(w, j);
  }

  /** Nothing is stored unless every required criterion had passed two hops earlier. */
  lemma StoredMeansPassed(w: seq<Hop>, i: nat)
    requires IsWalk(w) && i < |w| && w[i].node == Store
    ensures i >= 3 && w[i - 1].node == Review && w[i - 2].node == Distill
    ensures RequiredIds(w[i - 3].state) <= PassedIds(w[i - 3].state)
  {
    assert Follows(w[i - 1], w[i]);
    assert Follows(w[i - 2], w[i - 1]);
    assert Follows(w[i - 3], w[i - 2]);
    DistillMeansPassed(w, i - 3);
  }

  lemma {:induction false} CriteriaLocked(w: seq<Hop>, i: nat)
    requires IsWalk(w) && i < |w|
    ensures w[i].state.criteria == w[0].state.criteria
  {
    if i > 0 {
      CriteriaLocked(w, i - 1);
      assert Follows(w[i - 1], w[i]);
    }
  }

  // ----- what a pass is worth

  /** A required criterion that a machine checks. */
  predicate Checked(c: Locked) {
    IsRequired(c.criterion) && !c.criterion.kind.AskJudge?
  }

  /** Some required criterion that a machine checks did pass its check. */
  predicate Earned(s: RunState) {
    |s.results| == |s.criteria| && exists i :: 0 <= i < |s.criteria| && Checked(s.criteria[i]) && s.results[i].actual
  }

  predicate HasProvenCheck(criteria: seq<Locked>) {
    exists i :: 0 <= i < |criteria| && Checked(criteria[i]) && criteria[i].proven
  }

  /** The states in which `distill` may be entered: scored, without a signal, and passing. */
  lemma DistillIsEarned(w: seq<Hop>, i: nat)
    requires IsWalk(w) && i + 1 < |w| && w[i + 1].node == Distill
    ensures Scored(w[i].state) && w[i].state.signal == None && RequiredPass(w[i].state)
    ensures forall j :: 0 <= j < |w[i].state.criteria| && IsRequired(w[i].state.criteria[j].criterion) && w[i].state.criteria[j].proven
                        ==> w[i].state.results[j].actual
  {
    assert Follows(w[i], w[i + 1]);
    assert Follows(w[i - 1], w[i]);
    var s := w[i].state;
    forall j | 0 <= j < |s.criteria| && IsRequired(s.criteria[j].criterion) && s.criteria[j].proven
      ensures s.results[j].actual
    {
      assert !Fails(s.criteria[j], s.results[j]);
    }
  }

  /** The results of a scoring in which every machine check fails and every other one passes. */
  function Unearned(criteria: seq<Locked>): (out: seq<CriterionResult>)
    ensures |out| == |criteria|
    ensures forall i :: 0 <= i < |out| ==> out[i].id == criteria[i].criterion.id && out[i].actual == !Checked(criteria[i])
                                           && RecordsOutcome(criteria[i], out[i])
  {
    seq(|criteria|, i requires 0 <= i < |criteria| =>
      CriterionResult(criteria[i].criterion.id,
                      !Checked(criteria[i]) || (IsRequired(criteria[i].criterion) && !criteria[i].proven),
                      !Checked(criteria[i]), 0))
  }

  function UnearnedState(criteria: seq<Locked>): RunState {
    RunState(criteria, Unearned(criteria), [Unearned(criteria)], Some(Scratch), 0, [], true,
             if HasProvenCheck(criteria) then Some(Signal(false)) else None, None, None, 1, 1)
  }

  lemma UnearnedIsScored(criteria: seq<Locked>)
    ensures Scored(UnearnedState(criteria)) && !Earned(UnearnedState(criteria))
  {
    var s := UnearnedState(criteria);
    if HasProvenCheck(criteria) {
      var i :| 0 <= i < |criteria| && Checked(criteria[i]) && criteria[i].proven;
      assert Fails(s.criteria[i], s.results[i]);
    }
  }

  /**
   * Entering `distill` always means that some required machine check passed iff one of them
   * carries a valid proof. Without one they are all advisory, and all of them can fail.
   */
  lemma NeverVacuousIff(criteria: seq<Locked>)
    ensures (forall s: RunState :: s.criteria == criteria && Scored(s) && s.signal == None && RequiredPass(s) ==> Earned(s))
       <==> HasProvenCheck(criteria)
  {
    if HasProvenCheck(criteria) {
      var i :| 0 <= i < |criteria| && Checked(criteria[i]) && criteria[i].proven;
      forall s: RunState | s.criteria == criteria && Scored(s) && s.signal == None ensures Earned(s) {
        assert !Fails(s.criteria[i], s.results[i]);
      }
    } else {
      UnearnedIsScored(criteria);
      forall i | 0 <= i < |criteria| ensures HasOtherPass(criteria, criteria[i].criterion.id) { }
      UnearnedPasses(criteria, UnearnedState(criteria));
    }
  }

  lemma UnearnedPasses(criteria: seq<Locked>, s: RunState)
    requires s.criteria == criteria && s.results == Unearned(criteria)
    requires forall i :: (0 <= i < |criteria| && IsRequired(criteria[i].criterion)) ==> HasOtherPass(criteria, criteria[i].criterion.id)
    ensures RequiredPass(s)
  {
    forall id | id in RequiredIds(s) ensures id in PassedIds(s) {
      var c :| c in criteria && IsRequired(c.criterion) && c.criterion.id == id;
      var i :| 0 <= i < |criteria| && criteria[i] == c;
      assert HasOtherPass(criteria, criteria[i].criterion.id);
      var l :| 0 <= l < |criteria| && criteria[l].criterion.id == id && !(Checked(criteria[l]) && criteria[l].proven);
      assert s.results[l] in s.results && s.results[l].passed;
    }
  }

  /** Some criterion with this id can be recorded as passed without a machine check passing. */
  predicate HasOtherPass(criteria: seq<Locked>, id: CriterionId) {
    exists l :: 0 <= l < |criteria| && criteria[l].criterion.id == id && !(Checked(criteria[l]) && criteria[l].proven)
  }

  predicate UniqueIds(criteria: seq<Locked>) {
    forall i, j :: 0 <= i < j < |criteria| ==> criteria[i].criterion.id != criteria[j].criterion.id
  }

  /** With unique ids a required id has no other pass iff it is that of a proven machine check. */
  lemma UniqueIdsEarn(criteria: seq<Locked>)
    requires UniqueIds(criteria)
    ensures (exists i :: 0 <= i < |criteria| && IsRequired(criteria[i].criterion) && !HasOtherPass(criteria, criteria[i].criterion.id))
       <==> HasProvenCheck(criteria)
  {
    forall i | 0 <= i < |criteria| ensures HasOtherPass(criteria, criteria[i].criterion.id) <==> !(Checked(criteria[i]) && criteria[i].proven) {
    }
  }

  /**
   * The required-pass test by itself, which matches results by id, is earned iff some required id
   * belongs to proven machine checks only. With unique ids that is the condition above.
   */
  lemma TestAloneIff(criteria: seq<Locked>)
    ensures (forall s: RunState :: s.criteria == criteria && Scored(s) && RequiredPass(s) ==> Earned(s))
       <==> exists i :: 0 <= i < |criteria| && IsRequired(criteria[i].criterion) && !HasOtherPass(criteria, criteria[i].criterion.id)
    ensures UniqueIds(criteria) ==>
              ((forall s: RunState :: s.criteria == criteria && Scored(s) && RequiredPass(s) ==> Earned(s)) <==> HasProvenCheck(criteria))
  {
    if UniqueIds(criteria) { UniqueIdsEarn(criteria); }
    if exists i :: 0 <= i < |criteria| && IsRequired(criteria[i].criterion) && !HasOtherPass(criteria, criteria[i].criterion.id) {
      var i :| 0 <= i < |criteria| && IsRequired(criteria[i].criterion) && !HasOtherPass(criteria, criteria[i].criterion.id);
      forall s: RunState | s.criteria == criteria && Scored(s) && RequiredPass(s) ensures Earned(s) {
        OwnIdEarns(s, i);
      }
    } else {
      UnearnedIsScored(criteria);
      UnearnedPasses(criteria, UnearnedState(criteria));
    }
  }

  lemma OwnIdEarns(s: RunState, i: nat)
    requires i < |s.criteria| && Scored(s) && RequiredPass(s)
    requires IsRequired(s.criteria[i].criterion) && !HasOtherPass(s.criteria, s.criteria[i].criterion.id)
    ensures Earned(s)
  {
    assert s.criteria[i].criterion.id in RequiredIds(s);
    var r :| r in s.results && r.passed && r.id == s.criteria[i].criterion.id;
    var l :| 0 <= l < |s.results| && s.results[l] == r;
    assert RecordsOutcome(s.criteria[l], s.results[l]);
  }

  /** A failing proven check and a passing judge that share an id: the test passes, nothing was earned. */
  lemma SharedIdPasses(check: Locked, judge: Locked)
    requires Checked(check) && check.proven && IsRequired(judge.criterion) && judge.criterion.kind.AskJudge?
    requires check.criterion.id == judge.criterion.id
    ensures var s := UnearnedState([check, judge]);
            Scored(s) && RequiredPass(s) && !Earned(s) && s.signal.Some?
  {
    var cs := [check, judge];
    UnearnedIsScored(cs);
    assert HasOtherPass(cs, check.criterion.id) by { assert cs[1] == judge; }
    UnearnedPasses(cs, UnearnedState(cs));
    assert Checked(cs[0]) && cs[0].proven;
  }

  /** The criteria locked for a goal: compiled, sealed and given proofs, with ids, weights and judges kept. */
  ghost predicate LockedFrom(compiled: seq<Criterion>, criteria: seq<Locked>) {
    && |criteria| == |compiled|
    && forall i :: 0 <= i < |compiled| ==>
         && criteria[i].criterion.id == compiled[i].id && criteria[i].criterion.weight == compiled[i].weight
         && (criteria[i].criterion.kind.AskJudge? <==> compiled[i].kind.AskJudge?)
  }

  /**
   * For criteria compiled from a valid goal, whose checks have valid proofs, entering `distill`
   * is never vacuous: some required machine check passed.
   */
  lemma DistillIsNeverVacuous(w: seq<Hop>, i: nat, k: Checks, g: Goal, compiled: seq<Criterion>)
    requires IsWalk(w) && i + 1 < |w| && w[i + 1].node == Distill
    requires HasHardCriterion(g) && CompiledTo(k, g.desired, CompiledOnly(g.constraints), compiled)
    requires LockedFrom(compiled, w[0].state.criteria)
    requires forall j :: 0 <= j < |w[0].state.criteria| && Checked(w[0].state.criteria[j]) ==> w[0].state.criteria[j].proven
    ensures Earned(w[i].state)
  {
    CriteriaLocked(w, i);
    CompiledGoalIsHard(k, g, compiled);
    var c :| c in compiled && IsRequired(c) && !c.kind.AskJudge?;
    var j :| 0 <= j < |compiled| && compiled[j] == c;
    assert Checked(w[0].state.criteria[j]);
    DistillIsEarned(w, i);
    NeverVacuousIff(w[0].state.criteria);
  }

  /** Without any required criterion the test is vacuous: no results at all pass it. */
  lemma NoRequiredCriteriaAlwaysPass(s: RunState)
    ensures s.results == [] ==> (RequiredPass(s) <==> forall c :: c in s.criteria ==> !IsRequired(c.criterion))
  {
    if s.results == [] {
      assert PassedIds(s) == {};
      forall c | c in s.criteria && IsRequired(c.criterion) ensures c.criterion.id in RequiredIds(s) { }
    }
  }

  // ----- the engine's step limit

  const MAX_GRAPH_STEPS: nat := 500

  /** One required, proven check. */
  const THE_CHECK := Locked(Criterion(CriterionId("check"), RunCommand("run", 0), 1.0, 1), true)

  /** Its result; two scorings of the same attempt differ in their excerpts. */
  function OneResult(pass: bool, excerpt: nat): seq<CriterionResult> {
    [CriterionResult(CriterionId("check"), pass, pass, excerpt)]
  }

  /** The longest run: a fan-out, then attempt after attempt fails its check until the last one passes. */
  function Before(max: nat, branches: nat): RunState {
    RunState([THE_CHECK], [], [], Some(Portfolio), branches, [], false, None, None, None, 0, max)
  }

  /** After `validate` (`scored == 1`) or `join` (`scored == 2`) of an attempt that began in `s`. */
  function Scoring(s: RunState, pass: bool, scored: nat): RunState
    requires 1 <= scored <= 2
  {
    var first, second := OneResult(pass, 1), OneResult(pass, 2);
    s.(results := if scored == 1 then first else second,
       resultsHistory := if scored == 1 then s.resultsHistory + [first] else (s.resultsHistory + [first]) + [second],
       mergeAudits := if scored == 1 then s.mergeAudits else s.mergeAudits + [MergeAudit(1, 1, [])],
       signal := if pass then None else Some(Signal(false)))
  }

  function Solved(s: RunState): RunState {
    s.(attempts := s.attempts + 1, transcript := true, signal := None)
  }

  function Retried(s: RunState): RunState {
    Scoring(Solved(s), false, 2).(failure := Some(Execution), signal := None, transcript := false)
  }

  /** An attempt that fails and is retried, and one that passes and is stored, from state `s` on. */
  function RetriedLap(s: RunState): seq<Hop> {
    var t := Solved(s);
    [Hop(Solve, t), Hop(Validate, Scoring(t, false, 1)), Hop(Join, Scoring(t, false, 2)),
     Hop(ClassifyFailure, Scoring(t, false, 2).(failure := Some(Execution))), Hop(Evolve, Retried(s))]
  }

  function StoredLap(s: RunState): seq<Hop> {
    var t := Solved(s);
    var u := Scoring(t, true, 2).(verdict := Some(Reusable));
    [Hop(Solve, t), Hop(Validate, Scoring(t, true, 1)), Hop(Join, Scoring(t, true, 2)),
     Hop(Distill, u), Hop(Review, u), Hop(Store, u), Hop(Finalize, u)]
  }

  /** The attempts still to come, from state `s` on. */
  function LongTail(s: RunState): seq<Hop>
    requires s.attempts < s.maxAttempts
    decreases s.maxAttempts - s.attempts
  {
    if s.attempts + 1 == s.maxAttempts then StoredLap(s) else RetriedLap(s) + LongTail(Retried(s))
  }

  function Opening(max: nat): seq<Hop> {
    [Hop(Intake, Before(max, 0)), Hop(Retrieve, Before(max, 0)), Hop(Plan, Before(max, 0)), Hop(FanOut, Before(max, 1))]
  }

  function LongWalk(max: nat): seq<Hop>
    requires max >= 1
  {
    Opening(max) + LongTail(Before(max, 1))
  }

  ghost predicate Linked(w: seq<Hop>) {
    forall i :: 0 <= i < |w| - 1 ==> Follows(w[i], w[i + 1])
  }

  lemma LinkedJoin(a: seq<Hop>, b: seq<Hop>)
    requires Linked(a) && Linked(b) && a != [] && b != [] && Follows(a[|a| - 1], b[0])
    ensures Linked(a + b)
  {
    var w := a + b;
    forall i | 0 <= i < |w| - 1 ensures Follows(w[i], w[i + 1]) {
      if i < |a| - 1 {
        assert Follows(a[i], a[i + 1]);
      } else if i >= |a| {
        assert Follows(b[i - |a|], b[i - |a| + 1]);
      }
    }
  }

  lemma Step(a: Hop, b: Hop)
    requires ResultSet(a.node, a.state) && TheTarget(a.node, a.state) == b.node
    requires a.node == Join && b.node == Distill ==> a.state.signal.None?
    requires NodeEffect(b.node, a.state, b.state)
    ensures Follows(a, b)
  {
    if a.node != Review {
      OneTarget(a.node, a.state, b.node);
    }
  }

  /** A state in which the longest run starts an attempt. */
  predicate Ready(s: RunState) {
    && s.criteria == [THE_CHECK] && s.branches == 1 && s.signal == None
    && s.attempts < s.maxAttempts && forall m :: m in s.mergeAudits ==> IsComplete(m)
  }

  lemma ScoringIsScored(s: RunState, pass: bool, scored: nat)
    requires 1 <= scored <= 2 && s.criteria == [THE_CHECK]
    ensures Scored(Scoring(s, pass, scored))
    ensures RequiredPass(Scoring(s, pass, scored)) <==> pass
  {
    var t := Scoring(s, pass, scored);
    assert Fails(t.criteria[0], t.results[0]) <==> !pass;
    assert t.criteria[0] in t.criteria && t.results[0] in t.results;
    assert CriterionId("check") in RequiredIds(t);
    if pass { assert RequiredIds(t) <= PassedIds(t); }
  }

  lemma RetriedLapScores(s: RunState)
    requires Ready(s)
    ensures var t := Solved(s);
            && Follows(Hop(Solve, t), Hop(Validate, Scoring(t, false, 1)))
            && Follows(Hop(Validate, Scoring(t, false, 1)), Hop(Join, Scoring(t, false, 2)))
  {
    var t := Solved(s);
    ScoringIsScored(t, false, 1);
    ScoringIsScored(t, false, 2);
    Step(Hop(Solve, t), Hop(Validate, Scoring(t, false, 1)));
    Step(Hop(Validate, Scoring(t, false, 1)), Hop(Join, Scoring(t, false, 2)));
  }

  lemma RetriedLapRetries(s: RunState)
    requires Ready(s) && s.attempts + 1 < s.maxAttempts
    ensures var j := Scoring(Solved(s), false, 2); var c := j.(failure := Some(Execution));
            && Follows(Hop(Join, j), Hop(ClassifyFailure, c)) && Follows(Hop(ClassifyFailure, c), Hop(Evolve, Retried(s)))
  {
    var j := Scoring(Solved(s), false, 2);
    var c := j.(failure := Some(Execution));
    ScoringIsScored(Solved(s), false, 2);
    Step(Hop(Join, j), Hop(ClassifyFailure, c));
    assert c.resultsHistory[|c.resultsHistory| - 1] == OneResult(false, 2);
    assert c.resultsHistory[|c.resultsHistory| - 2] == OneResult(false, 1);
    assert OneResult(false, 1)[0] != OneResult(false, 2)[0];
    assert MayRetry(c);
    Step(Hop(ClassifyFailure, c), Hop(Evolve, Retried(s)));
  }

  lemma RetriedLapLinked(s: RunState)
    requires Ready(s) && s.attempts + 1 < s.maxAttempts
    ensures Linked(RetriedLap(s)) && Ready(Retried(s))
  {
    RetriedLapScores(s);
    RetriedLapRetries(s);
  }

  lemma StoredLapScores(s: RunState)
    requires Ready(s)
    ensures var t := Solved(s);
            && Follows(Hop(Solve, t), Hop(Validate, Scoring(t, true, 1)))
            && Follows(Hop(Validate, Scoring(t, true, 1)), Hop(Join, Scoring(t, true, 2)))
  {
    var t := Solved(s);
    ScoringIsScored(t, true, 1);
    ScoringIsScored(t, true, 2);
    Step(Hop(Solve, t), Hop(Validate, Scoring(t, true, 1)));
    Step(Hop(Validate, Scoring(t, true, 1)), Hop(Join, Scoring(t, true, 2)));
  }

  lemma StoredLapDistills(s: RunState)
    requires Ready(s)
    ensures var j := Scoring(Solved(s), true, 2);
            Follows(Hop(Join, j), Hop(Distill, j.(verdict := Some(Reusable))))
  {
    var j := Scoring(Solved(s), true, 2);
    ScoringIsScored(Solved(s), true, 2);
    assert JoinPasses(j);
    Step(Hop(Join, j), Hop(Distill, j.(verdict := Some(Reusable))));
  }

  lemma StoredLapLinked(s: RunState)
    requires Ready(s)
    ensures Linked(StoredLap(s))
  {
    StoredLapScores(s);
    StoredLapDistills(s);
    ClosingLinked(Scoring(Solved(s), true, 2).(verdict := Some(Reusable)));
  }

  lemma ClosingLinked(u: RunState)
    requires u.verdict == Some(Reusable)
    ensures Follows(Hop(Distill, u), Hop(Review, u))
    ensures Follows(Hop(Review, u), Hop(Store, u))
    ensures Follows(Hop(Store, u), Hop(Finalize, u))
  {
    Step(Hop(Distill, u), Hop(Review, u));
    Step(Hop(Review, u), Hop(Store, u));
    Step(Hop(Store, u), Hop(Finalize, u));
  }

  lemma {:induction false} LongTailLinked(s: RunState)
    requires Ready(s)
    ensures Linked(LongTail(s)) && |LongTail(s)| == 5 * (s.maxAttempts - s.attempts) + 2
    ensures LongTail(s)[0] == Hop(Solve, Solved(s))
    decreases s.maxAttempts - s.attempts
  {
    if s.attempts + 1 == s.maxAttempts {
      StoredLapLinked(s);
    } else {
      RetriedLapLinked(s);
      LongTailLinked(Retried(s));
      Step(Hop(Evolve, Retried(s)), Hop(Solve, Solved(Retried(s))));
      LinkedJoin(RetriedLap(s), LongTail(Retried(s)));
    }
  }

  lemma OpeningLinked(max: nat)
    ensures Linked(Opening(max))
  {
    var s, t := Before(max, 0), Before(max, 1);
    Step(Hop(Intake, s), Hop(Retrieve, s));
    Step(Hop(Retrieve, s), Hop(Plan, s));
    Step(Hop(Plan, s), Hop(FanOut, t));
  }

  /** The bound is reached: `5m + 6` hops that the nodes can make. */
  lemma LongWalkIsWalk(max: nat)
    requires max >= 1
    ensures IsWalk(LongWalk(max)) && |LongWalk(max)| == 5 * max + 6 && LongWalk(max)[0].state.maxAttempts == max
  {
    var s := Before(max, 1);
    OpeningLinked(max);
    LongTailLinked(s);
    Step(Hop(FanOut, s), Hop(Solve, Solved(s)));
    LinkedJoin(Opening(max), LongTail(s));
  }

  /**
   * The engine takes a run of more than 500 hops for a routing defect. No legal run is that long
   * iff at most 98 attempts are allowed; the budget itself sets no such limit.
   */
  lemma StepLimitIsSafe(max: nat)
    requires max >= 1
    ensures (forall w: seq<Hop> :: IsWalk(w) && w[0].state.maxAttempts == max ==> |w| <= MAX_GRAPH_STEPS) <==> max <= 98
  {
    forall w: seq<Hop> | IsWalk(w) && w[0].state.maxAttempts == max ensures |w| <= 5 * max + 6 {
      WalksAreShort(w);
    }
    LongWalkIsWalk(max);
  }
}
