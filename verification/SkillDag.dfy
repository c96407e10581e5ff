/**
 * The step validator of `contracts/skill.py`: binding checks, then Kahn's algorithm.
 *
 * A step depends on the steps whose outputs it binds. The validator is proved to accept exactly
 * the step lists that are well bound and whose dependency graph has no cycle.
 */
module SkillDag {
  import opened Prelude

  datatype StepId = StepId(text: string)

  datatype Binding = Binding(input: string, sourceStep: StepId, output: string)

  datatype Step = Step(id: StepId, outputs: seq<string>, bindings: seq<Binding>)

  /** `step_dependencies`. */
  function Dependencies(step: Step): set<StepId> {
    set b | b in step.bindings :: b.sourceStep
  }

  // ----- dependency graphs

  /** Every step id with the ids it depends on. */
  type Graph = map<StepId, set<StepId>>

  ghost predicate Closed(g: Graph) {
    forall n :: n in g ==> g[n] <= g.Keys
  }

  /** `c[i]` depends on `c[i + 1]`, and the last on the first. */
  ghost predicate IsCycle(g: Graph, c: seq<StepId>) {
    && c != []
    && (forall i :: 0 <= i < |c| ==> c[i] in g)
    && (forall i :: 0 <= i < |c| - 1 ==> c[i + 1] in g[c[i]])
    && c[0] in g[c[|c| - 1]]
  }

  /** No element repeats an earlier one. */
  ghost predicate Distinct(s: seq<StepId>) {
    s == [] || (Distinct(s[..|s| - 1]) && s[|s| - 1] !in s[..|s| - 1])
  }

  lemma DistinctSnoc(s: seq<StepId>, x: StepId)
    ensures Distinct(s + [x]) <==> Distinct(s) && x !in s
  {
    assert (s + [x])[..|s + [x]| - 1] == s;
  }

  function Elements(s: seq<StepId>): set<StepId> {
    set x | x in s
  }

  /** Each listed step comes after everything it depends on. */
  ghost predicate Ordered(g: Graph, order: seq<StepId>) {
    order == [] ||
    var front, last := order[..|order| - 1], order[|order| - 1];
    Ordered(g, front) && last !in front && last in g && g[last] <= Elements(front)
  }

  lemma {:induction false} OrderedAt(g: Graph, order: seq<StepId>, i: nat)
    requires Ordered(g, order) && i < |order|
    ensures order[i] in g && order[i] !in order[..i] && g[order[i]] <= Elements(order[..i])
    decreases |order|
  {
    var front := order[..|order| - 1];
    if i < |front| {
      OrderedAt(g, front, i);
      assert front[..i] == order[..i];
    }
  }

  lemma ElementsSnoc(s: seq<StepId>)
    requires s != []
    ensures Elements(s) == Elements(s[..|s| - 1]) + {s[|s| - 1]}
  {
    assert s == s[..|s| - 1] + [s[|s| - 1]];
  }

  lemma {:induction false} OrderedCount(g: Graph, order: seq<StepId>)
    requires Ordered(g, order)
    ensures |Elements(order)| == |order| && Elements(order) <= g.Keys
  {
    if order != [] {
      OrderedCount(g, order[..|order| - 1]);
      ElementsSnoc(order);
    }
  }

  ghost predicate Topological(g: Graph, order: seq<StepId>) {
    Ordered(g, order) && Elements(order) == g.Keys
  }

  /** The first position of `x`. */
  function IndexOf(s: seq<StepId>, x: StepId): (i: nat)
    requires x in s
    ensures i < |s| && s[i] == x
    ensures x !in s[..i]
  {
    if s[0] == x then 0 else 1 + IndexOf(s[1..], x)
  }

  lemma {:induction false} FirstIndex(s: seq<StepId>, x: StepId, j: nat)
    requires j < |s| && s[j] == x
    ensures IndexOf(s, x) <= j
  {
    if j > 0 && s[0] != x { FirstIndex(s[1..], x, j - 1); }
  }

  lemma DependsEarlier(g: Graph, order: seq<StepId>, n: StepId, d: StepId)
    requires Topological(g, order) && n in g && d in g[n] && d in g
    ensures n in order && d in order && IndexOf(order, d) < IndexOf(order, n)
  {
    assert n in Elements(order) && d in Elements(order);
    var i := IndexOf(order, n);
    OrderedAt(g, order, i);
    assert d in Elements(order[..i]);
    var j :| 0 <= j < i && order[..i][j] == d;
    FirstIndex(order, d, j);
  }

  lemma {:induction false} CycleDescends(g: Graph, order: seq<StepId>, c: seq<StepId>, k: nat)
    requires Topological(g, order) && IsCycle(g, c) && k < |c|
    ensures c[0] in order && c[k] in order && IndexOf(order, c[k]) + k <= IndexOf(order, c[0])
  {
    assert c[0] in Elements(order);
    if k > 0 {
      CycleDescends(g, order, c, k - 1);
      DependsEarlier(g, order, c[k - 1], c[k]);
    }
  }

  /** A topological order rules every cycle out. */
  lemma TopologicalMeansAcyclic(g: Graph, order: seq<StepId>)
    requires Topological(g, order)
    ensures !exists c :: IsCycle(g, c)
  {
    if c :| IsCycle(g, c) {
      CycleDescends(g, order, c, |c| - 1);
      DependsEarlier(g, order, c[|c| - 1], c[0]);
    }
  }

  /** `done` is stuck: every other step still waits for a step outside `done`. */
  ghost predicate Stuck(g: Graph, done: set<StepId>) {
    forall n :: n in g && n !in done ==> g[n] - done != {}
  }

  ghost predicate IsChain(g: Graph, done: set<StepId>, path: seq<StepId>) {
    && path != []
    && (forall i :: 0 <= i < |path| ==> path[i] in g && path[i] !in done)
    && (forall i :: 0 <= i < |path| - 1 ==> path[i + 1] in g[path[i]])
  }

  lemma ChainTail(g: Graph, done: set<StepId>, path: seq<StepId>, i: nat)
    requires IsChain(g, done, path) && i < |path| && path[i] in g[path[|path| - 1]]
    ensures IsCycle(g, path[i..]) && forall x :: x in path[i..] ==> x !in done
  {
    var c := path[i..];
    assert forall j :: 0 <= j < |c| ==> c[j] == path[i + j];
  }

  lemma ChainGrows(g: Graph, done: set<StepId>, path: seq<StepId>, d: StepId)
    requires Closed(g) && IsChain(g, done, path) && d in g[path[|path| - 1]] && d !in done && d !in path
    ensures IsChain(g, done, path + [d])
    ensures g.Keys - Elements(path + [d]) < g.Keys - Elements(path)
  {
    assert Elements(path + [d]) == Elements(path) + {d};
    assert d in g.Keys - Elements(path);
  }

  /** Following unmet dependencies inside a finite graph must come back to a step already met. */
  lemma {:induction false} ChainCloses(g: Graph, done: set<StepId>, path: seq<StepId>) returns (c: seq<StepId>)
    requires Closed(g) && Stuck(g, done) && IsChain(g, done, path)
    ensures IsCycle(g, c) && forall x :: x in c ==> x !in done
    decreases g.Keys - Elements(path)
  {
    var last := path[|path| - 1];
    assert last in g && last !in done;
    var d :| d in g[last] - done;
    if d in path {
      ChainTail(g, done, path, IndexOf(path, d));
      c := path[IndexOf(path, d)..];
    } else {
      ChainGrows(g, done, path, d);
      c := ChainCloses(g, done, path + [d]);
    }
  }

  lemma StuckMeansCycle(g: Graph, done: set<StepId>)
    requires Closed(g) && Stuck(g, done) && g.Keys - done != {}
    ensures exists c :: IsCycle(g, c) && forall x :: x in c ==> x !in done
  {
    var n :| n in g.Keys - done;
    assert IsChain(g, done, [n]);
    var c := ChainCloses(g, done, [n]);
  }

  // ----- the steps as a graph

  /** The ids of the first `n` steps. */
  function IdsUpTo(steps: seq<Step>, n: nat): set<StepId>
    requires n <= |steps|
  {
    if n == 0 then {} else IdsUpTo(steps, n - 1) + {steps[n - 1].id}
  }

  /** None of the first `n` steps repeats the id of an earlier one. */
  ghost predicate UniqueUpTo(steps: seq<Step>, n: nat)
    requires n <= |steps|
  {
    n == 0 || (UniqueUpTo(steps, n - 1) && steps[n - 1].id !in IdsUpTo(steps, n - 1))
  }

  ghost predicate UniqueIds(steps: seq<Step>) {
    UniqueUpTo(steps, |steps|)
  }

  lemma {:induction false} UniqueEarlier(steps: seq<Step>, i: nat, n: nat)
    requires i <= n <= |steps| && UniqueUpTo(steps, n)
    ensures UniqueUpTo(steps, i)
  {
    if i < n { UniqueEarlier(steps, i, n - 1); }
  }

  lemma {:induction false} IdsUpToAre(steps: seq<Step>, n: nat, id: StepId)
    requires n <= |steps|
    ensures id in IdsUpTo(steps, n) <==> exists i :: 0 <= i < n && steps[i].id == id
  {
    if n > 0 { IdsUpToAre(steps, n - 1, id); }
  }

  /** `UniqueIds` says what it should: no two steps share an id. */
  lemma {:induction false} UniqueMeansDistinct(steps: seq<Step>, n: nat)
    requires n <= |steps|
    ensures UniqueUpTo(steps, n) <==> forall i, j :: 0 <= i < j < n ==> steps[i].id != steps[j].id
  {
    if n > 0 {
      UniqueMeansDistinct(steps, n - 1);
      IdsUpToAre(steps, n - 1, steps[n - 1].id);
    }
  }

  /** `len(steps_by_id) == len(steps)` says that the ids are unique. */
  lemma {:induction false} UniqueByCount(steps: seq<Step>, n: nat)
    requires n <= |steps|
    ensures |IdsUpTo(steps, n)| <= n
    ensures |IdsUpTo(steps, n)| == n <==> UniqueUpTo(steps, n)
  {
    if n > 0 { UniqueByCount(steps, n - 1); }
  }

  function GraphUpTo(steps: seq<Step>, n: nat): (g: Graph)
    requires n <= |steps|
    ensures g.Keys == IdsUpTo(steps, n)
  {
    if n == 0 then map[] else GraphUpTo(steps, n - 1)[steps[n - 1].id := Dependencies(steps[n - 1])]
  }

  function GraphOf(steps: seq<Step>): Graph {
    GraphUpTo(steps, |steps|)
  }

  lemma {:induction false} GraphHolds(steps: seq<Step>, i: nat, n: nat)
    requires i < n <= |steps| && UniqueUpTo(steps, n)
    ensures steps[i].id in GraphUpTo(steps, n) && GraphUpTo(steps, n)[steps[i].id] == Dependencies(steps[i])
  {
    if i < n - 1 { GraphHolds(steps, i, n - 1); }
  }

  /** `graph[dep]` after the first `n` steps: those that depend on `dep`, in list order. */
  function Dependents(steps: seq<Step>, n: nat, dep: StepId): seq<StepId>
    requires n <= |steps|
  {
    if n == 0 then []
    else if dep in Dependencies(steps[n - 1]) then Dependents(steps, n - 1, dep) + [steps[n - 1].id]
    else Dependents(steps, n - 1, dep)
  }

  lemma {:induction false} DependentsAre(steps: seq<Step>, n: nat, dep: StepId)
    requires n <= |steps| && UniqueUpTo(steps, n)
    ensures Distinct(Dependents(steps, n, dep))
    ensures forall x :: x in Dependents(steps, n, dep) <==> x in GraphUpTo(steps, n) && dep in GraphUpTo(steps, n)[x]
  {
    if n > 0 {
      DependentsAre(steps, n - 1, dep);
      DistinctSnoc(Dependents(steps, n - 1, dep), steps[n - 1].id);
    }
  }

  // ----- the binding checks

  datatype Verdict =
    | Valid
    | DuplicateIds
    | OwnOutput(step: StepId)
    | UnknownSource(step: StepId, source: StepId)
    | UnknownOutput(step: StepId, source: StepId, output: string)
    | Cyclic

  function Find(steps: seq<Step>, id: StepId): (found: Option<Step>)
    ensures found.Some? ==> found.value in steps && found.value.id == id
    ensures found.None? ==> forall s :: s in steps ==> s.id != id
  {
    if steps == [] then None else if steps[0].id == id then Some(steps[0]) else Find(steps[1..], id)
  }

  /** What is wrong with one binding; `Valid` when nothing is. */
  function CheckBinding(steps: seq<Step>, step: Step, b: Binding): Verdict {
    if b.sourceStep == step.id then OwnOutput(step.id)
    else
      var source := Find(steps, b.sourceStep);
      if source.None? then UnknownSource(step.id, b.sourceStep)
      else if b.output !in source.value.outputs then UnknownOutput(step.id, b.sourceStep, b.output)
      else Valid
  }

  ghost predicate BoundUpTo(steps: seq<Step>, i: nat, j: nat) {
    forall k, l :: 0 <= k < |steps| && 0 <= l < |steps[k].bindings| && (k < i || (k == i && l < j)) ==>
                     CheckBinding(steps, steps[k], steps[k].bindings[l]) == Valid
  }

  /** Every binding names a declared output of another listed step. */
  ghost predicate WellBound(steps: seq<Step>) {
    BoundUpTo(steps, |steps|, 0)
  }

  /** The first fault in list order, and the verdict it gives. */
  ghost predicate FirstFault(steps: seq<Step>, i: nat, j: nat, v: Verdict) {
    && i < |steps| && j < |steps[i].bindings|
    && BoundUpTo(steps, i, j)
    && v == CheckBinding(steps, steps[i], steps[i].bindings[j]) && v != Valid
  }

  method CheckBindings(steps: seq<Step>) returns (v: Verdict)
    ensures v == Valid <==> WellBound(steps)
    ensures v != Valid ==> exists i, j :: FirstFault(steps, i, j, v)
  {
    for i := 0 to |steps|
      invariant BoundUpTo(steps, i, 0)
    {
      for j := 0 to |steps[i].bindings|
        invariant BoundUpTo(steps, i, j)
      {
        v := CheckBinding(steps, steps[i], steps[i].bindings[j]);
        if v != Valid {
          assert FirstFault(steps, i, j, v);
          return;
        }
      }
    }
    v := Valid;
  }

  /** Another listed step has the binding's source id, and lists its output. */
  ghost predicate Declared(steps: seq<Step>, step: Step, b: Binding) {
    b.sourceStep != step.id && exists k :: 0 <= k < |steps| && steps[k].id == b.sourceStep && b.output in steps[k].outputs
  }

  lemma OnlyOneHas(steps: seq<Step>, s: Step, t: Step)
    requires UniqueIds(steps) && s in steps && t in steps && s.id == t.id
    ensures s == t
  {
    UniqueMeansDistinct(steps, |steps|);
    var i :| 0 <= i < |steps| && steps[i] == s;
    var j :| 0 <= j < |steps| && steps[j] == t;
    assert i == j;
  }

  /** What each fault says of its binding, and when there is none. */
  lemma FaultMeans(steps: seq<Step>, step: Step, b: Binding)
    requires UniqueIds(steps)
    ensures var v := CheckBinding(steps, step, b);
            && (v == Valid <==> Declared(steps, step, b))
            && (v == OwnOutput(step.id) <==> b.sourceStep == step.id)
            && (v == UnknownSource(step.id, b.sourceStep)
                <==> (b.sourceStep != step.id && forall k :: 0 <= k < |steps| ==> steps[k].id != b.sourceStep))
            && (v == UnknownOutput(step.id, b.sourceStep, b.output)
                <==> (b.sourceStep != step.id && !Declared(steps, step, b) && exists k :: 0 <= k < |steps| && steps[k].id == b.sourceStep))
            && (v == Valid || v == OwnOutput(step.id) || v == UnknownSource(step.id, b.sourceStep)
                || v == UnknownOutput(step.id, b.sourceStep, b.output))
  {
    var found := Find(steps, b.sourceStep);
    if found.Some? {
      var i :| 0 <= i < |steps| && steps[i] == found.value;
      forall k | 0 <= k < |steps| && steps[k].id == b.sourceStep ensures steps[k] == found.value {
        OnlyOneHas(steps, steps[k], found.value);
      }
    }
  }

  ghost predicate EachDeclared(steps: seq<Step>) {
    forall k, l :: 0 <= k < |steps| && 0 <= l < |steps[k].bindings| ==> Declared(steps, steps[k], steps[k].bindings[l])
  }

  lemma WellBoundIff(steps: seq<Step>)
    requires UniqueIds(steps)
    ensures WellBound(steps) <==> EachDeclared(steps)
  {
    forall k, l | 0 <= k < |steps| && 0 <= l < |steps[k].bindings|
      ensures CheckBinding(steps, steps[k], steps[k].bindings[l]) == Valid <==> Declared(steps, steps[k], steps[k].bindings[l])
    {
      FaultMeans(steps, steps[k], steps[k].bindings[l]);
    }
  }

  lemma WellBoundMeansClosed(steps: seq<Step>)
    requires UniqueIds(steps) && WellBound(steps)
    ensures Closed(GraphOf(steps))
  {
    var g := GraphOf(steps);
    forall x, d | x in g && d in g[x] ensures d in g.Keys {
      IdsUpToAre(steps, |steps|, x);
      var i :| 0 <= i < |steps| && steps[i].id == x;
      GraphHolds(steps, i, |steps|);
      var b :| b in steps[i].bindings && b.sourceStep == d;
      var j :| 0 <= j < |steps[i].bindings| && steps[i].bindings[j] == b;
      assert CheckBinding(steps, steps[i], steps[i].bindings[j]) == Valid;
      var source := Find(steps, d).value;
      var k :| 0 <= k < |steps| && steps[k] == source;
      IdsUpToAre(steps, |steps|, d);
    }
  }

  // ----- Kahn's algorithm

  /** How many dependencies of `n` are not in `done`. */
  ghost function Waiting(g: Graph, n: StepId, done: set<StepId>): nat
    requires n in g
  {
    |g[n] - done|
  }

  /** Enters the edges of one step: it waits for each of its dependencies, and each of them learns of it. */
  method EnterEdges(id: StepId, deps: set<StepId>, dependents: map<StepId, seq<StepId>>, indegree: map<StepId, nat>)
    returns (dependents': map<StepId, seq<StepId>>, indegree': map<StepId, nat>)
    requires deps <= dependents.Keys && id in indegree
    ensures dependents'.Keys == dependents.Keys
    ensures forall d :: d in dependents ==> dependents'[d] == if d in deps then dependents[d] + [id] else dependents[d]
    ensures indegree' == indegree[id := indegree[id] + |deps|]
  {
    var todo := deps;
    var count := indegree[id];
    dependents' := dependents;
    while todo != {}
      invariant todo <= deps && dependents'.Keys == dependents.Keys
      invariant forall d :: d in dependents ==>
                              dependents'[d] == if d in deps && d !in todo then dependents[d] + [id] else dependents[d]
      invariant count + |todo| == indegree[id] + |deps|
      decreases |todo|
    {
      var dep :| dep in todo;
      dependents' := dependents'[dep := dependents'[dep] + [id]];
      count := count + 1;
      todo := todo - {dep};
    }
    indegree' := indegree[id := count];
  }

  /** `indegree[x]` after the first `n` steps were entered. */
  function Entered(steps: seq<Step>, n: nat, x: StepId): nat
    requires n <= |steps|
  {
    if n == 0 then 0
    else if steps[n - 1].id == x then Entered(steps, n - 1, x) + |Dependencies(steps[n - 1])|
    else Entered(steps, n - 1, x)
  }

  lemma {:induction false} EnteredIs(steps: seq<Step>, n: nat, x: StepId)
    requires n <= |steps| && UniqueUpTo(steps, n)
    ensures Entered(steps, n, x) == if x in GraphUpTo(steps, n) then |GraphUpTo(steps, n)[x]| else 0
  {
    if n > 0 { EnteredIs(steps, n - 1, x); }
  }

  /** The two dictionaries after the first `n` steps were entered. */
  ghost predicate Built(steps: seq<Step>, n: nat, ids: set<StepId>, dependents: map<StepId, seq<StepId>>, indegree: map<StepId, nat>)
    requires n <= |steps|
  {
    && dependents.Keys == indegree.Keys == ids
    && (forall d :: d in dependents ==> dependents[d] == Dependents(steps, n, d))
    && (forall x :: x in indegree ==> indegree[x] == Entered(steps, n, x))
  }

  method EnterStep(steps: seq<Step>, i: nat, ghost ids: set<StepId>, dependents: map<StepId, seq<StepId>>, indegree: map<StepId, nat>)
    returns (dependents': map<StepId, seq<StepId>>, indegree': map<StepId, nat>)
    requires i < |steps| && steps[i].id in ids && Dependencies(steps[i]) <= ids
    requires Built(steps, i, ids, dependents, indegree)
    ensures Built(steps, i + 1, ids, dependents', indegree')
  {
    dependents', indegree' := EnterEdges(steps[i].id, Dependencies(steps[i]), dependents, indegree);
  }

  /** Builds `graph` and `indegree`: for every step its dependents, and its number of dependencies. */
  method BuildGraph(steps: seq<Step>) returns (dependents: map<StepId, seq<StepId>>, indegree: map<StepId, nat>)
    requires forall i :: 0 <= i < |steps| ==> steps[i].id in IdsUpTo(steps, |steps|)
    requires forall i :: 0 <= i < |steps| ==> Dependencies(steps[i]) <= IdsUpTo(steps, |steps|)
    ensures Built(steps, |steps|, IdsUpTo(steps, |steps|), dependents, indegree)
  {
    var ids := IdsUpTo(steps, |steps|);
    dependents := map id | id in ids :: [];
    indegree := map id | id in ids :: 0;
    for i := 0 to |steps|
      invariant Built(steps, i, ids, dependents, indegree)
    {
      dependents, indegree := EnterStep(steps, i, ids, dependents, indegree);
    }
  }

  // ----- the loop

  ghost predicate Counts(g: Graph, indegree: map<StepId, nat>, done: set<StepId>) {
    indegree.Keys == g.Keys && forall n :: n in g ==> indegree[n] == Waiting(g, n, done)
  }

  /** The queue holds, once each, exactly the steps that wait for nothing and are not done. */
  ghost predicate Queued(indegree: map<StepId, nat>, done: set<StepId>, queue: seq<StepId>) {
    && Distinct(queue)
    && (forall n :: n in queue ==> n !in done)
    && (forall n :: n in indegree ==> (indegree[n] == 0 <==> n in done || n in queue))
    && (forall n :: n in queue ==> n in indegree)
  }

  /** `seen` are the dependents of `node` already told that it is done. */
  ghost predicate Telling(g: Graph, indegree: map<StepId, nat>, done: set<StepId>, node: StepId, seen: set<StepId>) {
    && indegree.Keys == g.Keys
    && forall n :: n in g ==> indegree[n] == Waiting(g, n, if n in seen then done + {node} else done)
  }

  lemma WaitingFalls(g: Graph, n: StepId, done: set<StepId>, node: StepId)
    requires n in g && node !in done
    ensures Waiting(g, n, done + {node}) == if node in g[n] then Waiting(g, n, done) - 1 else Waiting(g, n, done)
  {
    if node in g[n] {
      assert g[n] - done == (g[n] - (done + {node})) + {node};
    } else {
      assert g[n] - done == g[n] - (done + {node});
    }
  }

  lemma TellOne(g: Graph, indegree: map<StepId, nat>, done: set<StepId>, node: StepId, seen: set<StepId>, next: StepId)
    requires Telling(g, indegree, done, node, seen)
    requires next in g && next !in seen && node in g[next] && node !in done
    ensures indegree[next] > 0
    ensures Telling(g, indegree[next := indegree[next] - 1], done, node, seen + {next})
  {
    WaitingFalls(g, next, done, node);
  }

  lemma QueueOne(indegree: map<StepId, nat>, done: set<StepId>, queue: seq<StepId>, next: StepId)
    requires Queued(indegree, done, queue) && next in indegree && indegree[next] > 0
    ensures var left := indegree[next := indegree[next] - 1];
            Queued(left, done, if left[next] == 0 then queue + [next] else queue)
  {
    assert next !in done && next !in queue;
    if indegree[next] == 1 {
      DistinctSnoc(queue, next);
      assert forall n :: n in queue + [next] <==> n in queue || n == next;
    }
  }

  /** One turn of the inner loop. */
  method Tell(ghost g: Graph, indegree: map<StepId, nat>, queue: seq<StepId>, ghost done: set<StepId>, node: StepId,
              ghost seen: set<StepId>, next: StepId) returns (indegree': map<StepId, nat>, queue': seq<StepId>)
    requires Telling(g, indegree, done, node, seen) && Queued(indegree, done + {node}, queue)
    requires next in g && next !in seen && node in g[next] && node !in done
    ensures Telling(g, indegree', done, node, seen + {next}) && Queued(indegree', done + {node}, queue')
  {
    TellOne(g, indegree, done, node, seen, next);
    QueueOne(indegree, done + {node}, queue, next);
    indegree' := indegree[next := indegree[next] - 1];
    queue' := queue;
    if indegree'[next] == 0 {
      queue' := queue + [next];
    }
  }

  /** The first `n` elements. */
  ghost function FirstOf(s: seq<StepId>, n: nat): set<StepId>
    requires n <= |s|
  {
    if n == 0 then {} else FirstOf(s, n - 1) + {s[n - 1]}
  }

  lemma {:induction false} FirstOfAre(s: seq<StepId>, n: nat, x: StepId)
    requires n <= |s|
    ensures x in FirstOf(s, n) <==> x in s[..n]
  {
    if n > 0 {
      FirstOfAre(s, n - 1, x);
      assert s[..n] == s[..n - 1] + [s[n - 1]];
    }
  }

  lemma {:induction false} DistinctAt(s: seq<StepId>, j: nat)
    requires Distinct(s) && j < |s|
    ensures s[j] !in FirstOf(s, j)
    decreases |s|
  {
    if j == |s| - 1 {
      FirstOfAre(s, j, s[j]);
    } else {
      var front := s[..|s| - 1];
      DistinctAt(front, j);
      FirstOfAre(front, j, s[j]);
      FirstOfAre(s, j, s[j]);
      assert front[..j] == s[..j];
    }
  }

  /** Marks `node` done: each of its dependents waits for one step less. */
  method Finish(ghost g: Graph, indegree: map<StepId, nat>, queue: seq<StepId>, ghost done: set<StepId>, node: StepId,
                dependents: seq<StepId>) returns (indegree': map<StepId, nat>, queue': seq<StepId>)
    requires Counts(g, indegree, done) && Queued(indegree, done + {node}, queue) && node !in done
    requires Distinct(dependents) && forall n :: n in dependents <==> n in g && node in g[n]
    ensures Counts(g, indegree', done + {node}) && Queued(indegree', done + {node}, queue')
  {
    indegree', queue' := indegree, queue;
    for j := 0 to |dependents|
      invariant Telling(g, indegree', done, node, FirstOf(dependents, j))
      invariant Queued(indegree', done + {node}, queue')
    {
      DistinctAt(dependents, j);
      assert dependents[j] in dependents;
      indegree', queue' := Tell(g, indegree', queue', done, node, FirstOf(dependents, j), dependents[j]);
    }
    AllTold(g, indegree', done, node, dependents);
  }

  lemma AllTold(g: Graph, indegree: map<StepId, nat>, done: set<StepId>, node: StepId, dependents: seq<StepId>)
    requires Telling(g, indegree, done, node, FirstOf(dependents, |dependents|)) && node !in done
    requires forall n :: n in dependents <==> n in g && node in g[n]
    ensures Counts(g, indegree, done + {node})
  {
    assert dependents[..|dependents|] == dependents;
    forall n | n in g ensures indegree[n] == Waiting(g, n, done + {node}) {
      FirstOfAre(dependents, |dependents|, n);
      WaitingFalls(g, n, done, node);
    }
  }

  ghost predicate LoopState(g: Graph, indegree: map<StepId, nat>, order: seq<StepId>, queue: seq<StepId>) {
    && Ordered(g, order)
    && Counts(g, indegree, Elements(order))
    && Queued(indegree, Elements(order), queue)
  }

  lemma PopKeepsQueued(indegree: map<StepId, nat>, done: set<StepId>, queue: seq<StepId>)
    requires Queued(indegree, done, queue) && queue != []
    ensures Queued(indegree, done + {queue[|queue| - 1]}, queue[..|queue| - 1])
  {
    assert queue == queue[..|queue| - 1] + [queue[|queue| - 1]];
  }

  lemma OrderedSnoc(g: Graph, order: seq<StepId>, node: StepId)
    requires Ordered(g, order) && node !in order && node in g && g[node] <= Elements(order)
    ensures Ordered(g, order + [node]) && Elements(order + [node]) == Elements(order) + {node}
  {
    assert (order + [node])[..|order|] == order;
  }

  lemma NothingWaiting(g: Graph, indegree: map<StepId, nat>, done: set<StepId>, node: StepId)
    requires Counts(g, indegree, done) && node in g && indegree[node] == 0
    ensures g[node] <= done
  {
    forall d | d in g[node] ensures d in done {
      assert d !in g[node] - done;
    }
  }

  lemma OrderGrows(g: Graph, indegree: map<StepId, nat>, order: seq<StepId>, queue: seq<StepId>, node: StepId)
    requires LoopState(g, indegree, order, queue) && node in queue
    ensures node !in Elements(order)
    ensures Ordered(g, order + [node]) && Elements(order + [node]) == Elements(order) + {node}
  {
    NothingWaiting(g, indegree, Elements(order), node);
    assert node !in Elements(order);
    OrderedSnoc(g, order, node);
  }

  lemma SubsetFull(a: set<StepId>, b: set<StepId>)
    requires a <= b
    ensures |a| <= |b| && (|a| == |b| <==> a == b)
  {
    assert b == a + (b - a);
    assert |b| == |a| + |b - a|;
  }

  /** When the queue is empty, either every step is done or the rest wait for each other. */
  lemma EmptyQueueDecides(g: Graph, indegree: map<StepId, nat>, order: seq<StepId>)
    requires Closed(g) && LoopState(g, indegree, order, [])
    ensures |order| == |g.Keys| <==> Topological(g, order)
    ensures |order| == |g.Keys| <==> !exists c :: IsCycle(g, c)
    ensures |order| != |g.Keys| ==> exists c :: IsCycle(g, c) && forall x :: x in c ==> x !in order
  {
    OrderedCount(g, order);
    SubsetFull(Elements(order), g.Keys);
    if |order| == |g.Keys| {
      TopologicalMeansAcyclic(g, order);
    } else {
      StuckMeansCycle(g, Elements(order));
    }
  }

  /** The queue loop: visits steps until none is free. */
  method Visit(steps: seq<Step>, ghost g: Graph, dependents: map<StepId, seq<StepId>>, indegree: map<StepId, nat>,
               start: seq<StepId>) returns (visited: nat, ghost order: seq<StepId>)
    requires Closed(g) && Reversed(g, dependents) && LoopState(g, indegree, [], start)
    ensures visited == |order|
    ensures visited == |g.Keys| <==> !exists c :: IsCycle(g, c)
    ensures visited == |g.Keys| ==> Topological(g, order)
    ensures visited != |g.Keys| ==> exists c :: IsCycle(g, c) && forall x :: x in c ==> x !in order
  {
    var waiting, queue := indegree, start;
    visited, order := 0, [];
    while queue != []
      invariant LoopState(g, waiting, order, queue) && visited == |order|
      decreases g.Keys - Elements(order)
    {
      var node := queue[|queue| - 1];
      PopKeepsQueued(waiting, Elements(order), queue);
      OrderGrows(g, waiting, order, queue, node);
      visited := visited + 1;
      waiting, queue := Finish(g, waiting, queue[..|queue| - 1], Elements(order), node, dependents[node]);
      order := order + [node];
    }
    EmptyQueueDecides(g, waiting, order);
  }

  /** The first queue: the steps without dependencies, in list order. */
  method StartQueue(steps: seq<Step>, indegree: map<StepId, nat>) returns (queue: seq<StepId>)
    requires UniqueIds(steps) && indegree.Keys == IdsUpTo(steps, |steps|)
    ensures Queued(indegree, {}, queue)
  {
    queue := [];
    for i := 0 to |steps|
      invariant Distinct(queue)
      invariant forall x :: x in queue <==> x in IdsUpTo(steps, i) && x in indegree && indegree[x] == 0
    {
      UniqueEarlier(steps, i + 1, |steps|);
      IdsUpToAre(steps, |steps|, steps[i].id);
      if indegree[steps[i].id] == 0 {
        DistinctSnoc(queue, steps[i].id);
        queue := queue + [steps[i].id];
      }
    }
  }

  lemma CountsAtStart(steps: seq<Step>, indegree: map<StepId, nat>)
    requires UniqueIds(steps) && indegree.Keys == GraphOf(steps).Keys
    requires forall x :: x in indegree ==> indegree[x] == Entered(steps, |steps|, x)
    ensures Counts(GraphOf(steps), indegree, {})
  {
    var g := GraphOf(steps);
    forall n | n in g ensures indegree[n] == Waiting(g, n, {}) {
      EnteredIs(steps, |steps|, n);
      assert g[n] - {} == g[n];
    }
  }

  /** `dependents` lists, once each, the steps that depend on each step. */
  ghost predicate Reversed(g: Graph, dependents: map<StepId, seq<StepId>>) {
    && dependents.Keys == g.Keys
    && forall d :: d in g ==> Distinct(dependents[d]) && forall n :: n in dependents[d] <==> n in g && d in g[n]
  }

  lemma DependentsAtStart(steps: seq<Step>, dependents: map<StepId, seq<StepId>>)
    requires UniqueIds(steps) && dependents.Keys == GraphOf(steps).Keys
    requires forall d :: d in dependents ==> dependents[d] == Dependents(steps, |steps|, d)
    ensures Reversed(GraphOf(steps), dependents)
  {
    var g := GraphOf(steps);
    forall d | d in g
      ensures Distinct(dependents[d]) && forall n :: n in dependents[d] <==> n in g && d in g[n]
    {
      DependentsAre(steps, |steps|, d);
    }
  }

  /** Every edge of a well-bound list stays inside the list. */
  lemma EdgesInside(steps: seq<Step>)
    requires UniqueIds(steps) && Closed(GraphOf(steps))
    ensures forall i :: 0 <= i < |steps| ==> steps[i].id in IdsUpTo(steps, |steps|)
    ensures forall i :: 0 <= i < |steps| ==> Dependencies(steps[i]) <= IdsUpTo(steps, |steps|)
  {
    forall i | 0 <= i < |steps|
      ensures steps[i].id in IdsUpTo(steps, |steps|) && Dependencies(steps[i]) <= IdsUpTo(steps, |steps|)
    {
      GraphHolds(steps, i, |steps|);
    }
  }

  /** The cycle check: it counts every step iff the dependency graph has no cycle. */
  method CountVisited(steps: seq<Step>) returns (visited: nat, ghost order: seq<StepId>)
    requires UniqueIds(steps) && Closed(GraphOf(steps))
    ensures visited == |order|
    ensures visited == |steps| <==> !exists c :: IsCycle(GraphOf(steps), c)
    ensures visited == |steps| ==> Topological(GraphOf(steps), order)
    ensures visited != |steps| ==> exists c :: IsCycle(GraphOf(steps), c) && forall x :: x in c ==> x !in order
  {
    EdgesInside(steps);
    UniqueByCount(steps, |steps|);
    var dependents, indegree := BuildGraph(steps);
    CountsAtStart(steps, indegree);
    DependentsAtStart(steps, dependents);
    var queue := StartQueue(steps, indegree);
    assert Elements([]) == {};
    visited, order := Visit(steps, GraphOf(steps), dependents, indegree, queue);
  }

  /** `_steps_form_a_dag`: `Valid` means that the model validator returns, any other verdict that it raises. */
  method ValidateSteps(steps: seq<Step>) returns (v: Verdict)
    ensures v == DuplicateIds <==> !UniqueIds(steps)
    ensures UniqueIds(steps) && !WellBound(steps) ==> exists i, j :: FirstFault(steps, i, j, v)
    ensures UniqueIds(steps) && WellBound(steps) ==> v == Valid || v == Cyclic
    ensures v == Valid ==> exists order :: Topological(GraphOf(steps), order)
    ensures v == Cyclic ==> exists c :: IsCycle(GraphOf(steps), c)
    ensures v == Valid <==>
            UniqueIds(steps) && WellBound(steps) && !exists c :: IsCycle(GraphOf(steps), c)
    ensures UniqueIds(steps) ==> (WellBound(steps) <==> EachDeclared(steps))
  {
    UniqueByCount(steps, |steps|);
    if UniqueIds(steps) { WellBoundIff(steps); }
    if |IdsUpTo(steps, |steps|)| != |steps| {
      return DuplicateIds;
    }
    v := CheckBindings(steps);
    if v != Valid {
      return;
    }
    WellBoundMeansClosed(steps);
    var visited, order := CountVisited(steps);
    v := if visited != |steps| then Cyclic else Valid;
  }
}
