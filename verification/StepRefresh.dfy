/**
 * Step statuses of a migration program: `_refresh_step_statuses` and `get` of
 * `src/recertia/app/programs.py`, with `step_is_ready` of `src/recertia/programs/materialize.py`.
 */
module StepRefresh {
  import opened Prelude

  datatype ProgramStatus = Draft | Active | Blocked | Completed | Abandoned

  datatype StepStatus = Planned | Ready | Queued | Running | Succeeded | Failed | Skipped | Cancelled

  /** A run as the process knows it; `""` is an absent terminal. */
  datatype RunRecord = RunRecord(terminal: string, status: string)

  /** `""` is an absent run id. `gate` is `acceptance_gate.terminal_in`; `body` is all else. */
  datatype Step = Step(ordinal: nat, status: StepStatus, currentRun: string, gate: seq<string>, body: string)

  datatype Program = Program(status: ProgramStatus, steps: seq<Step>, version: nat)

  type Runs = map<string, RunRecord>

  predicate Done(s: StepStatus) {
    s == Succeeded || s == Skipped
  }

  /** `previous_step`: the first step whose ordinal is one less. */
  function FindOrdinal(steps: seq<Step>, ordinal: int): Option<Step> {
    if steps == [] then None
    else if steps[0].ordinal == ordinal then Some(steps[0])
    else FindOrdinal(steps[1..], ordinal)
  }

  /** `step_is_ready`. */
  predicate IsReady(status: ProgramStatus, steps: seq<Step>, step: Step) {
    && status == Active
    && step.status in {Planned, Ready, Failed}
    && var prev := FindOrdinal(steps, step.ordinal - 1); prev.None? || Done(prev.value.status)
  }

  predicate InFlight(step: Step) {
    step.currentRun != "" && (step.status == Queued || step.status == Running)
  }

  /** The status a run record gives its step. */
  function RunStatus(step: Step, rec: RunRecord): StepStatus {
    var terminal := if rec.terminal != "" then rec.terminal else rec.status;
    if terminal in step.gate then Succeeded
    else if terminal == "queued" || rec.status == "queued" then Queued
    else if terminal == "running" || rec.status == "running" then Running
    else if terminal != "" then Failed
    else step.status
  }

  function Observe(runs: Runs, step: Step): Step {
    if InFlight(step) && step.currentRun in runs then step.(status := RunStatus(step, runs[step.currentRun])) else step
  }

  function MarkReady(status: ProgramStatus, steps: seq<Step>, step: Step): Step {
    if step.status == Planned && IsReady(status, steps, step) then step.(status := Ready) else step
  }

  /** The first loop: readiness is judged against the program as it was read. */
  function FirstPass(p: Program, runs: Runs): seq<Step> {
    seq(|p.steps|, i requires 0 <= i < |p.steps| => MarkReady(p.status, p.steps, Observe(runs, p.steps[i])))
  }

  function NextStatus(status: ProgramStatus, steps: seq<Step>): ProgramStatus {
    if status != Active && status != Blocked then status
    else if exists i :: 0 <= i < |steps| && steps[i].status == Failed then Blocked
    else if steps != [] && forall i :: 0 <= i < |steps| ==> Done(steps[i].status) then Completed
    else Active
  }

  /** `_refresh_step_statuses`. */
  function Refresh(p: Program, runs: Runs): Program {
    var steps := FirstPass(p, runs);
    var status := NextStatus(p.status, steps);
    p.(status := status,
       steps := seq(|steps|, i requires 0 <= i < |steps| => MarkReady(status, steps, steps[i])))
  }

  // ----- what a refreshed program satisfies

  /**
   * A program that agrees with its runs: steps in flight have the status of their run, no planned
   * step could start, and the program status follows from the steps.
   */
  ghost predicate Consistent(p: Program, runs: Runs) {
    && (forall i :: 0 <= i < |p.steps| ==> Observe(runs, p.steps[i]) == p.steps[i])
    && (forall i :: 0 <= i < |p.steps| ==> p.steps[i].status == Planned ==> !IsReady(p.status, p.steps, p.steps[i]))
    && NextStatus(p.status, p.steps) == p.status
  }

  /** Same steps up to a status that may only have gone from planned to ready. */
  ghost predicate ReadierBy(a: seq<Step>, b: seq<Step>) {
    |a| == |b| && forall i :: 0 <= i < |a| ==> a[i] == b[i] || (a[i].status == Planned && b[i] == a[i].(status := Ready))
  }

  lemma {:induction false} SamePredecessors(a: seq<Step>, b: seq<Step>, ordinal: int)
    requires ReadierBy(a, b)
    ensures FindOrdinal(a, ordinal).None? <==> FindOrdinal(b, ordinal).None?
    ensures FindOrdinal(a, ordinal).Some? ==> (Done(FindOrdinal(a, ordinal).value.status) <==> Done(FindOrdinal(b, ordinal).value.status))
  {
    if a != [] {
      assert a[0] == b[0] || b[0] == a[0].(status := Ready);
      SamePredecessors(a[1..], b[1..], ordinal);
    }
  }

  lemma SameStatus(status: ProgramStatus, a: seq<Step>, b: seq<Step>)
    requires ReadierBy(a, b)
    ensures NextStatus(status, a) == NextStatus(status, b)
  {
    forall i | 0 <= i < |a| ensures (a[i].status == Failed <==> b[i].status == Failed) && (Done(a[i].status) <==> Done(b[i].status)) {
      assert a[i] == b[i] || (a[i].status == Planned && b[i] == a[i].(status := Ready));
    }
  }

  lemma ObserveTwice(runs: Runs, step: Step)
    ensures Observe(runs, Observe(runs, step)) == Observe(runs, step)
  {
  }

  /** One refresh reaches agreement, whatever state the program was in. */
  lemma RefreshSettles(p: Program, runs: Runs)
    ensures Consistent(Refresh(p, runs), runs)
  {
    var first := FirstPass(p, runs);
    var r := Refresh(p, runs);
    assert ReadierBy(first, r.steps);
    SameStatus(p.status, first, r.steps);
    forall i | 0 <= i < |r.steps| ensures Observe(runs, r.steps[i]) == r.steps[i] {
      ObserveTwice(runs, p.steps[i]);
    }
    forall i | 0 <= i < |r.steps| && r.steps[i].status == Planned ensures !IsReady(r.status, r.steps, r.steps[i]) {
      assert r.steps[i] == first[i];
      SamePredecessors(first, r.steps, r.steps[i].ordinal - 1);
    }
  }

  /** The programs a refresh leaves alone are exactly those that agree with their runs. */
  lemma FixedIffConsistent(p: Program, runs: Runs)
    ensures Refresh(p, runs) == p <==> Consistent(p, runs)
  {
    if Consistent(p, runs) {
      forall i | 0 <= i < |p.steps| ensures FirstPass(p, runs)[i] == p.steps[i] {
        assert Observe(runs, p.steps[i]) == p.steps[i];
      }
      assert FirstPass(p, runs) == p.steps;
      assert Refresh(p, runs).steps == p.steps;
    }
    if Refresh(p, runs) == p {
      RefreshSettles(p, runs);
    }
  }

  /** Refreshing twice is refreshing once. */
  lemma RefreshIdempotent(p: Program, runs: Runs)
    ensures Refresh(Refresh(p, runs), runs) == Refresh(p, runs)
  {
    RefreshSettles(p, runs);
    FixedIffConsistent(Refresh(p, runs), runs);
  }

  /** A refresh changes statuses only: runs, order and gates of the steps stay, and so does the version. */
  lemma RefreshKeepsBindings(p: Program, runs: Runs)
    ensures |Refresh(p, runs).steps| == |p.steps| && Refresh(p, runs).version == p.version
    ensures forall i :: 0 <= i < |p.steps| ==> Refresh(p, runs).steps[i] == p.steps[i].(status := Refresh(p, runs).steps[i].status)
  {
  }

  // ----- what a refresh gives each step, and the program

  /** Whatever step comes first with the ordinal before has succeeded or was skipped. */
  ghost predicate MayStart(steps: seq<Step>, ordinal: nat) {
    forall j :: 0 <= j < |steps| && steps[j].ordinal == ordinal - 1 && (forall k :: 0 <= k < j ==> steps[k].ordinal != ordinal - 1) ==>
                  steps[j].status == Succeeded || steps[j].status == Skipped
  }

  lemma {:induction false} FindOrdinalIs(steps: seq<Step>, ordinal: int)
    ensures FindOrdinal(steps, ordinal).None? ==> forall s :: s in steps ==> s.ordinal != ordinal
    ensures FindOrdinal(steps, ordinal).Some? ==>
              exists j :: 0 <= j < |steps| && steps[j] == FindOrdinal(steps, ordinal).value && steps[j].ordinal == ordinal
                          && forall k :: 0 <= k < j ==> steps[k].ordinal != ordinal
  {
    if steps != [] && steps[0].ordinal != ordinal {
      FindOrdinalIs(steps[1..], ordinal);
      if FindOrdinal(steps, ordinal).Some? {
        var rest := steps[1..];
        var j :| 0 <= j < |rest| && rest[j] == FindOrdinal(rest, ordinal).value && rest[j].ordinal == ordinal
                 && forall k :: 0 <= k < j ==> rest[k].ordinal != ordinal;
        assert steps[j + 1] == rest[j];
        forall k | 0 <= k < j + 1 ensures steps[k].ordinal != ordinal {
          if k > 0 { assert steps[k] == rest[k - 1]; }
        }
      }
    }
  }

  lemma ReadyIs(status: ProgramStatus, steps: seq<Step>, step: Step)
    ensures IsReady(status, steps, step)
       <==> (status == Active && (step.status == Planned || step.status == Ready || step.status == Failed)
             && MayStart(steps, step.ordinal))
  {
    FindOrdinalIs(steps, step.ordinal - 1);
  }

  /** The step waits for a run that the process knows. */
  predicate Watched(runs: Runs, step: Step) {
    step.currentRun != "" && (step.status == Queued || step.status == Running) && step.currentRun in runs
  }

  /** A run speaks by its terminal, and while it has none by its status. */
  function Word(rec: RunRecord): string {
    if rec.terminal == "" then rec.status else rec.terminal
  }

  predicate StillAt(word: string, rec: RunRecord) {
    Word(rec) == word || rec.status == word
  }

  /**
   * What a refresh makes of a step whose run is known: success exactly when the gate names the
   * run's word, failure exactly when the run has one, outside the gate, and is not under way.
   */
  lemma WatchedStepFollowsRun(p: Program, runs: Runs, i: nat)
    requires i < |p.steps| && Watched(runs, p.steps[i])
    ensures var status, gate, rec := Refresh(p, runs).steps[i].status, p.steps[i].gate, runs[p.steps[i].currentRun];
            && (status == Succeeded <==> Word(rec) in gate)
            && (status == Failed <==> Word(rec) !in gate && Word(rec) != "" && !StillAt("queued", rec) && !StillAt("running", rec))
            && (Word(rec) !in gate && StillAt("queued", rec) ==> status == Queued)
            && (Word(rec) !in gate && !StillAt("queued", rec) && StillAt("running", rec) ==> status == Running)
            && (Word(rec) == "" && Word(rec) !in gate ==> status == p.steps[i].status)
  {
  }

  /** Any other step only goes from planned to ready: in an active program, once the step before is done. */
  lemma OtherStepsOnlyGetReady(p: Program, runs: Runs, i: nat)
    requires i < |p.steps| && !Watched(runs, p.steps[i])
    ensures var r := Refresh(p, runs);
            && (p.steps[i].status != Planned ==> r.steps[i].status == p.steps[i].status)
            && (p.steps[i].status == Planned ==>
                  r.steps[i].status
                  == if (p.status == Active && MayStart(p.steps, p.steps[i].ordinal)) || (r.status == Active && MayStart(r.steps, p.steps[i].ordinal))
                     then Ready else Planned)
  {
    var first, r := FirstPass(p, runs), Refresh(p, runs);
    if p.steps[i].status == Planned {
      ReadyIs(p.status, p.steps, p.steps[i]);
      ReadyIs(r.status, first, p.steps[i]);
      ReadyIs(r.status, r.steps, p.steps[i]);
      SamePredecessors(first, r.steps, p.steps[i].ordinal - 1);
    }
  }

  /** The program follows its steps, unless it is a draft, completed or abandoned. */
  lemma ProgramFollowsSteps(p: Program, runs: Runs)
    ensures var r := Refresh(p, runs);
            && (p.status != Active && p.status != Blocked ==> r.status == p.status)
            && (p.status == Active || p.status == Blocked ==>
                  && (r.status == Blocked <==> exists i :: 0 <= i < |r.steps| && r.steps[i].status == Failed)
                  && (r.status == Completed <==> r.steps != [] && forall i :: 0 <= i < |r.steps| ==>
                                                                  r.steps[i].status == Succeeded || r.steps[i].status == Skipped)
                  && (r.status == Blocked || r.status == Completed || r.status == Active))
  {
    RefreshSettles(p, runs);
  }

  // ----- the store and `get`

  datatype SaveError = PreconditionFailed

  /** One program row. The store owns `version`. */
  class ProgramRow {
    var stored: Program

    constructor (p: Program)
      ensures stored == p.(version := 1)
    {
      stored := p.(version := 1);
    }

    /** `put` with `expected_version`: compare and save in one transaction. */
    method Put(p: Program, expected: nat) returns (r: Result<Program, SaveError>)
      modifies this
      ensures expected == old(stored).version ==> stored == p.(version := expected + 1) && r == Ok(stored)
      ensures expected != old(stored).version ==> stored == old(stored) && r == Err(PreconditionFailed)
    {
      if stored.version != expected {
        return Err(PreconditionFailed);
      }
      stored := p.(version := stored.version + 1);
      r := Ok(stored);
    }

    /**
     * `get`: saves only a real change, pinned to the version it read. `landed` is a write by
     * another request between the read and the save; it is never overwritten.
     */
    method Get(runs: Runs, landed: Option<Program>) returns (p: Program)
      modifies this
      ensures landed.None? ==> p == stored && Consistent(stored, runs)
      ensures landed.None? ==> stored == if Consistent(old(stored), runs) then old(stored)
                                         else Refresh(old(stored), runs).(version := old(stored).version + 1)
      ensures landed.Some? ==> stored == landed.value.(version := old(stored).version + 1)
      ensures landed.Some? ==> p == if Consistent(old(stored), runs) then old(stored) else stored
    {
      var current := stored;
      p := Refresh(current, runs);
      FixedIffConsistent(current, runs);
      RefreshSettles(current, runs);
      if landed.Some? {
        stored := landed.value.(version := stored.version + 1);
      }
      if p != current {
        ghost var refreshed := p;
        var saved := Put(p, current.version);
        if saved.Ok? {
          p := saved.value;
          VersionIsNotAStatus(refreshed, runs, current.version + 1);
        } else {
          p := stored;
        }
      }
    }
  }

  lemma VersionIsNotAStatus(p: Program, runs: Runs, version: nat)
    requires Consistent(p, runs)
    ensures Consistent(p.(version := version), runs)
  {
    var q := p.(version := version);
    assert forall i :: 0 <= i < |p.steps| ==> q.steps[i] == p.steps[i];
  }
}
