/**
 * The audited task state of `contracts/audited_task_state.py`: a projection that only accepted
 * auditor deltas change, by compare-and-swap on its version.
 */
module AuditedState {
  import opened Prelude

  datatype Decision = Decision(id: string, statement: string)
  datatype Approach = Approach(id: string, failure: string)
  datatype Blocker = Blocker(id: string, description: string)
  datatype Artifact = Artifact(ref: string)
  datatype Residual = Residual(attempts: nat, toolCalls: nat)

  datatype State = State(
    version: nat,
    criteriaHash: string,
    isolation: string,
    acceptedCommit: Option<string>,
    decisions: seq<Decision>,
    approaches: seq<Approach>,
    blockers: seq<Blocker>,
    phase: string,
    evidence: seq<Artifact>,
    residual: Residual,
    lastReport: Option<string>,
    updatedAt: int,
    rounds: nat,
    maxRounds: nat)

  datatype Delta = Delta(
    reportId: string,
    parent: nat,
    proposed: nat,
    decisions: seq<Decision>,
    approaches: seq<Approach>,
    blockersSet: seq<Blocker>,
    blockersCleared: seq<string>,
    phase: Option<string>,
    acceptedCommit: Option<string>,
    evidence: seq<Artifact>,
    criteriaHash: string,
    isolation: string,
    residual: Residual,
    producedAt: int)

  datatype Rejection = CasMismatch | CriteriaDrift | IsolationMismatch | IsolationEmpty | RoundsExceeded

  /** `_rounds_within_cap`. */
  predicate ValidState(s: State) {
    s.rounds <= s.maxRounds
  }

  /** `_version_advances`. */
  predicate ValidDelta(d: Delta) {
    d.proposed == d.parent + 1
  }

  function Standing(blockers: seq<Blocker>, cleared: seq<string>): seq<Blocker> {
    if blockers == [] then []
    else if blockers[0].id in cleared then Standing(blockers[1..], cleared)
    else [blockers[0]] + Standing(blockers[1..], cleared)
  }

  /** `apply_auditor_delta`. */
  function Apply(s: State, d: Delta): Result<State, Rejection> {
    if d.parent != s.version then Err(CasMismatch)
    else if d.criteriaHash != s.criteriaHash then Err(CriteriaDrift)
    else if d.isolation != s.isolation then Err(IsolationMismatch)
    else if d.isolation == "" then Err(IsolationEmpty)
    else if s.rounds + 1 > s.maxRounds then Err(RoundsExceeded)
    else Ok(State(
      d.proposed,
      s.criteriaHash,
      s.isolation,
      if d.acceptedCommit.Some? then d.acceptedCommit else s.acceptedCommit,
      s.decisions + d.decisions,
      s.approaches + d.approaches,
      Standing(s.blockers, d.blockersCleared) + d.blockersSet,
      if d.phase.Some? && d.phase.value != "" then d.phase.value else s.phase,
      s.evidence + d.evidence,
      d.residual,
      Some(d.reportId),
      d.producedAt,
      s.rounds + 1,
      s.maxRounds))
  }

  /** Why a delta is rejected: the first of these that is so. */
  lemma RejectionMeans(s: State, d: Delta)
    ensures var drifted, moved := d.criteriaHash != s.criteriaHash, d.isolation != s.isolation;
            && (Apply(s, d) == Err(CasMismatch) <==> d.parent != s.version)
            && (Apply(s, d) == Err(CriteriaDrift) <==> d.parent == s.version && drifted)
            && (Apply(s, d) == Err(IsolationMismatch) <==> d.parent == s.version && !drifted && moved)
            && (Apply(s, d) == Err(IsolationEmpty) <==> d.parent == s.version && !drifted && !moved && s.isolation == "")
            && (Apply(s, d) == Err(RoundsExceeded)
                <==> d.parent == s.version && !drifted && !moved && s.isolation != "" && s.rounds >= s.maxRounds)
  {
  }

  // ----- any sequence of offered deltas

  /** A rejected delta leaves the state as it is. */
  function Offer(s: State, d: Delta): State {
    match Apply(s, d)
    case Ok(t) => t
    case Err(_) => s
  }

  function Run(s: State, ds: seq<Delta>): State {
    if ds == [] then s else Offer(Run(s, ds[..|ds| - 1]), ds[|ds| - 1])
  }

  /** The deltas that were accepted, in the order they were offered. */
  function Accepted(s: State, ds: seq<Delta>): seq<Delta> {
    if ds == [] then []
    else
      var front, last := ds[..|ds| - 1], ds[|ds| - 1];
      if Apply(Run(s, front), last).Ok? then Accepted(s, front) + [last] else Accepted(s, front)
  }

  ghost predicate EachValid(ds: seq<Delta>) {
    forall d :: d in ds ==> ValidDelta(d)
  }

  /**
   * Whatever is offered - stale, repeated, out of order - version and rounds advance by exactly
   * the number accepted, rounds stay within the cap, and the criteria, the isolation policy and
   * the cap itself never change.
   */
  lemma {:induction false} CountsAccepted(s: State, ds: seq<Delta>)
    requires ValidState(s) && EachValid(ds)
    ensures var t, n := Run(s, ds), |Accepted(s, ds)|;
            && t.version == s.version + n && t.rounds == s.rounds + n && n <= s.maxRounds - s.rounds
            && t.criteriaHash == s.criteriaHash && t.isolation == s.isolation && t.maxRounds == s.maxRounds
            && ValidState(t)
  {
    if ds != [] {
      var front := ds[..|ds| - 1];
      assert forall d :: d in front ==> d in ds;
      CountsAccepted(s, front);
      assert ValidDelta(ds[|ds| - 1]);
    }
  }

  /** The accepted deltas form one chain of versions. */
  lemma {:induction false} AcceptedIsAChain(s: State, ds: seq<Delta>, i: nat)
    requires ValidState(s) && EachValid(ds) && i < |Accepted(s, ds)|
    ensures var d := Accepted(s, ds)[i];
            && d in ds && d.parent == s.version + i
            && d.criteriaHash == s.criteriaHash && d.isolation == s.isolation && d.isolation != ""
  {
    var front := ds[..|ds| - 1];
    assert forall d :: d in front ==> d in ds;
    CountsAccepted(s, front);
    if i < |Accepted(s, front)| {
      AcceptedIsAChain(s, front, i);
    }
  }

  /** After any offers a delta is accepted iff it is next in the chain, nothing drifted and a round is left. */
  lemma AcceptedIffNext(s: State, ds: seq<Delta>, d: Delta)
    requires ValidState(s) && EachValid(ds)
    ensures Apply(Run(s, ds), d).Ok?
       <==> (d.parent == s.version + |Accepted(s, ds)| && |Accepted(s, ds)| < s.maxRounds - s.rounds
             && d.criteriaHash == s.criteriaHash && d.isolation == s.isolation && d.isolation != "")
  {
    CountsAccepted(s, ds);
  }

  /** No delta is accepted twice. */
  lemma AcceptedOnce(s: State, ds: seq<Delta>, i: nat, j: nat)
    requires ValidState(s) && EachValid(ds) && i < j < |Accepted(s, ds)|
    ensures Accepted(s, ds)[i] != Accepted(s, ds)[j]
  {
    AcceptedIsAChain(s, ds, i);
    AcceptedIsAChain(s, ds, j);
  }

  // ----- what the histories hold

  function DecisionsOf(ds: seq<Delta>): seq<Decision> {
    if ds == [] then [] else DecisionsOf(ds[..|ds| - 1]) + ds[|ds| - 1].decisions
  }

  function ApproachesOf(ds: seq<Delta>): seq<Approach> {
    if ds == [] then [] else ApproachesOf(ds[..|ds| - 1]) + ds[|ds| - 1].approaches
  }

  function EvidenceOf(ds: seq<Delta>): seq<Artifact> {
    if ds == [] then [] else EvidenceOf(ds[..|ds| - 1]) + ds[|ds| - 1].evidence
  }

  /** The histories hold what they held, then what the accepted deltas added, and nothing else. */
  lemma {:induction false} HistoriesGrow(s: State, ds: seq<Delta>)
    ensures Run(s, ds).decisions == s.decisions + DecisionsOf(Accepted(s, ds))
    ensures Run(s, ds).approaches == s.approaches + ApproachesOf(Accepted(s, ds))
    ensures Run(s, ds).evidence == s.evidence + EvidenceOf(Accepted(s, ds))
  {
    if ds == [] {
      assert s.decisions + [] == s.decisions;
      assert s.approaches + [] == s.approaches;
      assert s.evidence + [] == s.evidence;
    } else {
      var front, last := ds[..|ds| - 1], ds[|ds| - 1];
      HistoriesGrow(s, front);
      if Apply(Run(s, front), last).Ok? {
        var a := Accepted(s, front);
        assert (a + [last])[..|a|] == a;
        ConcatAssociates(s.decisions, DecisionsOf(a), last.decisions);
        ConcatAssociates(s.approaches, ApproachesOf(a), last.approaches);
        ConcatAssociates(s.evidence, EvidenceOf(a), last.evidence);
      }
    }
  }

  // ----- what the last accepted delta decides

  function LastCommit(ds: seq<Delta>, before: Option<string>): Option<string> {
    if ds == [] then before
    else if ds[|ds| - 1].acceptedCommit.Some? then ds[|ds| - 1].acceptedCommit
    else LastCommit(ds[..|ds| - 1], before)
  }

  function LastPhase(ds: seq<Delta>, before: string): string {
    if ds == [] then before
    else if ds[|ds| - 1].phase.Some? && ds[|ds| - 1].phase.value != "" then ds[|ds| - 1].phase.value
    else LastPhase(ds[..|ds| - 1], before)
  }

  /** Commit and phase are the last ones an accepted delta named; budget, report and date are the last delta's. */
  lemma {:induction false} LastAcceptedWins(s: State, ds: seq<Delta>)
    ensures var t, a := Run(s, ds), Accepted(s, ds);
            && t.acceptedCommit == LastCommit(a, s.acceptedCommit) && t.phase == LastPhase(a, s.phase)
            && (a != [] ==> t.residual == a[|a| - 1].residual && t.lastReport == Some(a[|a| - 1].reportId)
                            && t.updatedAt == a[|a| - 1].producedAt)
            && (a == [] ==> t == s)
  {
    if ds != [] {
      var front, last := ds[..|ds| - 1], ds[|ds| - 1];
      LastAcceptedWins(s, front);
      if Apply(Run(s, front), last).Ok? {
        var a := Accepted(s, front);
        assert (a + [last])[..|a|] == a;
      }
    }
  }

  /** Replaying just the accepted deltas rebuilds the state: every one is accepted again. */
  lemma {:induction false} ReplayRebuilds(s: State, ds: seq<Delta>)
    ensures Run(s, Accepted(s, ds)) == Run(s, ds)
    ensures Accepted(s, Accepted(s, ds)) == Accepted(s, ds)
  {
    if ds != [] {
      var front, last := ds[..|ds| - 1], ds[|ds| - 1];
      ReplayRebuilds(s, front);
      if Apply(Run(s, front), last).Ok? {
        var a := Accepted(s, front);
        assert (a + [last])[..|a|] == a;
      }
    }
  }

  // ----- a delta whose time has passed

  /** Once the state has moved past its parent version a delta is rejected, whatever came between. */
  lemma StaleIsRejected(s: State, ds: seq<Delta>, d: Delta)
    requires ValidState(s) && EachValid(ds) && d.parent < s.version
    ensures Apply(Run(s, ds), d) == Err(CasMismatch)
  {
    CountsAccepted(s, ds);
  }

  /** After an accepted delta, offering it again at any later point changes nothing. */
  lemma RepeatIsRejected(s: State, d: Delta, ds: seq<Delta>)
    requires ValidState(s) && ValidDelta(d) && EachValid(ds) && Apply(s, d).Ok?
    ensures Apply(Run(Offer(s, d), ds), d) == Err(CasMismatch)
  {
    StaleIsRejected(Offer(s, d), ds, d);
  }

  // ----- blockers

  lemma {:induction false} StandingIs(blockers: seq<Blocker>, cleared: seq<string>, b: Blocker)
    ensures b in Standing(blockers, cleared) <==> b in blockers && b.id !in cleared
  {
    if blockers != [] { StandingIs(blockers[1..], cleared, b); }
  }

  /** The `i`-th accepted delta, or the state before the first, sets the blocker, and no later one clears it. */
  ghost predicate StandsFrom(s: State, accepted: seq<Delta>, b: Blocker, i: nat) {
    && i <= |accepted|
    && (if i == 0 then b in s.blockers else b in accepted[i - 1].blockersSet)
    && forall j :: i <= j < |accepted| ==> b.id !in accepted[j].blockersCleared
  }

  ghost predicate Stands(s: State, accepted: seq<Delta>, b: Blocker) {
    exists i :: StandsFrom(s, accepted, b, i)
  }

  lemma StandsOneMore(s: State, a: seq<Delta>, d: Delta, b: Blocker)
    ensures Stands(s, a + [d], b) <==> b in d.blockersSet || (Stands(s, a, b) && b.id !in d.blockersCleared)
  {
    var n, more := |a|, a + [d];
    if b in d.blockersSet { assert StandsFrom(s, more, b, n + 1); }
    if i: nat :| StandsFrom(s, more, b, i) && i <= n {
      assert more[n] == d;
      assert forall j :: i <= j < n ==> more[j] == a[j];
      assert i > 0 ==> more[i - 1] == a[i - 1];
      assert StandsFrom(s, a, b, i);
    }
    if i: nat :| StandsFrom(s, a, b, i) && b.id !in d.blockersCleared {
      assert StandsFrom(s, more, b, i);
    }
  }

  /**
   * The blockers that stand after any offers: those some accepted delta set, or the state began
   * with, and no later accepted delta cleared. A delta clears before it sets.
   */
  lemma {:induction false} BlockersStand(s: State, ds: seq<Delta>, b: Blocker)
    ensures b in Run(s, ds).blockers <==> Stands(s, Accepted(s, ds), b)
  {
    if ds == [] {
      if b in s.blockers { assert StandsFrom(s, [], b, 0); }
    } else {
      var front, last := ds[..|ds| - 1], ds[|ds| - 1];
      BlockersStand(s, front, b);
      if Apply(Run(s, front), last).Ok? {
        StandingIs(Run(s, front).blockers, last.blockersCleared, b);
        StandsOneMore(s, Accepted(s, front), last, b);
        assert Accepted(s, ds) == Accepted(s, front) + [last];
      }
    }
  }
}
