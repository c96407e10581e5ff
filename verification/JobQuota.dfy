/** The weekly token quota of `contracts/policy.py`. Shares are real numbers. */
module JobQuota {
  import opened Prelude

  datatype Job = Recertifier | CuratorRetire | FailClusterAuthor | PracticeBand | PracticeHex | Compress

  datatype TaskClass = TaskClass(name: string)

  /** `COMPUTER_USE_TASK_CLASSES`. */
  const COMPUTER_USE := {TaskClass("bug_reproduction"), TaskClass("playtest_operator"), TaskClass("docs_auditor")}

  predicate UsesComputer(job: Job, taskClass: Option<TaskClass>) {
    taskClass.Some? && taskClass.value in COMPUTER_USE && (job == PracticeBand || job == PracticeHex)
  }

  /** The caps of a policy and the spend of a week. */
  datatype Quota = Quota(
    cap: nat,
    hexShare: real,
    maxHexJobs: nat,
    computerUseShare: real,
    tokens: nat,
    hexTokens: nat,
    computerUseTokens: nat,
    hexJobs: map<TaskClass, nat>)
  {
    predicate ValidShares() {
      0.0 <= hexShare <= 1.0 && 0.0 <= computerUseShare <= 1.0
    }

    function Remaining(): int {
      Max(0, cap - tokens)
    }

    /** `int(cap * share)`: truncation, which for a share is the floor. */
    function ShareCap(share: real): int {
      (cap as real * share).Floor
    }

    function ShareRemaining(spent: nat, share: real): int {
      Max(0, Min(ShareCap(share) - spent, Remaining()))
    }

    /** Something is left of a share, and `n` tokens are. */
    predicate ShareHas(spent: nat, share: real, n: int) {
      ShareRemaining(spent, share) > 0 && ShareRemaining(spent, share) >= n
    }

    function JobsOf(c: TaskClass): nat {
      if c in hexJobs then hexJobs[c] else 0
    }

    /** `can_admit`. */
    predicate CanAdmit(job: Job, taskClass: Option<TaskClass>, n: int) {
      if Remaining() <= 0 then false
      else if UsesComputer(job, taskClass) && !ShareHas(computerUseTokens, computerUseShare, n) then false
      else
        match job
        case PracticeHex =>
          if taskClass.Some? && JobsOf(taskClass.value) >= maxHexJobs then false
          else ShareHas(hexTokens, hexShare, n)
        case _ => Remaining() >= n
    }

    /** `charge`. */
    function Charge(job: Job, n: nat, taskClass: Option<TaskClass>): Quota {
      this.(tokens := tokens + n,
            hexTokens := if job == PracticeHex then hexTokens + n else hexTokens,
            computerUseTokens := if UsesComputer(job, taskClass) then computerUseTokens + n else computerUseTokens,
            hexJobs := if job == PracticeHex && taskClass.Some?
                       then hexJobs[taskClass.value := JobsOf(taskClass.value) + 1] else hexJobs)
    }

    /** What the caps promise about the spend. */
    predicate WithinCaps() {
      && tokens <= cap
      && hexTokens <= ShareCap(hexShare)
      && computerUseTokens <= ShareCap(computerUseShare)
      && forall c :: c in hexJobs ==> hexJobs[c] <= maxHexJobs
    }
  }

  /** Some of each pot a job draws on is left. */
  predicate SomethingLeft(q: Quota, job: Job, taskClass: Option<TaskClass>) {
    && q.tokens < q.cap
    && (UsesComputer(job, taskClass) ==> q.computerUseTokens < q.ShareCap(q.computerUseShare))
    && (job == PracticeHex ==> q.hexTokens < q.ShareCap(q.hexShare))
  }

  /** The pots and the class slots a job draws on are within their caps. */
  predicate DrawnFit(q: Quota, job: Job, taskClass: Option<TaskClass>) {
    && q.tokens <= q.cap
    && (UsesComputer(job, taskClass) ==> q.computerUseTokens <= q.ShareCap(q.computerUseShare))
    && (job == PracticeHex ==> q.hexTokens <= q.ShareCap(q.hexShare))
    && (job == PracticeHex && taskClass.Some? ==> q.JobsOf(taskClass.value) <= q.maxHexJobs)
  }

  /** Only practice jobs, and only of the three classes that use a computer, draw on the computer-use share. */
  lemma DrawsOnComputerUseIff(q: Quota, job: Job, n: nat, taskClass: Option<TaskClass>)
    requires n > 0
    ensures q.Charge(job, n, taskClass).computerUseTokens != q.computerUseTokens
       <==> ((job == PracticeBand || job == PracticeHex) && taskClass.Some?
             && (taskClass.value.name == "bug_reproduction" || taskClass.value.name == "playtest_operator"
                 || taskClass.value.name == "docs_auditor"))
    ensures q.Charge(job, n, taskClass).hexTokens != q.hexTokens <==> job == PracticeHex
    ensures q.Charge(job, n, taskClass).tokens == q.tokens + n
  {
  }

  lemma WholeRoom(q: Quota, n: nat)
    ensures q.Remaining() > 0 && q.Remaining() >= n <==> q.tokens < q.cap && q.tokens + n <= q.cap
  {
  }

  lemma Left(shareCap: int, spent: nat, remaining: int, n: nat)
    requires remaining > 0
    ensures var left := Max(0, Min(shareCap - spent, remaining));
            left > 0 && left >= n <==> spent < shareCap && spent + n <= shareCap && n <= remaining
  {
  }

  lemma ShareRoom(q: Quota, spent: nat, share: real, n: nat)
    requires q.Remaining() > 0
    ensures q.ShareHas(spent, share, n) <==> spent < q.ShareCap(share) && spent + n <= q.ShareCap(share) && n <= q.Remaining()
  {
    Left(q.ShareCap(share), spent, q.Remaining(), n);
  }

  lemma ClassRoom(q: Quota, n: nat, c: TaskClass)
    ensures q.Charge(PracticeHex, n, Some(c)).JobsOf(c) == q.JobsOf(c) + 1
    ensures forall d :: d != c ==> q.Charge(PracticeHex, n, Some(c)).JobsOf(d) == q.JobsOf(d)
  {
  }

  /**
   * A job is admitted iff charging it leaves what it draws on within its caps and something was
   * left of each of those pots: the second half refuses zero-token jobs on a spent pot. This holds
   * whatever has been spent, also after a cap was lowered below it.
   */
  lemma AdmitsIffItFits(q: Quota, job: Job, n: nat, taskClass: Option<TaskClass>)
    ensures q.CanAdmit(job, taskClass, n) <==> DrawnFit(q.Charge(job, n, taskClass), job, taskClass) && SomethingLeft(q, job, taskClass)
  {
    WholeRoom(q, n);
    if q.Remaining() > 0 {
      ShareRoom(q, q.computerUseTokens, q.computerUseShare, n);
      if job == PracticeHex {
        HexAdmits(q, n, taskClass);
      } else {
        OtherAdmits(q, job, n, taskClass);
      }
    }
  }

  lemma HexAdmits(q: Quota, n: nat, taskClass: Option<TaskClass>)
    requires q.Remaining() > 0
    ensures q.CanAdmit(PracticeHex, taskClass, n)
       <==> DrawnFit(q.Charge(PracticeHex, n, taskClass), PracticeHex, taskClass) && SomethingLeft(q, PracticeHex, taskClass)
  {
    WholeRoom(q, n);
    ShareRoom(q, q.computerUseTokens, q.computerUseShare, n);
    ShareRoom(q, q.hexTokens, q.hexShare, n);
    ChargedShares(q, PracticeHex, n, taskClass);
    if taskClass.Some? { ClassRoom(q, n, taskClass.value); }
  }

  lemma OtherAdmits(q: Quota, job: Job, n: nat, taskClass: Option<TaskClass>)
    requires q.Remaining() > 0 && job != PracticeHex
    ensures q.CanAdmit(job, taskClass, n)
       <==> DrawnFit(q.Charge(job, n, taskClass), job, taskClass) && SomethingLeft(q, job, taskClass)
  {
    WholeRoom(q, n);
    ShareRoom(q, q.computerUseTokens, q.computerUseShare, n);
    ChargedShares(q, job, n, taskClass);
  }

  /** A charge leaves the caps as they are. */
  lemma ChargedShares(q: Quota, job: Job, n: nat, taskClass: Option<TaskClass>)
    ensures var after := q.Charge(job, n, taskClass);
            && after.ShareCap(after.hexShare) == q.ShareCap(q.hexShare)
            && after.ShareCap(after.computerUseShare) == q.ShareCap(q.computerUseShare)
  {
  }

  /** An admitted job keeps a spend that is within every cap there. */
  lemma AdmittedKeepsCaps(q: Quota, job: Job, n: nat, taskClass: Option<TaskClass>)
    requires q.WithinCaps() && q.CanAdmit(job, taskClass, n)
    ensures q.Charge(job, n, taskClass).WithinCaps()
  {
    AdmitsIffItFits(q, job, n, taskClass);
    var after := q.Charge(job, n, taskClass);
    forall d | d in after.hexJobs ensures after.hexJobs[d] <= after.maxHexJobs {
      if job == PracticeHex && taskClass.Some? {
        ClassRoom(q, n, taskClass.value);
        assert after.JobsOf(d) == after.hexJobs[d];
      }
    }
  }

  predicate SameCaps(q: Quota, base: Quota) {
    q.cap == base.cap && q.hexShare == base.hexShare && q.maxHexJobs == base.maxHexJobs && q.computerUseShare == base.computerUseShare
  }

  /** A share of the cap is at most the cap. */
  lemma ShareWithinCap(cap: nat, share: real)
    requires 0.0 <= share <= 1.0
    ensures 0 <= (cap as real * share).Floor <= cap
  {
    var whole := cap as real;
    assert whole * share <= whole;
    assert whole * share >= 0.0;
  }

  // ----- weeks

  /** `iso_week_id`. */
  datatype WeekId = WeekId(text: string)

  /** The quota of a week in which nothing has been spent. */
  function Fresh(base: Quota): Quota {
    base.(tokens := 0, hexTokens := 0, computerUseTokens := 0, hexJobs := map[])
  }
}
