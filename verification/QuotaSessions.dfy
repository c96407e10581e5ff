/**
 * The quota sidecar of `src/recertia/policy_load.py`, used on its own by any number of sessions.
 */
module QuotaSessions {
  import opened Prelude
  import opened JobQuota

  // ----- the sidecar

  datatype Field = Absent | Number(value: nat) | Garbage

  datatype JobsField = NoJobs | Jobs(counts: map<TaskClass, nat>) | NotAMap | GarbledCounts

  /** The file: missing, unreadable (not JSON, or not an object), or an object. */
  datatype File =
    | Missing
    | Unreadable
    | Object(week: Option<WeekId>, tokens: Field, hexTokens: Field, computerUseTokens: Field, hexJobs: JobsField)

  datatype MergeError = Corrupt

  function AmountIn(f: Field): nat {
    if f.Number? then f.value else 0
  }

  /** The spend that a file records for a week, if it is that week's. */
  function Read(file: File, base: Quota, week: WeekId): Result<Quota, MergeError> {
    match file
    case Missing => Ok(Fresh(base))
    case Unreadable => Err(Corrupt)
    case Object(w, t, h, c, jobs) =>
      if w != Some(week) then Ok(Fresh(base))
      else if jobs.NotAMap? || t.Garbage? || h.Garbage? || c.Garbage? || jobs.GarbledCounts? then Err(Corrupt)
      else Ok(base.(tokens := AmountIn(t), hexTokens := AmountIn(h), computerUseTokens := AmountIn(c),
                    hexJobs := if jobs.Jobs? then jobs.counts else map[]))
  }

  function Written(q: Quota, week: WeekId): File {
    Object(Some(week), Number(q.tokens), Number(q.hexTokens), Number(q.computerUseTokens), Jobs(q.hexJobs))
  }

  class QuotaSidecar {
    var file: File

    constructor (found: File)
      ensures file == found
    {
      file := found;
    }

    method Merge(base: Quota, week: WeekId) returns (r: Result<Quota, MergeError>)
      ensures r == Read(file, base, week)
    {
      if file.Missing? { return Ok(Fresh(base)); }
      if file.Unreadable? { return Err(Corrupt); }
      if file.week != Some(week) { return Ok(Fresh(base)); }
      if file.hexJobs.NotAMap? { return Err(Corrupt); }
      if file.tokens.Garbage? || file.hexTokens.Garbage? || file.computerUseTokens.Garbage? || file.hexJobs.GarbledCounts? {
        return Err(Corrupt);
      }
      var counts := if file.hexJobs.Jobs? then file.hexJobs.counts else map[];
      return Ok(base.(tokens := AmountIn(file.tokens), hexTokens := AmountIn(file.hexTokens),
                      computerUseTokens := AmountIn(file.computerUseTokens), hexJobs := counts));
    }

    method Save(q: Quota, week: WeekId)
      modifies this
      ensures file == Written(q, week)
    {
      file := Object(Some(week), Number(q.tokens), Number(q.hexTokens), Number(q.computerUseTokens), Jobs(q.hexJobs));
    }
  }

  /** A save and a merge in the same week restore the spend exactly; in another week it is zero. */
  lemma SaveThenMerge(q: Quota, base: Quota, saved: WeekId, week: WeekId)
    ensures Read(Written(q, saved), base, week)
         == Ok(if saved == week
               then base.(tokens := q.tokens, hexTokens := q.hexTokens, computerUseTokens := q.computerUseTokens, hexJobs := q.hexJobs)
               else Fresh(base))
  {
  }

  // ----- sessions over one file

  /**
   * Every session has a desk with a quota in hand. It opens by merging its policy with the file;
   * a job is admitted on the quota in hand, charged to it, and saved, or refused.
   */
  datatype Step = Open(base: Quota) | Work(job: Job, n: nat, taskClass: Option<TaskClass>)

  datatype Event = Event(desk: nat, step: Step)

  datatype Office = Office(file: File, hands: map<nat, Quota>)

  predicate Runs(o: Office, e: Event) {
    e.step.Work? && e.step.n > 0 && e.desk in o.hands && o.hands[e.desk].CanAdmit(e.step.job, e.step.taskClass, e.step.n)
  }

  /** A merge of a damaged file raises, so the session has no quota. */
  function Next(o: Office, e: Event, week: WeekId): Office {
    match e.step
    case Open(base) =>
      (match Read(o.file, base, week)
       case Ok(q) => o.(hands := o.hands[e.desk := q])
       case Err(_) => o.(hands := o.hands - {e.desk}))
    case Work(job, n, taskClass) =>
      if Runs(o, e) then
        var q := o.hands[e.desk].Charge(job, n, taskClass);
        Office(Written(q, week), o.hands[e.desk := q])
      else o
  }

  function After(o: Office, events: seq<Event>, week: WeekId): Office {
    if events == [] then o else Next(After(o, events[..|events| - 1], week), events[|events| - 1], week)
  }

  /** All tokens of a week, or those that draw on one share. */
  datatype Pot = Whole | Hex | ComputerUse

  predicate Draws(s: Step, pot: Pot) {
    s.Work? && (match pot case Whole => true case Hex => s.job == PracticeHex case ComputerUse => UsesComputer(s.job, s.taskClass))
  }

  function SpentIn(q: Quota, pot: Pot): nat {
    match pot
    case Whole => q.tokens
    case Hex => q.hexTokens
    case ComputerUse => q.computerUseTokens
  }

  function CapIn(q: Quota, pot: Pot): int {
    match pot
    case Whole => q.cap
    case Hex => q.ShareCap(q.hexShare)
    case ComputerUse => q.ShareCap(q.computerUseShare)
  }

  /** The tokens of the jobs that ran. */
  function Ran(o: Office, events: seq<Event>, week: WeekId, pot: Pot): nat {
    if events == [] then 0
    else
      var front, last := events[..|events| - 1], events[|events| - 1];
      Ran(o, front, week, pot) + if Runs(After(o, front, week), last) && Draws(last.step, pot) then last.step.n else 0
  }

  function HexRuns(o: Office, events: seq<Event>, week: WeekId, c: TaskClass): nat {
    if events == [] then 0
    else
      var front, last := events[..|events| - 1], events[|events| - 1];
      HexRuns(o, front, week, c)
      + if Runs(After(o, front, week), last) && last.step.job == PracticeHex && last.step.taskClass == Some(c) then 1 else 0
  }

  /** The quota at this desk is from before the week: it has not opened since. */
  predicate FromBefore(o: Office, events: seq<Event>, desk: nat) {
    if events == [] then desk in o.hands
    else
      var front, last := events[..|events| - 1], events[|events| - 1];
      !(last.desk == desk && last.step.Open?) && FromBefore(o, front, desk)
  }

  /** What this desk has in hand is from before the week, or another desk's job has run since it last opened. */
  predicate Behind(o: Office, events: seq<Event>, week: WeekId, desk: nat) {
    if events == [] then desk in o.hands
    else
      var front, last := events[..|events| - 1], events[|events| - 1];
      if last.desk == desk then !last.step.Open? && Behind(o, front, week, desk)
      else Runs(After(o, front, week), last) || Behind(o, front, week, desk)
  }

  /** Some job ran at a desk that was behind. */
  predicate Overtaken(o: Office, events: seq<Event>, week: WeekId) {
    events != [] &&
    var front, last := events[..|events| - 1], events[|events| - 1];
    Overtaken(o, front, week) || (Runs(After(o, front, week), last) && Behind(o, front, week, last.desk))
  }

  /** Some job ran on a quota from before the week. */
  predicate OldQuotaRan(o: Office, events: seq<Event>, week: WeekId) {
    events != [] &&
    var front, last := events[..|events| - 1], events[|events| - 1];
    OldQuotaRan(o, front, week) || (Runs(After(o, front, week), last) && FromBefore(o, front, last.desk))
  }

  lemma {:induction false} OldIsBehind(o: Office, events: seq<Event>, week: WeekId, desk: nat)
    ensures FromBefore(o, events, desk) ==> Behind(o, events, week, desk)
    ensures OldQuotaRan(o, events, week) ==> Overtaken(o, events, week)
  {
    if events != [] {
      var front, last := events[..|events| - 1], events[|events| - 1];
      OldIsBehind(o, front, week, desk);
      OldIsBehind(o, front, week, last.desk);
    }
  }

  /** What the file gives a session of the week. */
  function Recorded(f: File, pot: Pot, week: WeekId): nat {
    match Read(f, NO_CAPS, week)
    case Ok(q) => SpentIn(q, pot)
    case Err(_) => 0
  }

  function RecordedJobs(f: File, c: TaskClass, week: WeekId): nat {
    match Read(f, NO_CAPS, week)
    case Ok(q) => q.JobsOf(c)
    case Err(_) => 0
  }

  const NO_CAPS := Quota(0, 0.0, 0, 0.0, 0, 0, 0, map[])

  /** A file from before the week, or none. Sessions may have been open since earlier weeks. */
  predicate Opening(o: Office, week: WeekId) {
    !o.file.Unreadable? && !(o.file.Object? && o.file.week == Some(week))
  }

  predicate Readable(f: File, week: WeekId) {
    Read(f, NO_CAPS, week).Ok?
  }

  /** Merging gives the file's spend and the policy's caps. */
  lemma ReadIs(f: File, base: Quota, week: WeekId, pot: Pot, c: TaskClass)
    ensures Read(f, base, week).Ok? <==> Readable(f, week)
    ensures Readable(f, week) ==>
              var q := Read(f, base, week).value;
              && SpentIn(q, pot) == Recorded(f, pot, week) && q.JobsOf(c) == RecordedJobs(f, c, week)
              && CapIn(q, pot) == CapIn(base, pot) && q.maxHexJobs == base.maxHexJobs
  {
  }

  lemma WrittenIs(q: Quota, week: WeekId, pot: Pot, c: TaskClass)
    ensures Readable(Written(q, week), week)
    ensures Recorded(Written(q, week), pot, week) == SpentIn(q, pot) && RecordedJobs(Written(q, week), c, week) == q.JobsOf(c)
  {
  }

  lemma ChargeIs(q: Quota, s: Step, pot: Pot, c: TaskClass)
    requires s.Work?
    ensures SpentIn(q.Charge(s.job, s.n, s.taskClass), pot) == SpentIn(q, pot) + if Draws(s, pot) then s.n else 0
    ensures q.Charge(s.job, s.n, s.taskClass).JobsOf(c) == q.JobsOf(c) + if s.job == PracticeHex && s.taskClass == Some(c) then 1 else 0
    ensures CapIn(q.Charge(s.job, s.n, s.taskClass), pot) == CapIn(q, pot)
  {
  }

  // ----- while nobody is overtaken

  /** What is in hand at a desk that is not behind is what the file records. */
  ghost predicate InStep(o: Office, desk: nat, pot: Pot, c: TaskClass, week: WeekId) {
    desk in o.hands ==> SpentIn(o.hands[desk], pot) == Recorded(o.file, pot, week) && o.hands[desk].JobsOf(c) == RecordedJobs(o.file, c, week)
  }

  lemma StepStays(o: Office, e: Event, week: WeekId, desk: nat, pot: Pot, c: TaskClass)
    requires Readable(o.file, week)
    requires InStep(o, e.desk, pot, c, week) || !Runs(o, e)
    requires e.desk == desk || Runs(o, e) || InStep(o, desk, pot, c, week)
    requires e.desk == desk && !e.step.Open? ==> InStep(o, desk, pot, c, week)
    requires e.desk == desk || !Runs(o, e)
    ensures InStep(Next(o, e, week), desk, pot, c, week)
  {
    match e.step
    case Open(base) => ReadIs(o.file, base, week, pot, c);
    case Work(job, n, taskClass) =>
      if Runs(o, e) { WrittenIs(o.hands[e.desk].Charge(job, n, taskClass), week, pot, c); }
  }

  /** Each job that runs is recorded on top of all that ran before. */
  lemma RunAdds(o: Office, e: Event, week: WeekId, pot: Pot, c: TaskClass)
    requires Readable(o.file, week) && (Runs(o, e) ==> InStep(o, e.desk, pot, c, week))
    ensures var t := Next(o, e, week);
            && Readable(t.file, week)
            && Recorded(t.file, pot, week) == Recorded(o.file, pot, week) + (if Runs(o, e) && Draws(e.step, pot) then e.step.n else 0)
            && RecordedJobs(t.file, c, week)
               == RecordedJobs(o.file, c, week) + if Runs(o, e) && e.step.job == PracticeHex && e.step.taskClass == Some(c) then 1 else 0
  {
    if Runs(o, e) {
      ChargeIs(o.hands[e.desk], e.step, pot, c);
      WrittenIs(o.hands[e.desk].Charge(e.step.job, e.step.n, e.step.taskClass), week, pot, c);
    }
  }

  /**
   * As long as no job runs at a desk that is behind, the file records exactly the jobs that ran,
   * in each pot and class, however many sessions there are and whatever their policies.
   */
  lemma {:induction false} SessionsAddUp(o: Office, events: seq<Event>, week: WeekId, desk: nat, pot: Pot, c: TaskClass)
    requires Opening(o, week) && !Overtaken(o, events, week)
    ensures var t := After(o, events, week);
            && Readable(t.file, week)
            && Recorded(t.file, pot, week) == Ran(o, events, week, pot)
            && RecordedJobs(t.file, c, week) == HexRuns(o, events, week, c)
            && (!Behind(o, events, week, desk) ==> InStep(t, desk, pot, c, week))
  {
    if events != [] {
      var front, last := events[..|events| - 1], events[|events| - 1];
      var before := After(o, front, week);
      SessionsAddUp(o, front, week, desk, pot, c);
      SessionsAddUp(o, front, week, last.desk, pot, c);
      RunAdds(before, last, week, pot, c);
      if !Behind(o, events, week, desk) {
        StepStays(before, last, week, desk, pot, c);
      }
    }
  }

  /**
   * Whatever the file held before the week, each job that runs leaves the week's spend within the
   * caps of its own session's policy, in each pot it draws on and for its class.
   */
  lemma EachJobFits(o: Office, events: seq<Event>, e: Event, week: WeekId, pot: Pot, c: TaskClass)
    requires Opening(o, week) && !Overtaken(o, events + [e], week) && Runs(After(o, events, week), e)
    ensures var hand := After(o, events, week).hands[e.desk];
            && (Draws(e.step, pot) ==> Ran(o, events + [e], week, pot) <= CapIn(hand, pot))
            && (e.step.job == PracticeHex && e.step.taskClass == Some(c) ==> HexRuns(o, events + [e], week, c) <= hand.maxHexJobs)
  {
    var all := events + [e];
    assert all[..|all| - 1] == events;
    var before := After(o, events, week);
    SessionsAddUp(o, events, week, e.desk, pot, c);
    SessionsAddUp(o, all, week, e.desk, pot, c);
    RunAdds(before, e, week, pot, c);
    AdmitsIffItFits(before.hands[e.desk], e.step.job, e.step.n, e.step.taskClass);
    ChargeIs(before.hands[e.desk], e.step, pot, c);
  }

  /** Every session of the week has the same policy. */
  ghost predicate OnePolicy(events: seq<Event>, base: Quota) {
    forall e :: e in events && e.step.Open? ==> SameCaps(e.step.base, base)
  }

  lemma {:induction false} HandsHaveCaps(o: Office, events: seq<Event>, week: WeekId, base: Quota)
    requires OnePolicy(events, base)
    ensures var t := After(o, events, week);
            forall d :: d in t.hands && !FromBefore(o, events, d) ==> SameCaps(t.hands[d], base)
  {
    if events != [] {
      var front, last := events[..|events| - 1], events[|events| - 1];
      assert forall e :: e in front ==> e in events;
      assert last in events;
      HandsHaveCaps(o, front, week, base);
    }
  }

  /** Under one policy all the jobs of a week together stay within the caps. */
  lemma {:induction false} WeekStaysWithinCaps(o: Office, events: seq<Event>, week: WeekId, base: Quota, pot: Pot, c: TaskClass)
    requires Opening(o, week) && !Overtaken(o, events, week) && OnePolicy(events, base) && base.ValidShares()
    ensures Ran(o, events, week, pot) <= CapIn(base, pot) <= base.cap && HexRuns(o, events, week, c) <= base.maxHexJobs
  {
    if events != [] {
      var front, last := events[..|events| - 1], events[|events| - 1];
      assert forall e :: e in front ==> e in events;
      WeekStaysWithinCaps(o, front, week, base, pot, c);
      if Runs(After(o, front, week), last) {
        assert front + [last] == events;
        EachJobFits(o, front, last, week, pot, c);
        HandsHaveCaps(o, front, week, base);
        OldIsBehind(o, front, week, last.desk);
        SameCapsIn(After(o, front, week).hands[last.desk], base, pot);
      }
    } else {
      CapsAreNotNegative(base, pot);
    }
    CapsAreNotNegative(base, pot);
  }

  lemma SameCapsIn(q: Quota, base: Quota, pot: Pot)
    requires SameCaps(q, base)
    ensures CapIn(q, pot) == CapIn(base, pot)
  {
  }

  lemma CapsAreNotNegative(base: Quota, pot: Pot)
    requires base.ValidShares()
    ensures 0 <= CapIn(base, pot) <= base.cap
  {
    ShareWithinCap(base.cap, base.hexShare);
    ShareWithinCap(base.cap, base.computerUseShare);
  }

  // ----- once somebody is overtaken

  /** Where a spend is shown: in the file, or in hand at a desk. */
  datatype Place = TheFile | AtDesk(desk: nat)

  /** What a place shows that was spent before the week. */
  function Carried(o: Office, events: seq<Event>, week: WeekId, place: Place): nat {
    if events == [] then (if place.AtDesk? && place.desk in o.hands then o.hands[place.desk].tokens else 0)
    else
      var front, last := events[..|events| - 1], events[|events| - 1];
      if place.AtDesk? && last.step.Open? && last.desk == place.desk then Carried(o, front, week, TheFile)
      else if place.TheFile? && Runs(After(o, front, week), last) then Carried(o, front, week, AtDesk(last.desk))
      else Carried(o, front, week, place)
  }

  /** The tokens of the jobs that ran and that a place does not show. */
  function Missed(o: Office, events: seq<Event>, week: WeekId, place: Place): nat {
    if events == [] then 0
    else
      var front, last := events[..|events| - 1], events[|events| - 1];
      var runs := Runs(After(o, front, week), last);
      if place.AtDesk? && last.step.Open? && last.desk == place.desk then Missed(o, front, week, TheFile)
      else if place.TheFile? && runs then Missed(o, front, week, AtDesk(last.desk))
      else if place.AtDesk? && runs && last.desk != place.desk then Missed(o, front, week, place) + last.step.n
      else Missed(o, front, week, place)
  }

  function Shown(o: Office, week: WeekId, place: Place): nat {
    match place
    case TheFile => Recorded(o.file, Whole, week)
    case AtDesk(desk) => if desk in o.hands then o.hands[desk].tokens else 0
  }

  ghost predicate Exists(o: Office, place: Place) {
    place.AtDesk? ==> place.desk in o.hands
  }

  lemma ShownNext(o: Office, e: Event, week: WeekId, place: Place)
    requires Readable(o.file, week) && Exists(Next(o, e, week), place)
    ensures var t := Next(o, e, week);
            && Readable(t.file, week)
            && (if place.AtDesk? && e.step.Open? && e.desk == place.desk then Shown(t, week, place) == Shown(o, week, TheFile)
                else if Runs(o, e) && (place.TheFile? || e.desk == place.desk) then
                  Exists(o, AtDesk(e.desk)) && Shown(t, week, place) == Shown(o, week, AtDesk(e.desk)) + e.step.n
                else Exists(o, place) && Shown(t, week, place) == Shown(o, week, place))
  {
    var c := TaskClass("");
    match e.step
    case Open(base) => ReadIs(o.file, base, week, Whole, c);
    case Work(job, n, taskClass) =>
      if Runs(o, e) {
        ChargeIs(o.hands[e.desk], e.step, Whole, c);
        WrittenIs(o.hands[e.desk].Charge(job, n, taskClass), week, Whole, c);
      }
  }

  /**
   * What is shown and what is missed together are what ran this week and what was carried in from
   * before it: in the file, and at every desk.
   */
  lemma {:induction false} SpendIsAccounted(o: Office, events: seq<Event>, week: WeekId, place: Place)
    requires Opening(o, week) && Exists(After(o, events, week), place)
    ensures Readable(After(o, events, week).file, week)
    ensures Shown(After(o, events, week), week, place) + Missed(o, events, week, place)
         == Ran(o, events, week, Whole) + Carried(o, events, week, place)
  {
    if events != [] {
      var front, last := events[..|events| - 1], events[|events| - 1];
      var before := After(o, front, week);
      SpendIsAccounted(o, front, week, TheFile);
      ShownNext(before, last, week, place);
      if Runs(before, last) { SpendIsAccounted(o, front, week, AtDesk(last.desk)); }
      if Exists(before, place) { SpendIsAccounted(o, front, week, place); }
    }
  }

  /** When every job ran on a quota of the week: a place misses something iff somebody was overtaken or the place is behind. */
  lemma {:induction false} MissedIff(o: Office, events: seq<Event>, week: WeekId, place: Place)
    requires !OldQuotaRan(o, events, week) && (place.AtDesk? ==> !FromBefore(o, events, place.desk))
    requires Exists(After(o, events, week), place)
    ensures Carried(o, events, week, place) == 0
    ensures Missed(o, events, week, place) > 0
       <==> Overtaken(o, events, week) || (place.AtDesk? && Behind(o, events, week, place.desk))
  {
    if events != [] {
      var front, last := events[..|events| - 1], events[|events| - 1];
      MissedIff(o, front, week, TheFile);
      if Runs(After(o, front, week), last) { MissedIff(o, front, week, AtDesk(last.desk)); }
      if place.AtDesk? && !(last.step.Open? && last.desk == place.desk) { MissedIff(o, front, week, place); }
    }
  }

  /**
   * The file records what ran iff what it misses equals what it carries from before the week. When
   * every job ran on a quota of the week, that is iff no job ran at a desk after another desk's job
   * had run since it last opened; otherwise the file records less.
   */
  lemma RecordedIffNotOvertaken(o: Office, events: seq<Event>, week: WeekId)
    requires Opening(o, week)
    ensures var recorded, ran := Recorded(After(o, events, week).file, Whole, week), Ran(o, events, week, Whole);
            && (recorded == ran <==> Missed(o, events, week, TheFile) == Carried(o, events, week, TheFile))
            && (!Overtaken(o, events, week) ==> recorded == ran)
            && (!OldQuotaRan(o, events, week) ==> recorded <= ran && (recorded == ran <==> !Overtaken(o, events, week)))
  {
    SpendIsAccounted(o, events, week, TheFile);
    OldIsBehind(o, events, week, 0);
    if !OldQuotaRan(o, events, week) { MissedIff(o, events, week, TheFile); }
  }

  // ----- schedules: who opens and who works, without what

  datatype Move = Move(desk: nat, opens: bool)

  predicate Fits(events: seq<Event>, schedule: seq<Move>) {
    && |events| == |schedule|
    && forall i :: 0 <= i < |events| ==> events[i].desk == schedule[i].desk && (events[i].step.Open? <==> schedule[i].opens)
  }

  /** The desk opened, and no other one worked after that: `n` moves of the schedule are looked at. */
  ghost predicate Current(schedule: seq<Move>, n: nat, desk: nat)
    requires n <= |schedule|
  {
    exists j :: 0 <= j < n && schedule[j] == Move(desk, true) && OnlyWorks(schedule, j, n, desk)
  }

  ghost predicate OnlyWorks(schedule: seq<Move>, j: nat, n: nat, desk: nat)
    requires n <= |schedule|
  {
    forall m :: j < m < n && !schedule[m].opens ==> schedule[m].desk == desk
  }

  /** Whoever works has opened in this week, and nobody else has worked since. */
  ghost predicate InTurn(schedule: seq<Move>) {
    forall i :: 0 <= i < |schedule| && !schedule[i].opens ==> Current(schedule, i, schedule[i].desk)
  }

  /** The same as a recursion: with a suitable job and policy every work runs. */
  predicate MayBeBehind(schedule: seq<Move>, desk: nat) {
    schedule == [] ||
    var front, last := schedule[..|schedule| - 1], schedule[|schedule| - 1];
    if last.desk == desk then !last.opens && MayBeBehind(front, desk) else !last.opens || MayBeBehind(front, desk)
  }

  predicate Overtakes(schedule: seq<Move>) {
    schedule != [] &&
    var front, last := schedule[..|schedule| - 1], schedule[|schedule| - 1];
    Overtakes(front) || (!last.opens && MayBeBehind(front, last.desk))
  }

  lemma {:induction false} CurrentIs(schedule: seq<Move>, n: nat, desk: nat)
    requires n <= |schedule|
    ensures Current(schedule, n, desk) <==> !MayBeBehind(schedule[..n], desk)
  {
    if n > 0 {
      CurrentIs(schedule, n - 1, desk);
      CurrentStep(schedule, n, desk);
      assert schedule[..n][..n - 1] == schedule[..n - 1];
    }
  }

  lemma CurrentStep(schedule: seq<Move>, n: nat, desk: nat)
    requires 0 < n <= |schedule|
    ensures Current(schedule, n, desk)
       <==> (schedule[n - 1] == Move(desk, true)
             || (Current(schedule, n - 1, desk) && (schedule[n - 1].opens || schedule[n - 1].desk == desk)))
  {
    if schedule[n - 1] == Move(desk, true) { assert OnlyWorks(schedule, n - 1, n, desk); }
    if Current(schedule, n, desk) && schedule[n - 1] != Move(desk, true) {
      var j :| 0 <= j < n && schedule[j] == Move(desk, true) && OnlyWorks(schedule, j, n, desk);
      assert OnlyWorks(schedule, j, n - 1, desk);
    }
    if Current(schedule, n - 1, desk) && (schedule[n - 1].opens || schedule[n - 1].desk == desk) {
      var j :| 0 <= j < n - 1 && schedule[j] == Move(desk, true) && OnlyWorks(schedule, j, n - 1, desk);
      assert OnlyWorks(schedule, j, n, desk);
    }
  }

  lemma {:induction false} InTurnIs(schedule: seq<Move>)
    ensures InTurn(schedule) <==> !Overtakes(schedule)
  {
    if schedule != [] {
      var n := |schedule| - 1;
      var front := schedule[..n];
      InTurnIs(front);
      CurrentIs(schedule, n, schedule[n].desk);
      forall i: nat | i < n ensures Current(front, i, front[i].desk) <==> Current(schedule, i, schedule[i].desk) {
        CurrentIs(front, i, front[i].desk);
        CurrentIs(schedule, i, schedule[i].desk);
        assert front[..i] == schedule[..i];
      }
    }
  }

  lemma {:induction false} ScheduleBounds(o: Office, events: seq<Event>, schedule: seq<Move>, week: WeekId, desk: nat)
    requires Fits(events, schedule)
    ensures Behind(o, events, week, desk) ==> MayBeBehind(schedule, desk)
    ensures Overtaken(o, events, week) ==> Overtakes(schedule)
  {
    if events != [] {
      var n := |events| - 1;
      ScheduleBounds(o, events[..n], schedule[..n], week, desk);
      ScheduleBounds(o, events[..n], schedule[..n], week, events[n].desk);
    }
  }

  // ----- a run that shows it

  predicate HasOpened(schedule: seq<Move>, desk: nat) {
    schedule != [] &&
    var last := schedule[|schedule| - 1];
    ((last.desk == desk && last.opens) || HasOpened(schedule[..|schedule| - 1], desk))
  }

  /** The desk works before it has opened. */
  predicate WorksUnopened(schedule: seq<Move>, desk: nat) {
    schedule != [] &&
    var front, last := schedule[..|schedule| - 1], schedule[|schedule| - 1];
    WorksUnopened(front, desk) || (last == Move(desk, false) && !HasOpened(front, desk))
  }

  ghost predicate AllOpened(schedule: seq<Move>) {
    forall desk :: !WorksUnopened(schedule, desk)
  }

  /** Every work a job of one token, under a policy with room for all of them. */
  function Busy(schedule: seq<Move>, cap: nat): seq<Event> {
    if schedule == [] then [] else Busy(schedule[..|schedule| - 1], cap) + [BusyEvent(schedule[|schedule| - 1], cap)]
  }

  function BusyEvent(m: Move, cap: nat): Event {
    Event(m.desk, if m.opens then Open(Spend(cap, 0)) else Work(Recertifier, 1, None))
  }

  function Spend(cap: nat, tokens: nat): Quota {
    Quota(cap, 0.0, 0, 0.0, tokens, 0, 0, map[])
  }

  lemma {:induction false} BusyFits(schedule: seq<Move>, cap: nat)
    ensures Fits(Busy(schedule, cap), schedule)
  {
    if schedule != [] {
      BusyFits(schedule[..|schedule| - 1], cap);
    }
  }

  lemma OneMoreEvent(o: Office, events: seq<Event>, e: Event, week: WeekId, desk: nat)
    ensures After(o, events + [e], week) == Next(After(o, events, week), e, week)
    ensures Behind(o, events + [e], week, desk)
       <==> (if e.desk == desk then !e.step.Open? && Behind(o, events, week, desk)
             else Runs(After(o, events, week), e) || Behind(o, events, week, desk))
    ensures Overtaken(o, events + [e], week)
       <==> Overtaken(o, events, week) || (Runs(After(o, events, week), e) && Behind(o, events, week, e.desk))
    ensures OldQuotaRan(o, events + [e], week)
       <==> OldQuotaRan(o, events, week) || (Runs(After(o, events, week), e) && FromBefore(o, events, e.desk))
    ensures FromBefore(o, events + [e], desk) <==> !(e.desk == desk && e.step.Open?) && FromBefore(o, events, desk)
    ensures Ran(o, events + [e], week, Whole)
         == Ran(o, events, week, Whole) + if Runs(After(o, events, week), e) then e.step.n else 0
  {
    assert (events + [e])[..|events + [e]| - 1] == events;
  }

  const NOBODY := Office(Missing, map[])

  ghost predicate BusyHands(t: Office, schedule: seq<Move>, cap: nat, week: WeekId, desk: nat) {
    && (desk in t.hands <==> HasOpened(schedule, desk))
    && (desk in t.hands ==> t.hands[desk].cap == cap && t.hands[desk].tokens <= |schedule|)
    && Readable(t.file, week) && Recorded(t.file, Whole, week) <= |schedule|
  }

  lemma BusyOpens(t: Office, front: seq<Move>, m: Move, cap: nat, week: WeekId, desk: nat)
    requires m.opens && BusyHands(t, front, cap, week, desk)
    ensures var u := Next(t, BusyEvent(m, cap), week);
            && u.file == t.file && (desk in u.hands <==> desk in t.hands || m.desk == desk)
            && (desk in u.hands ==> u.hands[desk].cap == cap && u.hands[desk].tokens <= |front|)
  {
    ReadIs(t.file, BusyEvent(m, cap).step.base, week, Whole, TaskClass(""));
  }

  lemma BusyWorks(t: Office, front: seq<Move>, m: Move, cap: nat, week: WeekId, desk: nat)
    requires !m.opens && |front| < cap && BusyHands(t, front, cap, week, desk) && BusyHands(t, front, cap, week, m.desk)
    ensures Runs(t, BusyEvent(m, cap)) <==> HasOpened(front, m.desk)
    ensures var u := Next(t, BusyEvent(m, cap), week);
            && (desk in u.hands <==> desk in t.hands)
            && (desk in u.hands ==> u.hands[desk].cap == cap && u.hands[desk].tokens <= |front| + 1)
            && Readable(u.file, week) && Recorded(u.file, Whole, week) <= |front| + 1
  {
    if m.desk in t.hands {
      WrittenIs(t.hands[m.desk].Charge(Recertifier, 1, None), week, Whole, TaskClass(""));
    }
  }

  /** One more of its moves. */
  lemma BusyStep(t: Office, schedule: seq<Move>, cap: nat, week: WeekId, desk: nat)
    requires schedule != [] && |schedule| <= cap
    requires BusyHands(t, schedule[..|schedule| - 1], cap, week, desk)
    requires BusyHands(t, schedule[..|schedule| - 1], cap, week, schedule[|schedule| - 1].desk)
    ensures var m := schedule[|schedule| - 1];
            && BusyHands(Next(t, BusyEvent(m, cap), week), schedule, cap, week, desk)
            && (Runs(t, BusyEvent(m, cap)) <==> !m.opens && HasOpened(schedule[..|schedule| - 1], m.desk))
  {
    var front, m := schedule[..|schedule| - 1], schedule[|schedule| - 1];
    if m.opens { BusyOpens(t, front, m, cap, week, desk); } else { BusyWorks(t, front, m, cap, week, desk); }
  }

  lemma {:induction false} BusyHandsAfter(schedule: seq<Move>, cap: nat, week: WeekId, desk: nat)
    requires |schedule| <= cap
    ensures BusyHands(After(NOBODY, Busy(schedule, cap), week), schedule, cap, week, desk)
  {
    if schedule != [] {
      var front, m := schedule[..|schedule| - 1], schedule[|schedule| - 1];
      BusyHandsAfter(front, cap, week, desk);
      BusyHandsAfter(front, cap, week, m.desk);
      BusyStep(After(NOBODY, Busy(front, cap), week), schedule, cap, week, desk);
      OneMoreEvent(NOBODY, Busy(front, cap), BusyEvent(m, cap), week, desk);
    }
  }

  /** When everybody has opened before working, all those jobs run and the worst comes true. */
  lemma {:induction false} BusyRuns(schedule: seq<Move>, cap: nat, week: WeekId, desk: nat)
    requires |schedule| <= cap && AllOpened(schedule)
    ensures var events := Busy(schedule, cap);
            && (HasOpened(schedule, desk) ==> (Behind(NOBODY, events, week, desk) <==> MayBeBehind(schedule, desk)))
            && (Overtaken(NOBODY, events, week) <==> Overtakes(schedule))
            && !OldQuotaRan(NOBODY, events, week) && !FromBefore(NOBODY, events, desk)
  {
    if schedule != [] {
      var front, m := schedule[..|schedule| - 1], schedule[|schedule| - 1];
      forall d ensures !WorksUnopened(front, d) { assert !WorksUnopened(schedule, d); }
      assert !WorksUnopened(schedule, m.desk);
      BusyRuns(front, cap, week, desk);
      BusyRuns(front, cap, week, m.desk);
      BusyHandsAfter(front, cap, week, m.desk);
      BusyStep(After(NOBODY, Busy(front, cap), week), schedule, cap, week, m.desk);
      OneMoreEvent(NOBODY, Busy(front, cap), BusyEvent(m, cap), week, desk);
    }
  }

  /** One desk that kept a quota from before the week, with `kept` tokens spent on it. */
  function Kept(keeper: nat, cap: nat, kept: nat): Office {
    Office(Missing, map[keeper := Spend(cap, kept)])
  }

  /** A spend either holds what the keeper had spent before, or falls short once the keeper has worked on that. */
  predicate Apart(spend: nat, ran: nat, kept: nat, worked: bool, moves: nat) {
    && (spend >= kept || spend + (if worked then 1 else 0) <= ran)
    && spend <= kept + moves && ran <= moves
  }

  ghost predicate KeptHands(t: Office, ran: nat, schedule: seq<Move>, cap: nat, kept: nat, week: WeekId, keeper: nat, desk: nat) {
    var worked := WorksUnopened(schedule, keeper);
    && Readable(t.file, week) && Apart(Recorded(t.file, Whole, week), ran, kept, worked, |schedule|)
    && (desk in t.hands ==> t.hands[desk].cap == cap && Apart(t.hands[desk].tokens, ran, kept, worked, |schedule|))
    && (!HasOpened(schedule, keeper) ==> keeper in t.hands && t.hands[keeper].cap == cap && kept <= t.hands[keeper].tokens <= kept + |schedule|)
  }

  lemma KeptOpens(t: Office, ran: nat, schedule: seq<Move>, cap: nat, kept: nat, week: WeekId, keeper: nat, desk: nat)
    requires schedule != [] && schedule[|schedule| - 1].opens
    requires KeptHands(t, ran, schedule[..|schedule| - 1], cap, kept, week, keeper, desk)
    ensures KeptHands(Next(t, BusyEvent(schedule[|schedule| - 1], cap), week), ran, schedule, cap, kept, week, keeper, desk)
  {
    ReadIs(t.file, Spend(cap, 0), week, Whole, TaskClass(""));
  }

  lemma KeptWorks(t: Office, ran: nat, schedule: seq<Move>, cap: nat, kept: nat, week: WeekId, keeper: nat, desk: nat)
    requires schedule != [] && !schedule[|schedule| - 1].opens && cap >= kept + |schedule|
    requires KeptHands(t, ran, schedule[..|schedule| - 1], cap, kept, week, keeper, desk)
    requires KeptHands(t, ran, schedule[..|schedule| - 1], cap, kept, week, keeper, schedule[|schedule| - 1].desk)
    ensures var e := BusyEvent(schedule[|schedule| - 1], cap);
            KeptHands(Next(t, e, week), ran + if Runs(t, e) then 1 else 0, schedule, cap, kept, week, keeper, desk)
  {
    var m := schedule[|schedule| - 1];
    if m.desk in t.hands {
      WrittenIs(t.hands[m.desk].Charge(Recertifier, 1, None), week, Whole, TaskClass(""));
    }
  }

  lemma {:induction false} KeptRuns(schedule: seq<Move>, cap: nat, kept: nat, week: WeekId, keeper: nat, desk: nat)
    requires cap >= kept + |schedule|
    ensures var o, events := Kept(keeper, cap, kept), Busy(schedule, cap);
            KeptHands(After(o, events, week), Ran(o, events, week, Whole), schedule, cap, kept, week, keeper, desk)
  {
    if schedule != [] {
      var front, m, o := schedule[..|schedule| - 1], schedule[|schedule| - 1], Kept(keeper, cap, kept);
      KeptRuns(front, cap, kept, week, keeper, desk);
      KeptRuns(front, cap, kept, week, keeper, m.desk);
      OneMoreEvent(o, Busy(front, cap), BusyEvent(m, cap), week, desk);
      var t, ran := After(o, Busy(front, cap), week), Ran(o, Busy(front, cap), week, Whole);
      if m.opens { KeptOpens(t, ran, schedule, cap, kept, week, keeper, desk); }
      else { KeptWorks(t, ran, schedule, cap, kept, week, keeper, desk); }
    }
  }

  ghost predicate AddsUp(o: Office, events: seq<Event>, week: WeekId) {
    Recorded(After(o, events, week).file, Whole, week) == Ran(o, events, week, Whole)
  }

  lemma OutOfTurn(schedule: seq<Move>, week: WeekId) returns (o: Office, events: seq<Event>)
    requires Overtakes(schedule)
    ensures Opening(o, week) && Fits(events, schedule) && !AddsUp(o, events, week)
  {
    var n := |schedule|;
    if AllOpened(schedule) {
      o, events := NOBODY, Busy(schedule, n);
      BusyFits(schedule, n);
      BusyRuns(schedule, n, week, 0);
      RecordedIffNotOvertaken(o, events, week);
    } else {
      var keeper :| WorksUnopened(schedule, keeper);
      o, events := Kept(keeper, 2 * n + 1, n + 1), Busy(schedule, 2 * n + 1);
      BusyFits(schedule, 2 * n + 1);
      KeptRuns(schedule, 2 * n + 1, n + 1, week, keeper, keeper);
    }
  }

  /**
   * For a schedule of opens and works the file records exactly the jobs that ran, whatever the
   * policies, the jobs and the quotas in hand from earlier weeks, iff every work comes after its
   * desk has opened in this week and no other desk has worked in between.
   */
  lemma ScheduleAddsUpIff(schedule: seq<Move>, week: WeekId)
    ensures (forall o: Office, events: seq<Event> :: Opening(o, week) && Fits(events, schedule) ==> AddsUp(o, events, week))
       <==> InTurn(schedule)
  {
    InTurnIs(schedule);
    if Overtakes(schedule) {
      var o, events := OutOfTurn(schedule, week);
    } else {
      forall o: Office, events: seq<Event> | Opening(o, week) && Fits(events, schedule) ensures AddsUp(o, events, week) {
        ScheduleBounds(o, events, schedule, week, 0);
        RecordedIffNotOvertaken(o, events, week);
      }
    }
  }

  /** The file cannot be read, or it is this week's and an amount or the class counts are garbled. */
  predicate Damaged(f: File, week: WeekId) {
    || f.Unreadable?
    || (f.Object? && f.week == Some(week)
        && (f.tokens.Garbage? || f.hexTokens.Garbage? || f.computerUseTokens.Garbage? || f.hexJobs.NotAMap? || f.hexJobs.GarbledCounts?))
  }

  /** Only damage stops a session from opening: a missing file, or one of another week, counts as nothing spent. */
  lemma OpensUnlessDamaged(f: File, base: Quota, week: WeekId)
    ensures Read(f, base, week).Err? <==> Damaged(f, week)
    ensures f.Missing? || (f.Object? && f.week != Some(week)) ==> Read(f, base, week) == Ok(Fresh(base))
    ensures f.Object? && f.week == Some(week) && !Damaged(f, week) ==>
              var q := Read(f, base, week).value;
              && q.tokens == (if f.tokens.Number? then f.tokens.value else 0)
              && q.hexTokens == (if f.hexTokens.Number? then f.hexTokens.value else 0)
              && q.computerUseTokens == (if f.computerUseTokens.Number? then f.computerUseTokens.value else 0)
              && q.hexJobs == (if f.hexJobs.Jobs? then f.hexJobs.counts else map[]) && SameCaps(q, base)
  {
  }

  /**
   * A damaged record of the week is not taken for zero spend: no session gets a quota from it, and
   * as long as no job runs on a quota from before the week nothing runs and the record stays.
   */
  lemma {:induction false} DamageStopsWork(o: Office, events: seq<Event>, week: WeekId, desk: nat)
    requires Damaged(o.file, week) && !OldQuotaRan(o, events, week)
    ensures var t := After(o, events, week);
            t.file == o.file && Ran(o, events, week, Whole) == 0 && (desk in t.hands ==> FromBefore(o, events, desk))
  {
    OpensUnlessDamaged(o.file, NO_CAPS, week);
    if events != [] {
      var front, last := events[..|events| - 1], events[|events| - 1];
      DamageStopsWork(o, front, week, desk);
      DamageStopsWork(o, front, week, last.desk);
      if last.step.Open? { ReadIs(o.file, last.step.base, week, Whole, TaskClass("")); }
    }
  }
}
