/**
 * The reservations of `src/recertia/jobs/quota_repo.py`: every job holds its tokens before it runs,
 * then settles or releases them. Each call is one transaction, so a run of many job runners is
 * some order of reserves, settles and releases.
 */
module QuotaLedger {
  import opened Prelude
  import opened JobQuota

  /** A row of `job_quota_week`: for each column what is spent and what is held. */
  datatype Week = Week(
    id: WeekId,
    tokens: nat,
    tokensHeld: nat,
    hex: nat,
    hexHeld: nat,
    computerUse: nat,
    computerUseHeld: nat,
    settledJobs: map<TaskClass, nat>,
    heldJobs: map<TaskClass, nat>)

  datatype Status = Reserved | Settled | Released

  /** A row of `job_quota_ledger`; its reservation id is its position. */
  datatype Entry = Entry(week: WeekId, tokens: nat, hex: nat, computerUse: nat, slot: Option<TaskClass>, status: Status)

  datatype Ledger = Ledger(weeks: map<WeekId, Week>, entries: seq<Entry>)

  datatype ReserveError = QuotaExceeded

  function CountOf(m: map<TaskClass, nat>, c: TaskClass): nat {
    if c in m then m[c] else 0
  }

  function WeekOf(l: Ledger, week: WeekId): Week {
    if week in l.weeks then l.weeks[week] else Week(week, 0, 0, 0, 0, 0, 0, map[], map[])
  }

  function SlotOf(job: Job, taskClass: Option<TaskClass>): Option<TaskClass> {
    if job == PracticeHex && taskClass.Some? && taskClass.value.name != "" then taskClass else None
  }

  function EntryOf(week: WeekId, job: Job, n: nat, taskClass: Option<TaskClass>): Entry {
    Entry(week, n, if job == PracticeHex then n else 0, if UsesComputer(job, taskClass) then n else 0, SlotOf(job, taskClass), Reserved)
  }

  /** The caps of a policy hold for all that is spent or held. */
  predicate Fits(w: Week, q: Quota) {
    && w.tokens + w.tokensHeld <= q.cap
    && w.hex + w.hexHeld <= q.ShareCap(q.hexShare)
    && w.computerUse + w.computerUseHeld <= q.ShareCap(q.computerUseShare)
  }

  predicate SlotFree(w: Week, q: Quota, slot: Option<TaskClass>) {
    slot.Some? ==> CountOf(w.settledJobs, slot.value) + CountOf(w.heldJobs, slot.value) < q.maxHexJobs
  }

  function TakeSlot(m: map<TaskClass, nat>, slot: Option<TaskClass>): map<TaskClass, nat> {
    if slot.None? then m else m[slot.value := CountOf(m, slot.value) + 1]
  }

  function DropSlot(m: map<TaskClass, nat>, slot: Option<TaskClass>): map<TaskClass, nat> {
    if slot.None? then m
    else
      var left := Max(0, CountOf(m, slot.value) - 1);
      if left == 0 then m - {slot.value} else m[slot.value := left]
  }

  /** `_hold`. */
  function Hold(w: Week, e: Entry): Week {
    w.(tokensHeld := w.tokensHeld + e.tokens,
       hexHeld := w.hexHeld + e.hex,
       computerUseHeld := w.computerUseHeld + e.computerUse,
       heldJobs := TakeSlot(w.heldJobs, e.slot))
  }

  /** `_unhold`: `MAX(0, held - amount)` on each column. */
  function Unhold(w: Week, e: Entry, settle: bool): Week {
    Week(w.id,
         w.tokens + if settle then e.tokens else 0,
         Max(0, w.tokensHeld - e.tokens),
         w.hex + if settle then e.hex else 0,
         Max(0, w.hexHeld - e.hex),
         w.computerUse + if settle then e.computerUse else 0,
         Max(0, w.computerUseHeld - e.computerUse),
         if settle then TakeSlot(w.settledJobs, e.slot) else w.settledJobs,
         DropSlot(w.heldJobs, e.slot))
  }

  /** `reserve`: a refusal rolls everything back. */
  function Reserve(l: Ledger, q: Quota, week: WeekId, job: Job, n: int, taskClass: Option<TaskClass>): Result<Ledger, ReserveError> {
    if n < 0 then Err(QuotaExceeded)
    else
      var e := EntryOf(week, job, n, taskClass);
      var after := Hold(WeekOf(l, week), e);
      if !Fits(after, q) || !SlotFree(WeekOf(l, week), q, e.slot) then Err(QuotaExceeded)
      else Ok(Ledger(l.weeks[week := after], l.entries + [e]))
  }

  /** `_finish`: `settle` and `release`. */
  function Finish(l: Ledger, id: nat, settle: bool): Ledger {
    if id >= |l.entries| || l.entries[id].status != Reserved then l
    else
      var e := l.entries[id];
      Ledger(if e.week in l.weeks then l.weeks[e.week := Unhold(l.weeks[e.week], e, settle)] else l.weeks,
             l.entries[id := Closed(e, settle)])
  }

  function Closed(e: Entry, settle: bool): Entry {
    e.(status := if settle then Settled else Released)
  }

  /** `snapshot`: without a row for the week the quota passed in comes back as it is. */
  function Snapshot(l: Ledger, base: Quota, week: WeekId): Quota {
    if week !in l.weeks then base
    else
      var w := l.weeks[week];
      base.(tokens := w.tokens + w.tokensHeld,
            hexTokens := w.hex + w.hexHeld,
            computerUseTokens := w.computerUse + w.computerUseHeld,
            hexJobs := map c | c in w.settledJobs.Keys + w.heldJobs.Keys :: CountOf(w.settledJobs, c) + CountOf(w.heldJobs, c))
  }

  // ----- what the entries add up to

  datatype Column = Tokens | HexTokens | ComputerUseTokens

  function Amount(e: Entry, col: Column): nat {
    match col
    case Tokens => e.tokens
    case HexTokens => e.hex
    case ComputerUseTokens => e.computerUse
  }

  function Part(e: Entry, week: WeekId, status: Status, col: Column): nat {
    if e.week == week && e.status == status then Amount(e, col) else 0
  }

  function SlotPart(e: Entry, week: WeekId, status: Status, c: TaskClass): nat {
    if e.week == week && e.status == status && e.slot == Some(c) then 1 else 0
  }

  function SumOf(es: seq<Entry>, week: WeekId, status: Status, col: Column): nat {
    if es == [] then 0 else SumOf(es[..|es| - 1], week, status, col) + Part(es[|es| - 1], week, status, col)
  }

  function SlotsOf(es: seq<Entry>, week: WeekId, status: Status, c: TaskClass): nat {
    if es == [] then 0 else SlotsOf(es[..|es| - 1], week, status, c) + SlotPart(es[|es| - 1], week, status, c)
  }

  function SpentIn(w: Week, col: Column): nat {
    match col
    case Tokens => w.tokens
    case HexTokens => w.hex
    case ComputerUseTokens => w.computerUse
  }

  function HeldIn(w: Week, col: Column): nat {
    match col
    case Tokens => w.tokensHeld
    case HexTokens => w.hexHeld
    case ComputerUseTokens => w.computerUseHeld
  }

  function Spent(l: Ledger, week: WeekId, col: Column): nat {
    SpentIn(WeekOf(l, week), col)
  }

  function HeldBack(l: Ledger, week: WeekId, col: Column): nat {
    HeldIn(WeekOf(l, week), col)
  }

  function JobsSettled(l: Ledger, week: WeekId, c: TaskClass): nat {
    CountOf(WeekOf(l, week).settledJobs, c)
  }

  function JobsHeld(l: Ledger, week: WeekId, c: TaskClass): nat {
    CountOf(WeekOf(l, week).heldJobs, c)
  }

  function CapOf(q: Quota, col: Column): int {
    match col
    case Tokens => q.cap
    case HexTokens => q.ShareCap(q.hexShare)
    case ComputerUseTokens => q.ShareCap(q.computerUseShare)
  }

  /** The spend that a week's row began with: a sidecar's, or that of a quota in memory. */
  datatype Brought = Brought(tokens: nat, hex: nat, computerUse: nat, jobs: map<TaskClass, nat>)

  function BroughtIn(b: map<WeekId, Brought>, week: WeekId, col: Column): nat {
    if week !in b then 0
    else
      match col
      case Tokens => b[week].tokens
      case HexTokens => b[week].hex
      case ComputerUseTokens => b[week].computerUse
  }

  function JobsBrought(b: map<WeekId, Brought>, week: WeekId, c: TaskClass): nat {
    if week in b then CountOf(b[week].jobs, c) else 0
  }

  predicate InCap(l: Ledger, q: Quota, week: WeekId, col: Column) {
    Spent(l, week, col) + HeldBack(l, week, col) <= CapOf(q, col)
  }

  predicate TokensTally(l: Ledger, b: map<WeekId, Brought>, week: WeekId, col: Column) {
    && Spent(l, week, col) == BroughtIn(b, week, col) + SumOf(l.entries, week, Settled, col)
    && HeldBack(l, week, col) == SumOf(l.entries, week, Reserved, col)
  }

  predicate JobsTally(l: Ledger, b: map<WeekId, Brought>, week: WeekId, c: TaskClass) {
    && JobsSettled(l, week, c) == JobsBrought(b, week, c) + SlotsOf(l.entries, week, Settled, c)
    && JobsHeld(l, week, c) == SlotsOf(l.entries, week, Reserved, c)
  }

  datatype Slot = Slot(week: WeekId, c: TaskClass)

  /** What a run leaves to remember: what weeks began with, and under which policy their last reservations were made. */
  datatype Past = Past(brought: map<WeekId, Brought>, last: map<WeekId, Quota>, lastOf: map<Slot, Quota>)

  /** The policy of a new reservation is its week's last, and its class slot's. */
  function Noted(past: Past, q: Quota, e: Entry): Past {
    past.(last := past.last[e.week := q],
          lastOf := if e.slot.Some? then past.lastOf[Slot(e.week, e.slot.value) := q] else past.lastOf)
  }

  predicate IsNoted(past: Past, e: Entry) {
    e.week in past.last && (e.slot.Some? ==> Slot(e.week, e.slot.value) in past.lastOf)
  }

  predicate CapKept(l: Ledger, past: Past, week: WeekId, col: Column) {
    week in past.last ==> InCap(l, past.last[week], week, col)
  }

  predicate SlotKept(l: Ledger, past: Past, week: WeekId, c: TaskClass) {
    Slot(week, c) in past.lastOf ==> JobsSettled(l, week, c) + JobsHeld(l, week, c) <= past.lastOf[Slot(week, c)].maxHexJobs
  }

  /**
   * Every column is the sum over its entries, and a week is within the caps of the policy that
   * last reserved in it.
   */
  ghost predicate Balanced(l: Ledger, past: Past) {
    && (forall week, col :: TokensTally(l, past.brought, week, col))
    && (forall week, c :: JobsTally(l, past.brought, week, c))
    && (forall week, col :: CapKept(l, past, week, col))
    && (forall week, c :: SlotKept(l, past, week, c))
    && (forall i :: 0 <= i < |l.entries| ==> l.entries[i].week in l.weeks && IsNoted(past, l.entries[i]))
  }

  // ----- what the transactions change

  /** What a reserve changes, column by column. */
  ghost predicate Adds(l: Ledger, after: Ledger, q: Quota, e: Entry) {
    && after.entries == l.entries + [e] && e.status == Reserved
    && (forall w :: w in after.weeks <==> w in l.weeks || w == e.week)
    && (forall w, col :: Spent(after, w, col) == Spent(l, w, col))
    && (forall w, col :: HeldBack(after, w, col) == HeldBack(l, w, col) + Part(e, w, Reserved, col))
    && (forall w, c :: JobsSettled(after, w, c) == JobsSettled(l, w, c))
    && (forall w, c :: JobsHeld(after, w, c) == JobsHeld(l, w, c) + SlotPart(e, w, Reserved, c))
    && (forall col :: InCap(after, q, e.week, col))
    && (e.slot.Some? ==> JobsSettled(after, e.week, e.slot.value) + JobsHeld(after, e.week, e.slot.value) <= q.maxHexJobs)
  }

  lemma ReserveAdds(l: Ledger, q: Quota, week: WeekId, job: Job, n: nat, taskClass: Option<TaskClass>)
      returns (after: Ledger, e: Entry)
    requires Reserve(l, q, week, job, n, taskClass).Ok?
    ensures Reserve(l, q, week, job, n, taskClass) == Ok(after) && e == EntryOf(week, job, n, taskClass)
    ensures Adds(l, after, q, e)
  {
    after := Reserve(l, q, week, job, n, taskClass).value;
    e := EntryOf(week, job, n, taskClass);
    forall w, col
      ensures Spent(after, w, col) == Spent(l, w, col)
      ensures HeldBack(after, w, col) == HeldBack(l, w, col) + Part(e, w, Reserved, col)
    {
      HoldColumn(l, after, e, w, col);
    }
    forall w, c
      ensures JobsSettled(after, w, c) == JobsSettled(l, w, c)
      ensures JobsHeld(after, w, c) == JobsHeld(l, w, c) + SlotPart(e, w, Reserved, c)
    {
      HoldClass(l, after, e, w, c);
    }
  }

  lemma HoldColumn(l: Ledger, after: Ledger, e: Entry, w: WeekId, col: Column)
    requires e.status == Reserved && after.weeks == l.weeks[e.week := Hold(WeekOf(l, e.week), e)]
    ensures Spent(after, w, col) == Spent(l, w, col)
    ensures HeldBack(after, w, col) == HeldBack(l, w, col) + Part(e, w, Reserved, col)
  {
  }

  lemma HoldClass(l: Ledger, after: Ledger, e: Entry, w: WeekId, c: TaskClass)
    requires e.status == Reserved && after.weeks == l.weeks[e.week := Hold(WeekOf(l, e.week), e)]
    ensures JobsSettled(after, w, c) == JobsSettled(l, w, c)
    ensures JobsHeld(after, w, c) == JobsHeld(l, w, c) + SlotPart(e, w, Reserved, c)
  {
  }

  /** What a settle or a release of an open reservation changes. */
  ghost predicate Closes(l: Ledger, after: Ledger, id: nat, settle: bool) {
    && id < |l.entries| && l.entries[id].status == Reserved
    && after.entries == l.entries[id := Closed(l.entries[id], settle)] && after.weeks.Keys == l.weeks.Keys
    && (forall w, col :: Spent(after, w, col) == Spent(l, w, col) + if settle then Part(l.entries[id], w, Reserved, col) else 0)
    && (forall w, col :: HeldBack(after, w, col) == Max(0, HeldBack(l, w, col) - Part(l.entries[id], w, Reserved, col)))
    && (forall w, c :: JobsSettled(after, w, c) == JobsSettled(l, w, c) + if settle then SlotPart(l.entries[id], w, Reserved, c) else 0)
    && (forall w, c :: JobsHeld(after, w, c) == Max(0, JobsHeld(l, w, c) - SlotPart(l.entries[id], w, Reserved, c)))
  }

  lemma FinishColumn(l: Ledger, id: nat, settle: bool, w: WeekId, col: Column)
    requires id < |l.entries| && l.entries[id].status == Reserved && l.entries[id].week in l.weeks
    ensures Spent(Finish(l, id, settle), w, col) == Spent(l, w, col) + if settle then Part(l.entries[id], w, Reserved, col) else 0
    ensures HeldBack(Finish(l, id, settle), w, col) == Max(0, HeldBack(l, w, col) - Part(l.entries[id], w, Reserved, col))
  {
  }

  lemma FinishClass(l: Ledger, id: nat, settle: bool, w: WeekId, c: TaskClass)
    requires id < |l.entries| && l.entries[id].status == Reserved && l.entries[id].week in l.weeks
    ensures JobsSettled(Finish(l, id, settle), w, c) == JobsSettled(l, w, c) + if settle then SlotPart(l.entries[id], w, Reserved, c) else 0
    ensures JobsHeld(Finish(l, id, settle), w, c) == Max(0, JobsHeld(l, w, c) - SlotPart(l.entries[id], w, Reserved, c))
  {
  }

  lemma FinishCloses(l: Ledger, id: nat, settle: bool) returns (after: Ledger)
    requires id < |l.entries| && l.entries[id].status == Reserved && l.entries[id].week in l.weeks
    ensures after == Finish(l, id, settle)
    ensures Closes(l, after, id, settle)
  {
    after := Finish(l, id, settle);
    forall w, col
      ensures Spent(after, w, col) == Spent(l, w, col) + if settle then Part(l.entries[id], w, Reserved, col) else 0
      ensures HeldBack(after, w, col) == Max(0, HeldBack(l, w, col) - Part(l.entries[id], w, Reserved, col))
    {
      FinishColumn(l, id, settle, w, col);
    }
    forall w, c
      ensures JobsSettled(after, w, c) == JobsSettled(l, w, c) + if settle then SlotPart(l.entries[id], w, Reserved, c) else 0
      ensures JobsHeld(after, w, c) == Max(0, JobsHeld(l, w, c) - SlotPart(l.entries[id], w, Reserved, c))
    {
      FinishClass(l, id, settle, w, c);
    }
    FinishKeys(l, id, settle);
  }

  lemma FinishKeys(l: Ledger, id: nat, settle: bool)
    requires id < |l.entries| && l.entries[id].status == Reserved
    ensures Finish(l, id, settle).weeks.Keys == l.weeks.Keys
  {
  }

  // ----- reserve

  lemma SumOfOneMore(es: seq<Entry>, e: Entry, week: WeekId, status: Status, col: Column)
    ensures SumOf(es + [e], week, status, col) == SumOf(es, week, status, col) + Part(e, week, status, col)
  {
    assert (es + [e])[..|es + [e]| - 1] == es;
  }

  lemma SlotsOfOneMore(es: seq<Entry>, e: Entry, week: WeekId, status: Status, c: TaskClass)
    ensures SlotsOf(es + [e], week, status, c) == SlotsOf(es, week, status, c) + SlotPart(e, week, status, c)
  {
    assert (es + [e])[..|es + [e]| - 1] == es;
  }

  lemma AddsTokens(l: Ledger, after: Ledger, q: Quota, b: map<WeekId, Brought>, e: Entry, w: WeekId, col: Column)
    requires TokensTally(l, b, w, col) && Adds(l, after, q, e)
    ensures TokensTally(after, b, w, col)
  {
    SumOfOneMore(l.entries, e, w, Reserved, col);
    SumOfOneMore(l.entries, e, w, Settled, col);
  }

  lemma AddsJobs(l: Ledger, after: Ledger, q: Quota, b: map<WeekId, Brought>, e: Entry, w: WeekId, c: TaskClass)
    requires JobsTally(l, b, w, c) && Adds(l, after, q, e)
    ensures JobsTally(after, b, w, c)
  {
    SlotsOfOneMore(l.entries, e, w, Reserved, c);
    SlotsOfOneMore(l.entries, e, w, Settled, c);
  }

  lemma AddsWithinCaps(l: Ledger, after: Ledger, past: Past, q: Quota, e: Entry, w: WeekId, col: Column)
    requires CapKept(l, past, w, col) && Adds(l, after, q, e)
    ensures CapKept(after, Noted(past, q, e), w, col)
  {
    if w == e.week { assert InCap(after, q, w, col); }
  }

  lemma AddsWithinSlots(l: Ledger, after: Ledger, past: Past, q: Quota, e: Entry, w: WeekId, c: TaskClass)
    requires SlotKept(l, past, w, c) && Adds(l, after, q, e)
    ensures SlotKept(after, Noted(past, q, e), w, c)
  {
  }

  lemma AddsKeeps(l: Ledger, after: Ledger, past: Past, q: Quota, e: Entry)
    requires Balanced(l, past) && Adds(l, after, q, e)
    ensures Balanced(after, Noted(past, q, e))
  {
    var now := Noted(past, q, e);
    forall w, col ensures TokensTally(after, past.brought, w, col) { AddsTokens(l, after, q, past.brought, e, w, col); }
    forall w, c ensures JobsTally(after, past.brought, w, c) { AddsJobs(l, after, q, past.brought, e, w, c); }
    forall w, col ensures CapKept(after, now, w, col) { AddsWithinCaps(l, after, past, q, e, w, col); }
    forall w, c ensures SlotKept(after, now, w, c) { AddsWithinSlots(l, after, past, q, e, w, c); }
    forall i | 0 <= i < |after.entries| ensures after.entries[i].week in after.weeks && IsNoted(now, after.entries[i]) {
      if i < |l.entries| { assert after.entries[i] == l.entries[i]; }
    }
  }

  lemma ReserveKeeps(l: Ledger, past: Past, q: Quota, week: WeekId, job: Job, n: int, taskClass: Option<TaskClass>)
    requires Balanced(l, past) && Reserve(l, q, week, job, n, taskClass).Ok?
    ensures Balanced(Reserve(l, q, week, job, n, taskClass).value, Noted(past, q, EntryOf(week, job, n, taskClass)))
  {
    var after, e := ReserveAdds(l, q, week, job, n, taskClass);
    AddsKeeps(l, after, past, q, e);
  }

  // ----- settle and release

  lemma {:induction false} SumOfChanged(es: seq<Entry>, id: nat, e: Entry, week: WeekId, status: Status, col: Column)
    requires id < |es|
    ensures SumOf(es[id := e], week, status, col) + Part(es[id], week, status, col)
         == SumOf(es, week, status, col) + Part(e, week, status, col)
  {
    var n, after := |es| - 1, es[id := e];
    if id == n {
      assert after[..n] == es[..n];
    } else {
      assert after[..n] == es[..n][id := e];
      SumOfChanged(es[..n], id, e, week, status, col);
    }
  }

  lemma {:induction false} SlotsOfChanged(es: seq<Entry>, id: nat, e: Entry, week: WeekId, status: Status, c: TaskClass)
    requires id < |es|
    ensures SlotsOf(es[id := e], week, status, c) + SlotPart(es[id], week, status, c)
         == SlotsOf(es, week, status, c) + SlotPart(e, week, status, c)
  {
    var n, after := |es| - 1, es[id := e];
    if id == n {
      assert after[..n] == es[..n];
    } else {
      assert after[..n] == es[..n][id := e];
      SlotsOfChanged(es[..n], id, e, week, status, c);
    }
  }

  lemma ClosesTokens(l: Ledger, after: Ledger, b: map<WeekId, Brought>, id: nat, settle: bool, w: WeekId, col: Column)
    requires TokensTally(l, b, w, col) && Closes(l, after, id, settle)
    ensures TokensTally(after, b, w, col)
    ensures Spent(after, w, col) + HeldBack(after, w, col) <= Spent(l, w, col) + HeldBack(l, w, col)
  {
    SumOfChanged(l.entries, id, Closed(l.entries[id], settle), w, Reserved, col);
    SumOfChanged(l.entries, id, Closed(l.entries[id], settle), w, Settled, col);
  }

  lemma ClosesJobs(l: Ledger, after: Ledger, b: map<WeekId, Brought>, id: nat, settle: bool, w: WeekId, c: TaskClass)
    requires JobsTally(l, b, w, c) && Closes(l, after, id, settle)
    ensures JobsTally(after, b, w, c)
    ensures JobsSettled(after, w, c) + JobsHeld(after, w, c) <= JobsSettled(l, w, c) + JobsHeld(l, w, c)
  {
    SlotsOfChanged(l.entries, id, Closed(l.entries[id], settle), w, Reserved, c);
    SlotsOfChanged(l.entries, id, Closed(l.entries[id], settle), w, Settled, c);
  }

  lemma ClosesKeeps(l: Ledger, after: Ledger, past: Past, id: nat, settle: bool)
    requires Balanced(l, past) && Closes(l, after, id, settle)
    ensures Balanced(after, past)
  {
    forall w, col ensures TokensTally(after, past.brought, w, col) && CapKept(after, past, w, col) {
      assert TokensTally(l, past.brought, w, col) && CapKept(l, past, w, col);
      ClosesTokens(l, after, past.brought, id, settle, w, col);
    }
    forall w, c ensures JobsTally(after, past.brought, w, c) && SlotKept(after, past, w, c) {
      assert JobsTally(l, past.brought, w, c) && SlotKept(l, past, w, c);
      ClosesJobs(l, after, past.brought, id, settle, w, c);
    }
  }

  lemma FinishKeeps(l: Ledger, past: Past, id: nat, settle: bool)
    requires Balanced(l, past)
    ensures Balanced(Finish(l, id, settle), past)
  {
    if id < |l.entries| && l.entries[id].status == Reserved {
      var after := FinishCloses(l, id, settle);
      ClosesKeeps(l, after, past, id, settle);
    }
  }

  // ----- a week that begins with a spend

  lemma {:induction false} NoEntriesNoSum(es: seq<Entry>, week: WeekId, status: Status, col: Column, c: TaskClass)
    requires forall i :: 0 <= i < |es| ==> es[i].week != week
    ensures SumOf(es, week, status, col) == 0 && SlotsOf(es, week, status, c) == 0
  {
    if es != [] {
      NoEntriesNoSum(es[..|es| - 1], week, status, col, c);
    }
  }

  function FirstRow(week: WeekId, b: Brought): Week {
    Week(week, b.tokens, 0, b.hex, 0, b.computerUse, 0, b.jobs, map[])
  }

  /** `import_sidecar` and `seed_open_week`: they insert a row, if the week has none. */
  function Import(l: Ledger, week: WeekId, brought: Brought): Ledger {
    if week in l.weeks then l else l.(weeks := l.weeks[week := FirstRow(week, brought)])
  }

  lemma ImportedTokens(l: Ledger, b: map<WeekId, Brought>, week: WeekId, brought: Brought, w: WeekId, col: Column)
    requires TokensTally(l, b, w, col) && week !in l.weeks
    requires forall i :: 0 <= i < |l.entries| ==> l.entries[i].week != week
    ensures TokensTally(Import(l, week, brought), b[week := brought], w, col)
  {
    if w == week {
      NoEntriesNoSum(l.entries, w, Settled, col, TaskClass(""));
      NoEntriesNoSum(l.entries, w, Reserved, col, TaskClass(""));
    }
  }

  lemma ImportedJobs(l: Ledger, b: map<WeekId, Brought>, week: WeekId, brought: Brought, w: WeekId, c: TaskClass)
    requires JobsTally(l, b, w, c) && week !in l.weeks
    requires forall i :: 0 <= i < |l.entries| ==> l.entries[i].week != week
    ensures JobsTally(Import(l, week, brought), b[week := brought], w, c)
  {
    if w == week {
      NoEntriesNoSum(l.entries, w, Settled, Tokens, c);
      NoEntriesNoSum(l.entries, w, Reserved, Tokens, c);
    }
  }

  /** Weeks with a last policy have a row, so an import does not touch them. */
  ghost predicate LastHaveRows(l: Ledger, past: Past) {
    && (forall w :: w in past.last ==> w in l.weeks)
    && (forall w, c :: Slot(w, c) in past.lastOf ==> w in l.weeks)
  }

  lemma ImportKeeps(l: Ledger, past: Past, week: WeekId, brought: Brought)
    requires Balanced(l, past) && LastHaveRows(l, past) && week !in l.weeks
    ensures Balanced(Import(l, week, brought), past.(brought := past.brought[week := brought]))
  {
    var after, now := Import(l, week, brought), past.(brought := past.brought[week := brought]);
    forall w, col ensures TokensTally(after, now.brought, w, col) { ImportedTokens(l, past.brought, week, brought, w, col); }
    forall w, c ensures JobsTally(after, now.brought, w, c) { ImportedJobs(l, past.brought, week, brought, w, c); }
    forall w, col ensures CapKept(after, now, w, col) { assert CapKept(l, past, w, col); }
    forall w, c ensures SlotKept(after, now, w, c) { assert SlotKept(l, past, w, c); }
  }

  // ----- every interleaving

  /** A reserve brings the policy of its own runner. */
  datatype Step =
    | DoImport(week: WeekId, brought: Brought)
    | DoReserve(policy: Quota, week: WeekId, job: Job, n: int, taskClass: Option<TaskClass>)
    | DoSettle(id: nat)
    | DoRelease(id: nat)

  function Next(l: Ledger, s: Step): Ledger {
    match s
    case DoImport(week, brought) => Import(l, week, brought)
    case DoReserve(q, week, job, n, taskClass) =>
      (match Reserve(l, q, week, job, n, taskClass)
       case Ok(after) => after
       case Err(_) => l)
    case DoSettle(id) => Finish(l, id, true)
    case DoRelease(id) => Finish(l, id, false)
  }

  function Run(l: Ledger, steps: seq<Step>): Ledger {
    if steps == [] then l else Next(Run(l, steps[..|steps| - 1]), steps[|steps| - 1])
  }

  const START := Ledger(map[], [])

  function PastNext(l: Ledger, past: Past, s: Step): Past {
    match s
    case DoImport(week, brought) => if week in l.weeks then past else past.(brought := past.brought[week := brought])
    case DoReserve(q, week, job, n, taskClass) =>
      if Reserve(l, q, week, job, n, taskClass).Ok? then Noted(past, q, EntryOf(week, job, n, taskClass)) else past
    case _ => past
  }

  function PastOf(steps: seq<Step>): Past {
    if steps == [] then Past(map[], map[], map[])
    else PastNext(Run(START, steps[..|steps| - 1]), PastOf(steps[..|steps| - 1]), steps[|steps| - 1])
  }

  lemma RowsStay(l: Ledger, s: Step)
    ensures l.weeks.Keys <= Next(l, s).weeks.Keys
  {
    match s
    case DoImport(_, _) =>
    case DoReserve(_, _, _, _, _) =>
    case DoSettle(id) => if id < |l.entries| && l.entries[id].status == Reserved { FinishKeys(l, id, true); }
    case DoRelease(id) => if id < |l.entries| && l.entries[id].status == Reserved { FinishKeys(l, id, false); }
  }

  lemma NextHasRows(l: Ledger, past: Past, s: Step)
    requires LastHaveRows(l, past)
    ensures LastHaveRows(Next(l, s), PastNext(l, past, s))
  {
    RowsStay(l, s);
  }

  lemma NextKeeps(l: Ledger, past: Past, s: Step)
    requires Balanced(l, past) && LastHaveRows(l, past)
    ensures Balanced(Next(l, s), PastNext(l, past, s))
  {
    match s
    case DoImport(week, brought) =>
      if week !in l.weeks { ImportKeeps(l, past, week, brought); }
    case DoReserve(q, week, job, n, taskClass) =>
      if Reserve(l, q, week, job, n, taskClass).Ok? { ReserveKeeps(l, past, q, week, job, n, taskClass); }
    case DoSettle(id) => FinishKeeps(l, past, id, true);
    case DoRelease(id) => FinishKeeps(l, past, id, false);
  }

  lemma {:induction false} RunKeeps(steps: seq<Step>)
    ensures Balanced(Run(START, steps), PastOf(steps)) && LastHaveRows(Run(START, steps), PastOf(steps))
  {
    if steps != [] {
      var front := steps[..|steps| - 1];
      RunKeeps(front);
      NextKeeps(Run(START, front), PastOf(front), steps[|steps| - 1]);
      NextHasRows(Run(START, front), PastOf(front), steps[|steps| - 1]);
    }
  }

  /**
   * However any number of runners interleave, each with a policy of its own, what a week shows as
   * spent is what it began with and what was settled, and what it shows as held is what is open.
   * The two together are within every cap of the policy that last reserved in the week, and its
   * class slots within the limit of the policy that last took one; without any, nothing was added.
   */
  lemma NoInterleavingOverspends(steps: seq<Step>, week: WeekId, col: Column, c: TaskClass)
    ensures var l, past := Run(START, steps), PastOf(steps);
            && Spent(l, week, col) == BroughtIn(past.brought, week, col) + SumOf(l.entries, week, Settled, col)
            && HeldBack(l, week, col) == SumOf(l.entries, week, Reserved, col)
            && (if week in past.last then Spent(l, week, col) + HeldBack(l, week, col) <= CapOf(past.last[week], col)
                else Spent(l, week, col) == BroughtIn(past.brought, week, col) && HeldBack(l, week, col) == 0)
            && JobsSettled(l, week, c) == JobsBrought(past.brought, week, c) + SlotsOf(l.entries, week, Settled, c)
            && JobsHeld(l, week, c) == SlotsOf(l.entries, week, Reserved, c)
            && (if Slot(week, c) in past.lastOf
                then JobsSettled(l, week, c) + JobsHeld(l, week, c) <= past.lastOf[Slot(week, c)].maxHexJobs
                else JobsSettled(l, week, c) == JobsBrought(past.brought, week, c) && JobsHeld(l, week, c) == 0)
  {
    RunKeeps(steps);
    var l, past := Run(START, steps), PastOf(steps);
    assert TokensTally(l, past.brought, week, col) && JobsTally(l, past.brought, week, c);
    assert CapKept(l, past, week, col) && SlotKept(l, past, week, c);
    if week !in past.last { NoEntriesNoTokens(l, past, week, col); }
    if Slot(week, c) !in past.lastOf { NoSlotsNoJobs(l, past, week, c); }
  }

  lemma NoEntriesNoTokens(l: Ledger, past: Past, week: WeekId, col: Column)
    requires Balanced(l, past) && week !in past.last
    ensures SumOf(l.entries, week, Settled, col) == 0 && SumOf(l.entries, week, Reserved, col) == 0
  {
    NoEntriesNoSum(l.entries, week, Settled, col, TaskClass(""));
    NoEntriesNoSum(l.entries, week, Reserved, col, TaskClass(""));
  }

  lemma NoSlotsNoJobs(l: Ledger, past: Past, week: WeekId, c: TaskClass)
    requires Balanced(l, past) && Slot(week, c) !in past.lastOf
    ensures SlotsOf(l.entries, week, Settled, c) == 0 && SlotsOf(l.entries, week, Reserved, c) == 0
  {
    forall i | 0 <= i < |l.entries| ensures l.entries[i].week != week || l.entries[i].slot != Some(c) {
      assert IsNoted(past, l.entries[i]);
    }
    NoSlotsNoSum(l.entries, week, Settled, c);
    NoSlotsNoSum(l.entries, week, Reserved, c);
  }

  lemma {:induction false} NoSlotsNoSum(es: seq<Entry>, week: WeekId, status: Status, c: TaskClass)
    requires forall i :: 0 <= i < |es| ==> es[i].week != week || es[i].slot != Some(c)
    ensures SlotsOf(es, week, status, c) == 0
  {
    if es != [] { NoSlotsNoSum(es[..|es| - 1], week, status, c); }
  }

  /** The last policy of a week is one that some reserve brought. */
  lemma {:induction false} LastIsBrought(steps: seq<Step>, week: WeekId)
    requires week in PastOf(steps).last
    ensures exists i :: 0 <= i < |steps| && steps[i].DoReserve? && steps[i].policy == PastOf(steps).last[week]
  {
    var n := |steps| - 1;
    var front := steps[..n];
    if PastOf(steps).last == PastOf(front).last {
      LastIsBrought(front, week);
      var i :| 0 <= i < n && front[i].DoReserve? && front[i].policy == PastOf(front).last[week];
      assert steps[i] == front[i];
    } else if steps[n].week != week {
      LastIsBrought(front, week);
      var i :| 0 <= i < n && front[i].DoReserve? && front[i].policy == PastOf(front).last[week];
      assert steps[i] == front[i];
    }
  }

  /** For any mix of policies no week passes the largest of their caps, or what it began with. */
  lemma LargestCapHolds(steps: seq<Step>, week: WeekId, col: Column, k: int)
    requires forall i :: 0 <= i < |steps| && steps[i].DoReserve? ==> CapOf(steps[i].policy, col) <= k
    ensures var l := Run(START, steps);
            Spent(l, week, col) + HeldBack(l, week, col) <= Max(k, BroughtIn(PastOf(steps).brought, week, col))
  {
    NoInterleavingOverspends(steps, week, col, TaskClass(""));
    if week in PastOf(steps).last { LastIsBrought(steps, week); }
  }

  /** A week that begins over a cap of a policy takes no reservation under that policy. */
  lemma OverCapTakesNothing(steps: seq<Step>, q: Quota, week: WeekId, job: Job, n: nat, taskClass: Option<TaskClass>, col: Column)
    requires BroughtIn(PastOf(steps).brought, week, col) > CapOf(q, col)
    ensures Reserve(Run(START, steps), q, week, job, n, taskClass).Err?
  {
    NoInterleavingOverspends(steps, week, col, TaskClass(""));
    if Reserve(Run(START, steps), q, week, job, n, taskClass).Ok? {
      ReservedWithinCaps(Run(START, steps), q, week, job, n, taskClass, col);
    }
  }

  lemma ReservedWithinCaps(l: Ledger, q: Quota, week: WeekId, job: Job, n: nat, taskClass: Option<TaskClass>, col: Column)
    requires Reserve(l, q, week, job, n, taskClass).Ok?
    ensures Spent(l, week, col) <= CapOf(q, col)
  {
    var after, e := ReserveAdds(l, q, week, job, n, taskClass);
    assert InCap(after, q, week, col) && Spent(after, week, col) == Spent(l, week, col);
  }

  // ----- a reservation is a charge

  function Total(l: Ledger, week: WeekId, col: Column): nat {
    Spent(l, week, col) + HeldBack(l, week, col)
  }

  function JobsTotal(l: Ledger, week: WeekId, c: TaskClass): nat {
    JobsSettled(l, week, c) + JobsHeld(l, week, c)
  }

  function InHand(q: Quota, col: Column): nat {
    match col
    case Tokens => q.tokens
    case HexTokens => q.hexTokens
    case ComputerUseTokens => q.computerUseTokens
  }

  /** What a week shows: its row, or that nothing has been spent. */
  function WeekShows(l: Ledger, q: Quota, week: WeekId): Quota {
    if week in l.weeks then Snapshot(l, q, week) else Fresh(q)
  }

  lemma WeekShowsTotals(l: Ledger, q: Quota, week: WeekId, col: Column, c: TaskClass)
    ensures InHand(WeekShows(l, q, week), col) == Total(l, week, col)
    ensures WeekShows(l, q, week).JobsOf(c) == JobsTotal(l, week, c)
  {
  }

  lemma ChargeByColumn(q: Quota, job: Job, n: nat, taskClass: Option<TaskClass>, week: WeekId, col: Column)
    ensures InHand(q.Charge(job, n, taskClass), col) == InHand(q, col) + Part(EntryOf(week, job, n, taskClass), week, Reserved, col)
  {
  }

  /**
   * A reserve puts on the week what the quota's own charge puts on a spend: on each pot, and for
   * each class, save that the empty class takes no slot in the ledger. What other weeks show, and
   * every spent column, stays.
   */
  lemma ReserveIsCharge(l: Ledger, q: Quota, week: WeekId, job: Job, n: nat, taskClass: Option<TaskClass>, col: Column, c: TaskClass)
    requires Reserve(l, q, week, job, n, taskClass).Ok?
    ensures var after, charged := Reserve(l, q, week, job, n, taskClass).value, WeekShows(l, q, week).Charge(job, n, taskClass);
            && week in after.weeks && InHand(Snapshot(after, q, week), col) == InHand(charged, col)
            && (c.name != "" ==> Snapshot(after, q, week).JobsOf(c) == charged.JobsOf(c))
            && (c.name == "" ==> Snapshot(after, q, week).JobsOf(c) == WeekShows(l, q, week).JobsOf(c))
            && (forall w :: Spent(after, w, col) == Spent(l, w, col)) && forall w :: w != week ==> Total(after, w, col) == Total(l, w, col)
  {
    var after, e := ReserveAdds(l, q, week, job, n, taskClass);
    WeekShowsTotals(l, q, week, col, c);
    WeekShowsTotals(after, q, week, col, c);
    ChargeByColumn(WeekShows(l, q, week), job, n, taskClass, week, col);
    ChargeByClass(WeekShows(l, q, week), job, n, taskClass, week, c);
  }

  lemma ChargeByClass(q: Quota, job: Job, n: nat, taskClass: Option<TaskClass>, week: WeekId, c: TaskClass)
    ensures SlotPart(EntryOf(week, job, n, taskClass), week, Reserved, c)
         == if c.name == "" then 0 else q.Charge(job, n, taskClass).JobsOf(c) - q.JobsOf(c)
  {
  }

  /** A settle moves exactly that from held to spent, so that the week shows the same. */
  lemma SettleSpendsTheCharge(l: Ledger, q: Quota, past: Past, id: nat, col: Column, c: TaskClass)
    requires Balanced(l, past) && id < |l.entries| && l.entries[id].status == Reserved
    ensures var after, e := Finish(l, id, true), l.entries[id];
            && Spent(after, e.week, col) == Spent(l, e.week, col) + Amount(e, col)
            && Total(after, e.week, col) == Total(l, e.week, col) && JobsTotal(after, e.week, c) == JobsTotal(l, e.week, c)
  {
    var after := FinishCloses(l, id, true);
    var week := l.entries[id].week;
    assert TokensTally(l, past.brought, week, col) && JobsTally(l, past.brought, week, c);
    PartInSum(l.entries, id, week, col, c);
  }

  lemma {:induction false} PartInSum(es: seq<Entry>, id: nat, week: WeekId, col: Column, c: TaskClass)
    requires id < |es|
    ensures Part(es[id], week, Reserved, col) <= SumOf(es, week, Reserved, col)
    ensures SlotPart(es[id], week, Reserved, c) <= SlotsOf(es, week, Reserved, c)
  {
    if id < |es| - 1 { PartInSum(es[..|es| - 1], id, week, col, c); }
  }

  // ----- calls that repeat or undo

  /** A reservation is finished once: after a settle or a release both do nothing. */
  lemma FinishedOnce(l: Ledger, id: nat, settle: bool, again: bool)
    ensures Finish(Finish(l, id, settle), id, again) == Finish(l, id, settle)
  {
  }

  /** A class without held slots is not in the map: slots that run out are dropped. */
  ghost predicate NoEmptySlots(l: Ledger) {
    forall w, c :: w in l.weeks && c in l.weeks[w].heldJobs ==> l.weeks[w].heldJobs[c] > 0
  }

  lemma {:induction false} SlotsNeverEmpty(steps: seq<Step>)
    ensures NoEmptySlots(Run(START, steps))
  {
    if steps != [] {
      SlotsNeverEmpty(steps[..|steps| - 1]);
    }
  }

  /** A release gives back exactly what the reserve took, at any point of any run. */
  lemma ReleaseUndoesReserve(q: Quota, steps: seq<Step>, week: WeekId, job: Job, n: int, taskClass: Option<TaskClass>)
    requires Reserve(Run(START, steps), q, week, job, n, taskClass).Ok?
    ensures var l := Run(START, steps);
            var back := Finish(Reserve(l, q, week, job, n, taskClass).value, |l.entries|, false);
            && back.weeks == l.weeks[week := WeekOf(l, week)]
            && back.entries[..|l.entries|] == l.entries
  {
    var l := Run(START, steps);
    var w, e := WeekOf(l, week), EntryOf(week, job, n, taskClass);
    SlotsNeverEmpty(steps);
    if e.slot.Some? { SlotComesBack(w.heldJobs, e.slot.value); }
    assert Unhold(Hold(w, e), e, false) == w;
  }

  lemma SlotComesBack(m: map<TaskClass, nat>, c: TaskClass)
    requires c in m ==> m[c] > 0
    ensures DropSlot(m[c := CountOf(m, c) + 1], Some(c)) == m
  {
  }

  // ----- admission on a snapshot

  /**
   * A job that the snapshot admits can be reserved iff the week is within every cap, also those
   * the job does not draw on: admission looks at fewer of them than a reserve.
   */
  lemma AdmittedCanReserveIff(l: Ledger, q: Quota, week: WeekId, job: Job, n: nat, taskClass: Option<TaskClass>)
    requires Snapshot(l, q, week).CanAdmit(job, taskClass, n)
    ensures Reserve(l, q, week, job, n, taskClass).Ok? <==> Fits(WeekOf(l, week), q)
  {
    AdmittedFits(Snapshot(l, q, week), job, n, taskClass);
    SnapshotCovers(l, q, week);
    if taskClass.Some? { SnapshotCoversClass(l, q, week, taskClass.value); }
    if Fits(WeekOf(l, week), q) {
      RoomIsEnough(WeekOf(l, week), q, Snapshot(l, q, week), week, job, n, taskClass);
    } else {
      HoldOnlyAdds(WeekOf(l, week), q, EntryOf(week, job, n, taskClass));
    }
  }

  lemma HoldOnlyAdds(w: Week, q: Quota, e: Entry)
    ensures Fits(Hold(w, e), q) ==> Fits(w, q)
  {
  }

  /** A snapshot shows at least what the week has spent and held. */
  lemma SnapshotCovers(l: Ledger, q: Quota, week: WeekId)
    ensures var seen, w := Snapshot(l, q, week), WeekOf(l, week);
            && w.tokens + w.tokensHeld <= seen.tokens
            && w.hex + w.hexHeld <= seen.hexTokens
            && w.computerUse + w.computerUseHeld <= seen.computerUseTokens
  {
  }

  lemma SnapshotCoversClass(l: Ledger, q: Quota, week: WeekId, c: TaskClass)
    ensures JobsSettled(l, week, c) + JobsHeld(l, week, c) <= Snapshot(l, q, week).JobsOf(c)
  {
  }

  lemma RoomIsEnough(w: Week, q: Quota, seen: Quota, week: WeekId, job: Job, n: nat, taskClass: Option<TaskClass>)
    requires Fits(w, q) && SameCaps(seen, q)
    requires w.tokens + w.tokensHeld <= seen.tokens && seen.tokens + n <= seen.cap
    requires w.hex + w.hexHeld <= seen.hexTokens
    requires w.computerUse + w.computerUseHeld <= seen.computerUseTokens
    requires job == PracticeHex ==> seen.hexTokens + n <= seen.ShareCap(seen.hexShare)
    requires UsesComputer(job, taskClass) ==> seen.computerUseTokens + n <= seen.ShareCap(seen.computerUseShare)
    ensures Fits(Hold(w, EntryOf(week, job, n, taskClass)), q)
  {
  }

  lemma AdmittedFits(q: Quota, job: Job, n: nat, taskClass: Option<TaskClass>)
    requires q.CanAdmit(job, taskClass, n)
    ensures q.tokens + n <= q.cap
    ensures job == PracticeHex ==> q.hexTokens + n <= q.ShareCap(q.hexShare)
    ensures UsesComputer(job, taskClass) ==> q.computerUseTokens + n <= q.ShareCap(q.computerUseShare)
    ensures job == PracticeHex && taskClass.Some? ==> q.JobsOf(taskClass.value) < q.maxHexJobs
  {
  }

  // ----- a runner that lives into a new week

  /** A `JobRunner` with a ledger: the quota in hand is replaced by every snapshot. */
  datatype Runner = Runner(ledger: Ledger, hand: Quota)

  /** What other runners do after a job was admitted, while it runs, and once it has settled or released. */
  datatype Others = Others(admitted: seq<Step>, running: seq<Step>, finished: seq<Step>)

  /** A job that fails gives its reservation back. */
  datatype Act =
    | Try(job: Job, n: nat, taskClass: Option<TaskClass>, succeeds: bool, others: Others)
    | Other(step: Step)

  /** The ledger that the reserve of an admitted job finds. */
  function Found(r: Runner, a: Act): Ledger
    requires a.Try?
  {
    Run(r.ledger, a.others.admitted)
  }

  function Held(r: Runner, week: WeekId, a: Act): Result<Ledger, ReserveError>
    requires a.Try?
  {
    Reserve(Found(r, a), Snapshot(r.ledger, r.hand, week), week, a.job, a.n, a.taskClass)
  }

  predicate JobRuns(r: Runner, week: WeekId, a: Act)
    requires a.Try?
  {
    Snapshot(r.ledger, r.hand, week).CanAdmit(a.job, a.taskClass, a.n) && (a.n == 0 || Held(r, week, a).Ok?)
  }

  /** The ledger when the job has run, and its reservation is about to be settled or released. */
  function Worked(r: Runner, week: WeekId, a: Act): Ledger
    requires a.Try? && Held(r, week, a).Ok?
  {
    Run(Held(r, week, a).value, a.others.running)
  }

  function Ended(r: Runner, week: WeekId, a: Act): Ledger
    requires a.Try? && Held(r, week, a).Ok?
  {
    Run(Finish(Worked(r, week, a), |Found(r, a).entries|, a.succeeds), a.others.finished)
  }

  /** `run`: a job without tokens needs no reservation. */
  function Acted(r: Runner, week: WeekId, a: Act): Runner {
    match a
    case Other(step) => r.(ledger := Next(r.ledger, step))
    case Try(job, n, taskClass, _, _) =>
      var seen := Snapshot(r.ledger, r.hand, week);
      if !seen.CanAdmit(job, taskClass, n) || n == 0 then r.(hand := seen)
      else if Held(r, week, a).Err? then Runner(Found(r, a), seen)
      else Runner(Ended(r, week, a), Snapshot(Ended(r, week, a), seen, week))
  }

  function ActedAll(r: Runner, week: WeekId, acts: seq<Act>): Runner {
    if acts == [] then r else Acted(ActedAll(r, week, acts[..|acts| - 1]), week, acts[|acts| - 1])
  }

  /** In this week the two runners run the same jobs, whatever they try and others do. */
  ghost predicate RunAlike(r: Runner, s: Runner, week: WeekId) {
    forall acts: seq<Act>, a: Act :: a.Try? ==> (JobRuns(ActedAll(r, week, acts), week, a) <==> JobRuns(ActedAll(s, week, acts), week, a))
  }

  /** Nothing of last week's is in the way: every pot a job can draw on is unspent or has no room at all. */
  ghost predicate StartsFree(q: Quota) {
    q.cap == 0 || (q.tokens == 0 && ComputerUseFree(q) && HexFree(q))
  }

  predicate ComputerUseFree(q: Quota) {
    q.ShareCap(q.computerUseShare) == 0 || q.computerUseTokens == 0
  }

  ghost predicate HexFree(q: Quota) {
    q.ShareCap(q.hexShare) == 0 || (q.hexTokens == 0 && forall c :: SlotOpen(q, c))
  }

  predicate SlotOpen(q: Quota, c: TaskClass) {
    q.JobsOf(c) < q.maxHexJobs || q.maxHexJobs == 0 || (c in COMPUTER_USE && q.ShareCap(q.computerUseShare) == 0)
  }

  /** The shares of a new week: an unspent pot has its cap left, and a spent one less. */
  lemma ShareAtStart(q: Quota, spent: nat, share: real, n: int)
    requires q.cap > 0 && q.tokens == 0 && 0.0 <= share <= 1.0
    requires q.ShareCap(share) == 0 || spent == 0
    ensures q.ShareHas(spent, share, n) <==> Fresh(q).ShareHas(0, share, n)
  {
    ShareWithinCap(q.cap, share);
  }

  lemma FreeHex(q: Quota, taskClass: Option<TaskClass>, n: int)
    requires q.ValidShares() && q.cap > 0 && StartsFree(q)
    ensures q.CanAdmit(PracticeHex, taskClass, n) <==> Fresh(q).CanAdmit(PracticeHex, taskClass, n)
  {
    ShareAtStart(q, q.computerUseTokens, q.computerUseShare, n);
    if q.ShareCap(q.hexShare) == 0 {
      assert !q.ShareHas(q.hexTokens, q.hexShare, n) && !Fresh(q).ShareHas(0, q.hexShare, n);
    } else {
      ShareAtStart(q, q.hexTokens, q.hexShare, n);
      if taskClass.Some? { assert SlotOpen(q, taskClass.value); }
    }
  }

  lemma FreeOther(q: Quota, job: Job, taskClass: Option<TaskClass>, n: int)
    requires q.ValidShares() && q.cap > 0 && StartsFree(q) && job != PracticeHex
    ensures q.CanAdmit(job, taskClass, n) <==> Fresh(q).CanAdmit(job, taskClass, n)
  {
    ShareAtStart(q, q.computerUseTokens, q.computerUseShare, n);
  }

  lemma FreeAdmits(q: Quota, job: Job, taskClass: Option<TaskClass>, n: int)
    requires q.ValidShares() && StartsFree(q)
    ensures q.CanAdmit(job, taskClass, n) <==> Fresh(q).CanAdmit(job, taskClass, n)
  {
    if q.cap > 0 {
      if job == PracticeHex { FreeHex(q, taskClass, n); } else { FreeOther(q, job, taskClass, n); }
    }
  }

  function Nobody(): Others {
    Others([], [], [])
  }

  /** A job that a quota refuses and a week with nothing spent admits. */
  ghost predicate Tells(q: Quota, a: Act) {
    a.Try? && a.n > 0 && a.others == Nobody() && !q.CanAdmit(a.job, a.taskClass, a.n) && Fresh(q).CanAdmit(a.job, a.taskClass, a.n)
  }

  lemma SpentTells(q: Quota)
    requires q.tokens > 0 && q.cap > 0
    ensures Tells(q, Try(Recertifier, q.cap, None, true, Nobody()))
  {
  }

  lemma ComputerUseTells(q: Quota)
    requires q.ValidShares() && q.tokens == 0 && q.cap > 0 && !ComputerUseFree(q)
    ensures q.ShareCap(q.computerUseShare) > 0
    ensures Tells(q, Try(PracticeBand, q.ShareCap(q.computerUseShare), Some(TaskClass("bug_reproduction")), true, Nobody()))
  {
    ShareWithinCap(q.cap, q.computerUseShare);
  }

  lemma HexTells(q: Quota)
    requires q.ValidShares() && q.tokens == 0 && q.cap > 0 && q.ShareCap(q.hexShare) > 0 && q.hexTokens > 0
    ensures Tells(q, Try(PracticeHex, q.ShareCap(q.hexShare), None, true, Nobody()))
  {
    ShareWithinCap(q.cap, q.hexShare);
  }

  lemma SlotTells(q: Quota, c: TaskClass)
    requires q.ValidShares() && q.tokens == 0 && q.cap > 0 && ComputerUseFree(q)
    requires q.ShareCap(q.hexShare) > 0 && !SlotOpen(q, c)
    ensures Tells(q, Try(PracticeHex, 1, Some(c), true, Nobody()))
  {
    ShareWithinCap(q.cap, q.hexShare);
    ShareWithinCap(q.cap, q.computerUseShare);
  }

  lemma NotFreeTells(q: Quota) returns (a: Act)
    requires q.ValidShares() && !StartsFree(q)
    ensures Tells(q, a)
  {
    ShareWithinCap(q.cap, q.hexShare);
    if q.tokens > 0 {
      SpentTells(q);
      a := Try(Recertifier, q.cap, None, true, Nobody());
    } else if !ComputerUseFree(q) {
      ComputerUseTells(q);
      a := Try(PracticeBand, q.ShareCap(q.computerUseShare), Some(TaskClass("bug_reproduction")), true, Nobody());
    } else if q.hexTokens > 0 {
      HexTells(q);
      a := Try(PracticeHex, q.ShareCap(q.hexShare), None, true, Nobody());
    } else {
      var c :| !SlotOpen(q, c);
      SlotTells(q, c);
      a := Try(PracticeHex, 1, Some(c), true, Nobody());
    }
  }

  /** While the week has no row both hands are what they were; from then on they are the same. */
  ghost predicate InParallel(r: Runner, s: Runner, hand: Quota, week: WeekId) {
    && r.ledger == s.ledger
    && (if week in r.ledger.weeks then s.hand == r.hand || (r.hand == hand && s.hand == Fresh(hand))
        else r.hand == hand && s.hand == Fresh(hand))
  }

  /** A reserve looks at the caps of the quota only. */
  lemma ReserveByCaps(l: Ledger, q: Quota, week: WeekId, a: Act)
    requires a.Try?
    ensures Reserve(l, Fresh(q), week, a.job, a.n, a.taskClass) == Reserve(l, q, week, a.job, a.n, a.taskClass)
  {
    FitsByCaps(Hold(WeekOf(l, week), EntryOf(week, a.job, a.n, a.taskClass)), q);
  }

  lemma FitsByCaps(w: Week, q: Quota)
    ensures Fits(w, Fresh(q)) <==> Fits(w, q)
  {
  }

  lemma SeenAlike(r: Runner, s: Runner, hand: Quota, week: WeekId, a: Act)
    requires hand.ValidShares() && StartsFree(hand) && InParallel(r, s, hand, week) && a.Try?
    ensures Snapshot(r.ledger, r.hand, week).CanAdmit(a.job, a.taskClass, a.n) <==> Snapshot(s.ledger, s.hand, week).CanAdmit(a.job, a.taskClass, a.n)
    ensures Held(r, week, a) == Held(s, week, a)
  {
    if week !in r.ledger.weeks {
      FreeAdmits(hand, a.job, a.taskClass, a.n);
      ReserveByCaps(Found(r, a), hand, week, a);
    } else {
      RowHidesHand(r.ledger, hand, week);
    }
  }

  /** Once the week has a row, a snapshot keeps only the caps of the hand. */
  lemma RowHidesHand(l: Ledger, hand: Quota, week: WeekId)
    requires week in l.weeks
    ensures Snapshot(l, Fresh(hand), week) == Snapshot(l, hand, week)
  {
  }

  lemma {:induction false} AllRowsStay(l: Ledger, steps: seq<Step>)
    ensures l.weeks.Keys <= Run(l, steps).weeks.Keys
  {
    if steps != [] {
      AllRowsStay(l, steps[..|steps| - 1]);
      RowsStay(Run(l, steps[..|steps| - 1]), steps[|steps| - 1]);
    }
  }

  lemma EndedHasRow(r: Runner, week: WeekId, a: Act)
    requires a.Try? && Held(r, week, a).Ok?
    ensures week in Ended(r, week, a).weeks
  {
    var l, id := Worked(r, week, a), |Found(r, a).entries|;
    AllRowsStay(Held(r, week, a).value, a.others.running);
    if id < |l.entries| && l.entries[id].status == Reserved { FinishKeys(l, id, a.succeeds); }
    AllRowsStay(Finish(l, id, a.succeeds), a.others.finished);
  }

  lemma {:induction false} ActedInParallel(r: Runner, s: Runner, hand: Quota, week: WeekId, a: Act)
    requires hand.ValidShares() && StartsFree(hand) && InParallel(r, s, hand, week)
    ensures InParallel(Acted(r, week, a), Acted(s, week, a), hand, week)
  {
    if a.Try? {
      SeenAlike(r, s, hand, week, a);
      AllRowsStay(r.ledger, a.others.admitted);
      if week in r.ledger.weeks { RowHidesHand(r.ledger, hand, week); }
      if Held(r, week, a).Ok? {
        EndedHasRow(r, week, a);
        RowHidesHand(Ended(r, week, a), hand, week);
      }
    } else {
      RowsStay(r.ledger, a.step);
    }
  }

  lemma {:induction false} AllInParallel(r: Runner, s: Runner, hand: Quota, week: WeekId, acts: seq<Act>)
    requires hand.ValidShares() && StartsFree(hand) && InParallel(r, s, hand, week)
    ensures InParallel(ActedAll(r, week, acts), ActedAll(s, week, acts), hand, week)
  {
    if acts != [] {
      AllInParallel(r, s, hand, week, acts[..|acts| - 1]);
      ActedInParallel(ActedAll(r, week, acts[..|acts| - 1]), ActedAll(s, week, acts[..|acts| - 1]), hand, week, acts[|acts| - 1]);
    }
  }

  /** A week without a row is within every cap. */
  lemma EmptyWeekFits(l: Ledger, q: Quota, week: WeekId)
    requires q.ValidShares() && week !in l.weeks
    ensures Fits(WeekOf(l, week), q)
  {
    ShareWithinCap(q.cap, q.hexShare);
    ShareWithinCap(q.cap, q.computerUseShare);
  }

  lemma NotFreeDiffers(l: Ledger, hand: Quota, week: WeekId) returns (a: Act)
    requires week !in l.weeks && hand.ValidShares() && !StartsFree(hand)
    ensures a.Try? && !JobRuns(Runner(l, hand), week, a) && JobRuns(Runner(l, Fresh(hand)), week, a)
  {
    a := NotFreeTells(hand);
    EmptyWeekFits(l, Fresh(hand), week);
    AdmittedCanReserveIff(l, Fresh(hand), week, a.job, a.n, a.taskClass);
  }

  /**
   * A week that no reservation has opened yet is admitted against the quota in hand, so a runner
   * that brings one from an earlier week runs the jobs of a runner with nothing spent iff
   * `StartsFree` holds of what it brings.
   */
  lemma NewWeekIff(l: Ledger, hand: Quota, week: WeekId)
    requires week !in l.weeks && hand.ValidShares()
    ensures RunAlike(Runner(l, hand), Runner(l, Fresh(hand)), week) <==> StartsFree(hand)
  {
    var r, s := Runner(l, hand), Runner(l, Fresh(hand));
    if StartsFree(hand) {
      forall acts: seq<Act>, a: Act | a.Try?
        ensures JobRuns(ActedAll(r, week, acts), week, a) <==> JobRuns(ActedAll(s, week, acts), week, a)
      {
        AllInParallel(r, s, hand, week, acts);
        SeenAlike(ActedAll(r, week, acts), ActedAll(s, week, acts), hand, week, a);
      }
    } else {
      var a := NotFreeDiffers(l, hand, week);
      assert ActedAll(r, week, []) == r && ActedAll(s, week, []) == s;
    }
  }

  /** After a job the hand shows what the week's row has spent and holds. */
  lemma HandShowsTheWeek(r: Runner, week: WeekId, a: Act, col: Column, c: TaskClass)
    requires a.Try? && JobRuns(r, week, a) && (a.n > 0 || week in r.ledger.weeks)
    ensures var after := Acted(r, week, a);
            && week in after.ledger.weeks
            && InHand(after.hand, col) == Spent(after.ledger, week, col) + HeldBack(after.ledger, week, col)
            && after.hand.JobsOf(c) == JobsSettled(after.ledger, week, c) + JobsHeld(after.ledger, week, c)
  {
    if a.n > 0 { EndedHasRow(r, week, a); }
  }

  /** What is spent is never taken back. */
  lemma SpendStays(l: Ledger, s: Step, week: WeekId, col: Column)
    ensures Spent(l, week, col) <= Spent(Next(l, s), week, col)
  {
  }

  lemma {:induction false} AllSpendStays(l: Ledger, steps: seq<Step>, week: WeekId, col: Column)
    ensures Spent(l, week, col) <= Spent(Run(l, steps), week, col)
  {
    if steps != [] {
      AllSpendStays(l, steps[..|steps| - 1], week, col);
      SpendStays(Run(l, steps[..|steps| - 1]), steps[|steps| - 1], week, col);
    }
  }

  /** An entry keeps its week and amounts. */
  predicate SameEntry(l: Ledger, after: Ledger, id: nat) {
    id < |l.entries| <= |after.entries| && after.entries[id] == l.entries[id].(status := after.entries[id].status)
  }

  lemma EntryStays(l: Ledger, s: Step, id: nat)
    requires id < |l.entries|
    ensures SameEntry(l, Next(l, s), id)
  {
  }

  lemma {:induction false} EntriesStay(l: Ledger, steps: seq<Step>, id: nat)
    requires id < |l.entries|
    ensures SameEntry(l, Run(l, steps), id)
  {
    if steps != [] {
      EntriesStay(l, steps[..|steps| - 1], id);
      EntryStays(Run(l, steps[..|steps| - 1]), steps[|steps| - 1], id);
    }
  }

  /** The job's own settle counts: nobody finished its reservation while it ran. */
  predicate Settles(r: Runner, week: WeekId, a: Act) {
    && a.Try? && a.n > 0 && a.succeeds && JobRuns(r, week, a)
    && var l, id := Worked(r, week, a), |Found(r, a).entries|;
       id < |l.entries| && l.entries[id].status == Reserved
  }

  /**
   * Across the week change: when the last thing a runner did was a job that settled, it starts
   * the next week differently from a new runner, until somebody's reservation opens that week.
   */
  lemma SettledStartsStale(r: Runner, week: WeekId, a: Act, next: WeekId)
    requires r.hand.ValidShares() && Settles(r, week, a)
    requires next !in Acted(r, week, a).ledger.weeks
    ensures !RunAlike(Acted(r, week, a), Acted(r, week, a).(hand := Fresh(Acted(r, week, a).hand)), next)
  {
    var after := Acted(r, week, a);
    SettledIsInHand(r, week, a);
    NewWeekIff(after.ledger, after.hand, next);
  }

  lemma SettledIsInHand(r: Runner, week: WeekId, a: Act)
    requires Settles(r, week, a)
    ensures var hand := Acted(r, week, a).hand;
            SameCaps(hand, r.hand) && hand.tokens >= a.n && hand.cap >= a.n
  {
    SettledIsSpent(r, week, a);
    HandShowsTheWeek(r, week, a, Tokens, TaskClass(""));
  }

  lemma SettledIsSpent(r: Runner, week: WeekId, a: Act)
    requires Settles(r, week, a)
    ensures Spent(Ended(r, week, a), week, Tokens) >= a.n
  {
    var id := |Found(r, a).entries|;
    var held, e := ReserveAdds(Found(r, a), Snapshot(r.ledger, r.hand, week), week, a.job, a.n, a.taskClass);
    AllRowsStay(held, a.others.running);
    EntriesStay(held, a.others.running, id);
    var after := FinishCloses(Worked(r, week, a), id, true);
    AllSpendStays(after, a.others.finished, week, Tokens);
  }

  /** Left to itself, a runner that has the whole cap in hand runs no job in the new week. */
  lemma {:induction false} FullHandIsStuck(r: Runner, week: WeekId, acts: seq<Act>, a: Act)
    requires week !in r.ledger.weeks && r.hand.tokens >= r.hand.cap
    requires a.Try? && forall i :: 0 <= i < |acts| ==> acts[i].Try?
    ensures ActedAll(r, week, acts) == r && !JobRuns(r, week, a)
  {
    if acts != [] {
      FullHandIsStuck(r, week, acts[..|acts| - 1], acts[|acts| - 1]);
    }
  }
}
