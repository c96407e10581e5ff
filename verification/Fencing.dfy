/**
 * When the leases of `src/recertia/persistence/idempotency.py` fence: which clock steps a keyed
 * request may live through without another request's row being completed or deleted by it.
 */
module Fencing {
  import opened Prelude
  import opened Idempotency
  import opened KeyedBind

  /** Completing or releasing changes a row only for the request that reserved it last, and no other row. */
  ghost predicate OwnerWrites(s: System, a: Action)
    requires Enabled(s, a)
  {
    (a.Finish? || a.Undo?) && Next(s, a).rows != s.rows ==>
      var k := s.procs[a.pid].request.key;
      && k in s.owner && s.owner[k] == a.pid
      && forall j :: j in s.rows && j != k ==> j in Next(s, a).rows && Next(s, a).rows[j] == s.rows[j]
  }

  /** The clock is at most `back` seconds behind the latest time it has shown. */
  predicate Steady(s: System, back: nat) {
    s.peak - s.now <= back
  }

  /** A holder either owns its pending row, or lost it, at a time its lease's gap later at the earliest. */
  ghost predicate LeaseSound(s: System, pid: Pid)
    requires pid in s.procs && Holding(s.procs[pid].stage)
  {
    var q, lease := s.procs[pid].request, s.procs[pid].stage.lease;
    || (HeldBy(s.rows, q.key, q.body, lease) && q.key in s.owner && s.owner[q.key] == pid)
    || (lease + Gap(s.ttl) <= s.peak && (q.key in s.rows ==> lease < s.rows[q.key].createdAt))
  }

  ghost predicate Fenced(s: System) {
    forall pid :: pid in s.procs && Holding(s.procs[pid].stage) ==> LeaseSound(s, pid)
  }

  // ----- a steady clock fences

  /** Only the request that owns a pending row can match it. */
  lemma HolderOwns(s: System, pid: Pid)
    requires Fenced(s) && pid in s.procs && Holding(s.procs[pid].stage)
    requires HeldBy(s.rows, s.procs[pid].request.key, s.procs[pid].request.body, s.procs[pid].stage.lease)
    ensures s.procs[pid].request.key in s.owner && s.owner[s.procs[pid].request.key] == pid
  {
    assert LeaseSound(s, pid);
  }

  lemma FencedWrites(s: System, a: Action)
    requires Inv(s) && Fenced(s) && Enabled(s, a)
    ensures OwnerWrites(s, a)
  {
    if a.Finish? || a.Undo? {
      var p := s.procs[a.pid];
      if HeldBy(s.rows, p.request.key, p.request.body, p.stage.lease) {
        HolderOwns(s, a.pid);
      }
    }
  }

  /** Every earlier holder keeps its row, or has lost it to a row dated later than its lease. */
  lemma ClaimFences(s: System, a: Action, back: nat, p: Pid)
    requires Inv(s) && Fenced(s) && Enabled(s, a) && a.Claim?
    requires Steady(s, back) && back < Gap(s.ttl)
    requires p in Next(s, a).procs && Holding(Next(s, a).procs[p].stage)
    ensures LeaseSound(Next(s, a), p)
  {
    if p == a.pid {
      ReserveAnswers(s.rows, a.swept, a.request.key, a.request.body, s.now, s.ttl);
    } else {
      var k := s.procs[p].request.key;
      assert LeaseSound(s, p);
      ReserveRows(s, a.request, a.swept, k);
      ClaimOwners(s, a, k);
    }
  }

  /** A claim leaves a key with its row and owner, takes its row, or lets go of an expired one. */
  lemma ClaimOwners(s: System, a: Action, k: KeyScope)
    requires Inv(s) && Enabled(s, a) && a.Claim?
    ensures var t := Next(s, a);
            || (k in t.rows && k in s.rows && t.rows[k] == s.rows[k] && k in s.owner && k in t.owner && t.owner[k] == s.owner[k])
            || (k in t.rows && k in s.rows && t.rows[k] == s.rows[k] && k !in s.owner)
            || (k in t.rows && t.rows[k].createdAt == s.now && (k in s.rows ==> s.rows[k].createdAt + Gap(s.ttl) <= s.now))
            || (k !in t.rows && (k in s.rows ==> s.rows[k].createdAt + Gap(s.ttl) <= s.now))
  {
    ReserveRows(s, a.request, a.swept, k);
    ReserveAnswers(s.rows, a.swept, a.request.key, a.request.body, s.now, s.ttl);
    if k in s.rows { assert RowSound(s, k); }
  }

  lemma FinishFences(s: System, a: Action, p: Pid)
    requires Inv(s) && Fenced(s) && Enabled(s, a) && (a.Finish? || a.Undo?)
    requires p in Next(s, a).procs && Holding(Next(s, a).procs[p].stage)
    ensures LeaseSound(Next(s, a), p)
  {
    assert LeaseSound(s, p);
    FencedWrites(s, a);
  }

  lemma OtherFences(s: System, a: Action, p: Pid)
    requires Inv(s) && Fenced(s) && Enabled(s, a) && !a.Claim? && !a.Finish? && !a.Undo?
    requires p in Next(s, a).procs && Holding(Next(s, a).procs[p].stage)
    ensures LeaseSound(Next(s, a), p)
  {
    if p !in s.procs { NoNewRequests(s, a, p); }
    RequestsStay(s, a, p);
    KeysStay(s, a);
    assert LeaseSound(s, p);
  }

  lemma StepFences(s: System, a: Action, back: nat)
    requires Inv(s) && Fenced(s) && Enabled(s, a) && Steady(s, back) && back < Gap(s.ttl)
    ensures Fenced(Next(s, a))
  {
    forall p | p in Next(s, a).procs && Holding(Next(s, a).procs[p].stage) ensures LeaseSound(Next(s, a), p) {
      if a.Claim? {
        ClaimFences(s, a, back, p);
      } else if a.Finish? || a.Undo? {
        FinishFences(s, a, p);
      } else {
        OtherFences(s, a, p);
      }
    }
  }

  lemma TimeToLiveStays(s: System, a: Action)
    requires Enabled(s, a)
    ensures Next(s, a).ttl == s.ttl
  {
  }

  // ----- plays: runs given by their first state and their actions

  ghost predicate Plays(s: System, actions: seq<Action>)
    decreases |actions|
  {
    actions == [] || (Enabled(s, actions[0]) && Plays(Next(s, actions[0]), actions[1..]))
  }

  ghost predicate SteadyPlay(s: System, actions: seq<Action>, back: nat)
    requires Plays(s, actions)
    decreases |actions|
  {
    Steady(s, back) && (actions == [] || SteadyPlay(Next(s, actions[0]), actions[1..], back))
  }

  ghost predicate OwnersWrite(s: System, actions: seq<Action>)
    requires Plays(s, actions)
    decreases |actions|
  {
    actions == [] || (OwnerWrites(s, actions[0]) && OwnersWrite(Next(s, actions[0]), actions[1..]))
  }

  lemma {:induction false} SteadyClockFences(s: System, actions: seq<Action>, back: nat)
    requires Inv(s) && Fenced(s) && back < Gap(s.ttl)
    requires Plays(s, actions) && SteadyPlay(s, actions, back)
    ensures OwnersWrite(s, actions)
    decreases |actions|
  {
    if actions != [] {
      FencedWrites(s, actions[0]);
      StepKeeps(s, actions[0]);
      StepFences(s, actions[0], back);
      TimeToLiveStays(s, actions[0]);
      SteadyClockFences(Next(s, actions[0]), actions[1..], back);
    }
  }

  // ----- a clock that steps back further does not

  const THE_KEY := KeyScope(StepId("s"), "k")
  const THE_BODY := Body(RunId("r"), "")
  const THE_REQUEST := Request(THE_KEY, THE_BODY)
  const BLANK := Program(map[], "")

  function Quiet(ttl: nat): System {
    System(0, 0, ttl, map[], [BLANK], [Created], map[], map[], map[], map[])
  }

  /** A holder whose bind is refused, and which releases its row. */
  function GiveUp(pid: Pid): seq<Action> {
    [Load(pid), Bind(pid, false, ""), Undo(pid)]
  }

  /**
   * `0` reserves; a gap later `1` gets the key and gives it up; the clock steps back, `2` reserves
   * at the first time again; and `0`, long superseded, gives up the row of `2`.
   */
  function Relapse(ttl: nat): seq<Action> {
    [Claim(0, THE_REQUEST, {}), Tick(Gap(ttl)), Claim(1, THE_REQUEST, {})]
    + (GiveUp(1) + ([Tick(0), Claim(2, THE_REQUEST, {})] + GiveUp(0)))
  }

  ghost function Played(s: System, actions: seq<Action>): System
    requires Plays(s, actions)
    decreases |actions|
  {
    if actions == [] then s else Played(Next(s, actions[0]), actions[1..])
  }

  lemma {:induction false} PlaysOn(s: System, a: seq<Action>, b: seq<Action>, back: nat)
    requires Plays(s, a) && Plays(Played(s, a), b)
    ensures Plays(s, a + b)
    ensures SteadyPlay(s, a, back) && SteadyPlay(Played(s, a), b, back) ==> SteadyPlay(s, a + b, back)
    ensures OwnersWrite(s, a + b) ==> OwnersWrite(Played(s, a), b)
    decreases |a|
  {
    if a == [] {
      assert a + b == b;
    } else {
      assert (a + b)[1..] == a[1..] + b;
      PlaysOn(Next(s, a[0]), a[1..], b, back);
    }
  }

  lemma PlayOne(s: System, a: Action, back: nat)
    requires Enabled(s, a)
    ensures Plays(s, [a]) && Played(s, [a]) == Next(s, a)
    ensures Steady(s, back) && Steady(Next(s, a), back) ==> SteadyPlay(s, [a], back)
  {
    assert [a][1..] == [];
    assert Plays(Next(s, a), []);
    assert SteadyPlay(Next(s, a), [], back) <==> Steady(Next(s, a), back);
  }

  /** A request with a row of this date, on a program with nothing bound. */
  ghost predicate At(s: System, now: nat, peak: nat, rows: Rows) {
    s.now == now && s.peak == peak && s.rows == rows && s.history == [BLANK]
  }

  function Dated(at: nat, ttl: nat): Rows {
    map[THE_KEY := Row(THE_BODY, None, at, at + ttl)]
  }

  ghost predicate HolderAt(s: System, pid: Pid, lease: nat) {
    pid in s.procs && s.procs[pid].request == THE_REQUEST && s.procs[pid].stage.Held? && s.procs[pid].stage.lease == lease
  }

  /** A claim on an absent, expired or lapsed row gets it. */
  lemma ClaimGets(s: System, pid: Pid, at: nat)
    requires pid !in s.procs && s.history == [BLANK]
    requires s.rows == map[] || (s.rows == Dated(at, s.ttl) && at + Gap(s.ttl) <= s.now)
    ensures var a := Claim(pid, THE_REQUEST, {}); var t := Next(s, a);
            && Enabled(s, a) && At(t, s.now, s.peak, Dated(s.now, s.ttl)) && t.ttl == s.ttl
            && HolderAt(t, pid, s.now) && t.procs.Keys == s.procs.Keys + {pid}
            && (forall p :: p in s.procs ==> t.procs[p] == s.procs[p])
            && THE_KEY in t.owner && t.owner[THE_KEY] == pid
  {
    var (rows, r) := Reserve(s.rows, {}, THE_KEY, THE_BODY, s.now, s.ttl);
    if s.rows == map[] {
      assert Swept(s.rows, {}, THE_KEY, s.now) == map[];
    } else if at + s.ttl <= s.now {
      assert Swept(s.rows, {}, THE_KEY, s.now) == map[];
    } else {
      assert Swept(s.rows, {}, THE_KEY, s.now) == s.rows;
    }
    assert rows == Dated(s.now, s.ttl) && (r.Reserved? || r.TakenOver?) && r.lease == s.now;
  }

  lemma GiveUpLoads(s: System, pid: Pid, lease: nat)
    requires HolderAt(s, pid, lease) && s.history == [BLANK]
    ensures Enabled(s, Load(pid)) && var t := Next(s, Load(pid));
            && t == To(s, pid, Loaded(lease, s.procs[pid].stage.tookOver, 1))
            && Enabled(t, Bind(pid, false, ""))
            && Next(t, Bind(pid, false, "")) == To(t, pid, Failing(lease))
  {
  }

  /** Giving up removes the row if it carries the holder's lease. */
  lemma GiveUpReleases(s: System, pid: Pid, lease: nat, back: nat)
    requires HolderAt(s, pid, lease) && At(s, s.now, s.peak, Dated(lease, s.ttl)) && Steady(s, back)
    ensures Plays(s, GiveUp(pid)) && SteadyPlay(s, GiveUp(pid), back)
    ensures var t := Played(s, GiveUp(pid));
            && At(t, s.now, s.peak, map[]) && t.ttl == s.ttl && t.procs.Keys == s.procs.Keys && t.owner == s.owner
            && forall p :: p in s.procs && p != pid ==> t.procs[p] == s.procs[p]
    ensures OwnersWrite(s, GiveUp(pid)) ==> THE_KEY in s.owner && s.owner[THE_KEY] == pid
  {
    GiveUpLoads(s, pid, lease);
    var t := Next(s, Load(pid));
    var u := Next(t, Bind(pid, false, ""));
    var v := Next(u, Undo(pid));
    assert u.rows == s.rows && v.rows == map[];
    var rest := [Bind(pid, false, ""), Undo(pid)];
    assert GiveUp(pid)[1..] == rest && rest[1..] == [Undo(pid)];
    PlayOne(u, Undo(pid), back);
    assert OwnersWrite(u, [Undo(pid)]) ==> OwnerWrites(u, Undo(pid));
    assert Plays(t, rest) && Played(t, rest) == v && SteadyPlay(t, rest, back);
    assert OwnersWrite(t, rest) ==> OwnersWrite(u, [Undo(pid)]);
  }

  lemma RelapseOpens(ttl: nat, back: nat)
    requires ttl > 0 && Gap(ttl) <= back
    ensures var s, a := Quiet(ttl), [Claim(0, THE_REQUEST, {}), Tick(Gap(ttl)), Claim(1, THE_REQUEST, {})];
            Plays(s, a) && SteadyPlay(s, a, back)
    ensures var t := Played(Quiet(ttl), [Claim(0, THE_REQUEST, {}), Tick(Gap(ttl)), Claim(1, THE_REQUEST, {})]);
            && At(t, Gap(ttl), Gap(ttl), Dated(Gap(ttl), ttl)) && t.ttl == ttl
            && HolderAt(t, 0, 0) && HolderAt(t, 1, Gap(ttl)) && t.procs.Keys == {0, 1}
  {
    var s, first, tick, second := Quiet(ttl), Claim(0, THE_REQUEST, {}), Tick(Gap(ttl)), Claim(1, THE_REQUEST, {});
    ClaimGets(s, 0, 0);
    var t := Next(s, first);
    var u := Next(t, tick);
    ClaimGets(u, 1, 0);
    PlayOne(s, first, back);
    PlayOne(t, tick, back);
    PlayOne(u, second, back);
    PlaysOn(t, [tick], [second], back);
    PlaysOn(s, [first], [tick] + [second], back);
    assert [first] + ([tick] + [second]) == [first, tick, second];
    assert [first, tick, second][1..] == [tick, second] && [tick, second][1..] == [second];
  }

  lemma RelapseRepeats(s: System, back: nat)
    requires At(s, Gap(s.ttl), Gap(s.ttl), map[]) && Gap(s.ttl) <= back && s.procs.Keys == {0, 1} && HolderAt(s, 0, 0)
    ensures var a := [Tick(0), Claim(2, THE_REQUEST, {})];
            && Plays(s, a) && SteadyPlay(s, a, back) && var t := Played(s, a);
            && At(t, 0, Gap(s.ttl), Dated(0, s.ttl)) && t.ttl == s.ttl && HolderAt(t, 0, 0)
            && THE_KEY in t.owner && t.owner[THE_KEY] == 2
  {
    var tick, claim := Tick(0), Claim(2, THE_REQUEST, {});
    var t := Next(s, tick);
    ClaimGets(t, 2, 0);
    PlayOne(t, claim, back);
    PlayOne(s, tick, back);
    PlaysOn(s, [tick], [claim], back);
    assert [tick] + [claim] == [tick, claim] && [tick, claim][1..] == [claim];
  }

  lemma RelapseBreaks(ttl: nat, back: nat)
    requires ttl > 0 && Gap(ttl) <= back
    ensures Init(Quiet(ttl)) && Plays(Quiet(ttl), Relapse(ttl))
    ensures SteadyPlay(Quiet(ttl), Relapse(ttl), back) && !OwnersWrite(Quiet(ttl), Relapse(ttl))
  {
    var opening, again := [Claim(0, THE_REQUEST, {}), Tick(Gap(ttl)), Claim(1, THE_REQUEST, {})], [Tick(0), Claim(2, THE_REQUEST, {})];
    RelapseOpens(ttl, back);
    var s1 := Played(Quiet(ttl), opening);
    GiveUpReleases(s1, 1, Gap(ttl), back);
    var s2 := Played(s1, GiveUp(1));
    RelapseRepeats(s2, back);
    var s3 := Played(s2, again);
    GiveUpReleases(s3, 0, 0, back);
    PlaysOn(s2, again, GiveUp(0), back);
    PlaysOn(s1, GiveUp(1), again + GiveUp(0), back);
    PlaysOn(Quiet(ttl), opening, GiveUp(1) + (again + GiveUp(0)), back);
  }

  /**
   * With a time to live `ttl`, on every run whose clock stays within `back` seconds of the latest
   * time it has shown only a row's owner completes or releases it, iff `back` is less than the
   * lease and less than the time to live.
   */
  lemma FencesIff(ttl: nat, back: nat)
    requires ttl > 0
    ensures (forall s: System, actions: seq<Action> ::
               Init(s) && s.ttl == ttl && Plays(s, actions) && SteadyPlay(s, actions, back) ==> OwnersWrite(s, actions))
       <==> back < LEASE_SECONDS && back < ttl
  {
    if back < Gap(ttl) {
      forall s: System, actions: seq<Action> |
        Init(s) && s.ttl == ttl && Plays(s, actions) && SteadyPlay(s, actions, back)
        ensures OwnersWrite(s, actions)
      {
        InitHolds(s);
        SteadyClockFences(s, actions, back);
      }
    } else {
      RelapseBreaks(ttl, back);
    }
  }
}
