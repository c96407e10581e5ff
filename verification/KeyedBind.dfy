/**
 * Keyed `run_step` requests of `src/recertia/app/programs.py` as a state machine.
 *
 * Requests interleave at every store access, may crash at any point, and may be slow enough
 * for a retry to take their key over. The program store keeps one program; its saved versions
 * are kept as a history, so that "some saved version had the step bound" can be said.
 */
module KeyedBind {
  import opened Prelude
  import opened Idempotency

  /** What the protocol sees of a program: the run each step is bound to; `rest` is all else. */
  datatype Program = Program(bound: map<StepId, RunId>, rest: string)

  function BoundTo(p: Program, step: StepId): Option<RunId> {
    if step in p.bound then Some(p.bound[step]) else None
  }

  datatype Request = Request(key: KeyScope, body: Body)

  datatype Reply = Success(run: RunId) | Refused

  /** Where a request is between two store accesses. */
  datatype Stage =
    | Held(lease: nat, tookOver: bool)
    | Loaded(lease: nat, tookOver: bool, base: nat)
    | Bound(lease: nat)
    | Failing(lease: nat)
    | Replaying(run: RunId, life: nat)
    | Replied(reply: Reply)
    | Crashed

  datatype Process = Process(request: Request, stage: Stage)

  type Pid = nat

  /** Who made a save: the creation of the program, a keyed bind, or any other route, as what it makes of a program. */
  datatype Save = Created | Keyed(pid: Pid, step: StepId, run: RunId, rest: string) | Other(route: Program -> Program)

  /** What a save makes of the version it read. */
  function Made(w: Save, read: Program): Program {
    match w
    case Created => read
    case Keyed(_, step, run, rest) => Program(read.bound[step := run], rest)
    case Other(route) => route(read)
  }

  /**
   * The clock may be set to any time; `peak` is the latest it has shown. `history[i]` is program
   * version `i + 1`, saved by `saves[i]`. The remaining fields only record the past: the request
   * that owns each row, how many complete rows of a key expired before its present row (its
   * `life`), and the run recorded in each life of a key.
   */
  datatype System = System(
    now: nat,
    peak: nat,
    ttl: nat,
    rows: Rows,
    history: seq<Program>,
    saves: seq<Save>,
    procs: map<Pid, Process>,
    owner: map<KeyScope, Pid>,
    life: map<KeyScope, nat>,
    recorded: map<(KeyScope, nat), RunId>)

  function LifeOf(s: System, key: KeyScope): nat {
    if key in s.life then s.life[key] else 0
  }

  /** Keys whose complete row a write removes: only expiry does that. */
  function Forgotten(before: Rows, after: Rows): set<KeyScope> {
    set k | k in before && before[k].run.Some? && (k !in after || after[k].run.None?)
  }

  function NextLives(s: System, after: Rows): map<KeyScope, nat> {
    var gone := Forgotten(s.rows, after);
    map k | k in s.life.Keys + gone :: LifeOf(s, k) + if k in gone then 1 else 0
  }

  datatype Action =
    | Tick(at: nat)
    | Claim(pid: Pid, request: Request, swept: set<KeyScope>)
    | Reread(pid: Pid)
    | Load(pid: Pid)
    | Bind(pid: Pid, accepted: bool, rest: string)
    | Finish(pid: Pid)
    | Undo(pid: Pid)
    | Crash(pid: Pid)
    | OtherSave(base: nat, route: Program -> Program)

  predicate Running(s: System, pid: Pid) {
    pid in s.procs && !s.procs[pid].stage.Replied? && !s.procs[pid].stage.Crashed?
  }

  predicate Enabled(s: System, a: Action) {
    match a
    case Tick(_) => true
    case Claim(pid, _, swept) => pid !in s.procs && swept <= Expired(s.rows, s.now)
    case Reread(pid) => pid in s.procs && s.procs[pid].stage.Replaying?
    case Load(pid) => pid in s.procs && s.procs[pid].stage.Held?
    case Bind(pid, _, _) => pid in s.procs && s.procs[pid].stage.Loaded? && 0 < s.procs[pid].stage.base <= |s.history|
    case Finish(pid) => pid in s.procs && s.procs[pid].stage.Bound?
    case Undo(pid) => pid in s.procs && s.procs[pid].stage.Failing?
    case Crash(pid) => Running(s, pid)
    case OtherSave(base, _) => 0 < base <= |s.history|
  }

  function To(s: System, pid: Pid, stage: Stage): System
    requires pid in s.procs
  {
    s.(procs := s.procs[pid := s.procs[pid].(stage := stage)])
  }

  /** `ProgramStore.put` with `expected_version`: the save lands only on the version it was read from. */
  function Put(s: System, base: nat, tag: Save): System
    requires 0 < base <= |s.history|
  {
    if base == |s.history| then s.(history := s.history + [Made(tag, s.history[base - 1])], saves := s.saves + [tag]) else s
  }

  function DoReserve(s: System, pid: Pid, request: Request, swept: set<KeyScope>): System {
    var (rows, r) := Reserve(s.rows, swept, request.key, request.body, s.now, s.ttl);
    var next := s.(rows := rows, life := NextLives(s, rows));
    var stage := match r
      case Reserved(lease) => Held(lease, false)
      case TakenOver(lease) => Held(lease, true)
      case Replay(run) => Replaying(run, LifeOf(next, request.key))
      case InProgress => Replied(Refused)
      case Mismatch => Replied(Refused);
    next.(procs := s.procs[pid := Process(request, stage)],
          owner := if stage.Held? then s.owner[request.key := pid] else s.owner)
  }

  /**
   * The bind of one request on the program version it read. `accepted` is the outcome of the
   * readiness, preview, hash and in-flight checks, which do not touch either store.
   */
  function DoBind(s: System, pid: Pid, accepted: bool, rest: string): System
    requires Enabled(s, Bind(pid, accepted, rest))
  {
    var p := s.procs[pid];
    var step, run, lease := p.request.key.step, p.request.body.bindRun, p.stage.lease;
    var read := s.history[p.stage.base - 1];
    if p.stage.tookOver && BoundTo(read, step) == Some(run) then To(s, pid, Bound(lease))
    else if !accepted then To(s, pid, Failing(lease))
    else if BoundTo(read, step) == Some(run) then To(s, pid, Bound(lease))
    else if p.stage.base == |s.history| then
      To(Put(s, p.stage.base, Keyed(pid, step, run, rest)), pid, Bound(lease))
    else To(s, pid, Failing(lease))
  }

  function DoFinish(s: System, pid: Pid): System
    requires Enabled(s, Finish(pid))
  {
    var q := s.procs[pid].request;
    var (rows, c) := Complete(s.rows, q.key, q.body, q.body.bindRun, s.procs[pid].stage.lease);
    var next := s.(rows := rows,
                   recorded := if rows == s.rows then s.recorded
                               else s.recorded[(q.key, LifeOf(s, q.key)) := q.body.bindRun]);
    To(next, pid, Replied(if c == Completed then Success(q.body.bindRun) else Refused))
  }

  function Next(s: System, a: Action): System
    requires Enabled(s, a)
  {
    match a
    case Tick(at) => s.(now := at, peak := Max(s.peak, at))
    case Claim(pid, request, swept) => DoReserve(s, pid, request, swept)
    case Reread(pid) =>
      var p := s.procs[pid];
      var ok := s.history != [] && BoundTo(s.history[|s.history| - 1], p.request.key.step) == Some(p.stage.run);
      To(s, pid, Replied(if ok then Success(p.stage.run) else Refused))
    case Load(pid) =>
      var stage := s.procs[pid].stage;
      To(s, pid, Loaded(stage.lease, stage.tookOver, |s.history|))
    case Bind(pid, accepted, rest) => DoBind(s, pid, accepted, rest)
    case Finish(pid) => DoFinish(s, pid)
    case Undo(pid) =>
      var p := s.procs[pid];
      To(s.(rows := Release(s.rows, p.request.key, p.request.body, p.stage.lease)), pid, Replied(Refused))
    case Crash(pid) => To(s, pid, Crashed)
    case OtherSave(base, route) => Put(s, base, Other(route))
  }

  /** How long after a row's date another request can get its key: a take-over or an expiry. */
  function Gap(ttl: nat): nat {
    Min(LEASE_SECONDS, ttl)
  }

  // ----- what an action leaves alone

  /** The idempotency rows, their owners and records, and the time to live. */
  predicate SameKeys(s: System, t: System) {
    t.rows == s.rows && t.owner == s.owner && t.life == s.life && t.recorded == s.recorded && t.ttl == s.ttl
  }

  ghost predicate SameProgram(s: System, t: System) {
    t.history == s.history && t.saves == s.saves
  }

  lemma PutMoves(s: System, base: nat, tag: Save)
    requires 0 < base <= |s.history|
    ensures var t := Put(s, base, tag);
            SameKeys(s, t) && t.now == s.now && t.peak == s.peak && t.procs == s.procs && s.history <= t.history && s.saves <= t.saves
  {
  }

  /** A bind moves its own request on, with the program as it is or with one version more. */
  lemma BindMoves(s: System, pid: Pid, accepted: bool, rest: string)
    requires Enabled(s, Bind(pid, accepted, rest))
    ensures var t, p := DoBind(s, pid, accepted, rest), s.procs[pid];
            var stored := Put(s, p.stage.base, Keyed(pid, p.request.key.step, p.request.body.bindRun, rest));
            || t == To(s, pid, Bound(p.stage.lease)) || t == To(s, pid, Failing(p.stage.lease))
            || (stored.procs == s.procs && t == To(stored, pid, Bound(p.stage.lease)))
  {
  }

  lemma BindOutcome(s: System, a: Action)
    requires Enabled(s, a) && a.Bind?
    ensures var t := Next(s, a);
            && SameKeys(s, t) && t.now == s.now && t.peak == s.peak && s.history <= t.history && s.saves <= t.saves
            && a.pid in t.procs && t.procs == s.procs[a.pid := t.procs[a.pid]]
            && t.procs[a.pid].request == s.procs[a.pid].request
            && (t.procs[a.pid].stage == Bound(s.procs[a.pid].stage.lease) || t.procs[a.pid].stage == Failing(s.procs[a.pid].stage.lease))
  {
    var p := s.procs[a.pid];
    BindMoves(s, a.pid, a.accepted, a.rest);
    PutMoves(s, p.stage.base, Keyed(a.pid, p.request.key.step, p.request.body.bindRun, a.rest));
  }

  lemma ClaimMoves(s: System, a: Action)
    requires Enabled(s, a) && a.Claim?
    ensures SameProgram(s, Next(s, a)) && Next(s, a).recorded == s.recorded
    ensures forall p :: p in s.procs ==> p in Next(s, a).procs && Next(s, a).procs[p] == s.procs[p]
  {
  }

  lemma FinishMoves(s: System, a: Action)
    requires Enabled(s, a) && (a.Finish? || a.Undo?)
    ensures SameProgram(s, Next(s, a)) && Next(s, a).life == s.life
    ensures forall k :: k in s.rows && s.rows[k].run.Some? ==> k in Next(s, a).rows && Next(s, a).rows[k] == s.rows[k]
  {
  }

  /** Only claims, finishes and undos touch the idempotency rows. */
  lemma KeysStay(s: System, a: Action)
    requires Enabled(s, a) && !a.Claim? && !a.Finish? && !a.Undo?
    ensures SameKeys(s, Next(s, a)) && s.peak <= Next(s, a).peak
  {
    if a.Bind? { BindOutcome(s, a); }
  }

  /** Only binds and other saves touch the program. */
  lemma ProgramStays(s: System, a: Action)
    requires Enabled(s, a) && !a.Bind? && !a.OtherSave?
    ensures SameProgram(s, Next(s, a))
  {
    if a.Claim? {
      ClaimMoves(s, a);
    } else if a.Finish? || a.Undo? {
      FinishMoves(s, a);
    }
  }

  /** A request other than the one that moves stays where it is; one that moves keeps what it asked for. */
  lemma RequestsStay(s: System, a: Action, p: Pid)
    requires Enabled(s, a) && p in s.procs
    ensures p in Next(s, a).procs && Next(s, a).procs[p].request == s.procs[p].request
    ensures Holding(Next(s, a).procs[p].stage) ==> Holding(s.procs[p].stage) && Next(s, a).procs[p].stage.lease == s.procs[p].stage.lease
    ensures Next(s, a).procs[p].stage.Replaying? ==> Next(s, a).procs[p] == s.procs[p]
  {
    if a.Bind? {
      BindOutcome(s, a);
    } else if a.Claim? {
      ClaimMoves(s, a);
    }
  }

  lemma NoNewRequests(s: System, a: Action, p: Pid)
    requires Enabled(s, a) && p in Next(s, a).procs && p !in s.procs
    ensures a.Claim? && a.pid == p
  {
    if a.Bind? { BindOutcome(s, a); }
  }

  predicate Holding(stage: Stage) {
    stage.Held? || stage.Loaded? || stage.Bound? || stage.Failing?
  }

  // ----- what every reachable state keeps, however the clock is set

  ghost predicate WasBound(history: seq<Program>, step: StepId, run: RunId) {
    exists i :: 0 <= i < |history| && BoundTo(history[i], step) == Some(run)
  }

  /** Rows live for the time to live, and a complete row names its request's run, which was bound. */
  ghost predicate RowSound(s: System, k: KeyScope)
    requires k in s.rows
  {
    var row := s.rows[k];
    && row.expiresAt == row.createdAt + s.ttl
    && (row.run.Some? ==> row.run == Some(row.body.bindRun) && WasBound(s.history, k.step, row.body.bindRun)
                          && (k, LifeOf(s, k)) in s.recorded && s.recorded[(k, LifeOf(s, k))] == row.body.bindRun)
  }

  ghost predicate ProcessSound(s: System, pid: Pid)
    requires pid in s.procs
  {
    var q := s.procs[pid].request;
    match s.procs[pid].stage
    case Bound(_) => WasBound(s.history, q.key.step, q.body.bindRun)
    case Replaying(run, life) => life <= LifeOf(s, q.key) && (q.key, life) in s.recorded && s.recorded[(q.key, life)] == run
    case _ => true
  }

  /** Recorded runs were bound, and the present life of a key has one only while its row is complete. */
  ghost predicate RecordSound(s: System, k: KeyScope, life: nat)
    requires (k, life) in s.recorded
  {
    && WasBound(s.history, k.step, s.recorded[(k, life)])
    && life <= LifeOf(s, k)
    && (life == LifeOf(s, k) ==> k in s.rows && s.rows[k].run == Some(s.recorded[(k, life)]))
  }

  /** Every version is what one save made of the version before it; a keyed save binds a step that was bound elsewhere. */
  ghost predicate SaveSound(s: System, i: nat)
    requires |s.saves| == |s.history| && i < |s.saves|
  {
    var w := s.saves[i];
    && (i == 0 <==> w.Created?)
    && (i > 0 ==> s.history[i] == Made(w, s.history[i - 1]))
    && (w.Keyed? ==> BoundTo(s.history[i - 1], w.step) != Some(w.run))
  }

  ghost predicate Inv(s: System) {
    && s.ttl > 0 && s.now <= s.peak
    && |s.saves| == |s.history|
    && (forall k :: k in s.rows ==> RowSound(s, k))
    && (forall pid :: pid in s.procs ==> ProcessSound(s, pid))
    && (forall k, life :: (k, life) in s.recorded ==> RecordSound(s, k, life))
    && (forall i :: 0 <= i < |s.saves| ==> SaveSound(s, i))
  }

  ghost predicate Init(s: System) {
    && s.ttl > 0 && s.rows == map[] && s.procs == map[] && s.recorded == map[] && s.life == map[] && s.owner == map[]
    && s.now == s.peak && |s.history| == 1 && s.saves == [Created]
  }

  lemma InitHolds(s: System)
    requires Init(s)
    ensures Inv(s)
  {
  }

  // ----- each step keeps it

  lemma StillBound(history: seq<Program>, p: Program, step: StepId, run: RunId)
    requires WasBound(history, step, run)
    ensures WasBound(history + [p], step, run)
  {
    var i :| 0 <= i < |history| && BoundTo(history[i], step) == Some(run);
    assert (history + [p])[i] == history[i];
  }

  /** Moving one request on, with both stores as they were. */
  lemma MoveKeeps(s: System, pid: Pid, stage: Stage)
    requires Inv(s) && pid in s.procs
    requires stage.Bound? ==> WasBound(s.history, s.procs[pid].request.key.step, s.procs[pid].request.body.bindRun)
    requires !stage.Replaying?
    ensures Inv(To(s, pid, stage))
  {
    var t := To(s, pid, stage);
    forall p | p in t.procs ensures ProcessSound(t, p) {
      assert ProcessSound(s, p);
    }
    forall k | k in t.rows ensures RowSound(t, k) { assert RowSound(s, k); }
    forall k, life | (k, life) in t.recorded ensures RecordSound(t, k, life) { assert RecordSound(s, k, life); }
    forall i | 0 <= i < |t.saves| ensures SaveSound(t, i) { assert SaveSound(s, i); }
  }

  lemma TickKeeps(s: System, at: nat)
    requires Inv(s)
    ensures Inv(Next(s, Tick(at)))
  {
    var t := Next(s, Tick(at));
    forall p | p in t.procs ensures ProcessSound(t, p) { assert ProcessSound(s, p); }
    forall k | k in t.rows ensures RowSound(t, k) { assert RowSound(s, k); }
    forall k, life | (k, life) in t.recorded ensures RecordSound(t, k, life) { assert RecordSound(s, k, life); }
    forall i | 0 <= i < |t.saves| ensures SaveSound(t, i) { assert SaveSound(s, i); }
  }

  /** A pinned save extends the history; a keyed one must bind what the version before did not. */
  lemma PutKeeps(s: System, tag: Save)
    requires Inv(s) && s.history != [] && !tag.Created?
    requires tag.Keyed? ==> BoundTo(s.history[|s.history| - 1], tag.step) != Some(tag.run)
    ensures Inv(Put(s, |s.history|, tag))
  {
    var t := Put(s, |s.history|, tag);
    forall step, run | WasBound(s.history, step, run) ensures WasBound(t.history, step, run) {
      StillBound(s.history, Made(tag, s.history[|s.history| - 1]), step, run);
    }
    forall p | p in t.procs ensures ProcessSound(t, p) { assert ProcessSound(s, p); }
    forall k | k in t.rows ensures RowSound(t, k) { assert RowSound(s, k); }
    forall k, life | (k, life) in t.recorded ensures RecordSound(t, k, life) { assert RecordSound(s, k, life); }
    forall i | 0 <= i < |t.saves| ensures SaveSound(t, i) {
      if i < |s.saves| { assert SaveSound(s, i); }
    }
  }

  lemma BindKeeps(s: System, pid: Pid, accepted: bool, rest: string)
    requires Inv(s) && Enabled(s, Bind(pid, accepted, rest))
    ensures Inv(DoBind(s, pid, accepted, rest))
  {
    var p := s.procs[pid];
    var step, run, lease := p.request.key.step, p.request.body.bindRun, p.stage.lease;
    var read := s.history[p.stage.base - 1];
    if BoundTo(read, step) == Some(run) {
      assert WasBound(s.history, step, run);
      if p.stage.tookOver || accepted { MoveKeeps(s, pid, Bound(lease)); } else { MoveKeeps(s, pid, Failing(lease)); }
    } else if accepted && p.stage.base == |s.history| {
      PutKeeps(s, Keyed(pid, step, run, rest));
      var t := Put(s, |s.history|, Keyed(pid, step, run, rest));
      assert BoundTo(t.history[|s.history|], step) == Some(run);
      MoveKeeps(t, pid, Bound(lease));
    } else {
      MoveKeeps(s, pid, Failing(lease));
    }
  }

  /** Recording a bound run in a pending row. */
  lemma RecordKeeps(s: System, k: KeyScope)
    requires Inv(s) && k in s.rows && s.rows[k].run.None? && WasBound(s.history, k.step, s.rows[k].body.bindRun)
    ensures var run := s.rows[k].body.bindRun;
            Inv(s.(rows := s.rows[k := s.rows[k].(run := Some(run))], recorded := s.recorded[(k, LifeOf(s, k)) := run]))
  {
    var run := s.rows[k].body.bindRun;
    var u := s.(rows := s.rows[k := s.rows[k].(run := Some(run))], recorded := s.recorded[(k, LifeOf(s, k)) := run]);
    assert RowSound(s, k);
    forall p | p in u.procs ensures ProcessSound(u, p) {
      assert ProcessSound(s, p);
      if s.procs[p].stage.Replaying? { assert RecordSound(s, s.procs[p].request.key, s.procs[p].stage.life); }
    }
    forall j | j in u.rows ensures RowSound(u, j) { if j != k { assert RowSound(s, j); } }
    forall j, life | (j, life) in u.recorded ensures RecordSound(u, j, life) {
      if (j, life) in s.recorded { assert RecordSound(s, j, life); }
    }
    forall i | 0 <= i < |u.saves| ensures SaveSound(u, i) { assert SaveSound(s, i); }
  }

  lemma FinishKeeps(s: System, pid: Pid)
    requires Inv(s) && Enabled(s, Finish(pid))
    ensures Inv(DoFinish(s, pid))
  {
    var q, lease := s.procs[pid].request, s.procs[pid].stage.lease;
    var run := q.body.bindRun;
    assert ProcessSound(s, pid);
    if HeldBy(s.rows, q.key, q.body, lease) {
      var t := To(s, pid, Replied(Success(run)));
      MoveKeeps(s, pid, Replied(Success(run)));
      assert t.rows == s.rows && t.history == s.history;
      RecordKeeps(t, q.key);
    } else {
      MoveKeeps(s, pid, Replied(if Complete(s.rows, q.key, q.body, run, lease).1 == Completed then Success(run) else Refused));
    }
  }

  lemma UndoKeeps(s: System, pid: Pid)
    requires Inv(s) && Enabled(s, Undo(pid))
    ensures Inv(Next(s, Undo(pid)))
  {
    var q, lease := s.procs[pid].request, s.procs[pid].stage.lease;
    if HeldBy(s.rows, q.key, q.body, lease) {
      var u := To(s.(rows := s.rows - {q.key}), pid, Replied(Refused));
      forall p | p in u.procs ensures ProcessSound(u, p) { assert ProcessSound(s, p); }
      forall k | k in u.rows ensures RowSound(u, k) { assert RowSound(s, k); }
      forall k, life | (k, life) in u.recorded ensures RecordSound(u, k, life) { assert RecordSound(s, k, life); }
      forall i | 0 <= i < |u.saves| ensures SaveSound(u, i) { assert SaveSound(s, i); }
    } else {
      MoveKeeps(s, pid, Replied(Refused));
    }
  }

  /** The system right after a reservation, before its new request is added. */
  function AfterReserve(s: System, request: Request, swept: set<KeyScope>): System {
    var rows := Reserve(s.rows, swept, request.key, request.body, s.now, s.ttl).0;
    s.(rows := rows, life := NextLives(s, rows))
  }

  lemma LivesMove(s: System, rows: Rows, k: KeyScope)
    ensures LifeOf(s.(rows := rows, life := NextLives(s, rows)), k) == LifeOf(s, k) + if k in Forgotten(s.rows, rows) then 1 else 0
  {
  }

  /** A write to one key leaves every other key's row alone or removes it, expired. */
  lemma ReserveRows(s: System, request: Request, swept: set<KeyScope>, k: KeyScope)
    requires Inv(s) && swept <= Expired(s.rows, s.now)
    ensures var rows := Reserve(s.rows, swept, request.key, request.body, s.now, s.ttl).0;
            && (k in s.rows && k !in rows ==> s.rows[k].createdAt + s.ttl <= s.now)
            && (k in rows && k !in s.rows ==> k == request.key && rows[k] == Row(request.body, None, s.now, s.now + s.ttl))
            && (k in rows && k in s.rows && rows[k] != s.rows[k] ==>
                  && k == request.key && s.rows[k].createdAt + Gap(s.ttl) <= s.now && rows[k].run.None?
                  && rows[k].body == request.body && rows[k].createdAt == s.now && rows[k].expiresAt == s.now + s.ttl)
  {
    if k in s.rows { assert RowSound(s, k); }
  }

  lemma ReserveKeepsRows(s: System, request: Request, swept: set<KeyScope>)
    requires Inv(s) && swept <= Expired(s.rows, s.now)
    ensures var t := AfterReserve(s, request, swept);
            && (forall k :: k in t.rows ==> RowSound(t, k))
            && (forall k, life :: (k, life) in t.recorded ==> RecordSound(t, k, life))
            && (forall p :: p in t.procs ==> ProcessSound(t, p))
            && (forall i :: 0 <= i < |t.saves| ==> SaveSound(t, i))
  {
    var t := AfterReserve(s, request, swept);
    forall k | k in t.rows ensures RowSound(t, k) {
      ReserveRows(s, request, swept, k);
      LivesMove(s, t.rows, k);
      if k in s.rows { assert RowSound(s, k); }
    }
    forall k, life | (k, life) in t.recorded ensures RecordSound(t, k, life) {
      ReserveRows(s, request, swept, k);
      LivesMove(s, t.rows, k);
      assert RecordSound(s, k, life);
      if k in s.rows { assert RowSound(s, k); }
    }
    forall p | p in t.procs ensures ProcessSound(t, p) {
      LivesMove(s, t.rows, s.procs[p].request.key);
      assert ProcessSound(s, p);
    }
    forall i | 0 <= i < |t.saves| ensures SaveSound(t, i) { assert SaveSound(s, i); }
  }

  lemma NewProcessSound(s: System, pid: Pid, request: Request, swept: set<KeyScope>)
    requires Inv(s) && Enabled(s, Claim(pid, request, swept))
    requires var t := AfterReserve(s, request, swept); forall k :: k in t.rows ==> RowSound(t, k)
    ensures var u := DoReserve(s, pid, request, swept);
            ProcessSound(u, pid)
  {
    var t := AfterReserve(s, request, swept);
    ReserveAnswers(s.rows, swept, request.key, request.body, s.now, s.ttl);
    if request.key in t.rows { assert RowSound(t, request.key); }
  }

  lemma ReserveKeeps(s: System, pid: Pid, request: Request, swept: set<KeyScope>)
    requires Inv(s) && Enabled(s, Claim(pid, request, swept))
    ensures Inv(DoReserve(s, pid, request, swept))
  {
    var t, u := AfterReserve(s, request, swept), DoReserve(s, pid, request, swept);
    ReserveKeepsRows(s, request, swept);
    NewProcessSound(s, pid, request, swept);
    forall p | p in u.procs ensures ProcessSound(u, p) {
      if p != pid { assert ProcessSound(t, p); }
    }
    SameStores(t, u);
  }

  /** Rows, records and saves are judged by the stores alone. */
  lemma SameStores(t: System, u: System)
    requires u == t.(procs := u.procs, owner := u.owner)
    requires |t.saves| == |t.history|
    ensures (forall k :: k in t.rows ==> RowSound(t, k)) ==> forall k :: k in u.rows ==> RowSound(u, k)
    ensures (forall k, life :: (k, life) in t.recorded ==> RecordSound(t, k, life))
            ==> forall k, life :: (k, life) in u.recorded ==> RecordSound(u, k, life)
    ensures (forall i :: 0 <= i < |t.saves| ==> SaveSound(t, i)) ==> forall i :: 0 <= i < |u.saves| ==> SaveSound(u, i)
  {
    if forall k :: k in t.rows ==> RowSound(t, k) {
      forall k | k in u.rows ensures RowSound(u, k) { assert RowSound(t, k); }
    }
    if forall k, life :: (k, life) in t.recorded ==> RecordSound(t, k, life) {
      forall k, life | (k, life) in u.recorded ensures RecordSound(u, k, life) { assert RecordSound(t, k, life); }
    }
    if forall i :: 0 <= i < |t.saves| ==> SaveSound(t, i) {
      forall i | 0 <= i < |u.saves| ensures SaveSound(u, i) { assert SaveSound(t, i); }
    }
  }

  /** Every action, in every order, keeps the invariant. */
  lemma StepKeeps(s: System, a: Action)
    requires Inv(s) && Enabled(s, a)
    ensures Inv(Next(s, a))
  {
    match a
    case Tick(at) => TickKeeps(s, at);
    case Claim(pid, request, swept) => ReserveKeeps(s, pid, request, swept);
    case Reread(pid) =>
      assert ProcessSound(s, pid);
      MoveKeeps(s, pid, Next(s, a).procs[pid].stage);
    case Load(pid) => MoveKeeps(s, pid, Next(s, a).procs[pid].stage);
    case Bind(pid, accepted, rest) => BindKeeps(s, pid, accepted, rest);
    case Finish(pid) => FinishKeeps(s, pid);
    case Undo(pid) => UndoKeeps(s, pid);
    case Crash(pid) => MoveKeeps(s, pid, Crashed);
    case OtherSave(base, route) => if base == |s.history| { PutKeeps(s, Other(route)); }
  }

  // ----- runs

  /** The states of a run: `actions[i]` takes state `i` to state `i + 1`. */
  ghost predicate IsRun(states: seq<System>, actions: seq<Action>) {
    && |states| == |actions| + 1 && Init(states[0])
    && forall i :: 0 <= i < |actions| ==> Enabled(states[i], actions[i]) && states[i + 1] == Next(states[i], actions[i])
  }

  lemma {:induction false} RunKeeps(states: seq<System>, actions: seq<Action>, i: nat)
    requires IsRun(states, actions) && i < |states|
    ensures Inv(states[i])
  {
    if i == 0 {
      InitHolds(states[0]);
    } else {
      RunKeeps(states, actions, i - 1);
      StepKeeps(states[i - 1], actions[i - 1]);
    }
  }

  /** Whatever the interleaving, a complete key row names a run some saved version had its step bound to. */
  lemma CompleteMeansBound(states: seq<System>, actions: seq<Action>, i: nat, k: KeyScope)
    requires IsRun(states, actions) && i < |states|
    requires k in states[i].rows && states[i].rows[k].run.Some?
    ensures states[i].rows[k].run == Some(states[i].rows[k].body.bindRun)
    ensures WasBound(states[i].history, k.step, states[i].rows[k].run.value)
  {
    RunKeeps(states, actions, i);
    assert RowSound(states[i], k);
  }

  /** The success a step answers a request with. */
  function Answer(s: System, a: Action): Option<(KeyScope, RunId)>
    requires Enabled(s, a)
  {
    if !(a.Finish? || a.Reread?) then None
    else match Next(s, a).procs[a.pid].stage
      case Replied(Success(run)) => Some((s.procs[a.pid].request.key, run))
      case _ => None
  }

  /** The life of the key row that an answering request stands behind. */
  function AnsweredLife(s: System, a: Action): nat
    requires Enabled(s, a) && Answer(s, a).Some?
  {
    match s.procs[a.pid].stage
    case Replaying(_, life) => life
    case _ => LifeOf(s, s.procs[a.pid].request.key)
  }

  /** A success is answered only for the run recorded in that life of the key's row. */
  lemma AnswerIsRecorded(s: System, a: Action)
    requires Inv(s) && Enabled(s, a) && Answer(s, a).Some?
    ensures var key := (Answer(s, a).value.0, AnsweredLife(s, a));
            key in Next(s, a).recorded && Next(s, a).recorded[key] == Answer(s, a).value.1
  {
    var p := s.procs[a.pid];
    assert ProcessSound(s, a.pid);
    if a.Finish? && p.request.key in s.rows {
      assert RowSound(s, p.request.key);
    }
  }

  /** Nothing recorded is lost or changed. */
  ghost predicate Extends(a: map<(KeyScope, nat), RunId>, b: map<(KeyScope, nat), RunId>) {
    forall key :: key in a ==> key in b && b[key] == a[key]
  }

  ghost predicate EachExtends(states: seq<System>) {
    forall n :: 0 <= n < |states| - 1 ==> Extends(states[n].recorded, states[n + 1].recorded)
  }

  lemma {:induction false} ExtendsAlong(states: seq<System>, i: nat, j: nat)
    requires EachExtends(states) && i <= j < |states|
    ensures Extends(states[i].recorded, states[j].recorded)
    decreases j - i
  {
    if i < j { ExtendsAlong(states, i + 1, j); }
  }

  /** What one life of a key recorded never changes. */
  lemma RecordsStay(states: seq<System>, actions: seq<Action>, i: nat, j: nat)
    requires IsRun(states, actions) && i <= j < |states|
    ensures Extends(states[i].recorded, states[j].recorded)
  {
    forall n | 0 <= n < |states| - 1 ensures Extends(states[n].recorded, states[n + 1].recorded) {
      RecordsStayNext(states, actions, n);
    }
    ExtendsAlong(states, i, j);
  }

  lemma RecordsStayNext(states: seq<System>, actions: seq<Action>, j: nat)
    requires IsRun(states, actions) && j < |actions|
    ensures Extends(states[j].recorded, states[j + 1].recorded)
  {
    RunKeeps(states, actions, j);
    RecordsStayOne(states[j], actions[j], states[j + 1]);
  }

  lemma RecordsStayOne(s: System, a: Action, t: System)
    requires Inv(s) && Enabled(s, a) && t == Next(s, a)
    ensures Extends(s.recorded, t.recorded)
  {
    if a.Claim? {
      ClaimMoves(s, a);
    } else if !a.Finish? && !a.Undo? {
      KeysStay(s, a);
    } else if a.Finish? {
      var q := s.procs[a.pid].request;
      if (q.key, LifeOf(s, q.key)) in s.recorded {
        assert RecordSound(s, q.key, LifeOf(s, q.key));
      }
    }
  }

  /**
   * Every two successful replies for a key name the same run, and a saved version had the step
   * bound to it, as long as the key's complete row did not expire between the reservations.
   */
  lemma AnswersAgree(states: seq<System>, actions: seq<Action>, i: nat, j: nat)
    requires IsRun(states, actions) && i < |actions| && j < |actions|
    requires Answer(states[i], actions[i]).Some? && Answer(states[j], actions[j]).Some?
    requires Answer(states[i], actions[i]).value.0 == Answer(states[j], actions[j]).value.0
    requires AnsweredLife(states[i], actions[i]) == AnsweredLife(states[j], actions[j])
    ensures Answer(states[i], actions[i]) == Answer(states[j], actions[j])
    ensures var (k, run) := Answer(states[i], actions[i]).value; WasBound(states[i + 1].history, k.step, run)
  {
    RunKeeps(states, actions, i);
    RunKeeps(states, actions, j);
    AnswerIsRecorded(states[i], actions[i]);
    AnswerIsRecorded(states[j], actions[j]);
    if i <= j {
      RecordsStay(states, actions, i + 1, j + 1);
    } else {
      RecordsStay(states, actions, j + 1, i + 1);
    }
    RunKeeps(states, actions, i + 1);
    assert RecordSound(states[i + 1], Answer(states[i], actions[i]).value.0, AnsweredLife(states[i], actions[i]));
  }

  /** A life of a key ends only when a write finds its complete row expired. */
  lemma LivesEndByExpiry(s: System, a: Action, k: KeyScope)
    requires Inv(s) && Enabled(s, a) && LifeOf(Next(s, a), k) != LifeOf(s, k)
    ensures a.Claim? && k in s.rows && s.rows[k].run.Some? && s.rows[k].expiresAt <= s.now
    ensures LifeOf(Next(s, a), k) == LifeOf(s, k) + 1
  {
    if a.Claim? {
      ReserveRows(s, a.request, a.swept, k);
      LivesMove(s, Next(s, a).rows, k);
    } else if a.Finish? || a.Undo? {
      FinishMoves(s, a);
    } else {
      KeysStay(s, a);
    }
  }

  /** Until it expires a complete row stays as it is, and so does the life of its key. */
  lemma CompleteRowStays(s: System, a: Action, k: KeyScope)
    requires Inv(s) && Enabled(s, a) && k in s.rows && s.rows[k].run.Some? && s.now < s.rows[k].expiresAt
    ensures k in Next(s, a).rows && Next(s, a).rows[k] == s.rows[k] && LifeOf(Next(s, a), k) == LifeOf(s, k)
  {
    if LifeOf(Next(s, a), k) != LifeOf(s, k) { LivesEndByExpiry(s, a, k); }
    if a.Claim? {
      ReserveRows(s, a.request, a.swept, k);
      LivesMove(s, Next(s, a).rows, k);
    } else if a.Finish? || a.Undo? {
      FinishMoves(s, a);
    } else {
      KeysStay(s, a);
    }
  }

  /** Requests of `k` that start after state `i` can only replay the life that state is in. */
  ghost predicate LateReplays(s: System, t: System, k: KeyScope) {
    forall p :: p in t.procs && p !in s.procs && t.procs[p].request.key == k && t.procs[p].stage.Replaying? ==>
                  t.procs[p].stage.life == LifeOf(s, k)
  }

  ghost predicate RowStays(s: System, t: System, k: KeyScope) {
    k in s.rows && k in t.rows && t.rows[k] == s.rows[k] && LifeOf(t, k) == LifeOf(s, k) && LateReplays(s, t, k)
  }

  lemma RowStaysOne(s: System, t: System, a: Action, u: System, k: KeyScope)
    requires Inv(t) && Enabled(t, a) && u == Next(t, a)
    requires RowStays(s, t, k) && s.rows[k].run.Some? && t.now < s.rows[k].expiresAt
    ensures RowStays(s, u, k)
  {
    CompleteRowStays(t, a, k);
    LateReplaysStay(s, t, a, k);
  }

  lemma {:induction false} RowStaysAlong(states: seq<System>, i: nat, j: nat, k: KeyScope)
    requires i <= j < |states| && RowStays(states[i], states[i], k)
    requires forall m :: i <= m < j && RowStays(states[i], states[m], k) ==> RowStays(states[i], states[m + 1], k)
    ensures RowStays(states[i], states[j], k)
    decreases j - i
  {
    if i < j { RowStaysAlong(states, i, j - 1, k); }
  }

  /** While the clock stays short of its expiry a complete row, its life and what can replay it stay. */
  lemma RowStaysUntil(states: seq<System>, actions: seq<Action>, i: nat, j: nat, k: KeyScope)
    requires IsRun(states, actions) && i <= j < |states|
    requires k in states[i].rows && states[i].rows[k].run.Some?
    requires forall m :: i <= m < j ==> states[m].now < states[i].rows[k].expiresAt
    ensures RowStays(states[i], states[j], k)
  {
    forall m | i <= m < j && RowStays(states[i], states[m], k) ensures RowStays(states[i], states[m + 1], k) {
      RunKeeps(states, actions, m);
      RowStaysOne(states[i], states[m], actions[m], states[m + 1], k);
    }
    RowStaysAlong(states, i, j, k);
  }

  lemma ClaimReplays(t: System, a: Action)
    requires Enabled(t, a) && a.Claim?
    ensures var u := Next(t, a);
            u.procs[a.pid].stage.Replaying? ==> u.procs[a.pid].stage.life == LifeOf(u, a.request.key) && u.procs[a.pid].request == a.request
  {
  }

  lemma LateReplaysStay(s: System, t: System, a: Action, k: KeyScope)
    requires Enabled(t, a) && LateReplays(s, t, k) && LifeOf(Next(t, a), k) == LifeOf(s, k)
    ensures LateReplays(s, Next(t, a), k)
  {
    var u := Next(t, a);
    forall p | p in u.procs && p !in s.procs && u.procs[p].request.key == k && u.procs[p].stage.Replaying?
      ensures u.procs[p].stage.life == LifeOf(s, k)
    {
      if p in t.procs {
        RequestsStay(t, a, p);
        assert t.procs[p].stage.life == LifeOf(s, k);
      } else {
        NoNewRequests(t, a, p);
        ClaimReplays(t, a);
      }
    }
  }

  /**
   * What a client can rely on: after a bind answered it, every later answer to that key names the
   * same run until the clock reaches the row's expiry, whether a late holder gives it or a replay
   * to a request that came in afterwards.
   */
  lemma AnswersAgreeUntilExpiry(states: seq<System>, actions: seq<Action>, i: nat, j: nat)
    requires IsRun(states, actions) && i < j < |actions|
    requires actions[i].Finish? && Answer(states[i], actions[i]).Some? && Answer(states[j], actions[j]).Some?
    requires Answer(states[i], actions[i]).value.0 == Answer(states[j], actions[j]).value.0
    requires actions[j].Finish? || actions[j].pid !in states[i + 1].procs
    ensures var k := Answer(states[i], actions[i]).value.0; k in states[i + 1].rows
    ensures var row := states[i + 1].rows[Answer(states[i], actions[i]).value.0];
            (forall m :: i < m <= j ==> states[m].now < row.expiresAt) ==> Answer(states[i], actions[i]) == Answer(states[j], actions[j])
  {
    var k := Answer(states[i], actions[i]).value.0;
    RunKeeps(states, actions, i);
    AnswerLeavesRow(states[i], actions[i]);
    var row := states[i + 1].rows[k];
    if forall m :: i < m <= j ==> states[m].now < row.expiresAt {
      RowStaysUntil(states, actions, i + 1, j, k);
      assert AnsweredLife(states[j], actions[j]) == LifeOf(states[i + 1], k);
      AnswersAgree(states, actions, i, j);
    }
  }

  lemma AnswerLeavesRow(s: System, a: Action)
    requires Inv(s) && Enabled(s, a) && a.Finish? && Answer(s, a).Some?
    ensures var k := Answer(s, a).value.0;
            && k in Next(s, a).rows && Next(s, a).rows[k].run == Some(Answer(s, a).value.1)
            && LifeOf(Next(s, a), k) == LifeOf(s, k) == AnsweredLife(s, a)
  {
  }

  /**
   * A bind is saved at most once: between two keyed saves of the same bind, some save in between
   * left the step bound elsewhere. Retries, take-overs and slow requests never save it again.
   */
  lemma BindSavedOnce(states: seq<System>, actions: seq<Action>, n: nat, i: nat, j: nat)
    requires IsRun(states, actions) && n < |states|
    requires i < j < |states[n].saves|
    requires states[n].saves[i].Keyed? && states[n].saves[j].Keyed?
    requires states[n].saves[j].step == states[n].saves[i].step && states[n].saves[j].run == states[n].saves[i].run
    ensures j < |states[n].history|
    ensures var w := states[n].saves[i];
            exists m :: i < m < j && BoundTo(states[n].history[m], w.step) != Some(w.run)
  {
    RunKeeps(states, actions, n);
    var s := states[n];
    assert SaveSound(s, i) && SaveSound(s, j);
    assert BoundTo(s.history[i], s.saves[i].step) == Some(s.saves[i].run);
    assert i < j - 1 < j && BoundTo(s.history[j - 1], s.saves[i].step) != Some(s.saves[i].run);
  }

  lemma StepGrows(s: System, a: Action)
    requires Enabled(s, a)
    ensures s.history <= Next(s, a).history && s.saves <= Next(s, a).saves
  {
    if a.Bind? {
      BindOutcome(s, a);
    } else if !a.OtherSave? {
      ProgramStays(s, a);
    }
  }

  /**
   * Nothing is lost: whatever interleaves, every saved version is what one route made of the
   * version right before it, so the versions are those of some one-at-a-time execution.
   */
  lemma VersionsAreSerial(states: seq<System>, actions: seq<Action>, n: nat, i: nat)
    requires IsRun(states, actions) && n < |states| && 0 < i < |states[n].history|
    ensures i < |states[n].saves| && !states[n].saves[i].Created?
    ensures states[n].history[i] == Made(states[n].saves[i], states[n].history[i - 1])
  {
    RunKeeps(states, actions, n);
    assert SaveSound(states[n], i);
  }

  ghost predicate EachGrows(states: seq<System>) {
    forall n :: 0 <= n < |states| - 1 ==> states[n].history <= states[n + 1].history && states[n].saves <= states[n + 1].saves
  }

  lemma {:induction false} GrowsAlong(states: seq<System>, i: nat, j: nat)
    requires EachGrows(states) && i <= j < |states|
    ensures states[i].history <= states[j].history && states[i].saves <= states[j].saves
    decreases j - i
  {
    if i < j { GrowsAlong(states, i + 1, j); }
  }

  /** Saved versions stay as they are. */
  lemma HistoryGrows(states: seq<System>, actions: seq<Action>, i: nat, j: nat)
    requires IsRun(states, actions) && i <= j < |states|
    ensures states[i].history <= states[j].history && states[i].saves <= states[j].saves
  {
    forall n | 0 <= n < |states| - 1
      ensures states[n].history <= states[n + 1].history && states[n].saves <= states[n + 1].saves
    {
      StepGrows(states[n], actions[n]);
    }
    GrowsAlong(states, i, j);
  }

  /** No lost update: a keyed save changes the binding of its own step in the version before it, and no other. */
  lemma KeyedSaveChangesOneBinding(states: seq<System>, actions: seq<Action>, n: nat, i: nat)
    requires IsRun(states, actions) && n < |states|
    requires i < |states[n].saves| && states[n].saves[i].Keyed?
    ensures 0 < i < |states[n].history|
    ensures var w := states[n].saves[i];
            && states[n].history[i].bound == states[n].history[i - 1].bound[w.step := w.run]
            && BoundTo(states[n].history[i - 1], w.step) != Some(w.run)
  {
    RunKeeps(states, actions, n);
    assert SaveSound(states[n], i);
  }

  /** The actions of a retry that runs without interruption. */
  function Retry(pid: Pid, request: Request, accepted: bool, rest: string): seq<Action> {
    [Claim(pid, request, {}), Load(pid), Bind(pid, accepted, rest), Finish(pid)]
  }

  /**
   * A request that died after its bind landed: once the lease has run out, a retry with the same
   * body answers with the bound run and completes the row, and saves nothing.
   */
  lemma RetryRecovers(s: System, pid: Pid, request: Request, accepted: bool, rest: string)
    requires Inv(s) && pid !in s.procs && s.history != []
    requires request.key in s.rows && s.rows[request.key].body == request.body && s.rows[request.key].run.None?
    requires s.rows[request.key].createdAt + LEASE_SECONDS <= s.now < s.rows[request.key].expiresAt
    requires BoundTo(s.history[|s.history| - 1], request.key.step) == Some(request.body.bindRun)
    ensures var a := Retry(pid, request, accepted, rest);
            && Enabled(s, a[0]) && var s1 := Next(s, a[0]);
            && Enabled(s1, a[1]) && var s2 := Next(s1, a[1]);
            && Enabled(s2, a[2]) && var s3 := Next(s2, a[2]);
            && Enabled(s3, a[3]) && var s4 := Next(s3, a[3]);
            && Answer(s3, a[3]) == Some((request.key, request.body.bindRun))
            && s4.history == s.history
            && request.key in s4.rows && s4.rows[request.key].run == Some(request.body.bindRun)
  {
    var a := Retry(pid, request, accepted, rest);
    RetryTakesOver(s, pid, request);
    var s1 := Next(s, a[0]);
    var s2 := Next(s1, a[1]);
    RetryBindsAgain(s2, pid, request, accepted, rest);
  }

  lemma RetryTakesOver(s: System, pid: Pid, request: Request)
    requires Inv(s) && pid !in s.procs
    requires request.key in s.rows && s.rows[request.key].body == request.body && s.rows[request.key].run.None?
    requires s.rows[request.key].createdAt + LEASE_SECONDS <= s.now < s.rows[request.key].expiresAt
    ensures var a := Claim(pid, request, {}); var s1 := Next(s, a);
            && Enabled(s, a) && s1.now == s.now && s1.history == s.history
            && pid in s1.procs && s1.procs[pid] == Process(request, Held(s.now, true))
            && request.key in s1.rows && s1.rows[request.key].body == request.body
            && s1.rows[request.key].run.None? && s1.rows[request.key].createdAt == s.now
  {
    ReserveAnswers(s.rows, {}, request.key, request.body, s.now, s.ttl);
  }

  /** The bind is found done, and the row is completed with its run. */
  lemma RetryBindsAgain(s: System, pid: Pid, request: Request, accepted: bool, rest: string)
    requires pid in s.procs && s.history != []
    requires s.procs[pid] == Process(request, Loaded(s.now, true, |s.history|))
    requires request.key in s.rows && s.rows[request.key].body == request.body
    requires s.rows[request.key].run.None? && s.rows[request.key].createdAt == s.now
    requires BoundTo(s.history[|s.history| - 1], request.key.step) == Some(request.body.bindRun)
    ensures Enabled(s, Bind(pid, accepted, rest)) && var s3 := Next(s, Bind(pid, accepted, rest));
            && Enabled(s3, Finish(pid)) && var s4 := Next(s3, Finish(pid));
            && Answer(s3, Finish(pid)) == Some((request.key, request.body.bindRun))
            && s4.history == s.history
            && request.key in s4.rows && s4.rows[request.key].run == Some(request.body.bindRun)
  {
    var s3 := Next(s, Bind(pid, accepted, rest));
    assert s3.procs[pid].stage == Bound(s.now);
  }

  /** Inside the lease the same retry is told to wait, and changes nothing. */
  lemma RetryWaits(s: System, pid: Pid, request: Request)
    requires Inv(s) && pid !in s.procs
    requires request.key in s.rows && s.rows[request.key].body == request.body && s.rows[request.key].run.None?
    requires s.now < s.rows[request.key].createdAt + LEASE_SECONDS && s.now < s.rows[request.key].expiresAt
    ensures Next(s, Claim(pid, request, {})).procs[pid].stage == Replied(Refused)
    ensures Next(s, Claim(pid, request, {})).rows == s.rows
  {
    assert Swept(s.rows, {}, request.key, s.now) == s.rows;
  }

  // ----- what a request gets that nobody interrupts

  /** The key can be claimed: no unexpired row, or a pending one of the same body whose lease has run out. */
  predicate Claimable(s: System, request: Request) {
    || request.key !in s.rows || s.rows[request.key].expiresAt <= s.now
    || (s.rows[request.key].body == request.body && s.rows[request.key].run.None? && s.rows[request.key].createdAt + LEASE_SECONDS <= s.now)
  }

  /** Two states apart, a request has claimed its key and read the newest version. */
  lemma ClaimAndLoad(s: System, pid: Pid, request: Request) returns (t: System)
    requires Inv(s) && pid !in s.procs && Claimable(s, request)
    ensures Enabled(s, Claim(pid, request, {})) && Enabled(Next(s, Claim(pid, request, {})), Load(pid))
    ensures t == Next(Next(s, Claim(pid, request, {})), Load(pid))
    ensures SameProgram(s, t) && t.now == s.now && pid in t.procs && t.procs[pid].request == request
    ensures t.procs[pid].stage == Loaded(s.now, t.procs[pid].stage.tookOver, |s.history|)
    ensures t.procs[pid].stage.tookOver ==> request.key in s.rows
    ensures HeldBy(t.rows, request.key, request.body, s.now)
  {
    ReserveMeans(s.rows, {}, request.key, request.body, s.now, s.ttl);
    ClaimMoves(s, Claim(pid, request, {}));
    t := Next(Next(s, Claim(pid, request, {})), Load(pid));
  }

  /** The steps of an accepted bind and its finish, on the version it read. */
  lemma BindAndFinish(t: System, pid: Pid, request: Request, rest: string)
    requires pid in t.procs && t.procs[pid].request == request && t.history != []
    requires t.procs[pid].stage.Loaded? && t.procs[pid].stage.base == |t.history|
    requires HeldBy(t.rows, request.key, request.body, t.procs[pid].stage.lease)
    requires BoundTo(t.history[|t.history| - 1], request.key.step) != Some(request.body.bindRun)
    ensures Enabled(t, Bind(pid, true, rest)) && Enabled(Next(t, Bind(pid, true, rest)), Finish(pid))
    ensures var u := Next(Next(t, Bind(pid, true, rest)), Finish(pid));
            var read := t.history[|t.history| - 1];
            && u.procs[pid] == Process(request, Replied(Success(request.body.bindRun)))
            && u.history == t.history + [Program(read.bound[request.key.step := request.body.bindRun], rest)]
            && u.rows == t.rows[request.key := t.rows[request.key].(run := Some(request.body.bindRun))]
  {
    var b := Next(t, Bind(pid, true, rest));
    assert b.procs[pid] == Process(request, Bound(t.procs[pid].stage.lease));
  }

  /**
   * A request whose key is free, for a run the step is not bound to, binds it: claim, load,
   * accepted bind and finish end with its success, one version more that binds this step and no
   * other anew, and the key's row complete with the run.
   */
  lemma FreshBindLands(s: System, pid: Pid, request: Request, rest: string)
    requires Inv(s) && pid !in s.procs && s.history != [] && Claimable(s, request)
    requires BoundTo(s.history[|s.history| - 1], request.key.step) != Some(request.body.bindRun)
    ensures var a := Retry(pid, request, true, rest);
            && Enabled(s, a[0]) && var s1 := Next(s, a[0]);
            && Enabled(s1, a[1]) && var s2 := Next(s1, a[1]);
            && Enabled(s2, a[2]) && var s3 := Next(s2, a[2]);
            && Enabled(s3, a[3]) && var s4 := Next(s3, a[3]);
            && s4.procs[pid] == Process(request, Replied(Success(request.body.bindRun)))
            && |s4.history| == |s.history| + 1 && s4.history[..|s.history|] == s.history
            && BoundTo(s4.history[|s.history|], request.key.step) == Some(request.body.bindRun)
            && (forall step :: step != request.key.step ==> BoundTo(s4.history[|s.history|], step) == BoundTo(s.history[|s.history| - 1], step))
            && request.key in s4.rows && s4.rows[request.key].run == Some(request.body.bindRun)
  {
    var t := ClaimAndLoad(s, pid, request);
    BindAndFinish(t, pid, request, rest);
  }

  /** A request for the run its step is bound to answers with it, and saves nothing. */
  lemma BoundAlreadyAnswers(s: System, pid: Pid, request: Request, rest: string)
    requires Inv(s) && pid !in s.procs && s.history != [] && Claimable(s, request)
    requires BoundTo(s.history[|s.history| - 1], request.key.step) == Some(request.body.bindRun)
    ensures var a := Retry(pid, request, true, rest);
            && Enabled(s, a[0]) && var s1 := Next(s, a[0]);
            && Enabled(s1, a[1]) && var s2 := Next(s1, a[1]);
            && Enabled(s2, a[2]) && var s3 := Next(s2, a[2]);
            && Enabled(s3, a[3]) && var s4 := Next(s3, a[3]);
            && s4.procs[pid] == Process(request, Replied(Success(request.body.bindRun)))
            && s4.history == s.history
            && request.key in s4.rows && s4.rows[request.key].run == Some(request.body.bindRun)
  {
    var t := ClaimAndLoad(s, pid, request);
    FoundBoundFinishes(t, pid, request, rest);
  }

  lemma FoundBoundFinishes(t: System, pid: Pid, request: Request, rest: string)
    requires pid in t.procs && t.procs[pid].request == request && t.history != []
    requires t.procs[pid].stage.Loaded? && t.procs[pid].stage.base == |t.history|
    requires HeldBy(t.rows, request.key, request.body, t.procs[pid].stage.lease)
    requires BoundTo(t.history[|t.history| - 1], request.key.step) == Some(request.body.bindRun)
    ensures Enabled(t, Bind(pid, true, rest)) && Enabled(Next(t, Bind(pid, true, rest)), Finish(pid))
    ensures var u := Next(Next(t, Bind(pid, true, rest)), Finish(pid));
            && u.procs[pid] == Process(request, Replied(Success(request.body.bindRun))) && u.history == t.history
            && u.rows == t.rows[request.key := t.rows[request.key].(run := Some(request.body.bindRun))]
  {
    assert Next(t, Bind(pid, true, rest)).procs[pid] == Process(request, Bound(t.procs[pid].stage.lease));
  }

  /** A loaded request whose bind is refused: not accepted, or some save landed after it read. */
  predicate BindFails(t: System, pid: Pid, accepted: bool)
    requires pid in t.procs && t.procs[pid].stage.Loaded? && 0 < t.procs[pid].stage.base <= |t.history|
  {
    var bound := BoundTo(t.history[t.procs[pid].stage.base - 1], t.procs[pid].request.key.step) == Some(t.procs[pid].request.body.bindRun);
    if accepted then !bound && t.procs[pid].stage.base < |t.history| else !(bound && t.procs[pid].stage.tookOver)
  }

  /** A bind that fails leaves the program alone and is refused, and its undo frees the key for the next request. */
  lemma FailedBindFreesKey(t: System, pid: Pid, accepted: bool, rest: string)
    requires pid in t.procs && t.procs[pid].stage.Loaded? && 0 < t.procs[pid].stage.base <= |t.history|
    requires BindFails(t, pid, accepted)
    requires HeldBy(t.rows, t.procs[pid].request.key, t.procs[pid].request.body, t.procs[pid].stage.lease)
    ensures Enabled(t, Bind(pid, accepted, rest)) && Enabled(Next(t, Bind(pid, accepted, rest)), Undo(pid))
    ensures var key, u := t.procs[pid].request.key, Next(Next(t, Bind(pid, accepted, rest)), Undo(pid));
            && SameProgram(t, u) && u.procs[pid].stage == Replied(Refused) && u.rows == t.rows - {key}
  {
    var b := Next(t, Bind(pid, accepted, rest));
    assert b == To(t, pid, Failing(t.procs[pid].stage.lease));
  }

  /** From the claim on: a bind that is not accepted changes nothing and frees the key. */
  lemma RejectedBindIsRefused(s: System, pid: Pid, request: Request, rest: string)
    requires Inv(s) && pid !in s.procs && s.history != [] && Claimable(s, request)
    requires BoundTo(s.history[|s.history| - 1], request.key.step) != Some(request.body.bindRun)
    ensures Enabled(s, Claim(pid, request, {})) && var s1 := Next(s, Claim(pid, request, {}));
            && Enabled(s1, Load(pid)) && var s2 := Next(s1, Load(pid));
            && Enabled(s2, Bind(pid, false, rest)) && var s3 := Next(s2, Bind(pid, false, rest));
            && Enabled(s3, Undo(pid)) && var s4 := Next(s3, Undo(pid));
            && SameProgram(s, s4) && s4.procs[pid].stage == Replied(Refused) && request.key !in s4.rows
  {
    var t := ClaimAndLoad(s, pid, request);
    FailedBindFreesKey(t, pid, false, rest);
  }

  /** From the claim on: a bind on a version that another save has replaced leaves that save in place and frees the key. */
  lemma OvertakenBindIsRefused(s: System, pid: Pid, request: Request, rest: string, route: Program -> Program)
    requires Inv(s) && pid !in s.procs && s.history != [] && Claimable(s, request)
    requires BoundTo(s.history[|s.history| - 1], request.key.step) != Some(request.body.bindRun)
    ensures Enabled(s, Claim(pid, request, {})) && var s1 := Next(s, Claim(pid, request, {}));
            && Enabled(s1, Load(pid)) && var s2 := Next(s1, Load(pid));
            && Enabled(s2, OtherSave(|s.history|, route)) && var s3 := Next(s2, OtherSave(|s.history|, route));
            && Enabled(s3, Bind(pid, true, rest)) && var s4 := Next(s3, Bind(pid, true, rest));
            && Enabled(s4, Undo(pid)) && var s5 := Next(s4, Undo(pid));
            && s5.history == s.history + [route(s.history[|s.history| - 1])]
            && s5.procs[pid].stage == Replied(Refused) && request.key !in s5.rows
  {
    var t := ClaimAndLoad(s, pid, request);
    var u := Next(t, OtherSave(|s.history|, route));
    assert u.history[|s.history| - 1] == s.history[|s.history| - 1];
    assert u.procs == t.procs && u.rows == t.rows;
    FailedBindFreesKey(u, pid, true, rest);
  }

  /** A repeat of a completed request answers with its run as long as the step is bound to it, and changes neither store. */
  lemma ReplayAnswersIff(s: System, pid: Pid, request: Request)
    requires Inv(s) && pid !in s.procs && s.history != []
    requires request.key in s.rows && s.rows[request.key].body == request.body && s.rows[request.key].run.Some?
    requires s.now < s.rows[request.key].expiresAt
    ensures Enabled(s, Claim(pid, request, {})) && var s1 := Next(s, Claim(pid, request, {}));
            && Enabled(s1, Reread(pid)) && var s2 := Next(s1, Reread(pid));
            && SameProgram(s, s2) && s2.rows == s.rows
            && s2.procs[pid].stage == Replied(if BoundTo(s.history[|s.history| - 1], request.key.step) == s.rows[request.key].run
                                              then Success(s.rows[request.key].run.value) else Refused)
  {
    ReserveMeans(s.rows, {}, request.key, request.body, s.now, s.ttl);
    ClaimMoves(s, Claim(pid, request, {}));
    assert Swept(s.rows, {}, request.key, s.now) == s.rows;
  }

  /** A key in use for another body refuses at once and changes nothing. */
  lemma OtherBodyIsRefused(s: System, pid: Pid, request: Request)
    requires pid !in s.procs && request.key in s.rows && s.rows[request.key].body != request.body && s.now < s.rows[request.key].expiresAt
    ensures var s1 := Next(s, Claim(pid, request, {}));
            s1.procs[pid].stage == Replied(Refused) && s1.rows == s.rows && SameProgram(s, s1)
  {
    assert Swept(s.rows, {}, request.key, s.now) == s.rows;
  }
}
