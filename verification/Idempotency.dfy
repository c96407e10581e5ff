/**
 * The idempotency key store of `src/recertia/persistence/idempotency.py`.
 *
 * A row is pending while its request binds a step and complete once the bind is saved. `Body`
 * stands for the request hash: two requests hash alike iff their bodies are equal.
 */
module Idempotency {
  import opened Prelude

  datatype RunId = RunId(text: string)
  datatype StepId = StepId(text: string)

  /** The primary key of a row, within one tenant's program. */
  datatype KeyScope = KeyScope(step: StepId, key: string)

  datatype Body = Body(bindRun: RunId, rest: string)

  /** `run` is absent while the row is pending. Times are whole seconds. */
  datatype Row = Row(body: Body, run: Option<RunId>, createdAt: nat, expiresAt: nat)

  type Rows = map<KeyScope, Row>

  const LEASE_SECONDS: nat := 30
  const SWEEP_LIMIT: nat := 500

  datatype Reservation = Reserved(lease: nat) | Replay(run: RunId) | TakenOver(lease: nat) | InProgress | Mismatch

  datatype Completion = Completed | Superseded | Lost

  function Expired(rows: Rows, now: nat): set<KeyScope> {
    set k | k in rows && rows[k].expiresAt <= now
  }

  /** Rows that a write to `key` keeps: it sweeps some expired rows, and its own if expired. */
  function Swept(rows: Rows, swept: set<KeyScope>, key: KeyScope, now: nat): Rows {
    map k | k in rows && k !in swept && !(k == key && rows[k].expiresAt <= now) :: rows[k]
  }

  /** `reserve`. */
  function Reserve(rows: Rows, swept: set<KeyScope>, key: KeyScope, body: Body, now: nat, ttl: nat): (Rows, Reservation) {
    var kept := Swept(rows, swept, key, now);
    if key !in kept then (kept[key := Row(body, None, now, now + ttl)], Reserved(now))
    else
      var row := kept[key];
      if row.body != body then (kept, Mismatch)
      else if row.run.Some? then (kept, Replay(row.run.value))
      else if now < row.createdAt + LEASE_SECONDS then (kept, InProgress)
      else (kept[key := row.(createdAt := now, expiresAt := now + ttl)], TakenOver(now))
  }

  /** The row is the pending one that the holder of `lease` wrote. */
  predicate HeldBy(rows: Rows, key: KeyScope, body: Body, lease: nat) {
    key in rows && rows[key].run.None? && rows[key].body == body && rows[key].createdAt == lease
  }

  /** `complete`. */
  function Complete(rows: Rows, key: KeyScope, body: Body, run: RunId, lease: nat): (Rows, Completion) {
    if HeldBy(rows, key, body, lease) then (rows[key := rows[key].(run := Some(run))], Completed)
    else if key !in rows || rows[key].body != body then (rows, Lost)
    else if rows[key].run.Some? then (rows, if rows[key].run == Some(run) then Completed else Lost)
    else (rows, Superseded)
  }

  /** `release`. */
  function Release(rows: Rows, key: KeyScope, body: Body, lease: nat): Rows {
    if HeldBy(rows, key, body, lease) then rows - {key} else rows
  }

  /** The store object: each method is one write transaction. */
  class IdempotencyStore {
    const ttl: nat
    var rows: Rows

    constructor (ttl: nat)
      ensures this.ttl == ttl && rows == map[]
    {
      this.ttl := ttl;
      rows := map[];
    }

    /** `swept` are the expired rows that the bounded sweep happens to reach. */
    method DoReserve(key: KeyScope, body: Body, now: nat, swept: set<KeyScope>) returns (r: Reservation)
      requires swept <= Expired(rows, now) && |swept| <= SWEEP_LIMIT
      modifies this
      ensures (rows, r) == Reserve(old(rows), swept, key, body, now, ttl)
    {
      rows := map k | k in rows && k !in swept :: rows[k];
      if key in rows && rows[key].expiresAt <= now {
        rows := rows - {key};
      }
      assert rows == Swept(old(rows), swept, key, now);
      if key !in rows {
        rows := rows[key := Row(body, None, now, now + ttl)];
        return Reserved(now);
      }
      var row := rows[key];
      if row.body != body {
        return Mismatch;
      }
      if row.run.Some? {
        return Replay(row.run.value);
      }
      if now < row.createdAt + LEASE_SECONDS {
        return InProgress;
      }
      rows := rows[key := row.(createdAt := now, expiresAt := now + ttl)];
      return TakenOver(now);
    }

    method DoComplete(key: KeyScope, body: Body, run: RunId, lease: nat) returns (c: Completion)
      modifies this
      ensures (rows, c) == Complete(old(rows), key, body, run, lease)
    {
      if HeldBy(rows, key, body, lease) {
        rows := rows[key := rows[key].(run := Some(run))];
        return Completed;
      }
      if key !in rows || rows[key].body != body {
        return Lost;
      }
      if rows[key].run.Some? {
        return if rows[key].run == Some(run) then Completed else Lost;
      }
      return Superseded;
    }

    method DoRelease(key: KeyScope, body: Body, lease: nat)
      modifies this
      ensures rows == Release(old(rows), key, body, lease)
    {
      if HeldBy(rows, key, body, lease) {
        rows := rows - {key};
      }
    }
  }

  /**
   * Each answer of `reserve` by the row as it was before the call: none, or one that has expired,
   * is reserved anew; a live one of another body is a mismatch; a complete one is replayed; a
   * pending one is waited for, and taken over once its lease has run out.
   */
  lemma ReserveMeans(rows: Rows, swept: set<KeyScope>, key: KeyScope, body: Body, now: nat, ttl: nat)
    requires swept <= Expired(rows, now)
    ensures var (after, r) := Reserve(rows, swept, key, body, now, ttl);
            if key !in rows || rows[key].expiresAt <= now then r == Reserved(now)
            else if rows[key].body != body then r == Mismatch
            else if rows[key].run.Some? then r == Replay(rows[key].run.value)
            else if now < rows[key].createdAt + 30 then r == InProgress
            else r == TakenOver(now)
    ensures var (after, r) := Reserve(rows, swept, key, body, now, ttl);
            && (r == Reserved(now) || r == TakenOver(now) ==> key in after && after[key] == Row(body, None, now, now + ttl))
            && (r != Reserved(now) && r != TakenOver(now) ==> key in after && after[key] == rows[key])
            && forall k :: k != key ==> (k in after <==> k in rows && k !in swept) && (k in after ==> after[k] == rows[k])
  {
  }

  /** A row never answers for a body it was not reserved with, and a pending row never replays. */
  lemma ReserveAnswers(rows: Rows, swept: set<KeyScope>, key: KeyScope, body: Body, now: nat, ttl: nat)
    ensures var (after, r) := Reserve(rows, swept, key, body, now, ttl);
            && (r.Replay? <==> key in Swept(rows, swept, key, now) && rows[key].body == body && rows[key].run.Some?)
            && (r.Replay? ==> rows[key].run == Some(r.run))
            && (r.Reserved? || r.TakenOver? ==> HeldBy(after, key, body, r.lease))
            && (r.Reserved? || r.TakenOver? || after == Swept(rows, swept, key, now))
            && forall k :: k in after && k != key ==> k in rows && after[k] == rows[k]
  {
  }

  /** The rows a sweep may take are those whose key a request could reserve anew. */
  lemma ExpiredIsFree(rows: Rows, key: KeyScope, body: Body, now: nat, ttl: nat)
    requires key in rows
    ensures key in Expired(rows, now) <==> Reserve(rows, {}, key, body, now, ttl).1 == Reserved(now)
  {
  }

  /** What `complete` answers, and does, by the row as it was: only the holder of a pending row completes it. */
  lemma CompleteMeans(rows: Rows, key: KeyScope, body: Body, run: RunId, lease: nat)
    ensures var (after, c) := Complete(rows, key, body, run, lease);
            if key !in rows || rows[key].body != body then c == Lost && after == rows
            else if rows[key].run == Some(run) then c == Completed && after == rows
            else if rows[key].run.Some? then c == Lost && after == rows
            else if rows[key].createdAt != lease then c == Superseded && after == rows
            else c == Completed && after == rows[key := Row(body, Some(run), lease, rows[key].expiresAt)]
  {
  }

  /**
   * After `complete` answers, the answer can be read off the row: completed iff it now records
   * this body and run, superseded iff another lease holds it pending. Only the row that carries
   * the lease changes, and a complete row never does.
   */
  lemma CompletionMeans(rows: Rows, key: KeyScope, body: Body, run: RunId, lease: nat)
    ensures var (after, c) := Complete(rows, key, body, run, lease);
            && (c == Completed <==> key in after && after[key].body == body && after[key].run == Some(run))
            && (c == Superseded <==> key in after && after[key].body == body && after[key].run.None? && after[key].createdAt != lease)
            && after.Keys == rows.Keys
            && forall k :: k in rows && (k != key || rows[k].run.Some? || rows[k].createdAt != lease) ==> after[k] == rows[k]
  {
  }

  /** A release lets go of the lease's own pending row and of nothing else. */
  lemma ReleaseMeans(rows: Rows, key: KeyScope, body: Body, lease: nat)
    ensures var after := Release(rows, key, body, lease);
            && (HeldBy(rows, key, body, lease) ==> key !in after)
            && !HeldBy(after, key, body, lease)
            && (forall k :: k in rows && (k != key || rows[k].run.Some? || rows[k].createdAt != lease) ==> k in after)
            && forall k :: k in after ==> k in rows && after[k] == rows[k]
  {
  }
}
