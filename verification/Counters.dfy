/**
 * The two bounded distinct counters: `ApplyDiversity` of `contracts/stats.py`, which drops its
 * sample at a floor, and `FailureClusterRow` of `contracts/cluster.py`, whose samples are capped.
 */
module Counters {
  import opened Prelude

  datatype Id = Id(text: string)

  /** The distinct ids of a history. */
  function Seen(ids: seq<Id>): set<Id> {
    if ids == [] then {} else Seen(ids[..|ids| - 1]) + {ids[|ids| - 1]}
  }

  lemma {:induction false} SeenIs(ids: seq<Id>, x: Id)
    ensures x in Seen(ids) <==> x in ids
  {
    if ids != [] {
      SeenIs(ids[..|ids| - 1], x);
      assert ids == ids[..|ids| - 1] + [ids[|ids| - 1]];
    }
  }

  lemma SeenOneMore(ids: seq<Id>, x: Id)
    ensures Seen(ids + [x]) == Seen(ids) + {x}
    ensures |Seen(ids + [x])| == |Seen(ids)| + if x in Seen(ids) then 0 else 1
  {
    assert (ids + [x])[..|ids + [x]| - 1] == ids;
    if x in Seen(ids) { assert Seen(ids) + {x} == Seen(ids); }
  }

  // ----- application sessions

  datatype ApplyDiversity = ApplyDiversity(distinct: nat, sample: seq<Id>, floor: nat)

  /** `ApplyDiversity.note`. */
  function NoteSession(a: ApplyDiversity, session: Id): ApplyDiversity {
    if session.text == "" then a
    else if session in a.sample then a
    else if a.sample == [] && a.distinct >= a.floor then a
    else
      var count := a.distinct + 1;
      a.(distinct := count, sample := if count >= a.floor then [] else a.sample + [session])
  }

  function NoteSessions(floor: nat, sessions: seq<Id>): ApplyDiversity {
    if sessions == [] then ApplyDiversity(0, [], floor)
    else NoteSession(NoteSessions(floor, sessions[..|sessions| - 1]), sessions[|sessions| - 1])
  }

  function NonEmpty(ids: seq<Id>): seq<Id> {
    if ids == [] then []
    else if ids[|ids| - 1].text == "" then NonEmpty(ids[..|ids| - 1])
    else NonEmpty(ids[..|ids| - 1]) + [ids[|ids| - 1]]
  }

  /** What a row holds once the distinct non-empty sessions are `seen`. */
  predicate Counts(a: ApplyDiversity, seen: set<Id>, floor: nat) {
    && a.floor == floor
    && a.distinct == Min(|seen|, floor)
    && (|seen| < floor ==> Seen(a.sample) == seen && |a.sample| == |seen|)
    && (|seen| >= floor ==> a.sample == [])
  }

  lemma NoteCounts(a: ApplyDiversity, seen: set<Id>, floor: nat, x: Id)
    requires Counts(a, seen, floor) && x.text != "" && floor >= 1
    ensures Counts(NoteSession(a, x), seen + {x}, floor)
  {
    SeenIs(a.sample, x);
    SeenOneMore(a.sample, x);
    if x in seen {
      assert seen + {x} == seen;
    } else {
      assert |seen + {x}| == |seen| + 1;
    }
  }

  /**
   * Although the sample is dropped at the floor, the counter holds the number of distinct
   * non-empty sessions, cut off at the floor, and the row stays valid.
   */
  lemma {:induction false} DiversityCounts(floor: nat, sessions: seq<Id>)
    requires floor >= 1
    ensures Counts(NoteSessions(floor, sessions), Seen(NonEmpty(sessions)), floor)
    ensures NoteSessions(floor, sessions).distinct == Min(|Seen(NonEmpty(sessions))|, floor)
    ensures |NoteSessions(floor, sessions).sample| <= Min(floor, NoteSessions(floor, sessions).distinct)
  {
    if sessions != [] {
      var front, x := sessions[..|sessions| - 1], sessions[|sessions| - 1];
      DiversityCounts(floor, front);
      if x.text != "" {
        NoteCounts(NoteSessions(floor, front), Seen(NonEmpty(front)), floor, x);
        SeenOneMore(NonEmpty(front), x);
      }
    }
  }

  // ----- failure clusters

  datatype Track = Track(n: nat, sample: seq<Id>)

  /** What `FailureClusterRow.note` does with a run id, and in the same way with a session id. */
  function NoteId(t: Track, id: Id, cap: nat): Track {
    if id in t.sample then t else Track(t.n + 1, if |t.sample| < cap then t.sample + [id] else t.sample)
  }

  datatype Row = Row(runs: Track, sessions: Track, lastCase: Option<string>, eligible: bool, cap: nat, minRuns: nat, minSessions: nat)

  datatype DeadEnd = DeadEnd(run: Id, session: Id, caseHash: Option<string>)

  /** `FailureClusterRow.note`. */
  function Note(r: Row, e: DeadEnd): Row {
    var runs, sessions := NoteId(r.runs, e.run, r.cap), NoteId(r.sessions, e.session, r.cap);
    r.(runs := runs, sessions := sessions,
       lastCase := if e.caseHash.Some? then e.caseHash else r.lastCase,
       eligible := runs.n >= r.minRuns && sessions.n >= r.minSessions)
  }

  function NoteAll(cap: nat, minRuns: nat, minSessions: nat, es: seq<DeadEnd>): Row {
    if es == [] then Row(Track(0, []), Track(0, []), None, false, cap, minRuns, minSessions)
    else Note(NoteAll(cap, minRuns, minSessions, es[..|es| - 1]), es[|es| - 1])
  }

  function RunIds(es: seq<DeadEnd>): seq<Id> {
    if es == [] then [] else RunIds(es[..|es| - 1]) + [es[|es| - 1].run]
  }

  function SessionIds(es: seq<DeadEnd>): seq<Id> {
    if es == [] then [] else SessionIds(es[..|es| - 1]) + [es[|es| - 1].session]
  }

  function TrackAll(ids: seq<Id>, cap: nat): Track {
    if ids == [] then Track(0, []) else NoteId(TrackAll(ids[..|ids| - 1], cap), ids[|ids| - 1], cap)
  }

  function LastCase(es: seq<DeadEnd>): Option<string> {
    if es == [] then None else if es[|es| - 1].caseHash.Some? then es[|es| - 1].caseHash else LastCase(es[..|es| - 1])
  }

  /** A row tracks runs and sessions independently and remembers the last case it was given. */
  lemma {:induction false} RowTracks(cap: nat, minRuns: nat, minSessions: nat, es: seq<DeadEnd>)
    ensures var r := NoteAll(cap, minRuns, minSessions, es);
            && r.runs == TrackAll(RunIds(es), cap) && r.sessions == TrackAll(SessionIds(es), cap)
            && r.lastCase == LastCase(es) && r.cap == cap && r.minRuns == minRuns && r.minSessions == minSessions
            && (es != [] ==> r.eligible == (r.runs.n >= minRuns && r.sessions.n >= minSessions))
  {
    if es != [] {
      var front, e := es[..|es| - 1], es[|es| - 1];
      RowTracks(cap, minRuns, minSessions, front);
      assert RunIds(es)[..|RunIds(es)| - 1] == RunIds(front);
      assert SessionIds(es)[..|SessionIds(es)| - 1] == SessionIds(front);
    }
  }

  /** The counter is exact up to the cap and never undercounts after it. */
  lemma {:induction false} TrackCounts(ids: seq<Id>, cap: nat)
    ensures var t, d := TrackAll(ids, cap), |Seen(ids)|;
            && d <= t.n && (d <= cap ==> t.n == d)
            && Seen(t.sample) <= Seen(ids) && |t.sample| == Min(d, cap) == |Seen(t.sample)|
            && (d <= cap ==> Seen(t.sample) == Seen(ids))
  {
    if ids != [] {
      var front, x := ids[..|ids| - 1], ids[|ids| - 1];
      TrackCounts(front, cap);
      TrackCountsStep(front, x, cap);
    }
  }

  lemma TrackCountsStep(front: seq<Id>, x: Id, cap: nat)
    requires var t, d := TrackAll(front, cap), |Seen(front)|;
             && d <= t.n && (d <= cap ==> t.n == d)
             && Seen(t.sample) <= Seen(front) && |t.sample| == Min(d, cap) == |Seen(t.sample)|
             && (d <= cap ==> Seen(t.sample) == Seen(front))
    ensures var t, d := NoteId(TrackAll(front, cap), x, cap), |Seen(front) + {x}|;
             && d <= t.n && (d <= cap ==> t.n == d)
             && Seen(t.sample) <= Seen(front) + {x} && |t.sample| == Min(d, cap) == |Seen(t.sample)|
             && (d <= cap ==> Seen(t.sample) == Seen(front) + {x})
  {
    var t := TrackAll(front, cap);
    SeenOneMore(front, x);
    SeenOneMore(t.sample, x);
    SeenIs(t.sample, x);
  }

  /** What `eligible` is meant to say. */
  predicate TrulyEligible(minRuns: nat, minSessions: nat, es: seq<DeadEnd>) {
    |Seen(RunIds(es))| >= minRuns && |Seen(SessionIds(es))| >= minSessions
  }

  lemma EligibleIsRight(cap: nat, minRuns: nat, minSessions: nat, es: seq<DeadEnd>)
    requires 1 <= minRuns <= cap + 1 && 1 <= minSessions <= cap + 1
    ensures NoteAll(cap, minRuns, minSessions, es).eligible == TrulyEligible(minRuns, minSessions, es)
  {
    RowTracks(cap, minRuns, minSessions, es);
    TrackCounts(RunIds(es), cap);
    TrackCounts(SessionIds(es), cap);
  }

  // ----- a minimum above the cap

  function Numbered(i: nat): Id {
    Id(seq(i, _ => 'x'))
  }

  lemma NumberedApart(i: nat, j: nat)
    ensures Numbered(i) == Numbered(j) <==> i == j
  {
    assert |Numbered(i).text| == i && |Numbered(j).text| == j;
  }

  /** `n` ids: the first `k` distinct, then the last of those again and again. */
  function Repeating(n: nat, k: nat): seq<Id> {
    if n == 0 then [] else Repeating(n - 1, k) + [Numbered(if n - 1 < k then n - 1 else k)]
  }

  function FirstIds(n: nat): set<Id> {
    if n == 0 then {} else FirstIds(n - 1) + {Numbered(n - 1)}
  }

  lemma {:induction false} FirstIdsHold(n: nat, j: nat)
    ensures Numbered(j) in FirstIds(n) <==> j < n
  {
    if n > 0 {
      FirstIdsHold(n - 1, j);
      NumberedApart(j, n - 1);
    }
  }

  lemma {:induction false} FirstIdsCount(n: nat)
    ensures |FirstIds(n)| == n
  {
    if n > 0 {
      FirstIdsCount(n - 1);
      FirstIdsHold(n - 1, n - 1);
    }
  }

  lemma {:induction false} RepeatingIs(n: nat, k: nat)
    ensures |Repeating(n, k)| == n && Seen(Repeating(n, k)) == FirstIds(Min(n, k + 1))
  {
    if n > 0 {
      var last := if n - 1 < k then n - 1 else k;
      RepeatingIs(n - 1, k);
      SeenOneMore(Repeating(n - 1, k), Numbered(last));
      FirstIdsHold(Min(n - 1, k + 1), last);
    }
  }

  lemma RepeatingCount(n: nat, k: nat)
    ensures |Seen(Repeating(n, k))| == Min(n, k + 1)
  {
    RepeatingIs(n, k);
    FirstIdsCount(Min(n, k + 1));
  }

  lemma NextIsNew(n: nat, cap: nat)
    requires n <= cap
    ensures Numbered(n) !in Repeating(n, cap) && |Repeating(n, cap)| == n
  {
    RepeatingIs(n, cap);
    SeenIs(Repeating(n, cap), Numbered(n));
    FirstIdsHold(n, n);
  }

  lemma TrackOneMore(ids: seq<Id>, x: Id, cap: nat)
    ensures TrackAll(ids + [x], cap) == NoteId(TrackAll(ids, cap), x, cap)
  {
    assert (ids + [x])[..|ids + [x]| - 1] == ids;
  }

  /** One more new id, kept while there is room in the sample. */
  lemma CountedAgain(n: nat, cap: nat)
    ensures NoteId(Track(n, Repeating(Min(n, cap), cap)), Numbered(Min(n, cap)), cap)
         == Track(n + 1, Repeating(Min(n + 1, cap), cap))
  {
    NextIsNew(Min(n, cap), cap);
  }

  lemma RepeatingOneMore(n: nat, cap: nat, ids: seq<Id>) returns (more: seq<Id>)
    requires ids == Repeating(n, cap)
    ensures more == Repeating(n + 1, cap)
    ensures TrackAll(more, cap) == NoteId(TrackAll(ids, cap), Numbered(Min(n, cap)), cap)
  {
    more := ids + [Numbered(Min(n, cap))];
    TrackOneMore(ids, Numbered(Min(n, cap)), cap);
  }

  lemma {:induction false} CountedSoFar(n: nat, cap: nat) returns (ids: seq<Id>)
    ensures ids == Repeating(n, cap)
    ensures TrackAll(ids, cap) == Track(n, Repeating(Min(n, cap), cap))
  {
    if n == 0 {
      ids := [];
    } else {
      var front := CountedSoFar(n - 1, cap);
      CountedAgain(n - 1, cap);
      ids := RepeatingOneMore(n - 1, cap, front);
    }
  }

  /** Ids past the cap are counted every time. */
  lemma OverflowIsCountedAgain(n: nat, cap: nat)
    ensures TrackAll(Repeating(n, cap), cap) == Track(n, Repeating(Min(n, cap), cap))
  {
    var ids := CountedSoFar(n, cap);
  }

  /** `n` dead ends whose runs are few, or whose sessions are. */
  function Crowded(n: nat, runs: nat, sessions: nat): seq<DeadEnd> {
    if n == 0 then []
    else Crowded(n - 1, runs, sessions)
         + [DeadEnd(Numbered(if n - 1 < runs then n - 1 else runs), Numbered(if n - 1 < sessions then n - 1 else sessions), None)]
  }

  lemma {:induction false} CrowdedIs(n: nat, runs: nat, sessions: nat)
    ensures |Crowded(n, runs, sessions)| == n
    ensures RunIds(Crowded(n, runs, sessions)) == Repeating(n, runs)
    ensures SessionIds(Crowded(n, runs, sessions)) == Repeating(n, sessions)
  {
    if n > 0 {
      CrowdedIs(n - 1, runs, sessions);
      assert Crowded(n, runs, sessions)[..n - 1] == Crowded(n - 1, runs, sessions);
    }
  }

  lemma TooFewRuns(cap: nat, minRuns: nat, minSessions: nat) returns (es: seq<DeadEnd>)
    requires minRuns > cap + 1 && minSessions >= 1
    ensures NoteAll(cap, minRuns, minSessions, es).eligible && !TrulyEligible(minRuns, minSessions, es)
  {
    var n := Max(minRuns, minSessions);
    es := Crowded(n, cap, n);
    CrowdedIs(n, cap, n);
    RowTracks(cap, minRuns, minSessions, es);
    OverflowIsCountedAgain(n, cap);
    RepeatingCount(n, cap);
    RepeatingCount(n, n);
    TrackCounts(SessionIds(es), cap);
  }

  lemma TooFewSessions(cap: nat, minRuns: nat, minSessions: nat) returns (es: seq<DeadEnd>)
    requires minSessions > cap + 1 && minRuns >= 1
    ensures NoteAll(cap, minRuns, minSessions, es).eligible && !TrulyEligible(minRuns, minSessions, es)
  {
    var n := Max(minRuns, minSessions);
    es := Crowded(n, n, cap);
    CrowdedIs(n, n, cap);
    RowTracks(cap, minRuns, minSessions, es);
    OverflowIsCountedAgain(n, cap);
    RepeatingCount(n, cap);
    RepeatingCount(n, n);
    TrackCounts(RunIds(es), cap);
  }

  /** A row's `eligible` is right for every history iff both minimums are at most the cap plus one. */
  lemma EligibleIsRightIff(cap: nat, minRuns: nat, minSessions: nat)
    requires minRuns >= 1 && minSessions >= 1
    ensures (forall es: seq<DeadEnd> :: NoteAll(cap, minRuns, minSessions, es).eligible == TrulyEligible(minRuns, minSessions, es))
       <==> minRuns <= cap + 1 && minSessions <= cap + 1
  {
    if minRuns > cap + 1 {
      var es := TooFewRuns(cap, minRuns, minSessions);
    } else if minSessions > cap + 1 {
      var es := TooFewSessions(cap, minRuns, minSessions);
    } else {
      forall es: seq<DeadEnd>
        ensures NoteAll(cap, minRuns, minSessions, es).eligible == TrulyEligible(minRuns, minSessions, es)
      {
        EligibleIsRight(cap, minRuns, minSessions, es);
      }
    }
  }
}
