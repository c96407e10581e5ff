/**
 * The pending-login map of `src/recertia/api/console_auth.py`: `begin_oidc`, `take_oidc` and the
 * purge, with the dictionary kept as its entries in insertion order.
 *
 * The random state and the two clock readings of a start are parameters.
 */
module OidcPending {
  import opened Prelude
  import opened OidcClientKey

  const PENDING_MAX: nat := 1024
  const PER_CLIENT: nat := 16
  const TTL_SECONDS := 600.0

  datatype LoginState = LoginState(token: string)

  datatype Pending = Pending(
    state: LoginState,
    verifier: string,
    redirectUri: string,
    createdAt: real,
    nonce: string,
    client: ClientKey)

  // ----- the map as a list

  ghost predicate Holds(es: seq<Pending>, k: LoginState) {
    exists i :: 0 <= i < |es| && es[i].state == k
  }

  /** The keys of a dictionary are distinct. */
  ghost predicate Distinct(es: seq<Pending>) {
    es == [] || (!Holds(es[1..], es[0].state) && Distinct(es[1..]))
  }

  function Own(es: seq<Pending>, c: ClientKey): seq<Pending> {
    if es == [] then [] else if es[0].client == c then [es[0]] + Own(es[1..], c) else Own(es[1..], c)
  }

  function Others(es: seq<Pending>, c: ClientKey): seq<Pending> {
    if es == [] then [] else if es[0].client != c then [es[0]] + Others(es[1..], c) else Others(es[1..], c)
  }

  predicate Expired(e: Pending, now: real) {
    now - e.createdAt > TTL_SECONDS
  }

  /** `_purge_oidc_locked`. */
  function Purge(es: seq<Pending>, now: real): seq<Pending> {
    if es == [] then [] else if Expired(es[0], now) then Purge(es[1..], now) else [es[0]] + Purge(es[1..], now)
  }

  /** `dict.pop(key, None)`. */
  function Remove(es: seq<Pending>, k: LoginState): seq<Pending> {
    if es == [] then [] else if es[0].state == k then es[1..] else [es[0]] + Remove(es[1..], k)
  }

  /** `dict[key] = value`: a key that is there keeps its place. */
  function Put(es: seq<Pending>, e: Pending): seq<Pending> {
    if es == [] then [e] else if es[0].state == e.state then [e] + es[1..] else [es[0]] + Put(es[1..], e)
  }

  // ----- what one start does

  /** Without the oldest `n` entries of client `c`. */
  function DropOwn(es: seq<Pending>, c: ClientKey, n: nat): seq<Pending> {
    if n == 0 || es == [] then es
    else if es[0].client == c then DropOwn(es[1..], c, n - 1)
    else [es[0]] + DropOwn(es[1..], c, n)
  }

  function Excess(size: nat, limit: nat): nat
    requires limit > 0
  {
    if size >= limit then size - (limit - 1) else 0
  }

  /** Room for one more of client `c`, then room for one more at all. */
  function MakeRoom(es: seq<Pending>, c: ClientKey): seq<Pending> {
    var mine := DropOwn(es, c, Excess(|Own(es, c)|, PER_CLIENT));
    assert Excess(|mine|, PENDING_MAX) <= |mine|;
    mine[Excess(|mine|, PENDING_MAX)..]
  }

  function Started(es: seq<Pending>, e: Pending, now: real): seq<Pending> {
    Put(MakeRoom(Purge(es, now), e.client), e)
  }

  ghost predicate WithinLimits(es: seq<Pending>) {
    |es| <= PENDING_MAX && forall c :: |Own(es, c)| <= PER_CLIENT
  }

  // ----- facts about the list operations

  lemma {:induction false} PurgeKeepsOrder(es: seq<Pending>, now: real, c: ClientKey)
    ensures |Purge(es, now)| <= |es|
    ensures |Own(Purge(es, now), c)| <= |Own(es, c)|
    ensures forall k :: Holds(Purge(es, now), k) ==> Holds(es, k)
    ensures Distinct(es) ==> Distinct(Purge(es, now))
  {
    if es != [] {
      PurgeKeepsOrder(es[1..], now, c);
      forall k | Holds(Purge(es, now), k) ensures Holds(es, k) {
        HoldsCons(es, k);
        if !Expired(es[0], now) { HoldsCons(Purge(es, now), k); }
      }
    }
  }

  /** A purge takes exactly the entries older than ten minutes. */
  lemma {:induction false} PurgedIff(es: seq<Pending>, now: real, e: Pending)
    ensures e in Purge(es, now) <==> e in es && now - e.createdAt <= 600.0
  {
    if es != [] {
      PurgedIff(es[1..], now, e);
      assert es == [es[0]] + es[1..];
    }
  }

  lemma HoldsCons(es: seq<Pending>, k: LoginState)
    requires es != []
    ensures Holds(es, k) <==> es[0].state == k || Holds(es[1..], k)
  {
    if es[0].state != k && Holds(es, k) {
      var i :| 0 <= i < |es| && es[i].state == k;
      assert es[1..][i - 1].state == k;
    }
    if Holds(es[1..], k) {
      var i :| 0 <= i < |es[1..]| && es[1..][i].state == k;
      assert es[i + 1].state == k;
    }
  }

  lemma {:induction false} DropOwnIs(es: seq<Pending>, c: ClientKey, n: nat)
    requires n <= |Own(es, c)|
    ensures |DropOwn(es, c, n)| == |es| - n
    ensures Own(DropOwn(es, c, n), c) == Own(es, c)[n..]
    ensures Others(DropOwn(es, c, n), c) == Others(es, c)
  {
    if n > 0 {
      if es[0].client == c {
        DropOwnIs(es[1..], c, n - 1);
      } else {
        DropOwnIs(es[1..], c, n);
      }
    }
  }

  lemma {:induction false} DropOwnSpares(es: seq<Pending>, c: ClientKey, n: nat, d: ClientKey)
    requires n <= |Own(es, c)|
    ensures |Own(DropOwn(es, c, n), d)| <= |Own(es, d)|
    ensures forall k :: Holds(DropOwn(es, c, n), k) ==> Holds(es, k)
    ensures Distinct(es) ==> Distinct(DropOwn(es, c, n))
  {
    if n > 0 {
      var m := if es[0].client == c then n - 1 else n;
      DropOwnSpares(es[1..], c, m, d);
      forall k | Holds(DropOwn(es, c, n), k) ensures Holds(es, k) {
        HoldsCons(es, k);
        if es[0].client != c { HoldsCons(DropOwn(es, c, n), k); }
      }
    }
  }

  lemma {:induction false} SuffixIs(es: seq<Pending>, n: nat, c: ClientKey)
    requires n <= |es|
    ensures |Own(es[n..], c)| <= |Own(es, c)|
    ensures forall k :: Holds(es[n..], k) ==> Holds(es, k)
    ensures Distinct(es) ==> Distinct(es[n..])
  {
    if n > 0 {
      assert es[n..] == es[1..][n - 1..];
      SuffixIs(es[1..], n - 1, c);
      forall k | Holds(es[n..], k) ensures Holds(es, k) { HoldsCons(es, k); }
    }
  }

  lemma {:induction false} PutIs(es: seq<Pending>, e: Pending, c: ClientKey)
    ensures |Put(es, e)| <= |es| + 1
    ensures |Own(Put(es, e), c)| <= |Own(es, c)| + if e.client == c then 1 else 0
    ensures forall k :: Holds(Put(es, e), k) <==> k == e.state || Holds(es, k)
    ensures Distinct(es) ==> Distinct(Put(es, e))
  {
    if es == [] {
      assert Put(es, e)[0] == e;
    } else {
      if es[0].state != e.state { PutIs(es[1..], e, c); }
      forall k ensures Holds(Put(es, e), k) <==> k == e.state || Holds(es, k) {
        HoldsCons(es, k);
        HoldsCons(Put(es, e), k);
      }
    }
  }

  lemma {:induction false} PutFresh(es: seq<Pending>, e: Pending)
    requires !Holds(es, e.state)
    ensures Put(es, e) == es + [e]
  {
    if es != [] {
      HoldsCons(es, e.state);
      PutFresh(es[1..], e);
    }
  }

  // ----- a start keeps the limits

  lemma MakeRoomIs(es: seq<Pending>, c: ClientKey, d: ClientKey)
    requires Distinct(es)
    ensures |MakeRoom(es, c)| < PENDING_MAX && |Own(MakeRoom(es, c), c)| < PER_CLIENT
    ensures |Own(MakeRoom(es, c), d)| <= |Own(es, d)|
    ensures forall k :: Holds(MakeRoom(es, c), k) ==> Holds(es, k)
    ensures Distinct(MakeRoom(es, c))
  {
    var n := Excess(|Own(es, c)|, PER_CLIENT);
    var mine := DropOwn(es, c, n);
    DropOwnIs(es, c, n);
    DropOwnSpares(es, c, n, d);
    SuffixIs(mine, Excess(|mine|, PENDING_MAX), c);
    SuffixIs(mine, Excess(|mine|, PENDING_MAX), d);
  }

  /** At most 1024 starts are pending, and at most 16 of one client. */
  lemma StartedKeepsLimits(es: seq<Pending>, e: Pending, now: real)
    requires Distinct(es) && WithinLimits(es)
    ensures Distinct(Started(es, e, now)) && WithinLimits(Started(es, e, now))
    ensures |Started(es, e, now)| <= 1024 && forall c :: |Own(Started(es, e, now), c)| <= 16
  {
    var purged := Purge(es, now);
    forall d ensures |Own(Started(es, e, now), d)| <= PER_CLIENT {
      PurgeKeepsOrder(es, now, d);
      MakeRoomIs(purged, e.client, d);
      PutIs(MakeRoom(purged, e.client), e, d);
    }
    PurgeKeepsOrder(es, now, e.client);
    MakeRoomIs(purged, e.client, e.client);
    PutIs(MakeRoom(purged, e.client), e, e.client);
  }

  // ----- a start spares the others

  lemma {:induction false} Counts(es: seq<Pending>, c: ClientKey)
    ensures |Own(es, c)| + |Others(es, c)| == |es|
  {
    if es != [] { Counts(es[1..], c); }
  }

  lemma {:induction false} AppendParts(es: seq<Pending>, e: Pending, c: ClientKey)
    requires e.client == c
    ensures Own(es + [e], c) == Own(es, c) + [e] && Others(es + [e], c) == Others(es, c)
  {
    if es == [] {
      assert es + [e] == [e];
    } else {
      AppendParts(es[1..], e, c);
      assert (es + [e])[1..] == es[1..] + [e];
    }
  }

  /** How many other clients' entries a start of `c` drops: none when `c` is at its limit. */
  function Spilt(es: seq<Pending>, c: ClientKey): (n: nat)
    ensures n <= 1
  {
    if |Own(es, c)| < PER_CLIENT && |es| >= PENDING_MAX && es[0].client != c then 1 else 0
  }

  /** How many of its own entries a start of `c` drops. */
  function Shed(es: seq<Pending>, c: ClientKey): (n: nat)
    ensures n <= 1
  {
    if |Own(es, c)| >= PER_CLIENT || (|es| >= PENDING_MAX && es[0].client == c) then 1 else 0
  }

  /**
   * A start with a fresh state drops at most one entry of another client, the oldest, and only
   * when its own client is under its limit and the map is full. Of its own client it drops at most
   * the oldest entry; everything else stays, in order, and the new start comes last.
   */
  lemma StartSparesOthers(es: seq<Pending>, e: Pending)
    requires Distinct(es) && WithinLimits(es) && !Holds(es, e.state)
    ensures var after := Put(MakeRoom(es, e.client), e);
            && Spilt(es, e.client) <= |Others(es, e.client)|
            && Others(after, e.client) == Others(es, e.client)[Spilt(es, e.client)..]
            && Shed(es, e.client) <= |Own(es, e.client)|
            && Own(after, e.client) == Own(es, e.client)[Shed(es, e.client)..] + [e]
            && |Own(es, e.client)| + Spilt(es, e.client) <= |Own(after, e.client)|
  {
    var c := e.client;
    var room := MakeRoom(es, c);
    MakeRoomIs(es, c, c);
    PutFresh(room, e);
    AppendParts(room, e, c);
    if |Own(es, c)| >= PER_CLIENT {
      DropOwnIs(es, c, 1);
      assert DropOwn(es, c, 1)[0..] == DropOwn(es, c, 1);
    } else if |es| >= PENDING_MAX {
      assert room == es[1..];
    } else {
      assert room == es;
    }
  }

  // ----- many starts by one client

  datatype Start = Start(entry: Pending, now: real)

  function Run(es: seq<Pending>, starts: seq<Start>): seq<Pending>
    decreases |starts|
  {
    if starts == [] then es else Run(Started(es, starts[0].entry, starts[0].now), starts[1..])
  }

  /** Starts of one client with fresh states, none of which finds an expired entry. */
  ghost predicate Flood(es: seq<Pending>, starts: seq<Start>, c: ClientKey)
    decreases |starts|
  {
    starts == [] ||
    (&& starts[0].entry.client == c
     && !Holds(es, starts[0].entry.state)
     && Purge(es, starts[0].now) == es
     && Flood(Started(es, starts[0].entry, starts[0].now), starts[1..], c))
  }

  /**
   * However many starts one client makes, the others lose at most 16 minus what the client already
   * had, and they lose their oldest first.
   */
  lemma {:induction false} FloodSparesOthers(es: seq<Pending>, starts: seq<Start>, c: ClientKey) returns (lost: nat)
    requires Distinct(es) && WithinLimits(es) && Flood(es, starts, c)
    ensures lost + |Own(es, c)| <= PER_CLIENT
    ensures lost <= |Others(es, c)| && Others(Run(es, starts), c) == Others(es, c)[lost..]
    decreases |starts|
  {
    if starts == [] {
      lost := 0;
    } else {
      var next := Started(es, starts[0].entry, starts[0].now);
      StartSparesOthers(es, starts[0].entry);
      StartedKeepsLimits(es, starts[0].entry, starts[0].now);
      var more := FloodSparesOthers(next, starts[1..], c);
      lost := Spilt(es, c) + more;
    }
  }

  /** A client at its limit takes nothing from the others, however often it starts. */
  lemma FullClientTakesNothing(es: seq<Pending>, starts: seq<Start>, c: ClientKey)
    requires Distinct(es) && WithinLimits(es) && Flood(es, starts, c)
    requires |Own(es, c)| == PER_CLIENT
    ensures Others(Run(es, starts), c) == Others(es, c)
  {
    var lost := FloodSparesOthers(es, starts, c);
    assert Others(es, c)[0..] == Others(es, c);
  }

  // ----- taking a login back

  function Find(es: seq<Pending>, k: LoginState): Option<Pending> {
    if es == [] then None else if es[0].state == k then Some(es[0]) else Find(es[1..], k)
  }

  lemma {:induction false} FindIs(es: seq<Pending>, k: LoginState)
    ensures Find(es, k).Some? <==> Holds(es, k)
    ensures Find(es, k).Some? ==> Find(es, k).value.state == k
  {
    if es != [] {
      HoldsCons(es, k);
      FindIs(es[1..], k);
    }
  }

  lemma {:induction false} FindPut(es: seq<Pending>, e: Pending)
    ensures Find(Put(es, e), e.state) == Some(e)
  {
    if es != [] { FindPut(es[1..], e); }
  }

  lemma {:induction false} FindPurged(es: seq<Pending>, now: real, k: LoginState)
    requires Distinct(es)
    ensures Find(Purge(es, now), k)
         == if Find(es, k).Some? && !Expired(Find(es, k).value, now) then Find(es, k) else None
  {
    if es != [] {
      FindPurged(es[1..], now, k);
      FindIs(es[1..], k);
    }
  }

  lemma {:induction false} RemoveIs(es: seq<Pending>, k: LoginState, c: ClientKey)
    requires Distinct(es)
    ensures !Holds(Remove(es, k), k) && Distinct(Remove(es, k))
    ensures forall j :: Holds(Remove(es, k), j) ==> Holds(es, j)
    ensures |Remove(es, k)| <= |es| && |Own(Remove(es, k), c)| <= |Own(es, c)|
  {
    if es != [] {
      HoldsCons(es, k);
      if es[0].state != k {
        RemoveIs(es[1..], k, c);
        HoldsCons(Remove(es, k), k);
      }
      forall j | Holds(Remove(es, k), j) ensures Holds(es, j) {
        HoldsCons(es, j);
        if es[0].state != k { HoldsCons(Remove(es, k), j); }
      }
    }
  }

  /** A start is never rejected: within its ten minutes the next take of its state finds it. */
  lemma StartedCanBeTaken(es: seq<Pending>, e: Pending, now: real, later: real)
    requires Distinct(es) && WithinLimits(es)
    ensures Find(Purge(Started(es, e, now), later), e.state) == if later - e.createdAt <= 600.0 then Some(e) else None
  {
    StartedKeepsLimits(es, e, now);
    FindPut(MakeRoom(Purge(es, now), e.client), e);
    FindPurged(Started(es, e, now), later, e.state);
  }

  /** A state is good for one take. */
  lemma TakenOnce(es: seq<Pending>, k: LoginState, now: real, later: real)
    requires Distinct(es)
    ensures Find(Purge(Remove(Purge(es, now), k), later), k) == None
  {
    var c := Unknown;
    PurgeKeepsOrder(es, now, c);
    RemoveIs(Purge(es, now), k, c);
    FindIs(Remove(Purge(es, now), k), k);
    FindPurged(Remove(Purge(es, now), k), later, k);
  }

  // ----- the store

  function OwnStates(es: seq<Pending>, c: ClientKey): seq<LoginState> {
    if es == [] then []
    else if es[0].client == c then [es[0].state] + OwnStates(es[1..], c)
    else OwnStates(es[1..], c)
  }

  function ExpiredStates(es: seq<Pending>, now: real): seq<LoginState> {
    if es == [] then []
    else if Expired(es[0], now) then [es[0].state] + ExpiredStates(es[1..], now)
    else ExpiredStates(es[1..], now)
  }

  lemma {:induction false} OwnStatesLength(es: seq<Pending>, c: ClientKey)
    ensures |OwnStates(es, c)| == |Own(es, c)|
  {
    if es != [] { OwnStatesLength(es[1..], c); }
  }

  lemma {:induction false} OwnStatesHeld(es: seq<Pending>, c: ClientKey, n: nat)
    requires n < |OwnStates(es, c)|
    ensures Holds(es, OwnStates(es, c)[n])
  {
    var k := OwnStates(es, c)[n];
    HoldsCons(es, k);
    if es[0].client != c {
      OwnStatesHeld(es[1..], c, n);
    } else if n > 0 {
      OwnStatesHeld(es[1..], c, n - 1);
    }
  }

  /** Removing the next of the client's states drops one more of its entries. */
  lemma {:induction false} DropNextOwn(es: seq<Pending>, c: ClientKey, n: nat)
    requires Distinct(es) && n < |OwnStates(es, c)|
    ensures Remove(DropOwn(es, c, n), OwnStates(es, c)[n]) == DropOwn(es, c, n + 1)
  {
    if es[0].client == c {
      if n > 0 {
        DropNextOwn(es[1..], c, n - 1);
      }
    } else {
      OwnStatesHeld(es[1..], c, n);
      DropNextOwn(es[1..], c, n);
    }
  }

  /** The entries left once the first `n` expired ones are gone. */
  function DropExpired(es: seq<Pending>, now: real, n: nat): seq<Pending> {
    if n == 0 || es == [] then es
    else if Expired(es[0], now) then DropExpired(es[1..], now, n - 1)
    else [es[0]] + DropExpired(es[1..], now, n)
  }

  lemma {:induction false} ExpiredStatesHeld(es: seq<Pending>, now: real, n: nat)
    requires n < |ExpiredStates(es, now)|
    ensures Holds(es, ExpiredStates(es, now)[n])
  {
    var k := ExpiredStates(es, now)[n];
    HoldsCons(es, k);
    if !Expired(es[0], now) {
      ExpiredStatesHeld(es[1..], now, n);
    } else if n > 0 {
      ExpiredStatesHeld(es[1..], now, n - 1);
    }
  }

  lemma {:induction false} DropNextExpired(es: seq<Pending>, now: real, n: nat)
    requires Distinct(es) && n < |ExpiredStates(es, now)|
    ensures Remove(DropExpired(es, now, n), ExpiredStates(es, now)[n]) == DropExpired(es, now, n + 1)
  {
    if Expired(es[0], now) {
      if n > 0 {
        DropNextExpired(es[1..], now, n - 1);
      }
    } else {
      ExpiredStatesHeld(es[1..], now, n);
      DropNextExpired(es[1..], now, n);
    }
  }

  lemma {:induction false} AllExpiredDropped(es: seq<Pending>, now: real)
    ensures DropExpired(es, now, |ExpiredStates(es, now)|) == Purge(es, now)
  {
    if es != [] {
      AllExpiredDropped(es[1..], now);
      if !Expired(es[0], now) && |ExpiredStates(es, now)| == 0 {
        assert es == [es[0]] + es[1..];
      }
    }
  }

  class PendingLogins {
    var entries: seq<Pending>

    ghost predicate Valid()
      reads this
    {
      Distinct(entries) && WithinLimits(entries)
    }

    constructor ()
      ensures Valid() && entries == []
    {
      entries := [];
    }

    method PurgeExpired(now: real)
      requires Valid()
      modifies this
      ensures Valid() && entries == Purge(old(entries), now)
    {
      var expired := ExpiredStates(entries, now);
      ghost var was := entries;
      var i := 0;
      while i < |expired|
        invariant 0 <= i <= |expired|
        invariant entries == DropExpired(was, now, i)
      {
        DropNextExpired(was, now, i);
        entries := Remove(entries, expired[i]);
        i := i + 1;
      }
      AllExpiredDropped(was, now);
      PurgeKeepsLimits(was, now);
    }

    method BeginOidc(state: LoginState, verifier: string, nonce: string, redirectUri: string, client: ClientKey,
                     purgedAt: real, createdAt: real)
      requires Valid()
      modifies this
      ensures Valid()
      ensures entries == Started(old(entries), Pending(state, verifier, redirectUri, createdAt, nonce, client), purgedAt)
    {
      var e := Pending(state, verifier, redirectUri, createdAt, nonce, client);
      StartedKeepsLimits(entries, e, purgedAt);
      PurgeExpired(purgedAt);
      ghost var purged := entries;
      var mine := OwnStates(entries, client);
      OwnStatesLength(entries, client);
      var next := 0;
      while |mine| - next >= PER_CLIENT
        invariant 0 <= next <= |mine|
        invariant next <= Excess(|mine|, PER_CLIENT)
        invariant entries == DropOwn(purged, client, next)
      {
        DropNextOwn(purged, client, next);
        entries := Remove(entries, mine[next]);
        next := next + 1;
      }
      ghost var trimmed := entries;
      ghost var cut := 0;
      while |entries| >= PENDING_MAX
        invariant 0 <= cut <= |trimmed| && entries == trimmed[cut..]
        invariant cut <= Excess(|trimmed|, PENDING_MAX)
      {
        entries := entries[1..];
        cut := cut + 1;
      }
      assert entries == MakeRoom(purged, client);
      entries := Put(entries, e);
    }

    method TakeOidc(state: LoginState, now: real) returns (taken: Option<Pending>)
      requires Valid()
      modifies this
      ensures Valid()
      ensures taken == Find(Purge(old(entries), now), state)
      ensures entries == Remove(Purge(old(entries), now), state)
    {
      PurgeExpired(now);
      taken := Find(entries, state);
      RemoveKeepsLimits(entries, state);
      entries := Remove(entries, state);
    }
  }

  lemma PurgeKeepsLimits(es: seq<Pending>, now: real)
    requires Distinct(es) && WithinLimits(es)
    ensures Distinct(Purge(es, now)) && WithinLimits(Purge(es, now))
  {
    forall c ensures |Own(Purge(es, now), c)| <= PER_CLIENT { PurgeKeepsOrder(es, now, c); }
    PurgeKeepsOrder(es, now, Unknown);
  }

  lemma RemoveKeepsLimits(es: seq<Pending>, k: LoginState)
    requires Distinct(es) && WithinLimits(es)
    ensures Distinct(Remove(es, k)) && WithinLimits(Remove(es, k))
  {
    forall c ensures |Own(Remove(es, k), c)| <= PER_CLIENT { RemoveIs(es, k, c); }
    RemoveIs(es, k, Unknown);
  }
}
