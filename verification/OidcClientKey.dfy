/**
 * The client identity of a pending login start: `oidc_client_key` of
 * `src/recertia/api/console_auth.py`.
 *
 * Address parsing is a parameter: `parse` reads a bare address, `loose` also one with brackets or a
 * port, `split` turns the header lines into stripped hops. An address is IPv4 also when it came as
 * an IPv4-mapped IPv6 one.
 */
module OidcClientKey {
  import opened Prelude

  datatype Address = V4(bits: nat) | V6(bits: nat)

  datatype ClientKey = Unknown | Rewritten | HostV4(bits: nat) | NetworkV6(prefix: nat)

  datatype Parsing = Parsing(
    parse: string -> Option<Address>,
    loose: string -> Option<Address>,
    strip: string -> string,
    split: seq<string> -> seq<string>,
    trusted: Address -> bool)

  const XFF_MAX_LINES := 16
  const XFF_MAX_BYTES := 8192
  const XFF_MAX_HOPS := 64

  /** `_key`: IPv6 hosts are grouped by their /64. */
  function Key(ip: Address): ClientKey {
    match ip
    case V4(bits) => HostV4(bits)
    case V6(bits) => NetworkV6(bits / 0x1_0000_0000_0000_0000)
  }

  function TotalLength(lines: seq<string>): nat {
    if lines == [] then 0 else TotalLength(lines[..|lines| - 1]) + |lines[|lines| - 1]|
  }

  /** Two addresses share a key iff they are the same IPv4 address or in the same IPv6 /64. */
  lemma SameKeyIff(a: Address, b: Address)
    ensures Key(a) == Key(b)
       <==> (a.V4? && a == b) || (a.V6? && b.V6? && a.bits / 0x1_0000_0000_0000_0000 == b.bits / 0x1_0000_0000_0000_0000)
    ensures Key(a) != Unknown && Key(a) != Rewritten
  {
  }

  /** The header's size is that of all its lines. */
  lemma {:induction false} LengthsAddUp(a: seq<string>, b: seq<string>, line: string)
    ensures TotalLength([line]) == |line|
    ensures TotalLength(a + b) == TotalLength(a) + TotalLength(b)
  {
    assert [line][..0] == [];
    if b == [] {
      assert a + b == a;
    } else {
      LengthsAddUp(a, b[..|b| - 1], line);
      assert (a + b)[..|a + b| - 1] == a + b[..|b| - 1];
    }
  }

  function HopAddress(p: Parsing, hop: string): Option<Address> {
    if hop == "" then None else p.parse(hop)
  }

  predicate IsProxy(p: Parsing, hop: string) {
    HopAddress(p, hop).Some? && p.trusted(HopAddress(p, hop).value)
  }

  // ----- the walk from the right

  /** The key the first `n` hops give: that of the last one that is not a trusted proxy. */
  function RightmostKey(p: Parsing, hops: seq<string>, n: nat, peer: Address): ClientKey
    requires n <= |hops|
  {
    if n == 0 then Key(peer)
    else
      match HopAddress(p, hops[n - 1])
      case None => Key(peer)
      case Some(ip) => if p.trusted(ip) then RightmostKey(p, hops, n - 1, peer) else Key(ip)
  }

  /** `_rightmost_client_key`. */
  method WalkFromTheRight(p: Parsing, hops: seq<string>, n: nat, peer: Address) returns (key: ClientKey)
    requires n <= |hops|
    ensures key == RightmostKey(p, hops, n, peer)
  {
    var i := n;
    while i > 0
      invariant 0 <= i <= n
      invariant RightmostKey(p, hops, n, peer) == RightmostKey(p, hops, i, peer)
    {
      var ip := HopAddress(p, hops[i - 1]);
      if ip.None? { return Key(peer); }
      if !p.trusted(ip.value) { return Key(ip.value); }
      i := i - 1;
    }
    return Key(peer);
  }

  lemma {:induction false} RightmostIs(p: Parsing, hops: seq<string>, n: nat, peer: Address)
    requires n <= |hops|
    ensures RightmostKey(p, hops, n, peer) == Key(peer)
         || exists i :: 0 <= i < n && HopAddress(p, hops[i]).Some? && !p.trusted(HopAddress(p, hops[i]).value)
                     && RightmostKey(p, hops, n, peer) == Key(HopAddress(p, hops[i]).value)
                     && forall j :: i < j < n ==> IsProxy(p, hops[j])
  {
    if n > 0 && IsProxy(p, hops[n - 1]) {
      RightmostIs(p, hops, n - 1, peer);
    }
  }

  /** Hops to the left of one that is not a trusted proxy are not looked at. */
  lemma {:induction false} LeftIsIgnored(p: Parsing, front: seq<string>, hops: seq<string>, n: nat, i: nat, peer: Address)
    requires i < n <= |hops| && !IsProxy(p, hops[i])
    ensures RightmostKey(p, front + hops, |front| + n, peer) == RightmostKey(p, hops, n, peer)
  {
    assert (front + hops)[|front| + n - 1] == hops[n - 1];
    if i < n - 1 && IsProxy(p, hops[n - 1]) {
      LeftIsIgnored(p, front, hops, n - 1, i, peer);
    }
  }

  // ----- a proxy's own trailing hops

  /** How many of the first `n` hops are left once trailing hops equal to the peer are dropped. */
  function WithoutSelf(p: Parsing, hops: seq<string>, n: nat, peer: Address): (m: nat)
    requires n <= |hops|
    ensures m <= n
    ensures m > 0 ==> p.parse(hops[m - 1]) != Some(peer)
    ensures forall j :: m <= j < n ==> p.parse(hops[j]) == Some(peer)
  {
    if n > 0 && p.parse(hops[n - 1]) == Some(peer) then WithoutSelf(p, hops, n - 1, peer) else n
  }

  predicate SeenLoosely(p: Parsing, hops: seq<string>, n: nat, peer: Address)
    requires n <= |hops|
  {
    exists j :: 0 <= j < n && p.loose(hops[j]) == Some(peer)
  }

  predicate SeenLiterally(hops: seq<string>, n: nat, text: string)
    requires n <= |hops|
  {
    exists j :: 0 <= j < n && hops[j] == text
  }

  predicate MayDropSelf(p: Parsing, hops: seq<string>, peer: Address, port: Option<nat>) {
    port.Some? && port.value != 0 && hops != [] && p.trusted(peer)
  }

  /** How many hops count. `guarded` is the last clause of the source's test. */
  function Counted(p: Parsing, hops: seq<string>, peer: Address, port: Option<nat>, guarded: bool): (n: nat)
    ensures n <= |hops|
  {
    var m := WithoutSelf(p, hops, |hops|, peer);
    if MayDropSelf(p, hops, peer, port) && 0 < m < |hops| && (guarded ==> !SeenLoosely(p, hops, m, peer)) then m else |hops|
  }

  predicate LooksRewritten(p: Parsing, peerText: string, peer: Address, hops: seq<string>, n: nat)
    requires n <= |hops|
  {
    SeenLiterally(hops, n, p.strip(peerText)) || SeenLoosely(p, hops, n, peer)
  }

  function KeyOfHops(p: Parsing, peerText: string, hops: seq<string>, port: Option<nat>, guarded: bool): ClientKey {
    match p.parse(peerText)
    case None => Rewritten
    case Some(peer) =>
      var n := Counted(p, hops, peer, port, guarded);
      if LooksRewritten(p, peerText, peer, hops, n) then Rewritten
      else if !p.trusted(peer) then Key(peer)
      else RightmostKey(p, hops, n, peer)
  }

  /** `oidc_client_key`. */
  function KeyOf(p: Parsing, peer: Option<string>, lines: seq<string>, port: Option<nat>, guarded: bool): ClientKey {
    if peer.None? || peer.value == "" then Unknown
    else if |lines| > XFF_MAX_LINES || TotalLength(lines) > XFF_MAX_BYTES then Rewritten
    else if |p.split(lines)| > XFF_MAX_HOPS then Rewritten
    else KeyOfHops(p, peer.value, p.split(lines), port, guarded)
  }

  method FindClientKey(p: Parsing, peer: Option<string>, lines: seq<string>, port: Option<nat>) returns (key: ClientKey)
    ensures key == KeyOf(p, peer, lines, port, true)
  {
    if peer.None? || peer.value == "" { return Unknown; }
    if |lines| > XFF_MAX_LINES || TotalLength(lines) > XFF_MAX_BYTES { return Rewritten; }
    var hops := p.split(lines);
    if |hops| > XFF_MAX_HOPS { return Rewritten; }
    var ip := p.parse(peer.value);
    if ip.None? { return Rewritten; }
    var n := |hops|;
    if MayDropSelf(p, hops, ip.value, port) {
      var tail := |hops|;
      while tail > 0 && p.parse(hops[tail - 1]) == ip
        invariant 0 <= tail <= |hops|
        invariant WithoutSelf(p, hops, |hops|, ip.value) == WithoutSelf(p, hops, tail, ip.value)
      {
        tail := tail - 1;
      }
      if 0 < tail < |hops| && !SeenLoosely(p, hops, tail, ip.value) { n := tail; }
    }
    if LooksRewritten(p, peer.value, ip.value, hops, n) { return Rewritten; }
    if !p.trusted(ip.value) { return Key(ip.value); }
    key := WalkFromTheRight(p, hops, n, ip.value);
  }

  lemma LastClause(p: Parsing, peerText: string, hops: seq<string>, port: Option<nat>)
    ensures KeyOfHops(p, peerText, hops, port, true) == KeyOfHops(p, peerText, hops, port, false)
  {
    if p.parse(peerText).Some? {
      var ip := p.parse(peerText).value;
      var m := WithoutSelf(p, hops, |hops|, ip);
      if SeenLoosely(p, hops, m, ip) {
        var j :| 0 <= j < m && p.loose(hops[j]) == Some(ip);
        assert SeenLoosely(p, hops, |hops|, ip);
      }
    }
  }

  /** The source's last clause is there for defence in depth only: without it every key is the same. */
  lemma LastClauseIsRedundant(p: Parsing, peer: Option<string>, lines: seq<string>, port: Option<nat>)
    ensures KeyOf(p, peer, lines, port, true) == KeyOf(p, peer, lines, port, false)
  {
    if peer.Some? { LastClause(p, peer.value, p.split(lines), port); }
  }

  /**
   * A header cannot mint a key: every key is a fixed one, the peer's own, or, behind a trusted
   * peer, that of a hop with only trusted proxies to its right.
   */
  lemma NoMintedKeys(p: Parsing, peer: Option<string>, lines: seq<string>, port: Option<nat>)
    requires p.parse("") == None
    ensures var key, hops := KeyOf(p, peer, lines, port, true), p.split(lines);
            || key == Unknown || key == Rewritten
            || (peer.Some? && p.parse(peer.value).Some? && key == Key(p.parse(peer.value).value))
            || (peer.Some? && p.parse(peer.value).Some? && p.trusted(p.parse(peer.value).value)
                && exists i :: 0 <= i < |hops| && p.parse(hops[i]).Some? && !p.trusted(p.parse(hops[i]).value)
                            && key == Key(p.parse(hops[i]).value)
                            && forall j :: i < j < |hops| ==> IsProxy(p, hops[j]))
  {
    if peer.Some? && p.parse(peer.value).Some? {
      var hops, ip := p.split(lines), p.parse(peer.value).value;
      var n := Counted(p, hops, ip, port, true);
      RightmostIs(p, hops, n, ip);
      assert p.trusted(ip) ==> forall j :: n <= j < |hops| ==> IsProxy(p, hops[j]);
    }
  }

  lemma {:induction false} RightmostAt(p: Parsing, hops: seq<string>, n: nat, i: nat, peer: Address)
    requires i < n <= |hops| && HopAddress(p, hops[i]).Some? && !p.trusted(HopAddress(p, hops[i]).value)
    requires forall j :: i < j < n ==> IsProxy(p, hops[j])
    ensures RightmostKey(p, hops, n, peer) == Key(HopAddress(p, hops[i]).value)
  {
    if i < n - 1 {
      assert IsProxy(p, hops[n - 1]);
      RightmostAt(p, hops, n - 1, i, peer);
    }
  }

  /**
   * Behind trusted proxies the client is found, unless the header looks rewritten once the proxy's
   * own trailing hops are dropped.
   */
  lemma ClientIsFound(p: Parsing, peerText: string, hops: seq<string>, i: nat, port: Option<nat>)
    requires p.parse("") == None && p.parse(peerText).Some? && p.trusted(p.parse(peerText).value)
    requires i < |hops| && p.parse(hops[i]).Some? && !p.trusted(p.parse(hops[i]).value)
    requires forall j :: i < j < |hops| ==> IsProxy(p, hops[j])
    ensures var peer := p.parse(peerText).value;
            KeyOfHops(p, peerText, hops, port, true)
            == if LooksRewritten(p, peerText, peer, hops, Counted(p, hops, peer, port, true)) then Rewritten
               else Key(p.parse(hops[i]).value)
  {
    var peer := p.parse(peerText).value;
    var n := Counted(p, hops, peer, port, true);
    assert n > i;
    RightmostAt(p, hops, n, i, peer);
  }

  // ----- what the trailing hops of the peer change

  /** `n` hops, the last of which is not the peer, and behind them the peer's own. */
  ghost predicate EndsInSelf(p: Parsing, hops: seq<string>, n: nat, peer: Address) {
    && n <= |hops|
    && (n > 0 ==> p.parse(hops[n - 1]) != Some(peer))
    && forall j :: n <= j < |hops| ==> p.parse(hops[j]) == Some(peer)
  }

  lemma {:induction false} SelfHopsEnd(p: Parsing, hops: seq<string>, n: nat, to: nat, peer: Address)
    requires EndsInSelf(p, hops, n, peer) && n <= to <= |hops|
    ensures WithoutSelf(p, hops, to, peer) == n
  {
    if n < to { SelfHopsEnd(p, hops, n, to - 1, peer); }
  }

  lemma {:induction false} RightmostOfFront(p: Parsing, hops: seq<string>, k: nat, n: nat, peer: Address)
    requires n <= k <= |hops|
    ensures RightmostKey(p, hops[..k], n, peer) == RightmostKey(p, hops, n, peer)
  {
    if n > 0 { RightmostOfFront(p, hops, k, n - 1, peer); }
  }

  lemma SeenInFront(p: Parsing, hops: seq<string>, n: nat, text: string, peer: Address)
    requires n <= |hops|
    ensures SeenLoosely(p, hops[..n], n, peer) <==> SeenLoosely(p, hops, n, peer)
    ensures SeenLiterally(hops[..n], n, text) <==> SeenLiterally(hops, n, text)
  {
    forall j | 0 <= j < n ensures hops[..n][j] == hops[j] { }
  }

  /** A trusted proxy on a real port may add its own address any number of times: the key stays. */
  lemma SelfHopsChangeNothing(p: Parsing, peerText: string, hops: seq<string>, n: nat, port: Option<nat>)
    requires p.parse(peerText).Some? && p.trusted(p.parse(peerText).value) && port.Some? && port.value != 0
    requires n > 0 && EndsInSelf(p, hops, n, p.parse(peerText).value)
    ensures KeyOfHops(p, peerText, hops, port, true) == KeyOfHops(p, peerText, hops[..n], port, true)
  {
    var peer := p.parse(peerText).value;
    LastClause(p, peerText, hops, port);
    LastClause(p, peerText, hops[..n], port);
    SelfHopsEnd(p, hops, n, |hops|, peer);
    SelfHopsEnd(p, hops[..n], n, n, peer);
    assert Counted(p, hops, peer, port, false) == n == Counted(p, hops[..n], peer, port, false);
    SeenInFront(p, hops, n, p.strip(peerText), peer);
    RightmostOfFront(p, hops, n, n, peer);
  }

  /**
   * With the peer's own address at the end of the header, the key is not the fail-closed one iff
   * the peer is a trusted proxy on a real port and some hop is left without it, none of which
   * shows the peer. `loose` reads every address that `parse` reads.
   */
  lemma SelfHopsAreDroppedIff(p: Parsing, peerText: string, hops: seq<string>, n: nat, port: Option<nat>)
    requires p.parse(peerText).Some? && forall h :: p.parse(h).Some? ==> p.loose(h) == p.parse(h)
    requires n < |hops| && EndsInSelf(p, hops, n, p.parse(peerText).value)
    ensures var peer := p.parse(peerText).value;
            KeyOfHops(p, peerText, hops, port, true) != Rewritten
            <==> (p.trusted(peer) && port.Some? && port.value != 0 && n > 0 && !LooksRewritten(p, peerText, peer, hops, n))
  {
    var peer := p.parse(peerText).value;
    SelfHopsEnd(p, hops, n, |hops|, peer);
    assert p.loose(hops[n]) == Some(peer);
    assert SeenLoosely(p, hops, |hops|, peer);
    NeverFixed(p, hops, n, peer);
  }

  lemma {:induction false} SelfHopsOfLonger(p: Parsing, front: seq<string>, hops: seq<string>, n: nat, peer: Address)
    requires n <= |hops| && WithoutSelf(p, hops, n, peer) > 0
    ensures WithoutSelf(p, front + hops, |front| + n, peer) == |front| + WithoutSelf(p, hops, n, peer)
  {
    assert (front + hops)[|front| + n - 1] == hops[n - 1];
    if p.parse(hops[n - 1]) == Some(peer) {
      SelfHopsOfLonger(p, front, hops, n - 1, peer);
    }
  }

  lemma SeenInLonger(p: Parsing, front: seq<string>, hops: seq<string>, n: nat, text: string, peer: Address)
    requires n <= |hops|
    ensures SeenLoosely(p, hops, n, peer) ==> SeenLoosely(p, front + hops, |front| + n, peer)
    ensures SeenLiterally(hops, n, text) ==> SeenLiterally(front + hops, |front| + n, text)
  {
    var all := front + hops;
    if SeenLoosely(p, hops, n, peer) {
      var j :| 0 <= j < n && p.loose(hops[j]) == Some(peer);
      assert all[|front| + j] == hops[j];
    }
    if SeenLiterally(hops, n, text) {
      var j :| 0 <= j < n && hops[j] == text;
      assert all[|front| + j] == hops[j];
    }
  }

  lemma CountedOfLonger(p: Parsing, front: seq<string>, hops: seq<string>, i: nat, peer: Address, port: Option<nat>)
    requires i < |hops| && !IsProxy(p, hops[i]) && p.parse("") == None && p.trusted(peer)
    ensures Counted(p, hops, peer, port, false) > i
    ensures Counted(p, front + hops, peer, port, false) == |front| + Counted(p, hops, peer, port, false)
  {
    var m := WithoutSelf(p, hops, |hops|, peer);
    assert m > i;
    SelfHopsOfLonger(p, front, hops, |hops|, peer);
  }

  /**
   * What a client puts in front of the hops that the proxies add changes its key at most to the
   * shared fail-closed one, once some hop added there is not a trusted proxy.
   */
  lemma FrontCannotPickTheKey(p: Parsing, peerText: string, front: seq<string>, hops: seq<string>, i: nat, port: Option<nat>)
    requires i < |hops| && !IsProxy(p, hops[i]) && p.parse("") == None
    ensures KeyOfHops(p, peerText, front + hops, port, true) == KeyOfHops(p, peerText, hops, port, true)
         || KeyOfHops(p, peerText, front + hops, port, true) == Rewritten
  {
    LastClause(p, peerText, hops, port);
    LastClause(p, peerText, front + hops, port);
    if p.parse(peerText).Some? {
      var peer := p.parse(peerText).value;
      if p.trusted(peer) {
        CountedOfLonger(p, front, hops, i, peer, port);
      }
      var n := Counted(p, hops, peer, port, false);
      SeenInLonger(p, front, hops, n, p.strip(peerText), peer);
      if p.trusted(peer) {
        LeftIsIgnored(p, front, hops, n, i, peer);
      }
    }
  }

  // ----- clients without a proxy

  /** The header shows the peer: as it was written, or as an address. */
  ghost predicate ShowsPeer(p: Parsing, peerText: string, hops: seq<string>) {
    exists j :: 0 <= j < |hops| && (hops[j] == p.strip(peerText) || p.loose(hops[j]) == p.parse(peerText))
  }

  /** A client that is not a trusted proxy has its own key, whatever it writes in the header, unless it shows itself there. */
  lemma DirectClientHasOwnKey(p: Parsing, peerText: string, hops: seq<string>, port: Option<nat>)
    requires p.parse(peerText).Some? && !p.trusted(p.parse(peerText).value)
    ensures KeyOfHops(p, peerText, hops, port, true)
         == if ShowsPeer(p, peerText, hops) then Rewritten else Key(p.parse(peerText).value)
  {
    var peer := p.parse(peerText).value;
    assert Counted(p, hops, peer, port, true) == |hops|;
    assert ShowsPeer(p, peerText, hops) <==> LooksRewritten(p, peerText, peer, hops, |hops|);
  }

  /** Without a header every address has its own key, also a trusted proxy's. */
  lemma NoHeaderGivesPeer(p: Parsing, peerText: string, port: Option<nat>)
    requires p.parse(peerText).Some?
    ensures KeyOfHops(p, peerText, [], port, true) == Key(p.parse(peerText).value)
  {
  }

  /** The two fixed keys are given before any hop is compared: no peer, or a header over the limits. */
  lemma FixedKeysFirst(p: Parsing, peer: Option<string>, lines: seq<string>, port: Option<nat>)
    ensures KeyOf(p, peer, lines, port, true) == Unknown <==> peer.None? || peer.value == ""
    ensures peer.Some? && peer.value != "" && (|lines| > 16 || TotalLength(lines) > 8192 || |p.split(lines)| > 64 || p.parse(peer.value).None?)
            ==> KeyOf(p, peer, lines, port, true) == Rewritten
    ensures peer.Some? && peer.value != "" && |lines| <= 16 && TotalLength(lines) <= 8192 && |p.split(lines)| <= 64
            ==> KeyOf(p, peer, lines, port, true) == KeyOfHops(p, peer.value, p.split(lines), port, true)
  {
    if peer.Some? && p.parse(peer.value).Some? {
      var hops, ip := p.split(lines), p.parse(peer.value).value;
      NeverFixed(p, hops, Counted(p, hops, ip, port, true), ip);
    }
  }

  lemma {:induction false} NeverFixed(p: Parsing, hops: seq<string>, n: nat, peer: Address)
    requires n <= |hops|
    ensures RightmostKey(p, hops, n, peer) != Rewritten && RightmostKey(p, hops, n, peer) != Unknown
  {
    if n > 0 { NeverFixed(p, hops, n - 1, peer); }
  }
}
