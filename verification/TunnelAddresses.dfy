/** Tunnel addresses over whole runs of the lease protocol. */
module TunnelAddresses {
  import opened Text
  import opened LeaseProtocol
  import opened LeaseRefusals
  import opened LeaseTheorems
  import opened WireGuardServer

  /** The configured peer count clamped to what a /24 subnet holds. */
  function EffectivePeerCount(configured: nat): nat {
    var atLeastOne := if configured < 1 then 1 else configured;
    if atLeastOne > 253 then 253 else atLeastOne
  }

  /** The clamp gives a count that a /24 holds, and of these the one nearest to what is configured. */
  lemma PeerCountIsNearest(configured: nat, other: nat)
    requires 1 <= other <= 253
    ensures var n := EffectivePeerCount(configured);
            1 <= n <= 253 && (if n <= configured then configured - n else n - configured)
                             <= if other <= configured then configured - other else other - configured
  {
  }

  /** Peers and server live in the base's network: the server is next to the base, a peer its id further. */
  lemma AddressesAreInTheNetwork(base: Quad, id: int)
    ensures var p, s := PeerIp(base, id), ServerAddress(base);
            && p.a == s.a == base.a && p.b == s.b == base.b && p.c == s.c == base.c
            && (s.d - (base.d + 1)) % 256 == 0 && (p.d - (base.d + 1 + id)) % 256 == 0
  {
  }

  /** Ids up to 253 have different addresses, none of them the server's, whatever the base. */
  lemma AddressesDiffer(base: Quad, i: int, j: int)
    requires 1 <= i <= 253 && 1 <= j <= 253
    ensures PeerIp(base, i) == PeerIp(base, j) <==> i == j
    ensures PeerIp(base, i) != ServerAddress(base)
  {
  }

  /** No peer address wraps around exactly when the base leaves room for every id. */
  lemma NoOverflowExactly(base: Quad, configured: nat)
    ensures (forall id :: 1 <= id <= EffectivePeerCount(configured) ==> PeerIp(base, id).d == base.d + id + 1)
            <==> base.d + EffectivePeerCount(configured) + 1 <= 255
  {
    var n := EffectivePeerCount(configured);
    if base.d + n + 1 > 255 {
      assert PeerIp(base, n).d != base.d + n + 1;
    }
  }

  /** The addresses of two ids differ from each other and from the server's; with a base ending in .0
      none wraps around. */
  predicate Apart(base: Quad, i: int, j: int) {
    && PeerIp(base, i) != PeerIp(base, j)
    && PeerIp(base, i) != ServerAddress(base) && PeerIp(base, j) != ServerAddress(base)
    && (base.d == 0 ==> PeerIp(base, i).d == i + 1 <= 254 && PeerIp(base, j).d == j + 1 <= 254)
  }

  lemma AddressesApart(base: Quad, i: int, j: int)
    requires 1 <= i <= 253 && 1 <= j <= 253 && i != j
    ensures Apart(base, i, j)
  {
    AddressesDiffer(base, i, j);
    AddressesDiffer(base, j, i);
  }

  ghost predicate Live(d: Data, e: Event) { e in d.log && IsPromise(e) && d.now <= e.expiry }

  /** In every reachable state of every interleaving with steady extensions, two leases that have
      not run out have different tunnel addresses, neither is the server's, and with a base ending
      in .0 none wraps around. */
  lemma LiveLeasesNeverShareAnAddress(base: Quad, configured: nat, s: State, actions: seq<Action>, e: Event, f: Event)
    requires var r := Range(1, EffectivePeerCount(configured)); var d := Run(r, s, actions).data;
             Init(r, s) && Steady(d.log) && Live(d, e) && Live(d, f) && e.serial != f.serial
    ensures Apart(base, e.id, f.id)
  {
    var r := Range(1, EffectivePeerCount(configured));
    LeasesAreExclusive(r, s, actions);
    PromisedIdsInRange(r, s, actions);
    hide Run, Init, Steady, Apart;
    assert r.Contains(e.id) && r.Contains(f.id);
    AddressesApart(base, e.id, f.id);
  }
}
