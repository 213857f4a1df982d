/** The lease table and the server's peers stay in agreement across whole runs of operations,
    failures and restarts. Operations are atomic here; each carries the instant it runs at. */
module PeerAgreement {
  import opened Wrappers
  import opened Text
  import opened LeaseTable
  import opened WireGuardServer

  /** A worker process: what it keeps in memory, and `stored`, the persisted server keys. `lost`
      only records history: the ids whose peers the kernel refused at the last restart and that no
      allocation has issued since. */
  datatype Worker = Worker(world: World, stored: seq<KeyPair>, identity: KeyPair, lost: set<int>)

  datatype Op =
    | Allocating(expiresAt: int, luck: Luck)
    | Renewing(id: int, expected: int, renewed: int)
    | CleaningUp(cutoff: int)
    | Restarting(generated: KeyPair, refused: set<int>)

  datatype Call = Call(at: int, op: Op)

  function Apply(settings: Settings, count: int, w: Worker, call: Call): Worker {
    match call.op
    case Allocating(expiresAt, luck) =>
      var (world, result) := Allocate(settings, w.identity, w.world, count, expiresAt, call.at, luck);
      w.(world := world, lost := match result case Ok(a) => w.lost - {a.peerId} case Err(_) => w.lost)
    case Renewing(id, expected, renewed) =>
      w.(world := ExtendAndFetch(settings, w.identity, w.world, id, expected, renewed, call.at).0)
    case CleaningUp(cutoff) => w.(world := CleanUp(w.world, cutoff, call.at))
    case Restarting(generated, refused) =>
      var (stored, identity) := LoadOrCreateKeys(w.stored, generated);
      Worker(World(w.world.rows, RestoredFrom(settings, w.world.rows, call.at, refused)), stored, identity, refused)
  }

  function Replay(settings: Settings, count: int, w: Worker, calls: seq<Call>): Worker
    decreases |calls|
  {
    if calls == [] then w
    else Apply(settings, count, Replay(settings, count, w, calls[..|calls| - 1]), calls[|calls| - 1])
  }

  /** What the operations of a run do to rows and peers, the allocation and the restart apart. */
  lemma {:induction false} OperationsMeaning(
      settings: Settings, count: int, w: Worker, at: int, id: int, expected: int, renewed: int, cutoff: int)
    ensures var ticked := Apply(settings, count, w, Call(at, CleaningUp(cutoff)));
            CleanedUp(w.world, ticked.world, cutoff, at) && ticked == w.(world := ticked.world)
    ensures var extended := Apply(settings, count, w, Call(at, Renewing(id, expected, renewed)));
            var rows := w.world.rows;
            extended == w.(world := w.world.(
                           rows := if id in rows && rows[id].expiresAt == expected && at < expected
                                   then rows[id := rows[id].(expiresAt := renewed)] else rows))
  {
    CleanUpMeaning(w.world, cutoff, at);
    ExtensionMeaning(settings, w.identity, w.world, id, expected, renewed, at);
    hide CleanUp, CleanedUp, ExtendAndFetch, Fits;
  }

  // ----- agreement -----

  predicate IdsInRange(rows: Rows, count: int) { forall id :: id in rows ==> 1 <= id <= count }

  /** Every unexpired row with keys has, in memory, exactly the peer rebuilt from that row, except
      that the lost ids have no peer at all. */
  predicate Agrees(settings: Settings, w: World, lost: set<int>, now: int) {
    && (forall id :: id in w.rows && Restorable(w.rows[id], now) && id !in lost ==>
          id in w.peers && w.peers[id] == Rebuilt(settings, id, w.rows[id]))
    && (forall id :: id in lost ==> id !in w.peers)
  }

  predicate Healthy(settings: Settings, count: int, w: Worker, now: int) {
    && 1 <= count <= 253 && IdsInRange(w.world.rows, count)
    && Agrees(settings, w.world, w.lost, now)
    && w.stored != [] && w.identity == w.stored[|w.stored| - 1]
  }

  lemma {:induction false} KeptRowIsNewPeer(settings: Settings, rows: Rows, id: int, luck: Luck)
    requires id in rows && 1 <= id <= 253
    ensures var peer := NewPeer(settings, id, luck.privateKey, luck.presharedKey);
            var row := StoreKeys(rows, id, peer.privateKey, settings.publicOf(peer.privateKey), peer.presharedKey,
                peer.allowedIp.Show())[id];
            Rebuilt(settings, id, row) == peer
  {
    ParseShowQuad(PeerIp(settings.subnetBase, id));
  }

  /** The rows and peers after a reservation of `id` that came to nothing, or to a peer. */
  lemma {:induction false} ReservationKeepsAgreement(
      settings: Settings, w: World, lost: set<int>, now: int, rows: Rows, id: int, expiresAt: int, luck: Luck)
    requires Agrees(settings, w, lost, now) && 1 <= id <= 253 && id in rows && rows[id].publicKey.None?
    requires forall k :: k in rows && k != id ==> k in w.rows && rows[k] == w.rows[k]
    ensures var back := RolledBack(rows, id, expiresAt, luck);
            Agrees(settings, World(back, w.peers), lost, now)
                && Agrees(settings, World(back, w.peers - {id}), lost, now)
    ensures var peer := NewPeer(settings, id, luck.privateKey, luck.presharedKey);
            var kept := StoreKeys(rows, id, peer.privateKey, settings.publicOf(peer.privateKey), peer.presharedKey,
                                  peer.allowedIp.Show());
            Agrees(settings, World(kept, w.peers[id := peer]), lost - {id}, now)
  {
    KeptRowIsNewPeer(settings, rows, id, luck);
    hide Rebuilt, NewPeer;
  }

  lemma {:induction false} AllocateKeepsRange(
      settings: Settings, identity: KeyPair, w: World, count: int, expiresAt: int, at: int, luck: Luck)
    requires 1 <= count && IdsInRange(w.rows, count)
    ensures IdsInRange(Allocate(settings, identity, w, count, expiresAt, at, luck).0.rows, count)
  {
    RegisterIsFirstFit(w.rows, 1, count, expiresAt, at);
    hide Register, FirstFree, NewPeer, ConfigOf;
  }

  lemma {:induction false} AllocateKeepsHealthy(
      settings: Settings, count: int, w: Worker, at: int, expiresAt: int, luck: Luck)
    requires Healthy(settings, count, w, at)
    ensures Healthy(settings, count, Apply(settings, count, w, Call(at, Allocating(expiresAt, luck))), at)
  {
    RegisterIsFirstFit(w.world.rows, 1, count, expiresAt, at);
    AllocateKeepsRange(settings, w.identity, w.world, count, expiresAt, at, luck);
    var (rows, lease) := Register(w.world.rows, 1, count, expiresAt, at);
    hide Register, FirstFree, Rebuilt, NewPeer, IdsInRange, ConfigOf;
    if lease.Ok? {
      var id := lease.value.peerId;
      assert AsU16(id) == id;
      ReservationKeepsAgreement(settings, w.world, w.lost, at, rows, id, expiresAt, luck);
      hide Agrees, RolledBack, StoreKeys;
    }
  }

  lemma {:induction false} RenewKeepsHealthy(
      settings: Settings, count: int, w: Worker, at: int, id: int, expected: int, renewed: int)
    requires Healthy(settings, count, w, at)
    ensures Healthy(settings, count, Apply(settings, count, w, Call(at, Renewing(id, expected, renewed))), at)
  {
  }

  lemma {:induction false} CleanUpKeepsHealthy(settings: Settings, count: int, w: Worker, at: int, cutoff: int)
    requires Healthy(settings, count, w, at) && cutoff <= at
    ensures Healthy(settings, count, Apply(settings, count, w, Call(at, CleaningUp(cutoff))), at)
  {
    hide Rebuilt;
    var w' := Apply(settings, count, w, Call(at, CleaningUp(cutoff))).world;
    forall id | id in w'.rows && Restorable(w'.rows[id], at) && id !in w.lost
      ensures id in w'.peers && w'.peers[id] == Rebuilt(settings, id, w'.rows[id])
    {
      assert id in w.world.rows;
      forall k | k in ExpiredIds(w.world.rows, at) ensures AsU16(k) == k && k != id {}
    }
  }

  /** A restart brings agreement about from any table at all, but for the peers the kernel refuses. */
  lemma {:induction false} RestartMakesHealthy(
      settings: Settings, count: int, w: Worker, at: int, generated: KeyPair, refused: set<int>)
    requires 1 <= count <= 253 && IdsInRange(w.world.rows, count)
    ensures Healthy(settings, count, Apply(settings, count, w, Call(at, Restarting(generated, refused))), at)
  {
  }

  ghost predicate Orderly(calls: seq<Call>, from: int) {
    && (forall i :: 0 <= i < |calls| ==> from <= calls[i].at)
    && (forall i, j :: 0 <= i < j < |calls| ==> calls[i].at <= calls[j].at)
    && (forall i :: 0 <= i < |calls| ==> calls[i].op.CleaningUp? ==> calls[i].op.cutoff <= calls[i].at)
  }

  lemma {:induction false} TimePassesHealthy(settings: Settings, count: int, w: Worker, now: int, later: int)
    requires Healthy(settings, count, w, now) && now <= later
    ensures Healthy(settings, count, w, later)
  {
  }

  lemma {:induction false} HealthyForever(
      settings: Settings, count: int, w: Worker, from: int, calls: seq<Call>, now: int)
    requires Healthy(settings, count, w, from) && Orderly(calls, from)
    requires from <= now && (calls != [] ==> calls[|calls| - 1].at <= now)
    ensures Healthy(settings, count, Replay(settings, count, w, calls), now)
    decreases |calls|
  {
    if calls == [] {
      TimePassesHealthy(settings, count, w, from, now);
    } else {
      var last := calls[|calls| - 1];
      var init := calls[..|calls| - 1];
      HealthyForever(settings, count, w, from, init, last.at);
      var v := Replay(settings, count, w, init);
      match last.op {
        case Allocating(expiresAt, luck) => AllocateKeepsHealthy(settings, count, v, last.at, expiresAt, luck);
        case Renewing(id, expected, renewed) => RenewKeepsHealthy(settings, count, v, last.at, id, expected, renewed);
        case CleaningUp(cutoff) => CleanUpKeepsHealthy(settings, count, v, last.at, cutoff);
        case Restarting(generated, refused) => RestartMakesHealthy(settings, count, v, last.at, generated, refused);
      }
      TimePassesHealthy(settings, count, Apply(settings, count, v, last), last.at, now);
    }
  }

  lemma {:induction false} BootKeepsRows(settings: Settings, count: int, w: Worker, boot: Call)
    requires boot.op.Restarting?
    ensures Apply(settings, count, w, boot).world.rows == w.world.rows
  {
  }

  /** After any run from a start-up, whatever allocations, rollbacks and restores fail: extending an
      unexpired row with keys returns its own config, and exactly for a lost id it returns an error,
      the row being extended all the same; a refused extension changes and reveals nothing. Public keys
      in the table go on belonging to the private keys beside them. */
  lemma {:induction false} ExtensionFindsItsConfig(
      settings: Settings, count: int, start: Worker, boot: Call, calls: seq<Call>, now: int,
      id: int, expected: int, renewed: int)
    requires 1 <= count <= 253 && IdsInRange(start.world.rows, count)
    requires boot.op.Restarting? && Orderly([boot] + calls, boot.at)
    requires (([boot] + calls)[|calls|]).at <= now
    ensures var w := Replay(settings, count, Apply(settings, count, start, boot), calls);
            && Healthy(settings, count, w, now) && FindsConfig(settings, w, id, expected, renewed, now)
            && (KeysDerived(settings, start.world.rows) ==> KeysDerived(settings, w.world.rows))
  {
    hide Apply, Replay, Healthy, FindsConfig, KeysDerived;
    if KeysDerived(settings, start.world.rows) {
      BootKeepsRows(settings, count, start, boot);
      KeysStayDerived(settings, count, Apply(settings, count, start, boot), calls);
    }
    var w0 := Apply(settings, count, start, boot);
    var all := [boot] + calls;
    assert all[0] == boot && forall i :: 0 <= i < |calls| ==> all[i + 1] == calls[i];
    assert Orderly(calls, boot.at) && boot == Call(boot.at, Restarting(boot.op.generated, boot.op.refused));
    RestartMakesHealthy(settings, count, start, boot.at, boot.op.generated, boot.op.refused);
    HealthyForever(settings, count, w0, boot.at, calls, now);
    HealthyExtensionFindsConfig(settings, count, Replay(settings, count, w0, calls), id, expected, renewed, now);
  }

  /** What extending `id` does: nothing, and it reveals nothing, unless the row is there, unexpired and
      with the expected expiry; then the row is renewed and, if it has keys, its client gets its own config,
      except that a lost id has none. */
  predicate FindsConfig(settings: Settings, w: Worker, id: int, expected: int, renewed: int, now: int) {
    var rows, peers := w.world.rows, w.world.peers;
    var (after, answer) := ExtendAndFetch(settings, w.identity, w.world, id, expected, renewed, now);
    if id in rows && rows[id].expiresAt == expected && now < expected then
      && after.rows == rows[id := rows[id].(expiresAt := renewed)] && after.peers == peers
      && (rows[id].privateKey.Some? && rows[id].publicKey.Some? ==>
            if id in w.lost then answer == Err(Internal)
            else answer.Ok? && id in peers && IsPeerOf(settings, id, rows[id], peers[id])
                 && Fits(settings, w.identity, id, peers[id], answer.value))
    else after == w.world && answer == Err(LeaseUnavailable)
  }

  /** The peer in memory of a live keyed row. */
  lemma {:induction false} HealthyPeer(settings: Settings, count: int, w: Worker, id: int, now: int)
    requires Healthy(settings, count, w, now) && id in w.world.rows && now < w.world.rows[id].expiresAt
    requires w.world.rows[id].privateKey.Some? && w.world.rows[id].publicKey.Some?
    ensures id % 0x1_0000 == id
    ensures if id in w.lost then id !in w.world.peers
            else id in w.world.peers && IsPeerOf(settings, id, w.world.rows[id], w.world.peers[id])
  {
    RebuiltIsPeerOf(settings, id, w.world.rows[id]);
    hide Rebuilt, IsPeerOf;
  }

  lemma {:induction false} HealthyExtensionFindsConfig(
      settings: Settings, count: int, w: Worker, id: int, expected: int, renewed: int, now: int)
    requires Healthy(settings, count, w, now)
    ensures FindsConfig(settings, w, id, expected, renewed, now)
  {
    var rows := w.world.rows;
    ExtensionMeaning(settings, w.identity, w.world, id, expected, renewed, now);
    ExtensionErrs(settings, w.identity, w.world, id, expected, renewed, now);
    if id in rows && now < rows[id].expiresAt && rows[id].privateKey.Some? && rows[id].publicKey.Some? {
      HealthyPeer(settings, count, w, id, now);
    }
    hide Healthy, ExtendAndFetch, Fits, IsPeerOf;
  }

  lemma {:induction false} ExtensionErrs(
      settings: Settings, identity: KeyPair, w: World, id: int, expected: int, renewed: int, now: int)
    ensures var answer := ExtendAndFetch(settings, identity, w, id, expected, renewed, now).1;
            id in w.rows && w.rows[id].expiresAt == expected && now < expected && answer.Err? ==>
                answer == Err(Internal)
  {
  }

  /** Public keys in the table belong to the private keys beside them. */
  predicate KeysDerived(settings: Settings, rows: Rows) {
    forall id :: id in rows && rows[id].privateKey.Some? && rows[id].publicKey.Some? ==>
      rows[id].publicKey.value == settings.publicOf(rows[id].privateKey.value)
  }

  lemma {:induction false} AllocationKeepsDerived(
      settings: Settings, identity: KeyPair, w: World, count: int, expiresAt: int, now: int, luck: Luck)
    requires 1 <= count && KeysDerived(settings, w.rows)
    ensures KeysDerived(settings, Allocate(settings, identity, w, count, expiresAt, now, luck).0.rows)
  {
    RegisterIsFirstFit(w.rows, 1, count, expiresAt, now);
    hide Register, ConfigOf, AllHeld;
  }

  lemma {:induction false} KeysStayDerived(settings: Settings, count: int, w: Worker, calls: seq<Call>)
    requires 1 <= count && KeysDerived(settings, w.world.rows)
    ensures KeysDerived(settings, Replay(settings, count, w, calls).world.rows)
    decreases |calls|
  {
    if calls != [] {
      var last := calls[|calls| - 1];
      var v := Replay(settings, count, w, calls[..|calls| - 1]);
      KeysStayDerived(settings, count, w, calls[..|calls| - 1]);
      if last.op.Allocating? {
        AllocationKeepsDerived(settings, v.identity, v.world, count, last.op.expiresAt, last.at, last.op.luck);
        hide Allocate, KeysDerived;
      } else {
        hide Allocate, RestoredFrom;
      }
    }
  }

  // ----- a lost id -----

  /** A fresh worker allocates id 1 until 1000; then it restarts and the kernel refuses the peer. */
  function LosingCalls(generated: KeyPair): seq<Call> {
    [Call(0, Allocating(1000, Luck("priv", "psk", true, true, true)))] + [Call(0, Restarting(generated, {1}))]
  }

  function EmptyWorker(generated: KeyPair): Worker {
    Worker(World(map[], map[]), [generated], generated, {})
  }

  /** Lost ids exist: the lease of id 1 is extended, and its client gets an error all the same. */
  lemma {:induction false} RefusedPeerCannotBeFetched(settings: Settings, generated: KeyPair)
    ensures var start := Apply(settings, 1, EmptyWorker(generated), Call(0, Restarting(generated, {})));
            var w := Replay(settings, 1, start, LosingCalls(generated));
            && Orderly([Call(0, Restarting(generated, {}))] + LosingCalls(generated), 0)
            && Healthy(settings, 1, w, 0) && 1 in w.lost && 1 in w.world.rows && Restorable(w.world.rows[1], 0)
            && var (after, answer) := ExtendAndFetch(settings, w.identity, w.world, 1, 1000, 2000, 0);
               answer == Err(Internal) && 1 in after.rows && after.rows[1].expiresAt == 2000
  {
    var calls := LosingCalls(generated);
    var start := Apply(settings, 1, EmptyWorker(generated), Call(0, Restarting(generated, {})));
    assert start == EmptyWorker(generated);
    assert calls[..2] == calls && calls[..1] == [calls[0]] && calls[..1][..0] == [];
    var mid := Apply(settings, 1, start, calls[0]);
    assert Replay(settings, 1, start, calls[..1]) == mid;
    assert FirstFree(map[], 1, 1) == Some(1);
    assert mid.world.rows.Keys == {1} && Restorable(mid.world.rows[1], 0) && mid.world.rows[1].expiresAt == 1000;
    assert Replay(settings, 1, start, calls) == Apply(settings, 1, mid, calls[1]);
    RestartMakesHealthy(settings, 1, mid, 0, generated, {1});
  }

  // ----- restart round trip -----

  /** After a restart an id has a config exactly when its row is unexpired, has keys and was taken
      back by the kernel; and it is the config the old process gave, if that one had the peer. */
  lemma {:induction false} RestartRoundTrip(
      settings: Settings, count: int, w: Worker, now: int, generated: KeyPair, refused: set<int>, id: int)
    requires Healthy(settings, count, w, now) && 0 <= id < 0x1_0000
    ensures var w' := Apply(settings, count, w, Call(now, Restarting(generated, refused)));
            var before, after := ClientConfig(settings, w.identity, w.world.peers, id),
                ClientConfig(settings, w'.identity, w'.world.peers, id);
            && w'.world.rows == w.world.rows && w'.stored == w.stored && w'.identity == w.identity
            && (after.Ok? <==> id in w.world.rows && Restorable(w.world.rows[id], now) && id !in refused)
            && (after.Ok? && id !in w.lost ==> after == before)
  {
  }

  // ----- one allocation -----

  /** The rows an allocation finds: as they are, or purged of the expired ones if every id is taken. */
  function Found(rows: Rows, count: int, now: int): Rows {
    if forall k :: 1 <= k <= count ==> k in rows then DeleteExpired(rows, now) else rows
  }

  lemma FoundMeaning(rows: Rows, count: int, now: int)
    ensures var found := Found(rows, count, now);
            && (forall id :: id in found ==> id in rows && found[id] == rows[id])
            && (forall id :: id in rows && id !in found ==>
                  rows[id].expiresAt < now && forall k :: 1 <= k <= count ==> k in rows)
  {
  }

  /** An allocation that finds every id held by an unexpired row is refused and leaves the found rows.
      One that fails later leaves them too if its rollback runs, else also its bare reservation; and no
      peer but perhaps its own is missing. One that succeeds adds exactly one row and one peer; their
      keys and address are those of the config handed out. */
  lemma {:induction false} AllocateIsAllOrNothing(
      settings: Settings, identity: KeyPair, w: World, count: int, expiresAt: int, now: int, luck: Luck)
    requires 1 <= count <= 253
    ensures var (w', result) := Allocate(settings, identity, w, count, expiresAt, now, luck);
            var found := Found(w.rows, count, now);
            && (result == Err(LeaseUnavailable) <==> AllHeld(w.rows, 1, count, now))
            && match result
               case Err(LeaseUnavailable) => w' == World(found, w.peers)
               case Err(e) => e == Internal && exists id :: FailedAt(w, w', found, count, expiresAt, luck, id)
               case Ok(a) =>
                 && luck.kernelAdds && luck.keysStored && 1 <= a.peerId <= count && a.peerId !in found
                 && AllocatedAt(settings, identity, w, w', found, expiresAt, luck, a)
  {
    var (rows, lease) := Register(w.rows, 1, count, expiresAt, now);
    RegisterFinds(w.rows, count, expiresAt, now);
    if lease.Err? {
      hide Register, Found, AllHeld;
    } else if luck.kernelAdds && luck.keysStored {
      AllocationSucceeds(settings, identity, w, Found(w.rows, count, now), count, expiresAt, now, luck);
      hide Register, Found, AllHeld, Allocate, AllocatedAt, FailedAt;
    } else {
      AllocationFails(settings, identity, w, Found(w.rows, count, now), count, expiresAt, now, luck);
      hide Register, Found, AllHeld, Allocate, AllocatedAt, FailedAt;
    }
  }

  lemma {:induction false} AllocationSucceeds(
      settings: Settings, identity: KeyPair, w: World, found: Rows, count: int, expiresAt: int, now: int, luck: Luck)
    requires var (rows, lease) := Register(w.rows, 1, count, expiresAt, now);
             && lease.Ok? && 1 <= lease.value.peerId <= count <= 253 && lease.value.expiresAt == expiresAt
             && rows == found[lease.value.peerId := Row(expiresAt, None, None, None, None)]
    requires luck.kernelAdds && luck.keysStored
    ensures var (w', result) := Allocate(settings, identity, w, count, expiresAt, now, luck);
            && result.Ok? && result.value.peerId == Register(w.rows, 1, count, expiresAt, now).1.value.peerId
            && AllocatedAt(settings, identity, w, w', found, expiresAt, luck, result.value)
  {
    var (rows, lease) := Register(w.rows, 1, count, expiresAt, now);
    var id := lease.value.peerId;
    var peer := NewPeer(settings, id, luck.privateKey, luck.presharedKey);
    var a := Allocation(ConfigOf(settings, identity, id, peer), id, expiresAt);
    var kept := StoreKeys(rows, id, luck.privateKey, settings.publicOf(luck.privateKey), luck.presharedKey,
                          peer.allowedIp.Show());
    assert AsU16(id) == id;
    assert Allocate(settings, identity, w, count, expiresAt, now, luck) == (World(kept, w.peers[id := peer]),
           Ok(a)) by {
      hide Register, StoreKeys, RolledBack;
    }
    assert a.config.clientAddress == peer.allowedIp.Show();
    hide Allocate, Register, NewPeer, ConfigOf, IsPeerFor, Fits;
    NewPeerIsPeerFor(settings, id, luck.privateKey, luck.presharedKey);
    ConfigFits(settings, identity, id, peer);
    StoredRow(found, id, expiresAt, luck.privateKey, settings.publicOf(luck.privateKey), luck.presharedKey,
              peer.allowedIp.Show());
    hide StoreKeys;
  }

  /** A successful allocation: one row and one peer more; they and the config agree field by field. */
  predicate AllocatedAt(
      settings: Settings, identity: KeyPair, w: World, w': World, found: Rows, expiresAt: int, luck: Luck,
          a: Allocation) {
    && a.expiresAt == expiresAt && a.peerId in w'.peers
    && w'.peers == w.peers[a.peerId := w'.peers[a.peerId]]
    && w'.rows == found[a.peerId := Row(expiresAt, Some(luck.privateKey), Some(settings.publicOf(luck.privateKey)),
                                        Some(luck.presharedKey), Some(a.config.clientAddress))]
    && IsPeerFor(settings, a.peerId, luck.privateKey, luck.presharedKey, w'.peers[a.peerId])
    && Fits(settings, identity, a.peerId, w'.peers[a.peerId], a.config)
  }

  lemma StoredRow(
      found: Rows, id: int, expiresAt: int, privateKey: string, publicKey: string, presharedKey: string,
      allowedIp: string)
    ensures StoreKeys(found[id := Row(expiresAt, None, None, None, None)], id, privateKey, publicKey, presharedKey,
            allowedIp)
         == found[id := Row(expiresAt, Some(privateKey), Some(publicKey), Some(presharedKey), Some(allowedIp))]
  {
  }

  lemma RegisterFinds(rows: Rows, count: int, expiresAt: int, now: int)
    requires 1 <= count
    ensures var (after, lease) := Register(rows, 1, count, expiresAt, now);
            var found := Found(rows, count, now);
            match lease
            case Err(e) => e == LeaseUnavailable && after == found && AllHeld(rows, 1, count, now)
            case Ok(l) =>
              && 1 <= l.peerId <= count && l.expiresAt == expiresAt && l.peerId !in found
              && after == found[l.peerId := Row(expiresAt, None, None, None, None)] && !AllHeld(rows, 1, count, now)
  {
    RegisterIsFirstFit(rows, 1, count, expiresAt, now);
    hide Register;
  }

  lemma {:induction false} AllocationFails(
      settings: Settings, identity: KeyPair, w: World, found: Rows, count: int, expiresAt: int, now: int, luck: Luck)
    requires var (rows, lease) := Register(w.rows, 1, count, expiresAt, now);
             && lease.Ok? && 1 <= lease.value.peerId <= count <= 253 && lease.value.peerId !in found
             && rows == found[lease.value.peerId := Row(expiresAt, None, None, None, None)]
    requires !(luck.kernelAdds && luck.keysStored)
    ensures var (w', result) := Allocate(settings, identity, w, count, expiresAt, now, luck);
            result == Err(Internal) && exists id :: FailedAt(w, w', found, count, expiresAt, luck, id)
  {
    var (rows, lease) := Register(w.rows, 1, count, expiresAt, now);
    var id := lease.value.peerId;
    var w' := Allocate(settings, identity, w, count, expiresAt, now, luck).0;
    assert AsU16(id) == id && rows - {id} == found;
    hide Register, NewPeer, ConfigOf, StoreKeys;
    assert FailedAt(w, w', found, count, expiresAt, luck, id);
  }

  predicate FailedAt(w: World, w': World, found: Rows, count: int, expiresAt: int, luck: Luck, id: int) {
    && 1 <= id <= count && id !in found && !(luck.kernelAdds && luck.keysStored)
    && w'.rows == (if luck.rollbackRuns then found else found[id := Row(expiresAt, None, None, None, None)])
    && w'.peers == if luck.kernelAdds then w.peers - {id} else w.peers
  }
}
