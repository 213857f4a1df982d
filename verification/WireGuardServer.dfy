/** The embedded WireGuard server and the peer manager: `wireguard/server.rs`,
    `wireguard/peer_manager.rs`, `db/cleanup.rs` and the extension branch of
    `service/lease_manager.rs`. The kernel interface is abstract: each call to it may fail. */
module WireGuardServer {
  import opened Wrappers
  import opened Text
  import opened LeaseTable

  datatype KeyPair = KeyPair(privateKey: string, publicKey: string)

  /** `publicOf` is the derivation of a public key from a private one. */
  datatype Settings = Settings(subnetBase: Quad, endpoint: string, dns: string, publicOf: string -> string)

  datatype PeerState = PeerState(
    peerId: int,
    privateKey: string,
    publicKey: string,
    presharedKey: string,
    allowedIp: Quad)

  datatype PeerConfig = PeerConfig(
    peerId: int,
    clientPrivateKey: string,
    clientAddress: string,
    serverPublicKey: string,
    presharedKey: string,
    endpoint: string,
    dns: string)

  datatype Allocation = Allocation(config: PeerConfig, peerId: int, expiresAt: int)

  type Peers = map<int, PeerState>

  /** `as u16` on a row id. */
  function AsU16(id: int): int { id % 0x1_0000 }

  /** The last octet wraps around as `as u8` does. */
  function PeerIp(base: Quad, peerId: int): Quad { base.(d := (base.d + peerId + 1) % 256) }

  function ServerAddress(base: Quad): Quad { base.(d := (base.d + 1) % 256) }

  function NewPeer(settings: Settings, peerId: int, privateKey: string, presharedKey: string): PeerState {
    PeerState(peerId, privateKey, settings.publicOf(privateKey), presharedKey, PeerIp(settings.subnetBase, peerId))
  }

  function ConfigOf(settings: Settings, identity: KeyPair, peerId: int, peer: PeerState): PeerConfig {
    PeerConfig(peerId, peer.privateKey, peer.allowedIp.Show(), identity.publicKey, peer.presharedKey, settings.endpoint,
        settings.dns)
  }

  function ClientConfig(
      settings: Settings, identity: KeyPair, peers: Peers, peerId: int): Result<PeerConfig, AppError> {
    if peerId in peers then Ok(ConfigOf(settings, identity, peerId, peers[peerId])) else Err(Internal)
  }

  /** What a client's config must say of its peer and of the server. */
  predicate Fits(settings: Settings, identity: KeyPair, peerId: int, peer: PeerState, c: PeerConfig) {
    && c.peerId == peerId && c.clientPrivateKey == peer.privateKey && c.presharedKey == peer.presharedKey
    && ParseQuad(c.clientAddress) == Some(peer.allowedIp)
    && c.serverPublicKey == identity.publicKey && c.endpoint == settings.endpoint && c.dns == settings.dns
  }

  lemma {:induction false} ConfigFits(settings: Settings, identity: KeyPair, peerId: int, peer: PeerState)
    ensures Fits(settings, identity, peerId, peer, ConfigOf(settings, identity, peerId, peer))
  {
    ParseShowQuad(peer.allowedIp);
  }

  /** A peer generated for an id: its public key belongs to its private key, and its address is the
      server's network with the id in the last octet. */
  predicate IsPeerFor(settings: Settings, peerId: int, privateKey: string, presharedKey: string, peer: PeerState) {
    && peer.peerId == peerId && peer.privateKey == privateKey && peer.presharedKey == presharedKey
    && peer.publicKey == settings.publicOf(privateKey)
    && peer.allowedIp.a == settings.subnetBase.a && peer.allowedIp.b == settings.subnetBase.b
    && peer.allowedIp.c == settings.subnetBase.c
    && (peer.allowedIp.d - (settings.subnetBase.d + peerId + 1)) % 256 == 0
  }

  lemma {:induction false} NewPeerIsPeerFor(settings: Settings, peerId: int, privateKey: string, presharedKey: string)
    ensures IsPeerFor(settings, peerId, privateKey, presharedKey, NewPeer(settings, peerId, privateKey, presharedKey))
  {
    hide Print;
  }

  // ----- restart -----

  /** The rows that `restore_peers` selects. */
  predicate Restorable(row: Row, now: int) {
    row.expiresAt > now && row.privateKey.Some? && row.publicKey.Some?
  }

  /** The peer that `restore_peers` rebuilds from a row. */
  function Rebuilt(settings: Settings, id: int, row: Row): PeerState
    requires row.publicKey.Some?
  {
    var ip := PeerIp(settings.subnetBase, AsU16(id));
    PeerState(AsU16(id), row.privateKey.GetOr(""), row.publicKey.value, row.presharedKey.GetOr(""),
              ParseQuad(row.allowedIp.GetOr(ip.Show())).GetOr(ip))
  }

  /** The peers restored from `rows`, except those the kernel refuses. */
  function RestoredFrom(settings: Settings, rows: Rows, now: int, refused: set<int>): Peers {
    map id | id in rows && Restorable(rows[id], now) && id !in refused :: Rebuilt(settings, id, rows[id])
  }

  /** The rows whose peers come back. */
  function Accepted(rows: Rows, now: int, refused: set<int>): set<int> {
    set id | id in rows && Restorable(rows[id], now) && id !in refused
  }

  predicate Claims(rows: Rows, now: int, refused: set<int>, id: int, peerId: int) {
    id in Accepted(rows, now, refused) && AsU16(id) == peerId
  }

  /** A peer id that accepted rows claim has the peer of one of them; the others are as before. */
  ghost predicate IsRestored(
      settings: Settings, rows: Rows, now: int, refused: set<int>, before: Peers, after: Peers) {
    forall peerId ::
      if exists id :: Claims(rows, now, refused, id, peerId)
      then peerId in after && exists id :: Claims(rows, now, refused, id, peerId)
                                           && after[peerId] == Rebuilt(settings, id, rows[id])
      else (peerId in after <==> peerId in before) && (peerId in before ==> after[peerId] == before[peerId])
  }

  /** One more of the rows still to do. */
  lemma {:induction false} RestoredMore(
      settings: Settings, rows: Rows, now: int, refused: set<int>, todo: set<int>, id: int, before: Peers, peers: Peers)
    requires id in todo && id in rows && Restorable(rows[id], now)
    requires IsRestored(settings, rows, now, refused + todo, before, peers)
    ensures var left := refused + (todo - {id});
            if id in refused then left == refused + todo
            else
              && Accepted(rows, now, left) == Accepted(rows, now, refused + todo) + {id}
              && IsRestored(settings, rows, now, left, before, peers[AsU16(id) := Rebuilt(settings, id, rows[id])])
  {
    var left := refused + (todo - {id});
    if id !in refused {
      var after := peers[AsU16(id) := Rebuilt(settings, id, rows[id])];
      hide Rebuilt;
      assert Claims(rows, now, left, id, AsU16(id));
      forall k, p | k != id ensures Claims(rows, now, left, k, p) <==> Claims(rows, now, refused + todo, k, p) {}
      forall p | p != AsU16(id) ensures !Claims(rows, now, left, id, p) {}
    }
  }

  lemma {:induction false} NothingRestored(settings: Settings, rows: Rows, now: int, refused: set<int>, peers: Peers)
    requires forall id :: id in rows && Restorable(rows[id], now) ==> id in refused
    ensures IsRestored(settings, rows, now, refused, peers, peers) && Accepted(rows, now, refused) == {}
  {
    assert forall id :: id !in Accepted(rows, now, refused);
  }

  /** Where ids fit the peer ids, every accepted row has its own peer. */
  lemma {:induction false} RestoredExactly(
      settings: Settings, rows: Rows, now: int, refused: set<int>, before: Peers, after: Peers)
    requires IsRestored(settings, rows, now, refused, before, after)
    requires forall id :: id in rows ==> AsU16(id) == id
    ensures after == before + RestoredFrom(settings, rows, now, refused)
  {
    var restored := RestoredFrom(settings, rows, now, refused);
    hide Rebuilt;
    forall p ensures p in after <==> p in before + restored
             ensures p in after ==> after[p] == (before + restored)[p]
    {
      assert p in restored <==> Claims(rows, now, refused, p, p);
      assert forall id :: Claims(rows, now, refused, id, p) ==> id == p;
    }
  }

  /** A restart keeps exactly the rows with both keys that have not run out and that the kernel takes back,
      with the stored keys, the empty preshared key where none is stored, and the stored address where it
      is one. */
  lemma {:induction false} RestoredMeaning(settings: Settings, rows: Rows, now: int, refused: set<int>, id: int)
    ensures var peers := RestoredFrom(settings, rows, now, refused);
            && (id in peers <==>
                  && id in rows && now < rows[id].expiresAt && rows[id].privateKey.Some? && rows[id].publicKey.Some?
                  && id !in refused)
            && (id in peers ==> IsPeerOf(settings, id, rows[id], peers[id]))
  {
    if id in rows && rows[id].publicKey.Some? { RebuiltIsPeerOf(settings, id, rows[id]); }
    hide Rebuilt, IsPeerOf;
  }

  /** What the peer of a row is made of. */
  predicate IsPeerOf(settings: Settings, id: int, row: Row, peer: PeerState) {
    && peer.peerId == id % 0x1_0000
    && Some(peer.publicKey) == row.publicKey
    && peer.privateKey == (match row.privateKey case None => "" case Some(k) => k)
    && peer.presharedKey == (match row.presharedKey case None => "" case Some(k) => k)
    && (if row.allowedIp.Some? && ParseQuad(row.allowedIp.value).Some?
        then Some(peer.allowedIp) == ParseQuad(row.allowedIp.value)
        else && peer.allowedIp == settings.subnetBase.(d := peer.allowedIp.d)
             && (peer.allowedIp.d - (settings.subnetBase.d + peer.peerId + 1)) % 256 == 0)
  }

  lemma {:induction false} RebuiltIsPeerOf(settings: Settings, id: int, row: Row)
    requires row.publicKey.Some?
    ensures IsPeerOf(settings, id, row, Rebuilt(settings, id, row))
  {
    ParseShowQuad(PeerIp(settings.subnetBase, AsU16(id)));
  }

  predicate IsRestoredRow(settings: Settings, rows: Rows, now: int, refused: set<int>, peers: Peers, id: int)
    requires id in rows
  {
    now < rows[id].expiresAt && rows[id].privateKey.Some? && rows[id].publicKey.Some? && id !in refused ==>
      id in peers && IsPeerOf(settings, id, rows[id], peers[id])
  }

  /** The newest stored key pair, or a new one that is then stored. */
  function LoadOrCreateKeys(stored: seq<KeyPair>, generated: KeyPair): (seq<KeyPair>, KeyPair) {
    if stored != [] then (stored, stored[|stored| - 1]) else (stored + [generated], generated)
  }

  // ----- allocation, extension and cleanup as functions of table and peers -----

  datatype World = World(rows: Rows, peers: Peers)

  /** What chance and the outside decide during one allocation. */
  datatype Luck = Luck(privateKey: string, presharedKey: string, kernelAdds: bool, keysStored: bool, rollbackRuns: bool)

  function RolledBack(rows: Rows, id: int, expiresAt: int, luck: Luck): Rows {
    if luck.rollbackRuns then DeleteIf(rows, id, Some(expiresAt)) else rows
  }

  function Allocate(settings: Settings, identity: KeyPair, w: World, count: int, expiresAt: int, now: int, luck: Luck)
    : (World, Result<Allocation, AppError>)
  {
    var (rows, lease) := Register(w.rows, 1, count, expiresAt, now);
    match lease
    case Err(e) => (World(rows, w.peers), Err(e))
    case Ok(l) =>
      var id := l.peerId;
      var peer := NewPeer(settings, AsU16(id), luck.privateKey, luck.presharedKey);
      if !luck.kernelAdds then (World(RolledBack(rows, id, expiresAt, luck), w.peers), Err(Internal))
      else if !luck.keysStored then (World(RolledBack(rows, id, expiresAt, luck), w.peers - {AsU16(id)}), Err(Internal))
      else
        (World(StoreKeys(rows, id, peer.privateKey, settings.publicOf(peer.privateKey), peer.presharedKey,
            peer.allowedIp.Show()),
               w.peers[AsU16(id) := peer]),
         Ok(Allocation(ConfigOf(settings, identity, AsU16(id), peer), id, expiresAt)))
  }

  /** An extension request: the row first, then the client's config. */
  function ExtendAndFetch(
      settings: Settings, identity: KeyPair, w: World, id: int, expected: int, renewed: int, now: int)
    : (World, Result<PeerConfig, AppError>)
  {
    (w.(rows := Extend(w.rows, id, expected, renewed, now)),
     if Extendable(w.rows, id, expected, now)
     then ClientConfig(settings, identity, w.peers, AsU16(id))
     else Err(LeaseUnavailable))
  }

  /** A daemon tick that read the clock at `cutoff` and, for the expired ids, again at `now`. */
  function CleanUp(w: World, cutoff: int, now: int): World {
    World(DeleteExpired(w.rows, cutoff), w.peers - (set id | id in ExpiredIds(w.rows, now) :: AsU16(id)))
  }

  /** What a tick leaves: no expired row has its peer any more, every peer that no expired row claims is
      there as it was, and exactly the rows that had not run out at the cutoff are. */
  ghost predicate CleanedUp(w: World, after: World, cutoff: int, now: int) {
    && (forall id :: id in w.rows && w.rows[id].expiresAt < now ==> id % 0x1_0000 !in after.peers)
    && (forall p :: p in w.peers && !ClaimedByExpired(w.rows, now, p) ==>
          p in after.peers && after.peers[p] == w.peers[p])
    && (forall p :: p in after.peers ==> p in w.peers && after.peers[p] == w.peers[p])
    && (forall id :: id in after.rows <==> id in w.rows && w.rows[id].expiresAt >= cutoff)
    && (forall id :: id in after.rows ==> after.rows[id] == w.rows[id])
  }

  ghost predicate ClaimedByExpired(rows: Rows, now: int, peerId: int) {
    exists id :: id in rows && rows[id].expiresAt < now && id % 0x1_0000 == peerId
  }

  lemma {:induction false} CleanUpMeaning(w: World, cutoff: int, now: int)
    ensures CleanedUp(w, CleanUp(w, cutoff, now), cutoff, now)
  {
    var gone := set id | id in ExpiredIds(w.rows, now) :: AsU16(id);
    forall p ensures p in gone <==> ClaimedByExpired(w.rows, now, p) {
      if id :| id in w.rows && w.rows[id].expiresAt < now && id % 0x1_0000 == p {
        assert id in ExpiredIds(w.rows, now) && AsU16(id) == p;
      }
    }
    forall id | id in w.rows && w.rows[id].expiresAt < now ensures id % 0x1_0000 in gone {
      assert ClaimedByExpired(w.rows, now, id % 0x1_0000);
    }
  }

  /** An extension that finds no unexpired row with the expected expiry changes nothing and reveals
      nothing; any other renews the row and answers with the config of the peer in memory, if there is one. */
  lemma {:induction false} ExtensionMeaning(
      settings: Settings, identity: KeyPair, w: World, id: int, expected: int, renewed: int, now: int)
    ensures var (after, answer) := ExtendAndFetch(settings, identity, w, id, expected, renewed, now);
            if id in w.rows && w.rows[id].expiresAt == expected && now < expected
            then
              && after.rows == w.rows[id := w.rows[id].(expiresAt := renewed)] && after.peers == w.peers
              && (answer.Ok? <==> id % 0x1_0000 in w.peers)
              && (answer.Ok? ==> Fits(settings, identity, id % 0x1_0000, w.peers[id % 0x1_0000], answer.value))
            else after == w && answer == Err(LeaseUnavailable)
  {
    var p := AsU16(id);
    if p in w.peers { ConfigFits(settings, identity, p, w.peers[p]); }
  }

  lemma {:induction false} EmptyOrNot(s: set<int>)
    ensures s == {} || exists x :: x in s
  {
    if forall x :: x !in s { assert s == {}; }
  }

  // ----- the objects -----

  class ServerKeyTable {
    var stored: seq<KeyPair>

    constructor ()
      ensures stored == []
    {
      stored := [];
    }

    method LoadOrCreate(generated: KeyPair) returns (keys: KeyPair)
      modifies this
      ensures (stored, keys) == LoadOrCreateKeys(old(stored), generated)
      ensures if old(stored) == [] then keys == generated && stored == [generated]
              else keys == old(stored)[|old(stored)| - 1] && stored == old(stored)
    {
      if stored != [] {
        return stored[|stored| - 1];
      }
      stored := stored + [generated];
      return generated;
    }
  }

  class WireGuardServer {
    const settings: Settings
    const identity: KeyPair
    var peers: Peers

    /** A server starts without peers; its identity comes from the table. */
    constructor (settings: Settings, keyTable: ServerKeyTable, generated: KeyPair)
      modifies keyTable
      ensures this.settings == settings && peers == map[]
      ensures (keyTable.stored, identity) == LoadOrCreateKeys(old(keyTable.stored), generated)
      ensures var stored := old(keyTable.stored);
              if stored == [] then identity == generated && keyTable.stored == [generated]
              else identity == stored[|stored| - 1] && keyTable.stored == stored
    {
      this.settings := settings;
      peers := map[];
      var keys := keyTable.LoadOrCreate(generated);
      identity := keys;
    }

    method AddPeer(peerId: int, privateKey: string, presharedKey: string, kernelAdds: bool)
      returns (config: Result<PeerConfig, AppError>)
      modifies this
      ensures var peer := NewPeer(settings, peerId, privateKey, presharedKey);
              if kernelAdds
              then config == Ok(ConfigOf(settings, identity, peerId, peer)) && peers == old(peers)[peerId := peer]
              else config == Err(Internal) && peers == old(peers)
      ensures kernelAdds ==>
                && peerId in peers && IsPeerFor(settings, peerId, privateKey, presharedKey, peers[peerId])
                && config.Ok? && Fits(settings, identity, peerId, peers[peerId], config.value)
    {
      ConfigFits(settings, identity, peerId, NewPeer(settings, peerId, privateKey, presharedKey));
      NewPeerIsPeerFor(settings, peerId, privateKey, presharedKey);
      var publicKey := settings.publicOf(privateKey);
      var allowedIp := PeerIp(settings.subnetBase, peerId);
      if !kernelAdds {
        return Err(Internal);
      }
      peers := peers[peerId := PeerState(peerId, privateKey, publicKey, presharedKey, allowedIp)];
      return Ok(PeerConfig(peerId, privateKey, allowedIp.Show(), identity.publicKey, presharedKey, settings.endpoint,
          settings.dns));
    }

    /** The map entry goes first, whatever the kernel then says. */
    method RemovePeer(peerId: int, kernelRemoves: bool) returns (result: Result<(), AppError>)
      modifies this
      ensures peers == old(peers) - {peerId}
      ensures result.Err? <==> peerId in old(peers) && !kernelRemoves
    {
      var present := peerId in peers;
      peers := peers - {peerId};
      if present && !kernelRemoves {
        return Err(Internal);
      }
      return Ok(());
    }

    method GetClientConfig(peerId: int) returns (config: Result<PeerConfig, AppError>)
      ensures config == ClientConfig(settings, identity, peers, peerId)
      ensures if peerId in peers then config.Ok? && Fits(settings, identity, peerId, peers[peerId], config.value)
              else config == Err(Internal)
    {
      if peerId !in peers {
        return Err(Internal);
      }
      var state := peers[peerId];
      ConfigFits(settings, identity, peerId, state);
      return Ok(PeerConfig(peerId, state.privateKey, state.allowedIp.Show(), identity.publicKey, state.presharedKey,
                           settings.endpoint, settings.dns));
    }

    /** Adds one peer back, unless the kernel refuses it. */
    method RestorePeer(id: int, row: Row, kernelAdds: bool)
      requires row.publicKey.Some?
      modifies this
      ensures peers == if kernelAdds then old(peers)[AsU16(id) := Rebuilt(settings, id, row)] else old(peers)
      ensures kernelAdds ==> id % 0x1_0000 in peers && IsPeerOf(settings, id, row, peers[id % 0x1_0000])
    {
      RebuiltIsPeerOf(settings, id, row);
      var peerId := AsU16(id);
      var address := row.allowedIp.GetOr(PeerIp(settings.subnetBase, peerId).Show());
      if !kernelAdds {
        return;
      }
      peers := peers[peerId := PeerState(peerId, row.privateKey.GetOr(""), row.publicKey.value,
          row.presharedKey.GetOr(""),
                                         ParseQuad(address).GetOr(PeerIp(settings.subnetBase, peerId)))];
    }

    /** Adds back every restorable row's peer that the kernel accepts, in any order. */
    method RestorePeers(table: ConfigTable, now: int, refused: set<int>) returns (count: nat)
      modifies this
      ensures IsRestored(settings, table.rows, now, refused, old(peers), peers)
      ensures count == |Accepted(table.rows, now, refused)|
      ensures (forall id :: id in table.rows ==> AsU16(id) == id) ==>
                && peers == old(peers) + RestoredFrom(settings, table.rows, now, refused)
                && forall id :: id in table.rows ==> IsRestoredRow(settings, table.rows, now, refused, peers, id)
    {
      hide Rebuilt, IsRestored;
      var rows := table.rows;
      var todo := set id | id in rows && Restorable(rows[id], now);
      ghost var before := peers;
      count := 0;
      NothingRestored(settings, rows, now, refused + todo, peers);
      while todo != {}
        invariant forall id :: id in todo ==> id in rows && Restorable(rows[id], now)
        invariant IsRestored(settings, rows, now, refused + todo, before, peers)
        invariant count == |Accepted(rows, now, refused + todo)|
        decreases todo
      {
        EmptyOrNot(todo);
        var id :| id in todo;
        RestoredMore(settings, rows, now, refused, todo, id, before, peers);
        RestorePeer(id, rows[id], id !in refused);
        count := if id in refused then count else count + 1;
        todo := todo - {id};
      }
      assert refused + todo == refused;
      if forall id :: id in rows ==> AsU16(id) == id {
        RestoredExactly(settings, rows, now, refused, before, peers);
        forall id | id in rows ensures IsRestoredRow(settings, rows, now, refused, peers, id) {
          RestoredMeaning(settings, rows, now, refused, id);
        }
      }
    }
  }

  /** `allocate_peer`: reserve a row, add the peer, persist its keys; roll back step by step. */
  method AllocatePeer(
      server: WireGuardServer, table: ConfigTable, count: int, expiresAt: int, now: int, luck: Luck,
      kernelRemoves: bool)
    returns (result: Result<Allocation, AppError>)
    modifies server, table
    ensures (World(table.rows, server.peers), result)
            == Allocate(server.settings, server.identity, old(World(table.rows, server.peers)),
                        count, expiresAt, now, luck)
  {
    var lease := table.RegisterLease(1, count, expiresAt, now);
    if lease.Err? {
      return Err(lease.error);
    }
    var id := lease.value.peerId;
    var config := server.AddPeer(AsU16(id), luck.privateKey, luck.presharedKey, luck.kernelAdds);
    if config.Err? {
      if luck.rollbackRuns { table.MarkConfigAsFree(id, Some(expiresAt)); }
      return Err(config.error);
    }
    if !luck.keysStored {
      var _ := server.RemovePeer(AsU16(id), kernelRemoves);
      assert server.peers == old(server.peers) - {AsU16(id)};
      if luck.rollbackRuns { table.MarkConfigAsFree(id, Some(expiresAt)); }
      return Err(Internal);
    }
    var c := config.value;
    table.rows := StoreKeys(table.rows, id, c.clientPrivateKey, server.settings.publicOf(c.clientPrivateKey),
        c.presharedKey, c.clientAddress);
    return Ok(Allocation(c, id, expiresAt));
  }

  /** The WireGuard extension branch of `get_worker_config`. */
  method ExtendPeer(server: WireGuardServer, table: ConfigTable, id: int, expected: int, renewed: int, now: int)
    returns (config: Result<PeerConfig, AppError>)
    modifies table
    ensures (World(table.rows, server.peers), config)
            == ExtendAndFetch(server.settings, server.identity, old(World(table.rows, server.peers)),
                              id, expected, renewed, now)
    ensures if id in old(table.rows) && old(table.rows)[id].expiresAt == expected && now < expected
            then
              && table.rows == old(table.rows)[id := old(table.rows)[id].(expiresAt := renewed)]
              && (config.Ok? <==> id % 0x1_0000 in server.peers)
              && (config.Ok? ==> Fits(server.settings, server.identity, id % 0x1_0000, server.peers[id % 0x1_0000],
                                      config.value))
            else table.rows == old(table.rows) && config == Err(LeaseUnavailable)
  {
    var lease := table.ExtendLease(id, expected, renewed, now);
    if lease.Err? {
      return Err(lease.error);
    }
    config := server.GetClientConfig(AsU16(id));
  }

  /** The removal loop of `database_cleanup`. `stuck` are the ids the kernel fails to remove. */
  method RemoveListed(server: WireGuardServer, ids: set<int>, stuck: set<int>)
    modifies server
    ensures server.peers == old(server.peers) - (set id | id in ids :: AsU16(id))
  {
    var todo := ids;
    while todo != {}
      invariant todo <= ids
      invariant server.peers == old(server.peers) - (set id | id in ids - todo :: AsU16(id))
      decreases todo
    {
      EmptyOrNot(todo);
      var id :| id in todo;
      todo := todo - {id};
      var _ := server.RemovePeer(AsU16(id), id !in stuck);
    }
    assert ids - todo == ids;
  }

  /** The worker part of `database_cleanup`. */
  method DatabaseCleanup(server: WireGuardServer, table: ConfigTable, cutoff: int, now: int, stuck: set<int>)
    modifies server, table
    ensures World(table.rows, server.peers) == CleanUp(old(World(table.rows, server.peers)), cutoff, now)
    ensures CleanedUp(old(World(table.rows, server.peers)), World(table.rows, server.peers), cutoff, now)
  {
    ghost var w := World(table.rows, server.peers);
    CleanUpMeaning(w, cutoff, now);
    hide CleanedUp;
    var ids := table.ExpiredPeerIds(now);
    assert ids == ExpiredIds(w.rows, now) by {
      assert forall id :: id in ids <==> id in ExpiredIds(w.rows, now);
    }
    hide ExpiredIds, DeleteExpired, AsU16;
    RemoveListed(server, ids, stuck);
    var _ := table.CleanupExpired(cutoff);
  }
}
