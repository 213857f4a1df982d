/** The table `worker_socks5_configs`, its statements and the allocation of SOCKS5 leases
    (`db/socks5.rs`, `allocate_socks5`). The rows are kept in the order of their ids, which is the
    order every query uses; a row's rank is its position. */
module Socks5Table {
  import opened Wrappers

  datatype Credential = Credential(
    id: nat,
    ipAddress: string,
    port: int,
    username: string,
    password: string,
    available: bool,
    expiresAt: int)

  type Pool = seq<Credential>

  // ----- the statements -----

  /** SELECT ... WHERE available ORDER BY id: the ranks of the available rows. */
  function AvailableRanks(pool: Pool): seq<nat> {
    if pool == [] then []
    else
      var n := |pool| - 1;
      AvailableRanks(pool[..n]) + if pool[n].available then [n] else []
  }

  /** ... LIMIT slots. */
  function SharedRanks(pool: Pool, slots: nat): (shared: seq<nat>)
    ensures forall i :: 0 <= i < |shared| ==> shared[i] < |pool| && pool[shared[i]].available
  {
    RanksAscend(pool);
    var ranks := AvailableRanks(pool);
    if |ranks| <= slots then ranks else ranks[..slots]
  }

  /** ... LIMIT 1 OFFSET slots. */
  function ExclusiveRank(pool: Pool, slots: nat): (rank: Option<nat>)
    ensures rank.Some? ==> rank.value < |pool| && pool[rank.value].available
  {
    RanksAscend(pool);
    var ranks := AvailableRanks(pool);
    if slots < |ranks| then Some(ranks[slots]) else None
  }

  /** SELECT COUNT(*) ... OFFSET skip. */
  function CountAvailable(pool: Pool, skip: nat): nat {
    var ranks := AvailableRanks(pool);
    if skip <= |ranks| then |ranks[skip..]| else 0
  }

  function UpdateWhere(pool: Pool, where: Credential -> bool, update: Credential -> Credential): (after: Pool)
    ensures |after| == |pool|
    ensures forall i :: 0 <= i < |pool| ==> after[i] == if where(pool[i]) then update(pool[i]) else pool[i]
  {
    if pool == [] then []
    else [if where(pool[0]) then update(pool[0]) else pool[0]] + UpdateWhere(pool[1..], where, update)
  }

  function Touch(pool: Pool, username: string, expiresAt: int): Pool {
    UpdateWhere(pool, (c: Credential) => c.username == username, (c: Credential) => c.(expiresAt := expiresAt))
  }

  function MarkTaken(pool: Pool, username: string, password: string, expiresAt: int): Pool {
    UpdateWhere(pool, (c: Credential) => c.username == username && c.password == password,
                (c: Credential) => c.(available := false, expiresAt := expiresAt))
  }

  predicate ExtendableRow(c: Credential, username: string, expected: int, now: int) {
    c.username == username && c.expiresAt == expected && c.expiresAt > now
  }

  function Extend(pool: Pool, username: string, expected: int, renewed: int, now: int): Pool {
    UpdateWhere(pool, (c: Credential) => ExtendableRow(c, username, expected, now),
        (c: Credential) => c.(expiresAt := renewed))
  }

  function FreeExpired(pool: Pool, now: int): Pool {
    UpdateWhere(pool, (c: Credential) => 0 < c.expiresAt <= now,
        (c: Credential) => c.(available := true, expiresAt := 0))
  }

  function Find(pool: Pool, username: string): Option<Credential> {
    if pool == [] then None
    else if pool[0].username == username then Some(pool[0])
    else Find(pool[1..], username)
  }

  /** INSERT ... ON CONFLICT (username) DO UPDATE SET password: the table and its next id. */
  function Upsert(pool: Pool, nextId: nat, c: Credential): (Pool, nat) {
    if Find(pool, c.username).Some?
    then (UpdateWhere(pool, (d: Credential) => d.username == c.username,
        (d: Credential) => d.(password := c.password)), nextId)
    else (pool + [c.(id := nextId)], nextId + 1)
  }

  function UpsertAll(pool: Pool, nextId: nat, socks: seq<Credential>): (Pool, nat) {
    if socks == [] then (pool, nextId)
    else
      var (p, n) := UpsertAll(pool, nextId, socks[..|socks| - 1]);
      Upsert(p, n, socks[|socks| - 1])
  }

  function Usernames(socks: seq<Credential>): set<string> { set c | c in socks :: c.username }

  /** DELETE ... WHERE username NOT IN names. */
  function DeleteOthers(pool: Pool, names: set<string>): Pool {
    if pool == [] then []
    else (if pool[0].username in names then [pool[0]] else []) + DeleteOthers(pool[1..], names)
  }

  /** Writing an empty batch does nothing. */
  function Write(pool: Pool, nextId: nat, socks: seq<Credential>): (Pool, nat) {
    if socks == [] then (pool, nextId)
    else
      var (p, n) := UpsertAll(pool, nextId, socks);
      (DeleteOthers(p, Usernames(socks)), n)
  }

  // ----- ranks -----

  lemma {:induction false} RanksAscend(pool: Pool)
    ensures var ranks := AvailableRanks(pool);
            && |ranks| <= |pool|
            && (forall i :: 0 <= i < |ranks| ==> i <= ranks[i] < |pool| && pool[ranks[i]].available)
            && (forall i, j :: 0 <= i < j < |ranks| ==> ranks[i] < ranks[j])
            && (forall k :: 0 <= k < |pool| && pool[k].available ==> k in ranks)
  {
    if pool != [] {
      var n := |pool| - 1;
      var front, ranks := AvailableRanks(pool[..n]), AvailableRanks(pool);
      RanksAscend(pool[..n]);
      assert ranks == front + if pool[n].available then [n] else [];
      hide AvailableRanks;
      forall k | 0 <= k < |pool| && pool[k].available ensures k in ranks {
        assert k < n ==> pool[..n][k] == pool[k] && k in front;
        assert k == n ==> ranks[|front|] == n;
      }
    }
  }

  /** The rows below rank `slots` are all available. */
  predicate SharedIntact(pool: Pool, slots: nat) {
    forall i :: 0 <= i < |pool| && i < slots ==> pool[i].available
  }

  lemma {:induction false} SharedRanksAreFirst(pool: Pool, slots: nat)
    requires SharedIntact(pool, slots)
    ensures var ranks := AvailableRanks(pool);
            && (forall i :: 0 <= i < |ranks| && i < slots ==> ranks[i] == i)
            && (|pool| <= slots ==> |ranks| == |pool|)
            && (|pool| > slots ==> |ranks| >= slots)
            && (forall i :: slots <= i < |ranks| ==> ranks[i] >= slots)
  {
    if pool != [] {
      SharedRanksAreFirst(pool[..|pool| - 1], slots);
    }
  }

  /** With the shared rows intact the two queries never meet: the shared query answers exactly the
      ranks below `slots`, the exclusive one the least available rank from `slots` on, if any. */
  lemma QueriesAreDisjoint(pool: Pool, slots: nat)
    requires SharedIntact(pool, slots)
    ensures |SharedRanks(pool, slots)| == if |pool| < slots then |pool| else slots
    ensures forall i :: 0 <= i < |SharedRanks(pool, slots)| ==> SharedRanks(pool, slots)[i] == i
    ensures match ExclusiveRank(pool, slots)
            case Some(k) => slots <= k < |pool| && pool[k].available && forall i :: slots <= i < k ==>
                !pool[i].available
            case None => forall i :: slots <= i < |pool| ==> !pool[i].available
  {
    RanksAscend(pool);
    SharedRanksAreFirst(pool, slots);
    var ranks := AvailableRanks(pool);
    forall i | slots <= i < |pool| && pool[i].available ensures slots < |ranks| && ranks[slots] <= i {
      var j :| 0 <= j < |ranks| && ranks[j] == i;
    }
  }

  // ----- the queries on any table -----

  /** How many of the first `k` rows are available. */
  function CountBelow(pool: Pool, k: nat): nat
    requires k <= |pool|
  {
    if k == 0 then 0 else CountBelow(pool, k - 1) + if pool[k - 1].available then 1 else 0
  }

  lemma {:induction false} CountBelowPrefix(pool: Pool, n: nat, k: nat)
    requires k <= n <= |pool|
    ensures CountBelow(pool[..n], k) == CountBelow(pool, k)
    decreases k
  {
    if k > 0 { CountBelowPrefix(pool, n, k - 1); }
  }

  /** The place of a row in the order of the available rows is the number of available rows before it. */
  lemma {:induction false} RankPositions(pool: Pool)
    ensures var ranks := AvailableRanks(pool);
            && |ranks| == CountBelow(pool, |pool|)
            && forall j :: 0 <= j < |ranks| ==> ranks[j] < |pool| && CountBelow(pool, ranks[j]) == j
    decreases |pool|
  {
    if pool != [] {
      var n := |pool| - 1;
      RankPositions(pool[..n]);
      RanksAscend(pool[..n]);
      CountBelowPrefix(pool, n, n);
      forall k: nat | k < n ensures CountBelow(pool[..n], k) == CountBelow(pool, k) { CountBelowPrefix(pool, n, k); }
    }
  }

  /** On any table: the shared query answers exactly the available rows with fewer than `slots` available
      ones before them, the exclusive one the available row with `slots` before it, if there are more than
      `slots`, and the count is how many there are beyond `slots`. */
  lemma QueriesMeaning(pool: Pool, slots: nat)
    ensures forall k: nat :: k in SharedRanks(pool, slots) <==>
              k < |pool| && pool[k].available && CountBelow(pool, k) < slots
    ensures match ExclusiveRank(pool, slots)
            case Some(k) => k < |pool| && pool[k].available && CountBelow(pool, k) == slots
            case None => CountBelow(pool, |pool|) <= slots
    ensures CountBelow(pool, |pool|) <= slots ==> ExclusiveRank(pool, slots) == None
    ensures CountAvailable(pool, slots)
         == if slots <= CountBelow(pool, |pool|) then CountBelow(pool, |pool|) - slots else 0
  {
    RanksAscend(pool);
    RankPositions(pool);
    SharedMeaning(pool, slots);
    hide CountBelow, SharedRanks;
  }

  lemma SharedMeaning(pool: Pool, slots: nat)
    ensures forall k: nat :: k in SharedRanks(pool, slots) <==>
              k < |pool| && pool[k].available && CountBelow(pool, k) < slots
  {
    RanksAscend(pool);
    RankPositions(pool);
    var ranks, shared := AvailableRanks(pool), SharedRanks(pool, slots);
    hide CountBelow, AvailableRanks;
    forall k: nat ensures k in shared <==> k < |pool| && pool[k].available && CountBelow(pool, k) < slots {
      if k < |pool| && pool[k].available {
        var j :| 0 <= j < |ranks| && ranks[j] == k;
        if j < slots { assert shared[j] == k; }
      }
    }
  }

  // ----- supply -----

  function TakenRanks(pool: Pool): seq<nat> {
    if pool == [] then []
    else
      var n := |pool| - 1;
      TakenRanks(pool[..n]) + if pool[n].available then [] else [n]
  }

  lemma {:induction false} EveryRowCounts(pool: Pool)
    ensures |AvailableRanks(pool)| + |TakenRanks(pool)| == |pool|
  {
    if pool != [] {
      EveryRowCounts(pool[..|pool| - 1]);
    }
  }

  /** What every run keeps of the rows: those below rank `slots` are available, and the others are
      available exactly when they carry no expiry. */
  predicate RanksOk(pool: Pool, slots: nat) {
    && SharedIntact(pool, slots)
    && (forall i :: slots <= i < |pool| ==> (pool[i].available <==> pool[i].expiresAt == 0) && pool[i].expiresAt >= 0)
  }

  /** Available and taken rows make up the table; at most N - P are taken; the count the pre-check
      makes is what the shared pool leaves over, and it is positive exactly when the exclusive query
      will find a row. */
  lemma {:induction false} SupplyIsConserved(pool: Pool, slots: nat)
    requires SharedIntact(pool, slots)
    ensures |AvailableRanks(pool)| + |TakenRanks(pool)| == |pool|
    ensures |TakenRanks(pool)| <= if slots <= |pool| then |pool| - slots else 0
    ensures CountAvailable(pool, slots) == if slots <= |AvailableRanks(pool)| then |AvailableRanks(pool)| - slots else 0
    ensures CountAvailable(pool, slots) > 0 <==> ExclusiveRank(pool, slots).Some?
    ensures CountAvailable(pool, slots) > 0 <==> exists i :: slots <= i < |pool| && pool[i].available
  {
    EveryRowCounts(pool);
    SharedRanksAreFirst(pool, slots);
    QueriesAreDisjoint(pool, slots);
  }

  // ----- allocation -----

  function TakeAt(pool: Pool, rank: nat, expiresAt: int): (Pool, Result<Credential, AppError>)
    requires rank < |pool|
  {
    (MarkTaken(pool, pool[rank].username, pool[rank].password, expiresAt), Ok(pool[rank]))
  }

  /** Two rows are the same credential, whatever their state. */
  predicate SameCredential(c: Credential, d: Credential) {
    c.id == d.id && c.ipAddress == d.ipAddress && c.port == d.port && c.username == d.username
        && c.password == d.password
  }

  /** The body run under the lock "get_socks5_config". */
  function TakeExclusive(pool: Pool, slots: nat, expiresAt: int, now: int): (Pool, Result<Credential, AppError>) {
    match ExclusiveRank(pool, slots)
    case Some(k) => TakeAt(pool, k, expiresAt)
    case None =>
      var freed := FreeExpired(pool, now);
      match ExclusiveRank(freed, slots)
      case Some(k) => TakeAt(freed, k, expiresAt)
      case None => (freed, Err(LeaseUnavailable))
  }

  /** A non-priority request: the pre-check, with its own cleanup, then the allocation. */
  function RequestExclusive(pool: Pool, slots: nat, expiresAt: int, now: int): (Pool, Result<Credential, AppError>) {
    if CountAvailable(pool, slots) > 0 then TakeExclusive(pool, slots, expiresAt, now)
    else
      var freed := FreeExpired(pool, now);
      if CountAvailable(freed, slots) == 0 then (freed, Err(LeaseUnavailable))
      else TakeExclusive(freed, slots, expiresAt, now)
  }

  predicate UsernamesDistinct(pool: Pool) {
    forall i, j :: 0 <= i < j < |pool| ==> pool[i].username != pool[j].username
  }

  lemma FreeExpiredKeepsRanksOk(pool: Pool, slots: nat, now: int)
    requires RanksOk(pool, slots)
    ensures RanksOk(FreeExpired(pool, now), slots)
    ensures UsernamesDistinct(pool) ==> UsernamesDistinct(FreeExpired(pool, now))
  {
  }

  /** Row `k` of `base`, free there, was taken and nothing else changed. */
  predicate TookFrom(base: Pool, after: Pool, k: nat, expiresAt: int) {
    k < |base| && base[k].available && after == base[k := base[k].(available := false, expiresAt := expiresAt)]
  }

  /** An exclusive row was taken whose expiry, if it had one, had come. */
  predicate Took(pool: Pool, after: Pool, slots: nat, k: nat, expiresAt: int, now: int) {
    && slots <= k < |pool| && pool[k].expiresAt <= now
    && (TookFrom(pool, after, k, expiresAt) || TookFrom(FreeExpired(pool, now), after, k, expiresAt))
  }

  /** A non-priority request fails exactly when every row from rank `slots` on, if there is one,
      carries an expiry that has not come; otherwise it takes one row of such a rank, which was free
      or had run out, and changes nothing else but freeing rows that had run out. */
  lemma RequestExclusiveMeaning(pool: Pool, slots: nat, expiresAt: int, now: int)
    requires RanksOk(pool, slots) && UsernamesDistinct(pool) && now >= 0 && expiresAt > 0
    ensures var (after, result) := RequestExclusive(pool, slots, expiresAt, now);
            && RanksOk(after, slots)
            && (result.Err? <==> forall i :: slots <= i < |pool| ==> pool[i].expiresAt > now)
            && (result.Ok? ==> exists k: nat ::
                  && Took(pool, after, slots, k, expiresAt, now)
                  && SameCredential(result.value, pool[k]) && SameCredential(after[k], pool[k]))
  {
    var base := RequestBase(pool, slots, now);
    RequestExclusiveCases(pool, slots, expiresAt, now);
    BaseHasRunOutRows(pool, slots, now);
    hide RequestExclusive, RequestBase, AvailableRanks, ExclusiveRank, MarkTaken, FreeExpired;
    match ExclusiveRank(base, slots)
    case None =>
    case Some(k) =>
      MarkTakenAt(base, k, expiresAt);
      TakenKeepsRanksOk(base, slots, k, expiresAt);
      var after := TakeAt(base, k, expiresAt).0;
      assert TookFrom(base, after, k, expiresAt);
      assert Took(pool, after, slots, k, expiresAt, now);
  }

  /** On any table the locked body takes the available row with `slots` available ones before it, in the
      table as it is or, failing that, with the expired rows freed, and returns that row; it fails when
      neither has one. */
  lemma TakeExclusiveMeaning(pool: Pool, slots: nat, expiresAt: int, now: int)
    requires UsernamesDistinct(pool)
    ensures var (after, result) := TakeExclusive(pool, slots, expiresAt, now);
            var base := if CountBelow(pool, |pool|) > slots then pool else FreeExpired(pool, now);
            match result
            case Err(e) => e == LeaseUnavailable && after == base && CountBelow(base, |base|) <= slots
            case Ok(c) => exists k: nat :: IsTaken(base, after, slots, k, expiresAt, c)
  {
    var base := if CountBelow(pool, |pool|) > slots then pool else FreeExpired(pool, now);
    TakeExclusiveCases(pool, slots, expiresAt, now);
    QueriesMeaning(base, slots);
    FreedNamesDistinct(pool, now);
    hide TakeExclusive, FreeExpired, ExclusiveRank, MarkTaken, CountBelow, UsernamesDistinct, SharedRanks,
        CountAvailable;
    match ExclusiveRank(base, slots)
    case None =>
    case Some(k) =>
      MarkTakenAt(base, k, expiresAt);
      assert IsTaken(base, TakeAt(base, k, expiresAt).0, slots, k, expiresAt, base[k]);
  }

  lemma FreedNamesDistinct(pool: Pool, now: int)
    requires UsernamesDistinct(pool)
    ensures UsernamesDistinct(FreeExpired(pool, now))
  {
  }

  lemma TakeExclusiveCases(pool: Pool, slots: nat, expiresAt: int, now: int)
    ensures var base := if CountBelow(pool, |pool|) > slots then pool else FreeExpired(pool, now);
            TakeExclusive(pool, slots, expiresAt, now)
            == match ExclusiveRank(base, slots)
               case Some(k) => TakeAt(base, k, expiresAt)
               case None => (base, Err(LeaseUnavailable))
  {
    QueriesMeaning(pool, slots);
    hide TakeAt, FreeExpired, ExclusiveRank, CountBelow, SharedRanks, CountAvailable;
  }

  predicate IsTaken(base: Pool, after: Pool, slots: nat, k: nat, expiresAt: int, c: Credential) {
    && k < |base| && base[k].available && CountBelow(base, k) == slots && c == base[k]
    && after == base[k := c.(available := false, expiresAt := expiresAt)]
  }

  /** The rows the exclusive query finally runs on. */
  function RequestBase(pool: Pool, slots: nat, now: int): Pool {
    if CountAvailable(pool, slots) > 0 then pool else FreeExpired(pool, now)
  }

  lemma BaseHasRunOutRows(pool: Pool, slots: nat, now: int)
    requires RanksOk(pool, slots) && UsernamesDistinct(pool) && now >= 0
    ensures var base := RequestBase(pool, slots, now);
            && (base == pool || base == FreeExpired(pool, now)) && |base| == |pool|
            && RanksOk(base, slots) && UsernamesDistinct(base)
            && (forall i :: 0 <= i < |pool| ==> SameCredential(base[i], pool[i]))
            && match ExclusiveRank(base, slots)
               case Some(k) => slots <= k < |pool| && pool[k].expiresAt <= now
               case None => base == FreeExpired(pool, now) && forall i :: slots <= i < |pool| ==>
                   pool[i].expiresAt > now
  {
    var freed := FreeExpired(pool, now);
    var base := RequestBase(pool, slots, now);
    FreeExpiredKeepsRanksOk(pool, slots, now);
    SupplyIsConserved(pool, slots);
    SupplyIsConserved(freed, slots);
    QueriesAreDisjoint(base, slots);
    if ExclusiveRank(base, slots).None? {
      forall i | slots <= i < |pool| ensures pool[i].expiresAt > now { assert !freed[i].available; }
    }
  }

  lemma RequestExclusiveCases(pool: Pool, slots: nat, expiresAt: int, now: int)
    requires SharedIntact(pool, slots)
    ensures var base := RequestBase(pool, slots, now);
            RequestExclusive(pool, slots, expiresAt, now) ==
              match ExclusiveRank(base, slots)
              case Some(k) => TakeAt(base, k, expiresAt)
              case None => (FreeExpired(pool, now), Err(LeaseUnavailable))
  {
    SupplyIsConserved(pool, slots);
    SupplyIsConserved(FreeExpired(pool, now), slots);
  }

  lemma MarkTakenAt(base: Pool, k: nat, expiresAt: int)
    requires UsernamesDistinct(base) && k < |base|
    ensures TakeAt(base, k, expiresAt).0 == base[k := base[k].(available := false, expiresAt := expiresAt)]
  {
  }

  lemma TakenKeepsRanksOk(base: Pool, slots: nat, k: nat, expiresAt: int)
    requires RanksOk(base, slots) && slots <= k < |base| && expiresAt > 0
    ensures RanksOk(base[k := base[k].(available := false, expiresAt := expiresAt)], slots)
  {
  }

  // ----- the table object -----

  class CredentialTable {
    var pool: Pool
    var nextId: nat

    constructor ()
      ensures pool == [] && nextId == 1
    {
      pool, nextId := [], 1;
    }

    /** The shared pool: any of the first `slots` available rows, chosen by `choice`. */
    method GetShared(slots: nat, expiresAt: int, choice: nat) returns (result: Result<Credential, AppError>)
      modifies this`pool
      ensures var ranks := SharedRanks(old(pool), slots);
              if ranks == [] then result == Err(LeaseUnavailable) && pool == old(pool)
              else
                var k := ranks[choice % |ranks|];
                && k < |old(pool)| && result == Ok(old(pool)[k]) && |pool| == |old(pool)|
                && forall i :: 0 <= i < |pool| ==>
                     pool[i] == if old(pool)[i].username == old(pool)[k].username
                                then old(pool)[i].(expiresAt := expiresAt) else old(pool)[i]
    {
      var ranks := SharedRanks(pool, slots);
      if ranks == [] {
        return Err(LeaseUnavailable);
      }
      var config := pool[ranks[choice % |ranks|]];
      pool := Touch(pool, config.username, expiresAt);
      return Ok(config);
    }

    method GetExclusive(slots: nat, expiresAt: int, now: int) returns (result: Result<Credential, AppError>)
      modifies this`pool
      ensures (pool, result) == TakeExclusive(old(pool), slots, expiresAt, now)
    {
      var rank := ExclusiveRank(pool, slots);
      if rank.None? {
        CleanupExpired(now);
        rank := ExclusiveRank(pool, slots);
        if rank.None? {
          return Err(LeaseUnavailable);
        }
      }
      var config := pool[rank.value];
      pool := MarkTaken(pool, config.username, config.password, expiresAt);
      return Ok(config);
    }

    /** Rows whose expiry has come are free again; every other row, and what identifies a row, is
        unchanged. */
    method CleanupExpired(now: int)
      modifies this`pool
      ensures pool == FreeExpired(old(pool), now) && |pool| == |old(pool)|
      ensures forall i :: 0 <= i < |pool| ==>
                if 0 < old(pool)[i].expiresAt <= now
                then pool[i] == old(pool)[i].(available := true, expiresAt := 0)
                else pool[i] == old(pool)[i]
      ensures forall i :: 0 <= i < |pool| ==> pool[i].expiresAt <= 0 || pool[i].expiresAt > now
    {
      pool := FreeExpired(pool, now);
    }

    /** `allocate_socks5` for a non-priority request. */
    method AllocateExclusive(slots: nat, expiresAt: int, now: int) returns (result: Result<Credential, AppError>)
      modifies this`pool
      ensures (pool, result) == RequestExclusive(old(pool), slots, expiresAt, now)
    {
      var count := CountAvailable(pool, slots);
      if count == 0 {
        CleanupExpired(now);
        count := CountAvailable(pool, slots);
        if count == 0 {
          return Err(LeaseUnavailable);
        }
      }
      result := GetExclusive(slots, expiresAt, now);
    }

    method ExtendLease(username: string, expected: int, renewed: int, now: int) returns (result: Result<int, AppError>)
      modifies this`pool
      ensures pool == Extend(old(pool), username, expected, renewed, now) && |pool| == |old(pool)|
      ensures forall i :: 0 <= i < |pool| ==>
                var c := old(pool)[i];
                pool[i] == if c.username == username && c.expiresAt == expected && now < expected
                           then c.(expiresAt := renewed) else c
      ensures result.Ok? <==> exists c :: c in old(pool) && ExtendableRow(c, username, expected, now)
      ensures result == Ok(renewed) || result == Err(LeaseUnavailable)
    {
      var affected := exists c :: c in pool && ExtendableRow(c, username, expected, now);
      pool := Extend(pool, username, expected, renewed, now);
      return if affected then Ok(renewed) else Err(LeaseUnavailable);
    }

    method WriteSocks(socks: seq<Credential>)
      modifies this
      ensures (pool, nextId) == Write(old(pool), old(nextId), socks)
    {
      if socks == [] {
        return;
      }
      for i := 0 to |socks|
        invariant (pool, nextId) == UpsertAll(old(pool), old(nextId), socks[..i])
      {
        assert socks[..i + 1][..i] == socks[..i];
        var (p, n) := Upsert(pool, nextId, socks[i]);
        pool, nextId := p, n;
      }
      assert socks[..|socks|] == socks;
      pool := DeleteOthers(pool, Usernames(socks));
    }
  }
}
