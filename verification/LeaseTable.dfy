/** The table `worker_wireguard_configs` and the statements of `db/wireguard.rs` on it.
    Each SQL statement is one atomic function of the rows; clock readings are parameters. */
module LeaseTable {
  import opened Wrappers

  datatype Row = Row(
    expiresAt: int,
    privateKey: Option<string>,
    publicKey: Option<string>,
    presharedKey: Option<string>,
    allowedIp: Option<string>)

  type Rows = map<int, Row>

  datatype Lease = Lease(peerId: int, expiresAt: int)

  // ----- the statements -----

  /** The recursive enumeration `id, id + 1, ..., end`, cut at the first id that has no row. */
  function FirstFree(rows: Rows, id: int, end: int): Option<int>
    decreases end - id
  {
    if id !in rows then Some(id)
    else if id < end then FirstFree(rows, id + 1, end)
    else None
  }

  /** INSERT ... ON CONFLICT (id) DO UPDATE: a conflicting row keeps its keys. */
  function Upsert(rows: Rows, id: int, expiresAt: int): Rows {
    rows[id := if id in rows then rows[id].(expiresAt := expiresAt) else Row(expiresAt, None, None, None, None)]
  }

  predicate Extendable(rows: Rows, id: int, expected: int, now: int) {
    id in rows && rows[id].expiresAt == expected && rows[id].expiresAt > now
  }

  function Extend(rows: Rows, id: int, expected: int, renewed: int, now: int): Rows {
    if Extendable(rows, id, expected, now) then rows[id := rows[id].(expiresAt := renewed)] else rows
  }

  function DeleteIf(rows: Rows, id: int, expected: Option<int>): Rows {
    if id in rows && (expected.None? || rows[id].expiresAt == expected.value) then rows - {id} else rows
  }

  function DeleteExpired(rows: Rows, cutoff: int): Rows {
    map id | id in rows && rows[id].expiresAt >= cutoff :: rows[id]
  }

  function ExpiredIds(rows: Rows, now: int): set<int> {
    set id | id in rows && rows[id].expiresAt < now
  }

  function StoreKeys(
      rows: Rows, id: int, privateKey: string, publicKey: string, presharedKey: string, allowedIp: string): Rows {
    if id in rows
    then rows[id := Row(rows[id].expiresAt, Some(privateKey), Some(publicKey), Some(presharedKey), Some(allowedIp))]
    else rows
  }

  lemma CountWithout(rows: Rows, ids: set<int>)
    requires ids <= rows.Keys
    ensures |rows - ids| == |rows| - |ids|
  {
    assert (rows - ids).Keys == rows.Keys - ids;
    assert |rows| == |rows.Keys| && |rows - ids| == |(rows - ids).Keys|;
  }

  // ----- first fit -----

  /** The enumeration finds the least free id, and finds none exactly when every id has a row. */
  lemma {:induction false} FirstFreeIsLeast(rows: Rows, start: int, end: int)
    requires start <= end
    ensures match FirstFree(rows, start, end)
            case Some(id) => start <= id <= end && id !in rows && forall k :: start <= k < id ==> k in rows
            case None => forall k :: start <= k <= end ==> k in rows
    decreases end - start
  {
    if start in rows && start < end {
      FirstFreeIsLeast(rows, start + 1, end);
    }
  }

  /** Registering a lease: try, else purge what is expired at `now` and try again. */
  function Register(rows: Rows, start: int, end: int, expiresAt: int, now: int): (Rows, Result<Lease, AppError>) {
    match FirstFree(rows, start, end)
    case Some(id) => (Upsert(rows, id, expiresAt), Ok(Lease(id, expiresAt)))
    case None =>
      var purged := DeleteExpired(rows, now);
      match FirstFree(purged, start, end)
      case Some(id) => (Upsert(purged, id, expiresAt), Ok(Lease(id, expiresAt)))
      case None => (purged, Err(LeaseUnavailable))
  }

  ghost predicate AllHeld(rows: Rows, start: int, end: int, now: int) {
    forall id :: start <= id <= end ==> id in rows && rows[id].expiresAt >= now
  }

  /** Registration is refused exactly when every id of the range is held by a row that has not
      expired. Otherwise one bare row is added, at the least id that was free, or when none was,
      at the least id whose row had expired; nothing else changes but the purge of expired rows. */
  lemma RegisterIsFirstFit(rows: Rows, start: int, end: int, expiresAt: int, now: int)
    requires start <= end
    ensures var (after, result) := Register(rows, start, end, expiresAt, now);
            && (result.Err? <==> AllHeld(rows, start, end, now))
            && (result.Err? ==> result.error == LeaseUnavailable && after == DeleteExpired(rows, now))
            && (result.Ok? ==>
                  var id := result.value.peerId;
                  var full := forall k :: start <= k <= end ==> k in rows;
                  var before := if full then DeleteExpired(rows, now) else rows;
                  && start <= id <= end && result.value.expiresAt == expiresAt
                  && (id in rows ==> full && rows[id].expiresAt < now)
                  && (forall k :: start <= k < id ==> k in rows && (full ==> rows[k].expiresAt >= now))
                  && id !in before && after == before[id := Row(expiresAt, None, None, None, None)])
  {
    FirstFreeIsLeast(rows, start, end);
    var purged := DeleteExpired(rows, now);
    FirstFreeIsLeast(purged, start, end);
    match FirstFree(rows, start, end)
    case Some(id) => assert id !in rows;
    case None =>
      match FirstFree(purged, start, end)
      case Some(id) =>
        assert id in rows && id !in purged;
        forall k | start <= k < id ensures k in rows && rows[k].expiresAt >= now { assert k in purged; }
      case None =>
        forall k | start <= k <= end ensures k in rows && rows[k].expiresAt >= now { assert k in purged; }
  }

  // ----- the table object -----

  class ConfigTable {
    var rows: Rows

    constructor ()
      ensures rows == map[]
    {
      rows := map[];
    }

    method TryAllocate(start: int, end: int, expiresAt: int) returns (lease: Option<Lease>)
      modifies this`rows
      ensures match FirstFree(old(rows), start, end)
              case Some(id) => lease == Some(Lease(id, expiresAt)) && rows == Upsert(old(rows), id, expiresAt)
              case None => lease == None && rows == old(rows)
    {
      var available := FirstFree(rows, start, end);
      if available.None? {
        return None;
      }
      rows := Upsert(rows, available.value, expiresAt);
      return Some(Lease(available.value, expiresAt));
    }

    method CleanupExpired(now: int) returns (count: nat)
      modifies this`rows
      ensures rows == DeleteExpired(old(rows), now)
      ensures forall id :: id in rows <==> id in old(rows) && old(rows)[id].expiresAt >= now
      ensures forall id :: id in rows ==> rows[id] == old(rows)[id]
      ensures count == |old(rows)| - |rows|
    {
      var expired := ExpiredIds(rows, now);
      count := |expired|;
      CountWithout(rows, expired);
      rows := rows - expired;
    }

    /** The body run under the named lock. */
    method RegisterLease(start: int, end: int, expiresAt: int, now: int) returns (result: Result<Lease, AppError>)
      modifies this`rows
      ensures (rows, result) == Register(old(rows), start, end, expiresAt, now)
    {
      var lease := TryAllocate(start, end, expiresAt);
      if lease.Some? {
        return Ok(lease.value);
      }
      var _ := CleanupExpired(now);
      lease := TryAllocate(start, end, expiresAt);
      if lease.Some? {
        return Ok(lease.value);
      }
      return Err(LeaseUnavailable);
    }

    method ExtendLease(peerId: int, expected: int, renewed: int, now: int) returns (result: Result<Lease, AppError>)
      modifies this`rows
      ensures rows == Extend(old(rows), peerId, expected, renewed, now)
      ensures result == if Extendable(old(rows), peerId, expected, now)
                        then Ok(Lease(peerId, renewed)) else Err(LeaseUnavailable)
    {
      if peerId in rows && rows[peerId].expiresAt == expected && rows[peerId].expiresAt > now {
        rows := rows[peerId := rows[peerId].(expiresAt := renewed)];
        return Ok(Lease(peerId, renewed));
      }
      return Err(LeaseUnavailable);
    }

    /** With an expected expiry, a row that was reallocated or extended meanwhile survives. */
    method MarkConfigAsFree(peerId: int, expected: Option<int>)
      modifies this`rows
      ensures rows == DeleteIf(old(rows), peerId, expected)
      ensures peerId in rows <==>
                peerId in old(rows) && expected.Some? && old(rows)[peerId].expiresAt != expected.value
      ensures forall id :: id != peerId ==> (id in rows <==> id in old(rows))
      ensures forall id :: id in rows ==> rows[id] == old(rows)[id]
    {
      if expected.None? {
        rows := rows - {peerId};
      } else if peerId in rows && rows[peerId].expiresAt == expected.value {
        rows := rows - {peerId};
      }
    }

    /** The ids of the rows whose expiry is strictly past. */
    method ExpiredPeerIds(now: int) returns (ids: set<int>)
      ensures forall id :: id in ids <==> id in rows && rows[id].expiresAt < now
    {
      ids := ExpiredIds(rows, now);
    }
  }
}
