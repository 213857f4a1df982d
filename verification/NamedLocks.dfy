/** Named mutexes created on demand (`sync/locks.rs`). */
module NamedLocks {
  import opened Wrappers

  // ----- what the locks promise -----

  /** `Enter`: task `t` asks for the lock; it waits no longer than its timeout, so a name that stays
      held costs it its turn. `Leave`: it drops its guard, whatever its body returned. */
  datatype Event = Enter(t: nat, name: string) | Leave(t: nat, name: string)

  /** Who holds which name. */
  type Owners = map<string, nat>

  function After(owners: Owners, e: Event): Owners {
    match e
    case Enter(t, name) => if name in owners then owners else owners[name := t]
    case Leave(t, name) => if name in owners && owners[name] == t then owners - {name} else owners
  }

  function Replay(events: seq<Event>): Owners
    decreases |events|
  {
    if events == [] then map[] else After(Replay(events[..|events| - 1]), events[|events| - 1])
  }

  function About(events: seq<Event>, name: string): seq<Event> {
    if events == [] then []
    else About(events[..|events| - 1], name) + if events[|events| - 1].name == name then [events[|events| - 1]] else []
  }

  function OwnerOf(owners: Owners, name: string): Option<nat> {
    if name in owners then Some(owners[name]) else None
  }

  /** Whether event `i` gave its task the lock. */
  predicate Granted(events: seq<Event>, i: nat)
    requires i < |events|
  {
    events[i].Enter? && events[i].name !in Replay(events[..i])
  }

  /** Locks of different names do not affect each other. */
  lemma {:induction false} NamesAreIndependent(events: seq<Event>, name: string)
    ensures OwnerOf(Replay(events), name) == OwnerOf(Replay(About(events, name)), name)
    decreases |events|
  {
    if events != [] {
      var init, e := events[..|events| - 1], events[|events| - 1];
      NamesAreIndependent(init, name);
      var mine := About(events, name);
      if e.name == name {
        assert mine[..|mine| - 1] == About(init, name);
      } else {
        assert mine == About(init, name);
      }
    }
  }

  /** After task `t` was granted `name`, and until it leaves, `t` is the owner. */
  lemma {:induction false} OwnerStays(events: seq<Event>, i: nat, n: nat)
    requires i < n <= |events| && Granted(events, i)
    requires forall k :: i < k < n ==> events[k] != Leave(events[i].t, events[i].name)
    ensures OwnerOf(Replay(events[..n]), events[i].name) == Some(events[i].t)
    decreases n
  {
    assert events[..n][..n - 1] == events[..n - 1];
    if i < n - 1 {
      OwnerStays(events, i, n - 1);
    }
  }

  /** Turns on one name never overlap: between two grants the first holder has left. */
  lemma TurnsDoNotOverlap(events: seq<Event>, i: nat, j: nat)
    requires i < j < |events| && Granted(events, i) && Granted(events, j) && events[i].name == events[j].name
    ensures exists k :: i < k < j && events[k] == Leave(events[i].t, events[i].name)
  {
    if forall k :: i < k < j ==> events[k] != Leave(events[i].t, events[i].name) {
      OwnerStays(events, i, j);
    }
  }

  lemma SameOwners(m: Owners, n: Owners)
    requires forall name :: OwnerOf(m, name) == OwnerOf(n, name)
    ensures m == n
  {
    assert forall name :: name in m <==> OwnerOf(m, name).Some?;
    assert forall name :: name in n <==> OwnerOf(n, name).Some?;
  }

  // ----- the manager -----

  class Mutex {
    var owner: Option<nat>

    constructor ()
      ensures owner == None
    {
      owner := None;
    }
  }

  class NamedLockManager {
    var locks: map<string, Mutex>

    /** Two names never share a mutex. */
    ghost predicate Valid()
      reads this
    {
      forall a, b :: a in locks && b in locks && locks[a] == locks[b] ==> a == b
    }

    function Owners(): (owners: Owners)
      reads this, locks.Values
      ensures forall name :: OwnerOf(owners, name) == if name in locks then locks[name].owner else None
    {
      map name | name in locks && locks[name].owner.Some? :: locks[name].owner.value
    }

    constructor ()
      ensures Valid() && Owners() == map[]
    {
      locks := map[];
    }

    /** Always the same mutex for the same name. */
    method GetLock(name: string) returns (mutex: Mutex)
      requires Valid()
      modifies this`locks
      ensures Valid() && Owners() == old(Owners())
      ensures locks == old(locks)[name := mutex]
      ensures if name in old(locks) then mutex == old(locks)[name] else fresh(mutex) && mutex.owner == None
    {
      if name !in locks {
        mutex := new Mutex();
        assert forall a :: a in locks ==> locks[a] != mutex;
        locks := locks[name := mutex];
      }
      mutex := locks[name];
    }

    /** Waiting for the lock of `name` up to the timeout; `Err` leaves every lock as it was. */
    method Acquire(t: nat, name: string) returns (result: Result<Mutex, AppError>)
      requires Valid()
      modifies this`locks, locks.Values
      ensures Valid() && Owners() == After(old(Owners()), Enter(t, name))
      ensures result.Ok? <==> name !in old(Owners())
      ensures result.Ok? ==> name in locks && result.value == locks[name]
      ensures fresh(locks.Values - old(locks.Values))
    {
      var mutex := GetLock(name);
      if mutex.owner.Some? {
        return Err(Internal);
      }
      ghost var before := Owners();
      assert name !in before by { assert OwnerOf(before, name) == None; }
      assert forall a :: a in locks && a != name ==> locks[a] != mutex;
      mutex.owner := Some(t);
      SameOwners(Owners(), before[name := t]);
      return Ok(mutex);
    }

    /** Dropping the guard. */
    method Release(t: nat, name: string)
      requires Valid() && OwnerOf(Owners(), name) == Some(t)
      modifies locks.Values
      ensures locks == old(locks) && Owners() == After(old(Owners()), Leave(t, name))
    {
      ghost var before := Owners();
      assert forall a :: a in locks && a != name ==> locks[a] != locks[name];
      locks[name].owner := None;
      SameOwners(Owners(), before - {name});
    }

    /** `with_lock` around a body with the given outcome: the lock is free again after `Ok` and `Err`
        alike, and a body that never got the lock has no outcome. */
    method WithLock<T>(t: nat, name: string, outcome: Result<T, AppError>) returns (result: Result<T, AppError>)
      requires Valid()
      modifies this`locks, locks.Values
      ensures Valid() && Owners() == old(Owners())
      ensures if name in old(Owners()) then result.Err? && result.error.Internal? else result == outcome
    {
      var guard := Acquire(t, name);
      if guard.Err? {
        return Err(Internal);
      }
      Release(t, name);
      assert Owners() == old(Owners());
      return outcome;
    }

    method IsLocked(name: string) returns (locked: bool)
      ensures locked <==> name in Owners()
    {
      assert OwnerOf(Owners(), name) == if name in locks then locks[name].owner else None;
      return name in locks && locks[name].owner.Some?;
    }
  }
}
