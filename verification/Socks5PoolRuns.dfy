/** Building runs of the SOCKS5 pools, a request or a statement at a time. */
module Socks5PoolRuns {
  import opened Wrappers
  import opened Socks5Table
  import opened Socks5Pool
  import opened Socks5PoolProofs

  ghost predicate Reaches(slots: nat, s: State, s': State) {
    exists actions :: Run(slots, s, actions) == s'
  }

  lemma Reached(slots: nat, s: State, s': State)
    requires Reaches(slots, s, s')
    ensures exists actions :: Run(slots, s, actions) == s' && Run(slots, s, actions).data.log == s'.data.log
  {
    var actions :| Run(slots, s, actions) == s';
  }

  lemma Start(slots: nat, s: State)
    ensures Reaches(slots, s, s)
  {
    assert Run(slots, s, []) == s;
  }

  lemma Next(slots: nat, s0: State, s: State, a: Action)
    requires Reaches(slots, s0, s)
    ensures Reaches(slots, s0, Step(slots, s, a))
  {
    var actions :| Run(slots, s0, actions) == s;
    assert (actions + [a])[..|actions|] == actions;
    assert Run(slots, s0, actions + [a]) == Step(slots, s, a);
  }

  /** The state where task `t` is at `task` and the others are as in `tasks`. */
  function At(d: Data, tasks: map<nat, Task>, t: nat, task: Task): State { State(d, tasks[t := task]) }

  lemma NextOf(
      slots: nat, s0: State, d: Data, tasks: map<nat, Task>, t: nat, task: Task, a: Action, d': Data, task': Task)
    requires Reaches(slots, s0, At(d, tasks, t, task)) && !a.Tick? && !a.Restart? && a.t == t
    requires TaskStep(slots, d, t, task, a) == (d', task')
    ensures Reaches(slots, s0, At(d', tasks, t, task'))
  {
    assert Step(slots, At(d, tasks, t, task), a) == At(d', tasks, t, task') by {
      hide TaskStep;
      assert tasks[t := task][t := task'] == tasks[t := task'];
    }
    hide Step, TaskStep, At;
    Next(slots, s0, At(d, tasks, t, task), a);
  }

  lemma Wait(slots: nat, s0: State, d: Data, tasks: map<nat, Task>, ms: nat)
    requires Reaches(slots, s0, State(d, tasks))
    ensures Reaches(slots, s0, State(d.(now := d.now + ms), tasks))
  {
    Next(slots, s0, State(d, tasks), Tick(ms));
  }

  lemma RequestStarts(slots: nat, s0: State, d: Data, tasks: map<nat, Task>, t: nat, seconds: int)
    requires Reaches(slots, s0, State(d, tasks)) && t !in tasks && seconds > 0
    ensures Reaches(slots, s0, At(d, tasks, t, Counting(d.now + seconds * 1000)))
  {
    hide TaskStep, Reaches;
    Next(slots, s0, State(d, tasks), Request(t, seconds));
  }

  /** A request that passes its pre-check. */
  lemma JoinQueue(slots: nat, s0: State, d: Data, tasks: map<nat, Task>, t: nat, seconds: int)
    requires Reaches(slots, s0, State(d, tasks)) && t !in tasks && seconds > 0 && CountAvailable(d.pool, slots) > 0
    ensures Reaches(slots, s0, At(d, tasks, t, Queued(d.now + seconds * 1000)))
  {
    hide Step, Reaches, At;
    RequestStarts(slots, s0, d, tasks, t, seconds);
    NextOf(slots, s0, d, tasks, t, Counting(d.now + seconds * 1000), Count(t), d, Queued(d.now + seconds * 1000));
  }

  /** A turn that finds row `k`. */
  lemma TurnTakes(slots: nat, s0: State, d: Data, tasks: map<nat, Task>, t: nat, e: int, k: nat)
    requires Reaches(slots, s0, At(d, tasks, t, Queued(e))) && d.lock == None && ExclusiveRank(d.pool, slots) == Some(k)
    ensures Reaches(slots, s0, At(MarkStep(d, e, k, d.pool[k].username, d.pool[k].password), tasks, t, Finished))
  {
    var l, c := d.(lock := Some(t)), d.pool[k];
    hide Reaches, Step, At, ExclusiveRank;
    NextOf(slots, s0, d, tasks, t, Queued(e), Acquire(t), l, Probing(e));
    NextOf(slots, s0, l, tasks, t, Probing(e), Select(t), l, Marking(e, k, c.username, c.password));
    TakeAndUnlock(slots, s0, d, tasks, t, e, k);
  }

  lemma TakeAndUnlock(slots: nat, s0: State, d: Data, tasks: map<nat, Task>, t: nat, e: int, k: nat)
    requires k < |d.pool| && d.lock == None
    requires Reaches(slots, s0, At(d.(lock := Some(t)), tasks, t,
             Marking(e, k, d.pool[k].username, d.pool[k].password)))
    ensures Reaches(slots, s0, At(MarkStep(d, e, k, d.pool[k].username, d.pool[k].password), tasks, t, Finished))
  {
    var l, c := d.(lock := Some(t)), d.pool[k];
    var m := MarkStep(l, e, k, c.username, c.password);
    hide Reaches, Step, At, MarkTaken;
    NextOf(slots, s0, l, tasks, t, Marking(e, k, c.username, c.password), Mark(t), m, Unlocking);
    NextOf(slots, s0, m, tasks, t, Unlocking, Unlock(t), m.(lock := None), Finished);
    assert m.(lock := None) == MarkStep(d, e, k, c.username, c.password);
  }

  /** A turn that finds nothing, frees the expired rows and then finds row `k`. */
  lemma TurnFreesAndTakes(slots: nat, s0: State, d: Data, tasks: map<nat, Task>, t: nat, e: int, k: nat)
    requires Reaches(slots, s0, At(d, tasks, t, Queued(e))) && d.lock == None && ExclusiveRank(d.pool, slots) == None
    requires ExclusiveRank(FreeExpired(d.pool, d.now), slots) == Some(k)
    ensures var freed := d.(pool := FreeExpired(d.pool, d.now));
            Reaches(slots, s0, At(MarkStep(freed, e, k, freed.pool[k].username, freed.pool[k].password), tasks, t,
                Finished))
  {
    var freed := d.(pool := FreeExpired(d.pool, d.now));
    var m, c := freed.(lock := Some(t)), freed.pool[k];
    hide Reaches, Step, At, ExclusiveRank, FreeExpired, MarkStep;
    TurnFrees(slots, s0, d, tasks, t, e);
    NextOf(slots, s0, m, tasks, t, Reprobing(e, d.now), Select(t), m, Marking(e, k, c.username, c.password));
    TakeAndUnlock(slots, s0, freed, tasks, t, e, k);
  }

  lemma TurnFrees(slots: nat, s0: State, d: Data, tasks: map<nat, Task>, t: nat, e: int)
    requires Reaches(slots, s0, At(d, tasks, t, Queued(e))) && d.lock == None && ExclusiveRank(d.pool, slots) == None
    ensures Reaches(slots, s0, At(d.(lock := Some(t), pool := FreeExpired(d.pool, d.now)), tasks, t,
            Reprobing(e, d.now)))
  {
    var l := d.(lock := Some(t));
    hide Reaches, Step, At, ExclusiveRank, FreeExpired;
    NextOf(slots, s0, d, tasks, t, Queued(e), Acquire(t), l, Probing(e));
    NextOf(slots, s0, l, tasks, t, Probing(e), Select(t), l, ReadingClock(e));
    NextOf(slots, s0, l, tasks, t, ReadingClock(e), ReadClock(t), l, Freeing(e, d.now));
    NextOf(slots, s0, l, tasks, t, Freeing(e, d.now), Free(t), l.(pool := FreeExpired(d.pool, d.now)),
        Reprobing(e, d.now));
  }

  // ----- a table with one exclusive row -----

  function Name(i: nat): string { seq(i, _ => 'u') }

  function Generated(i: nat): Credential { Credential(i + 1, "", 1080, Name(i), "", true, 0) }

  function FullPool(slots: nat): Pool { seq(slots + 1, i requires i >= 0 => Generated(i)) }

  function Fresh(slots: nat): State { State(Data(0, FullPool(slots), None, map[], 0, []), map[]) }

  lemma FreshIsInit(slots: nat)
    ensures Init(Fresh(slots)) && |FullPool(slots)| == slots + 1 && UsernamesDistinct(FullPool(slots))
    ensures forall i :: 0 <= i <= slots ==> FullPool(slots)[i] == Generated(i)
  {
    var pool := FullPool(slots);
    forall i, j | 0 <= i < j < |pool| ensures pool[i].username != pool[j].username {
      assert |pool[i].username| == i && |pool[j].username| == j;
    }
  }

  /** `pool` is the full pool with the exclusive row as given. */
  function Only(slots: nat, available: bool, expiresAt: int): Pool {
    FreshIsInit(slots);
    FullPool(slots)[slots := Generated(slots).(available := available, expiresAt := expiresAt)]
  }

  lemma OnlyRank(slots: nat, available: bool, expiresAt: int)
    ensures ExclusiveRank(Only(slots, available, expiresAt), slots) == if available then Some(slots) else None
    ensures CountAvailable(Only(slots, available, expiresAt), slots) > 0 <==> available
  {
    FreshIsInit(slots);
    var pool := Only(slots, available, expiresAt);
    QueriesAreDisjoint(pool, slots);
    SupplyIsConserved(pool, slots);
    assert pool[slots].available == available;
    hide ExclusiveRank, AvailableRanks, CountAvailable;
  }

  lemma OnlyStatements(slots: nat, available: bool, x: int, y: int, now: int)
    ensures MarkTaken(Only(slots, available, x), Name(slots), "", y) == Only(slots, false, y)
    ensures UsernamesDistinct(Only(slots, available, x)) && |Only(slots, available, x)| == slots + 1
    ensures Only(slots, available, x)[slots] == Generated(slots).(available := available, expiresAt := x)
    ensures 0 < x <= now ==> FreeExpired(Only(slots, available, x), now) == Only(slots, true, 0)
    ensures now < x ==> Extend(Only(slots, available, x), Name(slots), x, y, now) == Only(slots, available, y)
  {
    FreshIsInit(slots);
    var pool := Only(slots, available, x);
    assert UsernamesDistinct(pool) by {
      forall i, j | 0 <= i < j < |pool| ensures pool[i].username != pool[j].username {
        assert pool[i].username == FullPool(slots)[i].username && pool[j].username == FullPool(slots)[j].username;
      }
    }
    MarkTakenAt(pool, slots, y);
    if now < x { ExtendAt(pool, slots, x, y, now); }
    if 0 < x <= now {
      var freed := FreeExpired(pool, now);
      assert forall i :: 0 <= i < |pool| ==> freed[i] == Only(slots, true, 0)[i];
    }
  }

  // ----- one exclusive row -----

  /** The exclusive row as given, after the events in `log`. */
  function World(slots: nat, now: int, available: bool, expiresAt: int, next: nat, log: seq<Event>): Data {
    Data(now, Only(slots, available, expiresAt), None, if next == 0 then map[] else map[slots := next - 1], next, log)
  }

  lemma WorldFields(slots: nat, now: int, available: bool, expiresAt: int, next: nat, log: seq<Event>)
    ensures var d := World(slots, now, available, expiresAt, next, log);
            && d.now == now && d.log == log && d.lock == None
            && d.pool == Only(slots, available, expiresAt)
  {
  }

  lemma FreshIsWorld(slots: nat)
    ensures Fresh(slots) == State(World(slots, 0, true, 0, 0, []), map[]) && Init(Fresh(slots))
  {
    FreshIsInit(slots);
    assert FullPool(slots) == Only(slots, true, 0);
  }

  lemma Elapse(
      slots: nat, s0: State, now: int, available: bool, x: int, next: nat, log: seq<Event>, tasks: map<nat, Task>,
      ms: nat)
    requires Reaches(slots, s0, State(World(slots, now, available, x, next, log), tasks))
    ensures Reaches(slots, s0, State(World(slots, now + ms, available, x, next, log), tasks))
  {
    hide Reaches, Only;
    Wait(slots, s0, World(slots, now, available, x, next, log), tasks, ms);
  }

  /** A request that finds the row free and queues for the lock. */
  lemma Queues(slots: nat, s0: State, now: int, next: nat, log: seq<Event>, tasks: map<nat, Task>, t: nat, seconds: int)
    requires Reaches(slots, s0, State(World(slots, now, true, 0, next, log), tasks)) && t !in tasks && seconds > 0
    ensures Reaches(slots, s0, State(World(slots, now, true, 0, next, log), tasks[t := Queued(now + seconds * 1000)]))
  {
    OnlyRank(slots, true, 0);
    hide Reaches, Only, CountAvailable, ExclusiveRank;
    JoinQueue(slots, s0, World(slots, now, true, 0, next, log), tasks, t, seconds);
  }

  /** A queued request takes the row. */
  lemma Takes(slots: nat, s0: State, now: int, next: nat, log: seq<Event>, tasks: map<nat, Task>, t: nat, e: int)
    requires Reaches(slots, s0, State(World(slots, now, true, 0, next, log), tasks)) && t in tasks
             && tasks[t] == Queued(e)
    ensures Reaches(slots, s0, State(World(slots, now, false, e, next + 1, log + [Taken(next, slots, e, now)]),
                                     tasks[t := Finished]))
  {
    var d := World(slots, now, true, 0, next, log);
    OnlyRank(slots, true, 0);
    OnlyStatements(slots, true, 0, e, 0);
    assert MarkStep(d, e, slots, d.pool[slots].username, d.pool[slots].password)
        == World(slots, now, false, e, next + 1, log + [Taken(next, slots, e, now)]) by { hide Only, MarkTaken; }
    assert tasks == tasks[t := Queued(e)];
    hide Reaches, Only, World, MarkStep, ExclusiveRank;
    TurnTakes(slots, s0, d, tasks, t, e, slots);
  }

  /** A queued request finds the row taken but expired, frees it and takes it. */
  lemma Retakes(
      slots: nat, s0: State, now: int, x: int, next: nat, log: seq<Event>, tasks: map<nat, Task>, t: nat, e: int)
    requires Reaches(slots, s0, State(World(slots, now, false, x, next, log), tasks)) && t in tasks
             && tasks[t] == Queued(e)
    requires 0 < x <= now
    ensures Reaches(slots, s0, State(World(slots, now, false, e, next + 1, log + [Taken(next, slots, e, now)]),
                                     tasks[t := Finished]))
  {
    var d := World(slots, now, false, x, next, log);
    OnlyRank(slots, false, x);
    OnlyRank(slots, true, 0);
    OnlyStatements(slots, false, x, 0, now);
    OnlyStatements(slots, true, 0, e, 0);
    var freed := d.(pool := FreeExpired(d.pool, d.now));
    assert MarkStep(freed, e, slots, freed.pool[slots].username, freed.pool[slots].password)
        == World(slots, now, false, e, next + 1, log + [Taken(next, slots, e, now)]) by {
      hide Only, MarkTaken, FreeExpired;
    }
    assert tasks == tasks[t := Queued(e)];
    hide Reaches, Only, World, MarkStep, ExclusiveRank, FreeExpired;
    TurnFreesAndTakes(slots, s0, d, tasks, t, e, slots);
  }

  lemma ExtensionStarts(
      slots: nat, s0: State, d: Data, tasks: map<nat, Task>, t: nat, expected: int, seconds: int)
    requires Reaches(slots, s0, State(d, tasks)) && t !in tasks && seconds > 0 && d.now >= 0
    ensures Reaches(slots, s0, State(d, tasks[t := Extending(Name(slots), expected, d.now + seconds * 1000, d.now)]))
  {
    hide TaskStep, Reaches;
    Next(slots, s0, State(d, tasks), RequestExtension(t, Name(slots), expected, d.now, seconds));
  }

  lemma UpdateOfWorld(slots: nat, now: int, e: int, next: nat, log: seq<Event>, renewed: int, reading: int)
    requires next > 0 && reading < e
    ensures UpdateStep(World(slots, now, false, e, next, log), Name(slots), e, renewed, reading)
         == World(slots, now, false, renewed, next, log + [Extended(next - 1, slots, renewed, now, e, reading)])
  {
    var d := World(slots, now, false, e, next, log);
    OnlyStatements(slots, false, e, renewed, reading);
    hide Only, Extend, Name;
    assert RankOf(d.pool, Name(slots)) == Some(slots);
  }

  /** An extension that read the clock at `reading` reaches its UPDATE. */
  lemma ExtensionSucceeds(
      slots: nat, s0: State, now: int, e: int, next: nat, log: seq<Event>, tasks: map<nat, Task>, t: nat,
      renewed: int, reading: int)
    requires Reaches(slots, s0, State(World(slots, now, false, e, next, log), tasks))
    requires t in tasks && tasks[t] == Extending(Name(slots), e, renewed, reading) && reading < e && next > 0
    ensures Reaches(slots, s0, State(World(slots, now, false, renewed, next,
                                           log + [Extended(next - 1, slots, renewed, now, e, reading)]),
                                     tasks[t := Finished]))
  {
    var d := World(slots, now, false, e, next, log);
    UpdateOfWorld(slots, now, e, next, log, renewed, reading);
    assert tasks == tasks[t := tasks[t]];
    hide Reaches, World, UpdateStep, Name;
    NextOf(slots, s0, d, tasks, t, tasks[t], Update(t), UpdateStep(d, tasks[t].username, e, renewed, reading),
        Finished);
  }

  /** An extension whose clock reading is current. */
  lemma ExtendedAtOnce(
      slots: nat, s0: State, now: nat, e: int, next: nat, log: seq<Event>, tasks: map<nat, Task>, t: nat, seconds: int)
    requires Reaches(slots, s0, State(World(slots, now, false, e, next, log), tasks))
    requires t !in tasks && now < e && next > 0 && seconds > 0
    ensures var b := now + seconds * 1000;
            Reaches(slots, s0, State(World(slots, now, false, b, next,
                                           log + [Extended(next - 1, slots, b, now, e, now)]),
                                     tasks[t := Finished]))
  {
    var b := now + seconds * 1000;
    var x := Extending(Name(slots), e, b, now);
    WorldFields(slots, now, false, e, next, log);
    hide Reaches, World, Name;
    ExtensionStarts(slots, s0, World(slots, now, false, e, next, log), tasks, t, e, seconds);
    ExtensionSucceeds(slots, s0, now, e, next, log, tasks[t := x], t, b, now);
    assert tasks[t := x][t := Finished] == tasks[t := Finished];
  }
}
