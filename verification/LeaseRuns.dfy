/** Building runs of the lease protocol, a request or a statement at a time. */
module LeaseRuns {
  import opened Wrappers
  import opened LeaseTable
  import opened LeaseProtocol

  ghost predicate Reaches(r: Range, s: State, s': State) {
    exists actions :: Run(r, s, actions) == s'
  }

  lemma Reached(r: Range, s: State, s': State)
    requires Reaches(r, s, s')
    ensures exists actions :: Run(r, s, actions) == s' && Run(r, s, actions).data.log == s'.data.log
  {
    var actions :| Run(r, s, actions) == s';
  }

  lemma Start(r: Range, s: State)
    ensures Reaches(r, s, s)
  {
    assert Run(r, s, []) == s;
  }

  lemma Next(r: Range, s0: State, s: State, a: Action)
    requires Reaches(r, s0, s)
    ensures Reaches(r, s0, Step(r, s, a))
  {
    var actions :| Run(r, s0, actions) == s;
    assert (actions + [a])[..|actions|] == actions;
    assert Run(r, s0, actions + [a]) == Step(r, s, a);
  }

  /** The next step of task `t`. */
  lemma NextOf(r: Range, s0: State, s: State, t: nat, a: Action, d': Data, task': Task)
    requires Reaches(r, s0, s) && !a.Tick? && !a.Restart? && a.t == t && t in s.tasks
    requires TaskStep(r, s.data, t, s.tasks[t], a) == (d', task')
    ensures Reaches(r, s0, State(d', s.tasks[t := task']))
  {
    Next(r, s0, s, a);
  }

  function BareRow(expiry: int): Row { Row(expiry, None, None, None, None) }

  /** `d` after an INSERT of `id` with the next serial number. */
  function Inserted(d: Data, id: int, e: int): Data {
    d.(rows := d.rows[id := BareRow(e)], serials := d.serials[id := d.next],
       next := d.next + 1, log := d.log + [Issued(d.next, id, e, d.now)])
  }

  lemma Overwrite(tasks: map<nat, Task>, t: nat, task: Task, task': Task)
    ensures tasks[t := task][t := task'] == tasks[t := task']
  {
  }

  /** The whole turn of a queued task, when nobody has the lock and the first id is free. */
  lemma TurnReserves(r: Range, s0: State, d: Data, tasks: map<nat, Task>, t: nat, e: int)
    requires Reaches(r, s0, State(d, tasks)) && t in tasks && tasks[t] == Queued(e) && d.lock == None
             && r.start !in d.rows
    ensures Reaches(r, s0, State(Inserted(d, r.start, e), tasks[t := AddingPeer(Reservation(r.start, d.next, e))]))
  {
    var p := Reservation(r.start, d.next, e);
    var l, i := d.(lock := Some(t)), Inserted(d, r.start, e).(lock := Some(t));
    hide Reaches, Step;
    NextOf(r, s0, State(d, tasks), t, Acquire(t), l, Probing(e));
    NextOf(r, s0, State(l, tasks[t := Probing(e)]), t, Select(t), l, Inserting(e, r.start));
    Overwrite(tasks, t, Probing(e), Inserting(e, r.start));
    NextOf(r, s0, State(l, tasks[t := Inserting(e, r.start)]), t, Insert(t), i, Unlocking(Some(p)));
    Overwrite(tasks, t, Inserting(e, r.start), Unlocking(Some(p)));
    NextOf(r, s0, State(i, tasks[t := Unlocking(Some(p))]), t, Unlock(t), i.(lock := None), AddingPeer(p));
    Overwrite(tasks, t, Unlocking(Some(p)), AddingPeer(p));
    assert i.(lock := None) == Inserted(d, r.start, e);
  }

  /** `d` after the grant of `p`. */
  function GrantedTo(d: Data, p: Reservation): Data {
    d.(rows := StoreKeys(d.rows, p.id, "", "", "", ""), log := d.log + [Granted(p.serial, p.id, p.expiry, d.now)])
  }

  lemma GrantGrants(r: Range, s0: State, d: Data, tasks: map<nat, Task>, t: nat, p: Reservation)
    requires Reaches(r, s0, State(d, tasks)) && t in tasks && tasks[t] == AddingPeer(p)
    ensures Reaches(r, s0, State(GrantedTo(d, p), tasks[t := Finished]))
  {
    hide Reaches, Step;
    NextOf(r, s0, State(d, tasks), t, AddPeer(t, true), d, StoringKeys(p));
    NextOf(r, s0, State(d, tasks[t := StoringKeys(p)]), t, Store(t, true, "", "", "", ""), GrantedTo(d, p), Finished);
    Overwrite(tasks, t, StoringKeys(p), Finished);
  }

  /** A task that an action starts. */
  lemma NextStarts(r: Range, s0: State, s: State, t: nat, a: Action, task: Task)
    requires Reaches(r, s0, s) && !a.Tick? && !a.Restart? && a.t == t && t !in s.tasks
             && Started(s.data, a) == Some(task)
    ensures Reaches(r, s0, s.(tasks := s.tasks[t := task]))
  {
    Next(r, s0, s, a);
  }

  lemma Wait(r: Range, s0: State, d: Data, tasks: map<nat, Task>, ms: nat)
    requires Reaches(r, s0, State(d, tasks))
    ensures Reaches(r, s0, State(d.(now := d.now + ms), tasks))
  {
    Next(r, s0, State(d, tasks), Tick(ms));
  }

  /** A queued request served to its grant. */
  lemma ServeQueued(r: Range, s0: State, d: Data, tasks: map<nat, Task>, t: nat, e: int)
    requires Reaches(r, s0, State(d, tasks)) && t in tasks && tasks[t] == Queued(e) && d.lock == None
             && r.start !in d.rows
    ensures Reaches(r, s0, State(GrantedTo(Inserted(d, r.start, e), Reservation(r.start, d.next, e)),
            tasks[t := Finished]))
  {
    hide Reaches, Step;
    var p := Reservation(r.start, d.next, e);
    TurnReserves(r, s0, d, tasks, t, e);
    GrantGrants(r, s0, Inserted(d, r.start, e), tasks[t := AddingPeer(p)], t, p);
    Overwrite(tasks, t, AddingPeer(p), Finished);
  }

  /** A daemon sweep when everything has expired. */
  lemma SweepEmpties(r: Range, s0: State, d: Data, tasks: map<nat, Task>, t: nat)
    requires Reaches(r, s0, State(d, tasks)) && t !in tasks
    requires forall id :: id in d.rows ==> d.rows[id].expiresAt < d.now
    ensures Reaches(r, s0, State(d.(rows := map[]), tasks[t := Finished]))
  {
    hide Reaches, Step;
    NextStarts(r, s0, State(d, tasks), t, StartSweep(t), Sweeping(d.now));
    assert forall id :: id in d.rows ==> id !in DeleteExpired(d.rows, d.now);
    assert DeleteExpired(d.rows, d.now).Keys == {};
    NextOf(r, s0, State(d, tasks[t := Sweeping(d.now)]), t, Sweep(t, true), d.(rows := map[]), Finished);
    Overwrite(tasks, t, Sweeping(d.now), Finished);
  }

  /** The interface refuses the peer and the reservation is rolled back. */
  lemma RefusedAndRolledBack(r: Range, s0: State, d: Data, tasks: map<nat, Task>, t: nat, p: Reservation)
    requires Reaches(r, s0, State(d, tasks)) && t in tasks && tasks[t] == AddingPeer(p)
    ensures Reaches(r, s0, State(d.(rows := DeleteIf(d.rows, p.id, Some(p.expiry))), tasks[t := Finished]))
  {
    hide Reaches, Step;
    NextOf(r, s0, State(d, tasks), t, AddPeer(t, false), d, RollingBack(p));
    NextOf(r, s0, State(d, tasks[t := RollingBack(p)]), t, Rollback(t, true),
        d.(rows := DeleteIf(d.rows, p.id, Some(p.expiry))), Finished);
    Overwrite(tasks, t, RollingBack(p), Finished);
  }

  // ----- one id, one row -----

  function KeyedRow(expiry: int): Row { Row(expiry, Some(""), Some(""), Some(""), Some("")) }

  /** The table is empty, or holds a granted row of the first id with this expiry, inserted last. */
  function World(r: Range, now: int, expiry: Option<int>, next: nat, log: seq<Event>): Data {
    Data(now, match expiry case None => map[] case Some(e) => map[r.start := KeyedRow(e)], None,
         if next == 0 then map[] else map[r.start := next - 1], next, log)
  }

  function Fresh(r: Range): State { State(World(r, 0, None, 0, []), map[]) }

  lemma WorldClock(r: Range, now: int, expiry: Option<int>, next: nat, log: seq<Event>)
    ensures World(r, now, expiry, next, log).now == now && World(r, now, expiry, next, log).log == log
  {
  }

  /** The log after serial number `next` was inserted and granted. */
  function LogGrant(r: Range, log: seq<Event>, next: nat, e: int, at: int): seq<Event> {
    log + [Issued(next, r.start, e, at)] + [Granted(next, r.start, e, at)]
  }

  lemma QueuedIsGranted(
      r: Range, s0: State, now: int, next: nat, log: seq<Event>, tasks: map<nat, Task>, t: nat, e: int)
    requires Reaches(r, s0, State(World(r, now, None, next, log), tasks)) && t in tasks && tasks[t] == Queued(e)
    ensures Reaches(r, s0, State(World(r, now, Some(e), next + 1, LogGrant(r, log, next, e, now)),
            tasks[t := Finished]))
  {
    var d := World(r, now, None, next, log);
    assert GrantedTo(Inserted(d, r.start, e), Reservation(r.start, next, e))
        == World(r, now, Some(e), next + 1, LogGrant(r, log, next, e, now));
    hide Reaches, GrantedTo, Inserted;
    ServeQueued(r, s0, d, tasks, t, e);
  }

  lemma RequestIsGranted(
      r: Range, s0: State, now: int, next: nat, log: seq<Event>, tasks: map<nat, Task>, t: nat, seconds: int)
    requires Reaches(r, s0, State(World(r, now, None, next, log), tasks)) && t !in tasks && seconds > 0
    ensures var e := now + seconds * 1000;
            Reaches(r, s0, State(World(r, now, Some(e), next + 1, LogGrant(r, log, next, e, now)),
                tasks[t := Finished]))
  {
    var d, e := World(r, now, None, next, log), now + seconds * 1000;
    hide Reaches, LogGrant;
    NextStarts(r, s0, State(d, tasks), t, Request(t, seconds), Queued(e));
    hide World;
    QueuedIsGranted(r, s0, now, next, log, tasks[t := Queued(e)], t, e);
    Overwrite(tasks, t, Queued(e), Finished);
  }

  lemma Elapse(
      r: Range, s0: State, now: int, e: Option<int>, next: nat, log: seq<Event>, tasks: map<nat, Task>, ms: nat)
    requires Reaches(r, s0, State(World(r, now, e, next, log), tasks))
    ensures Reaches(r, s0, State(World(r, now + ms, e, next, log), tasks))
  {
    hide Reaches;
    Wait(r, s0, World(r, now, e, next, log), tasks, ms);
  }

  lemma SweptOut(r: Range, s0: State, now: int, e: int, next: nat, log: seq<Event>, tasks: map<nat, Task>, t: nat)
    requires Reaches(r, s0, State(World(r, now, Some(e), next, log), tasks)) && t !in tasks && e < now
    ensures Reaches(r, s0, State(World(r, now, None, next, log), tasks[t := Finished]))
  {
    hide Reaches;
    SweepEmpties(r, s0, World(r, now, Some(e), next, log), tasks, t);
  }

  lemma ExtensionStarts(
      r: Range, s0: State, d: Data, tasks: map<nat, Task>, t: nat, expected: int, seconds: int)
    requires Reaches(r, s0, State(d, tasks)) && t !in tasks && seconds > 0
    ensures Reaches(r, s0, State(d, tasks[t := Extending(r.start, expected, d.now + seconds * 1000, d.now)]))
  {
    hide Reaches;
    NextStarts(r, s0, State(d, tasks), t, RequestExtension(t, r.start, expected, d.now, seconds),
               Extending(r.start, expected, d.now + seconds * 1000, d.now));
  }

  /** An extension that read the clock at `reading` reaches its UPDATE. */
  lemma ExtensionSucceeds(
      r: Range, s0: State, now: int, e: int, next: nat, log: seq<Event>, tasks: map<nat, Task>, t: nat,
      renewed: int, reading: int)
    requires Reaches(r, s0, State(World(r, now, Some(e), next, log), tasks))
    requires t in tasks && tasks[t] == Extending(r.start, e, renewed, reading) && reading < e && next > 0
    ensures Reaches(r, s0, State(World(r, now, Some(renewed), next,
                                       log + [Extended(next - 1, r.start, renewed, now, e, reading)]),
                                 tasks[t := Finished]))
  {
    var d := World(r, now, Some(e), next, log);
    var d' := World(r, now, Some(renewed), next, log + [Extended(next - 1, r.start, renewed, now, e, reading)]);
    assert UpdateStep(d, r.start, e, renewed, reading) == d';
    hide Reaches, World;
    NextOf(r, s0, State(d, tasks), t, Update(t, true), d', Finished);
  }

  /** An extension whose clock reading is current. */
  lemma ExtendedAtOnce(
      r: Range, s0: State, now: int, e: int, next: nat, log: seq<Event>, tasks: map<nat, Task>, t: nat, seconds: int)
    requires Reaches(r, s0, State(World(r, now, Some(e), next, log), tasks))
    requires t !in tasks && now < e && next > 0 && seconds > 0
    ensures var b := now + seconds * 1000;
            Reaches(r, s0, State(World(r, now, Some(b), next, log + [Extended(next - 1, r.start, b, now, e, now)]),
                                 tasks[t := Finished]))
  {
    var b := now + seconds * 1000;
    WorldClock(r, now, Some(e), next, log);
    hide Reaches, World;
    ExtensionStarts(r, s0, World(r, now, Some(e), next, log), tasks, t, e, seconds);
    ExtensionSucceeds(r, s0, now, e, next, log, tasks[t := Extending(r.start, e, b, now)], t, b, now);
    Overwrite(tasks, t, Extending(r.start, e, b, now), Finished);
  }
}
