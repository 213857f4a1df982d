/** The step model and the one-piece operations agree: a turn that nobody interrupts does exactly
    what `Register` says. */
module LeaseTurn {
  import opened Wrappers
  import opened LeaseTable
  import opened LeaseProtocol

  /** Every step a turn can take, in order; those a turn does not need change nothing. */
  function Search(t: nat): seq<Action> { [Acquire(t)] + [Select(t)] + [Insert(t)] }

  function Retry(t: nat): seq<Action> { [ReadClock(t)] + [Purge(t)] + [Select(t)] + [Insert(t)] }

  function WholeTurn(t: nat): seq<Action> { Search(t) + Retry(t) + [Unlock(t)] }

  lemma RunOne(r: Range, s: State, actions: seq<Action>, a: Action)
    ensures Run(r, s, actions + [a]) == Step(r, Run(r, s, actions), a)
  {
    assert (actions + [a])[..|actions|] == actions;
  }

  lemma SearchRuns(r: Range, s: State, t: nat)
    ensures Run(r, s, Search(t)) == Step(r, Step(r, Step(r, s, Acquire(t)), Select(t)), Insert(t))
  {
    hide Step;
    RunOne(r, s, [], Acquire(t));
    assert [] + [Acquire(t)] == [Acquire(t)] && Run(r, s, []) == s;
    RunOne(r, s, [Acquire(t)], Select(t));
    RunOne(r, s, [Acquire(t)] + [Select(t)], Insert(t));
  }

  lemma WholeTurnRuns(r: Range, s: State, t: nat)
    ensures var m := Run(r, s, Search(t));
            Run(r, s, WholeTurn(t))
            == Step(r, Step(r, Step(r, Step(r, Step(r, m, ReadClock(t)), Purge(t)), Select(t)), Insert(t)), Unlock(t))
  {
    hide Step, Run, Search;
    var p := Search(t);
    var q := p + [ReadClock(t)];
    RunOne(r, s, p, ReadClock(t));
    RunOne(r, s, q, Purge(t));
    RunOne(r, s, q + [Purge(t)], Select(t));
    RunOne(r, s, q + [Purge(t)] + [Select(t)], Insert(t));
    RunOne(r, s, p + Retry(t), Unlock(t));
    assert q + [Purge(t)] + [Select(t)] + [Insert(t)] == p + Retry(t);
  }

  /** The step of a task, as an equation on the whole state. */
  lemma Moves(r: Range, d: Data, tasks: map<nat, Task>, t: nat, task: Task, a: Action)
    requires !a.Tick? && !a.Restart? && a.t == t
    ensures var (d', task') := TaskStep(r, d, t, task, a);
            Step(r, State(d, tasks[t := task]), a) == State(d', tasks[t := task'])
  {
    hide TaskStep;
    var task' := TaskStep(r, d, t, task, a).1;
    assert tasks[t := task][t := task'] == tasks[t := task'];
  }

  /** The first half of a turn: it has a reservation, or goes on to the purge. */
  lemma SearchMeaning(r: Range, d: Data, tasks: map<nat, Task>, t: nat, e: int)
    requires d.lock == None
    ensures var l := d.(lock := Some(t));
            Run(r, State(d, tasks[t := Queued(e)]), Search(t)) ==
              match FirstFree(d.rows, r.start, r.end)
              case Some(id) => State(InsertStep(l, e, id).0, tasks[t := Unlocking(Some(Reservation(id, d.next, e)))])
              case None => State(l, tasks[t := ReadingClock(e)])
  {
    var l := d.(lock := Some(t));
    SearchRuns(r, State(d, tasks[t := Queued(e)]), t);
    hide Step, Run, Search, FirstFree;
    Moves(r, d, tasks, t, Queued(e), Acquire(t));
    Moves(r, l, tasks, t, Probing(e), Select(t));
    match FirstFree(d.rows, r.start, r.end)
    case Some(id) => Moves(r, l, tasks, t, Inserting(e, id), Insert(t));
    case None => Moves(r, l, tasks, t, ReadingClock(e), Insert(t));
  }

  /** A turn with a reservation only drops the lock. */
  lemma ReservedTurnEnds(r: Range, d: Data, tasks: map<nat, Task>, t: nat, p: Reservation)
    ensures var m := State(d, tasks[t := Unlocking(Some(p))]);
            Step(r, Step(r, Step(r, Step(r, Step(r, m, ReadClock(t)), Purge(t)), Select(t)), Insert(t)), Unlock(t))
            == State(d.(lock := None), tasks[t := AddingPeer(p)])
  {
    hide Step;
    Moves(r, d, tasks, t, Unlocking(Some(p)), ReadClock(t));
    Moves(r, d, tasks, t, Unlocking(Some(p)), Purge(t));
    Moves(r, d, tasks, t, Unlocking(Some(p)), Select(t));
    Moves(r, d, tasks, t, Unlocking(Some(p)), Insert(t));
    Moves(r, d, tasks, t, Unlocking(Some(p)), Unlock(t));
  }

  lemma PurgeAndSelect(r: Range, d: Data, tasks: map<nat, Task>, t: nat, e: int)
    ensures var m := State(d, tasks[t := ReadingClock(e)]);
            var c := d.(rows := DeleteExpired(d.rows, d.now));
            Step(r, Step(r, Step(r, m, ReadClock(t)), Purge(t)), Select(t))
            == match FirstFree(c.rows, r.start, r.end)
               case Some(id) => State(c, tasks[t := Inserting(e, id)])
               case None => State(c.(log := d.log + [Refused(d.now, d.now)]), tasks[t := Unlocking(None)])
  {
    var c := d.(rows := DeleteExpired(d.rows, d.now));
    hide Step, FirstFree, DeleteExpired;
    Moves(r, d, tasks, t, ReadingClock(e), ReadClock(t));
    Moves(r, d, tasks, t, Purging(e, d.now), Purge(t));
    Moves(r, c, tasks, t, Reprobing(e, d.now), Select(t));
  }

  /** A turn without one purges, searches again, and reserves or refuses. */
  lemma RetryEnds(r: Range, d: Data, tasks: map<nat, Task>, t: nat, e: int)
    ensures var m := State(d, tasks[t := ReadingClock(e)]);
            var c := d.(rows := DeleteExpired(d.rows, d.now));
            Step(r, Step(r, Step(r, Step(r, Step(r, m, ReadClock(t)), Purge(t)), Select(t)), Insert(t)), Unlock(t))
            == match FirstFree(c.rows, r.start, r.end)
               case Some(id) => State(InsertStep(c, e, id).0.(lock := None),
                   tasks[t := AddingPeer(Reservation(id, d.next, e))])
               case None => State(c.(lock := None, log := d.log + [Refused(d.now, d.now)]), tasks[t := Finished])
  {
    var c := d.(rows := DeleteExpired(d.rows, d.now));
    PurgeAndSelect(r, d, tasks, t, e);
    hide Step, FirstFree, DeleteExpired;
    match FirstFree(c.rows, r.start, r.end)
    case Some(id) =>
      Moves(r, c, tasks, t, Inserting(e, id), Insert(t));
      Moves(r, InsertStep(c, e, id).0, tasks, t, Unlocking(Some(Reservation(id, d.next, e))), Unlock(t));
    case None =>
      var f := c.(log := d.log + [Refused(d.now, d.now)]);
      Moves(r, f, tasks, t, Unlocking(None), Insert(t));
      Moves(r, f, tasks, t, Unlocking(None), Unlock(t));
  }

  /** What a turn leaves behind besides the rows. */
  predicate Recorded(d: Data, d': Data, rows: Rows, result: Result<Lease, AppError>) {
    match result
    case Ok(lease) =>
      d' == d.(rows := rows, serials := d.serials[lease.peerId := d.next], next := d.next + 1,
               log := d.log + [Issued(d.next, lease.peerId, lease.expiresAt, d.now)])
    case Err(_) => d' == d.(rows := rows, log := d.log + [Refused(d.now, d.now)])
  }

  /** An uninterrupted turn of a queued request leaves the rows `Register` leaves, goes on with the
      lease it returns or ends when it returns none, and frees the lock. */
  lemma UninterruptedTurnIsRegister(r: Range, d: Data, tasks: map<nat, Task>, t: nat, e: int)
    requires d.lock == None
    ensures var f := Run(r, State(d, tasks[t := Queued(e)]), WholeTurn(t));
            var (rows, result) := Register(d.rows, r.start, r.end, e, d.now);
            && f.data.rows == rows && f.data.lock == None && f.data.now == d.now
            && Recorded(d, f.data, rows, result)
            && f.tasks == tasks[t := match result
                                     case Ok(lease) => AddingPeer(Reservation(lease.peerId, d.next, lease.expiresAt))
                                     case Err(_) => Finished]
  {
    var l := d.(lock := Some(t));
    var c := l.(rows := DeleteExpired(d.rows, d.now));
    WholeTurnRuns(r, State(d, tasks[t := Queued(e)]), t);
    SearchMeaning(r, d, tasks, t, e);
    hide Step, Run, Search, WholeTurn, FirstFree, DeleteExpired, Recorded, InsertStep;
    match FirstFree(d.rows, r.start, r.end)
    case Some(id) =>
      ReservedTurnEnds(r, InsertStep(l, e, id).0, tasks, t, Reservation(id, d.next, e));
      InsertIsRecorded(d, l, e, id);
    case None =>
      RetryEnds(r, l, tasks, t, e);
      match FirstFree(c.rows, r.start, r.end)
      case Some(id) => InsertIsRecorded(d, c, e, id);
      case None => RefusalIsRecorded(d, c);
  }

  lemma InsertIsRecorded(d: Data, l: Data, e: int, id: int)
    requires l == d.(lock := l.lock, rows := l.rows) && d.lock == None
    ensures var d' := InsertStep(l, e, id).0.(lock := None);
            && Recorded(d, d', Upsert(l.rows, id, e), Ok(Lease(id, e)))
            && d'.rows == Upsert(l.rows, id, e) && d'.lock == None && d'.now == d.now
  {
  }

  lemma RefusalIsRecorded(d: Data, l: Data)
    requires l == d.(lock := l.lock, rows := l.rows) && d.lock == None
    ensures Recorded(d, l.(lock := None, log := d.log + [Refused(d.now, d.now)]), l.rows, Err(LeaseUnavailable))
  {
  }

  /** An extension that nobody interrupts renews its row to the request's clock plus its seconds, if the row
      is there with the expected expiry and that lies ahead; and changes nothing else. */
  lemma UninterruptedExtension(
      r: Range, d: Data, tasks: map<nat, Task>, t: nat, id: int, expected: int, requestedAt: int, seconds: int)
    requires t !in tasks && seconds > 0 && requestedAt <= d.now && (id in d.rows ==> id in d.serials)
    ensures var f := Run(r, State(d, tasks), [RequestExtension(t, id, expected, requestedAt, seconds)]
            + [Update(t, true)]);
            && f.tasks == tasks[t := Finished] && f.data.lock == d.lock && f.data.now == d.now
            && f.data.rows == if id in d.rows && d.rows[id].expiresAt == expected && d.now < expected
                              then d.rows[id := d.rows[id].(expiresAt := requestedAt + seconds * 1000)] else d.rows
  {
    var s, a := State(d, tasks), RequestExtension(t, id, expected, requestedAt, seconds);
    var x := Extending(id, expected, requestedAt + seconds * 1000, d.now);
    assert [] + [a] == [a] && Run(r, s, []) == s;
    RunOne(r, s, [], a);
    RunOne(r, s, [a], Update(t, true));
    assert Step(r, s, a) == State(d, tasks[t := x]) by { hide TaskStep; }
    Moves(r, d, tasks, t, x, Update(t, true));
    hide Step, Run;
  }
}
