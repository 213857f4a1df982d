/** Safety of the lease protocol over every interleaving. */
module LeaseProofs {
  import opened Wrappers
  import opened LeaseTable
  import opened LeaseProtocol

  /** The reservation a task will still grant or roll back. */
  function Pending(task: Task): Option<Reservation> {
    match task
    case Unlocking(outcome) => outcome
    case AddingPeer(p) => Some(p)
    case StoringKeys(p) => Some(p)
    case RollingBack(p) => Some(p)
    case _ => None
  }

  // ----- the invariant -----

  /** Before its grant a reservation can only have been extended: strictly, or to an expiry that
      has run out. */
  ghost predicate Ungranted(d: Data, p: Reservation) {
    forall e :: e in d.log && IsPromise(e) && e.id == p.id && e.serial == p.serial ==>
      p.expiry <= e.expiry && (p.expiry < e.expiry || e.expiry < d.now)
  }

  ghost predicate NoneBefore(rows: Rows, cutoff: int) {
    forall id :: id in rows ==> cutoff <= rows[id].expiresAt
  }

  /** The lock is held by exactly one task between acquiring it and dropping the guard, so an id
      between SELECT and INSERT has no row. Clock readings lie in the past. */
  ghost predicate TurnOk(r: Range, d: Data, t: nat, task: Task) {
    && (Holds(task) <==> d.lock == Some(t))
    && (match task
        case Inserting(_, id) => r.Contains(id) && id !in d.rows
        case Purging(_, cutoff) => cutoff <= d.now
        case Reprobing(_, cutoff) => cutoff <= d.now
        case Sweeping(cutoff) => cutoff <= d.now
        case Extending(_, _, _, reading) => reading <= d.now
        case _ => true)
  }

  /** What holds of a task at `task`. */
  ghost predicate TaskOk(r: Range, d: Data, t: nat, task: Task) {
    && TurnOk(r, d, t, task)
    && (task.Reprobing? ==> NoneBefore(d.rows, task.cutoff))
    && (match Pending(task)
        case Some(p) => p.serial < d.next && r.Contains(p.id) && Covered(d, p.id, p.serial, p.expiry) && Ungranted(d, p)
        case None => true)
  }

  ghost predicate RowsOk(r: Range, d: Data) {
    && (forall id :: id in d.rows ==> r.Contains(id) && id in d.serials)
    && (forall id :: id in d.serials ==> d.serials[id] < d.next)
  }

  predicate PromiseOk(r: Range, d: Data, e: Event)
    requires IsPromise(e)
  {
    e.serial < d.next && r.Contains(e.id) && Covered(d, e.id, e.serial, e.expiry)
  }

  /** An id goes to a new lease only after every earlier promise on it has strictly run out. */
  ghost predicate Exclusive(log: seq<Event>) {
    forall i, j ::
      0 <= i < j < |log| && IsPromise(log[i]) && log[j].Issued? && log[i].id == log[j].id ==> log[i].expiry < log[j].at
  }

  /** If two extensions succeed on one (id, expiry) pair, the pair had run out by more than a
      millisecond before the second. */
  ghost predicate ExtendedOnce(log: seq<Event>) {
    forall i, j ::
      0 <= i < j < |log| && log[i].Extended? && log[j].Extended? && log[i].id == log[j].id && log[i].from == log[j].from
      ==> log[j].from + 1 < log[j].at
  }

  ghost predicate DataOk(r: Range, d: Data) {
    && RowsOk(r, d)
    && (forall e :: e in d.log && IsPromise(e) ==> PromiseOk(r, d, e))
    && Exclusive(d.log) && (ForwardOnly(d.log) ==> ExtendedOnce(d.log))
  }

  ghost predicate SerialsDistinct(tasks: map<nat, Task>) {
    forall t, u ::
      t in tasks && u in tasks && t != u && Pending(tasks[t]).Some? && Pending(tasks[u]).Some?
      ==> Pending(tasks[t]).value.serial != Pending(tasks[u]).value.serial
  }

  ghost predicate Inv(r: Range, s: State) {
    && DataOk(r, s.data)
    && (forall t :: t in s.tasks ==> TaskOk(r, s.data, t, s.tasks[t]))
    && (s.data.lock.Some? ==> s.data.lock.value in s.tasks)
    && SerialsDistinct(s.tasks)
  }

  // ----- one more event -----

  /** What a new event must satisfy towards each earlier one. */
  ghost predicate Follows(earlier: Event, e: Event, forward: bool) {
    && (IsPromise(earlier) && e.Issued? && earlier.id == e.id ==> earlier.expiry < e.at)
    && (forward && earlier.Extended? && e.Extended? && earlier.id == e.id && earlier.from == e.from ==>
          e.from + 1 < e.at)
  }

  lemma Append(log: seq<Event>, e: Event)
    requires Exclusive(log) && (ForwardOnly(log) ==> ExtendedOnce(log))
    requires forall earlier :: earlier in log ==> Follows(earlier, e, ForwardOnly(log + [e]))
    ensures Exclusive(log + [e]) && (ForwardOnly(log + [e]) ==> ExtendedOnce(log + [e]))
  {
    var log' := log + [e];
    ForwardPrefix(log, log');
    forall i, j | 0 <= i < j < |log'| ensures j == |log| ==> Follows(log'[i], log'[j], ForwardOnly(log')) {
      assert log'[i] == log[i];
    }
  }

  lemma ForwardPrefix(log: seq<Event>, log': seq<Event>)
    requires log <= log'
    ensures ForwardOnly(log') ==> ForwardOnly(log)
  {
    if ForwardOnly(log') {
      forall i | 0 <= i < |log| && log[i].Extended? ensures log[i].from < log[i].expiry { assert log'[i] == log[i]; }
    }
  }

  lemma SteadyPrefix(log: seq<Event>, log': seq<Event>)
    requires log <= log' && Steady(log')
    ensures Steady(log)
  {
    forall i | 0 <= i < |log| && log[i].Extended?
      ensures log[i].from <= log[i].expiry && (log[i].from == log[i].expiry ==> PairTold(log, i))
    {
      assert log'[i] == log[i];
      if log[i].from == log[i].expiry {
        var j :| 0 <= j < i && IsPromise(log'[j]) && log'[j].id == log'[i].id && log'[j].expiry == log'[i].from;
        assert log[j] == log'[j];
      }
    }
  }

  /** Forward extensions are steady, whoever asks; so are those that stay, of clients who were told. */
  lemma ForwardIsSteady(log: seq<Event>)
    ensures ForwardOnly(log) ==> Steady(log)
    ensures NeverBack(log) && OnlyTold(log) ==> Steady(log)
  {
  }

  // ----- one task's step -----

  /** The other task `u` is not disturbed. */
  ghost predicate Undisturbed(r: Range, d: Data, d': Data, u: nat, task: Task) {
    TaskOk(r, d, u, task) ==> TaskOk(r, d', u, task)
  }

  lemma DeleteExpiredKeeps(r: Range, d: Data, cutoff: int)
    requires DataOk(r, d) && cutoff <= d.now
    ensures var d' := d.(rows := DeleteExpired(d.rows, cutoff));
            DataOk(r, d') && forall u, task :: Undisturbed(r, d, d', u, task)
  {
    var d' := d.(rows := DeleteExpired(d.rows, cutoff));
    forall e | e in d.log && IsPromise(e) ensures PromiseOk(r, d', e) { assert PromiseOk(r, d, e); }
  }

  lemma InsertKeepsData(r: Range, d: Data, t: nat, e: int, id: int)
    requires DataOk(r, d) && TaskOk(r, d, t, Inserting(e, id))
    ensures var (d', task') := InsertStep(d, e, id);
            DataOk(r, d') && TaskOk(r, d', t, task')
  {
    var (d', task') := InsertStep(d, e, id);
    forall p | p in d.log && IsPromise(p)
      ensures PromiseOk(r, d', p) && p.serial != d.next && (p.id == id ==> p.expiry < d.now)
    {
      assert PromiseOk(r, d, p);
    }
    Append(d.log, Issued(d.next, id, e, d.now));
  }

  lemma InsertKeepsTask(r: Range, d: Data, t: nat, e: int, id: int, u: nat, task: Task)
    requires TaskOk(r, d, t, Inserting(e, id)) && u != t
    ensures Undisturbed(r, d, InsertStep(d, e, id).0, u, task)
  {
  }

  lemma StoreKeepsData(r: Range, d: Data, t: nat, p: Reservation, priv: string, pub: string, psk: string, ip: string)
    requires DataOk(r, d) && TaskOk(r, d, t, StoringKeys(p))
    ensures DataOk(r, StoreStep(d, p, priv, pub, psk, ip))
  {
    var d' := StoreStep(d, p, priv, pub, psk, ip);
    forall e | e in d.log && IsPromise(e) ensures PromiseOk(r, d', e) { assert PromiseOk(r, d, e); }
    Append(d.log, Granted(p.serial, p.id, p.expiry, d.now));
  }

  lemma StoreKeepsTask(
      r: Range, d: Data, u: nat, task: Task, p: Reservation, priv: string, pub: string, psk: string, ip: string)
    requires Pending(task).Some? ==> Pending(task).value.serial != p.serial
    ensures Undisturbed(r, d, StoreStep(d, p, priv, pub, psk, ip), u, task)
  {
  }

  /** The new extension moves forward, or repeats what an earlier promise said. */
  lemma ExtensionIsSteady(d: Data, id: int, expected: int, renewed: int, reading: int)
    requires Steady(UpdateStep(d, id, expected, renewed, reading).log)
    requires Extendable(d.rows, id, expected, reading) && id in d.serials
    ensures expected <= renewed
    ensures expected == renewed ==> exists q :: q in d.log && IsPromise(q) && q.id == id && q.expiry == expected
  {
    var log' := UpdateStep(d, id, expected, renewed, reading).log;
    var n := |d.log|;
    assert log'[n] == Extended(d.serials[id], id, renewed, d.now, expected, reading);
    if expected == renewed {
      assert PairTold(log', n);
      var j :| 0 <= j < n && IsPromise(log'[j]) && log'[j].id == id && log'[j].expiry == expected;
      assert log'[j] == d.log[j] && d.log[j] in d.log;
    }
  }

  lemma UpdateKeepsData(r: Range, d: Data, id: int, expected: int, renewed: int, reading: int)
    requires DataOk(r, d) && Steady(UpdateStep(d, id, expected, renewed, reading).log)
    ensures DataOk(r, UpdateStep(d, id, expected, renewed, reading))
  {
    if Extendable(d.rows, id, expected, reading) {
      var d' := UpdateStep(d, id, expected, renewed, reading);
      var event := Extended(d.serials[id], id, renewed, d.now, expected, reading);
      ExtensionIsSteady(d, id, expected, renewed, reading);
      forall e | e in d.log && IsPromise(e)
        ensures PromiseOk(r, d', e) && Follows(e, event, ForwardOnly(d.log + [event]))
      {
        assert PromiseOk(r, d, e);
        var i :| 0 <= i < |d.log| && d.log[i] == e;
        assert (d.log + [event])[i] == e;
      }
      Append(d.log, event);
    }
  }

  lemma UpdateKeepsTask(r: Range, d: Data, u: nat, task: Task, id: int, expected: int, renewed: int, reading: int)
    requires DataOk(r, d) && Steady(UpdateStep(d, id, expected, renewed, reading).log)
    ensures Undisturbed(r, d, UpdateStep(d, id, expected, renewed, reading), u, task)
  {
    if Extendable(d.rows, id, expected, reading) && id in d.serials && TaskOk(r, d, u, task) {
      ExtensionIsSteady(d, id, expected, renewed, reading);
      if Pending(task).Some? {
        RenewalLeavesUngranted(r, d, Pending(task).value, id, expected, renewed, reading);
      }
    }
  }

  /** An unmoved extension of a reservation repeats a promise of an earlier lease, which has run out. */
  lemma RenewalLeavesUngranted(
      r: Range, d: Data, p: Reservation, id: int, expected: int, renewed: int, reading: int)
    requires DataOk(r, d) && Covered(d, p.id, p.serial, p.expiry) && Ungranted(d, p)
    requires Extendable(d.rows, id, expected, reading) && id in d.serials && expected <= renewed
    requires expected == renewed ==> exists q :: q in d.log && IsPromise(q) && q.id == id && q.expiry == expected
    ensures Ungranted(UpdateStep(d, id, expected, renewed, reading), p)
  {
    if p.id == id && p.serial == d.serials[id] && p.expiry == renewed {
      var q :| q in d.log && IsPromise(q) && q.id == id && q.expiry == expected;
      assert PromiseOk(r, d, q);
    }
  }

  lemma RollbackKeepsData(r: Range, d: Data, t: nat, p: Reservation)
    requires DataOk(r, d) && TaskOk(r, d, t, RollingBack(p))
    ensures DataOk(r, d.(rows := DeleteIf(d.rows, p.id, Some(p.expiry))))
  {
    var d' := d.(rows := DeleteIf(d.rows, p.id, Some(p.expiry)));
    forall e | e in d.log && IsPromise(e) ensures PromiseOk(r, d', e) { assert PromiseOk(r, d, e); }
  }

  lemma RollbackKeepsTask(r: Range, d: Data, t: nat, p: Reservation, u: nat, task: Task)
    requires TaskOk(r, d, t, RollingBack(p))
    requires Pending(task).Some? ==> Pending(task).value.serial != p.serial
    ensures Undisturbed(r, d, d.(rows := DeleteIf(d.rows, p.id, Some(p.expiry))), u, task)
  {
  }

  /** Only the lock, the clock and refusals in the log differ. */
  ghost predicate Quiet(d: Data, d': Data) {
    && d' == d.(lock := d'.lock, now := d'.now, log := d'.log) && d.now <= d'.now
    && (d'.log == d.log || exists cutoff :: d'.log == d.log + [Refused(cutoff, d.now)])
  }

  lemma QuietKeepsData(r: Range, d: Data, d': Data)
    requires DataOk(r, d) && Quiet(d, d')
    ensures DataOk(r, d')
  {
    forall e | e in d'.log && IsPromise(e) ensures PromiseOk(r, d', e) { assert e in d.log && PromiseOk(r, d, e); }
    if d'.log != d.log {
      var cutoff :| d'.log == d.log + [Refused(cutoff, d.now)];
      Append(d.log, Refused(cutoff, d.now));
    }
  }

  lemma QuietKeepsTask(r: Range, d: Data, d': Data, u: nat, task: Task)
    requires Quiet(d, d') && (d'.lock == Some(u) <==> d.lock == Some(u))
    ensures Undisturbed(r, d, d', u, task)
  {
    assert forall e :: e in d'.log && IsPromise(e) ==> e in d.log;
  }

  /** The steps that write rows or extend the history. */
  predicate Writes(a: Action, task: Task) {
    match (a, task)
    case (Insert(_), Inserting(_, _)) => true
    case (Purge(_), Purging(_, _)) => true
    case (Sweep(_, ok), Sweeping(_)) => true
    case (Store(_, ok, _, _, _, _), StoringKeys(_)) => ok
    case (Rollback(_, ok), RollingBack(_)) => ok
    case (Update(_, ok), Extending(_, _, _, _)) => ok
    case _ => false
  }

  lemma OtherStepsAreQuiet(r: Range, d: Data, t: nat, task: Task, a: Action, u: nat)
    requires !Writes(a, task) && (Holds(task) <==> d.lock == Some(t))
    ensures var d' := TaskStep(r, d, t, task, a).0;
            Quiet(d, d') && (u != t ==> (d'.lock == Some(u) <==> d.lock == Some(u)))
  {
  }

  /** A task's step keeps the shared data in order. */
  lemma TaskStepKeepsData(r: Range, d: Data, t: nat, task: Task, a: Action)
    requires DataOk(r, d) && TaskOk(r, d, t, task)
    requires Steady(TaskStep(r, d, t, task, a).0.log)
    ensures DataOk(r, TaskStep(r, d, t, task, a).0)
  {
    if Writes(a, task) {
      hide DataOk;
      match task
      case Inserting(e, id) => InsertKeepsData(r, d, t, e, id);
      case Purging(e, cutoff) => DeleteExpiredKeeps(r, d, cutoff);
      case Sweeping(cutoff) => DeleteExpiredKeeps(r, d, cutoff);
      case StoringKeys(p) => StoreKeepsData(r, d, t, p, a.privateKey, a.publicKey, a.presharedKey, a.allowedIp);
      case RollingBack(p) => RollbackKeepsData(r, d, t, p);
      case Extending(id, expected, renewed, reading) => UpdateKeepsData(r, d, id, expected, renewed, reading);
    } else {
      OtherStepsAreQuiet(r, d, t, task, a, t);
      QuietKeepsData(r, d, TaskStep(r, d, t, task, a).0);
    }
  }

  /** The task goes where it may. */
  lemma TaskStepKeepsTask(r: Range, d: Data, t: nat, task: Task, a: Action)
    requires r.start <= r.end && DataOk(r, d) && TaskOk(r, d, t, task)
    ensures var (d', task') := TaskStep(r, d, t, task, a); TaskOk(r, d', t, task')
  {
    if a.Insert? && task.Inserting? {
      InsertKeepsData(r, d, t, task.expiry, task.id);
    } else {
      hide DataOk;
      FirstFreeIsLeast(d.rows, r.start, r.end);
    }
  }

  /** Nor does it disturb another task. */
  lemma TaskStepKeepsOthers(r: Range, d: Data, t: nat, task: Task, a: Action, u: nat, other: Task)
    requires DataOk(r, d) && TaskOk(r, d, t, task) && t != u
    requires Pending(task).Some? && Pending(other).Some? ==> Pending(task).value.serial != Pending(other).value.serial
    requires Steady(TaskStep(r, d, t, task, a).0.log)
    ensures Undisturbed(r, d, TaskStep(r, d, t, task, a).0, u, other)
  {
    if Writes(a, task) {
      match task
      case Inserting(e, id) => InsertKeepsTask(r, d, t, e, id, u, other);
      case Purging(e, cutoff) => DeleteExpiredKeeps(r, d, cutoff);
      case Sweeping(cutoff) => DeleteExpiredKeeps(r, d, cutoff);
      case StoringKeys(p) => StoreKeepsTask(r, d, u, other, p, a.privateKey, a.publicKey, a.presharedKey, a.allowedIp);
      case RollingBack(p) => RollbackKeepsTask(r, d, t, p, u, other);
      case Extending(id, expected, renewed, reading) => UpdateKeepsTask(r, d, u, other, id, expected, renewed, reading);
    } else {
      OtherStepsAreQuiet(r, d, t, task, a, u);
      QuietKeepsTask(r, d, TaskStep(r, d, t, task, a).0, u, other);
    }
  }

  /** A step passes a reservation on, or makes one with the next serial number. */
  lemma TaskStepSerial(r: Range, d: Data, t: nat, task: Task, a: Action)
    ensures var task' := TaskStep(r, d, t, task, a).1;
            Pending(task').Some? ==> Pending(task') == Pending(task) || Pending(task').value.serial == d.next
    ensures var d' := TaskStep(r, d, t, task, a).0;
            d'.lock == d.lock || d'.lock == None || d'.lock == Some(t)
  {
  }

  lemma TaskStepKeepsInv(r: Range, s: State, a: Action)
    requires r.start <= r.end && Inv(r, s) && Steady(Step(r, s, a).data.log)
    requires !a.Tick? && !a.Restart? && a.t in s.tasks
    ensures Inv(r, Step(r, s, a))
  {
    var d, t, task := s.data, a.t, s.tasks[a.t];
    var (d', task') := TaskStep(r, d, t, task, a);
    TaskStepKeepsData(r, d, t, task, a);
    TaskStepKeepsTask(r, d, t, task, a);
    TaskStepSerial(r, d, t, task, a);
    forall u | u in s.tasks && u != t
      ensures TaskOk(r, d', u, s.tasks[u])
      ensures Pending(s.tasks[u]).Some? ==> Pending(s.tasks[u]).value.serial < d.next
    {
      TaskStepKeepsOthers(r, d, t, task, a, u, s.tasks[u]);
      PendingSerialUsed(r, d, u, s.tasks[u]);
    }
    hide DataOk, TaskOk, TaskStep;
    assert Step(r, s, a) == State(d', s.tasks[t := task']);
  }

  lemma PendingSerialUsed(r: Range, d: Data, t: nat, task: Task)
    requires TaskOk(r, d, t, task)
    ensures Pending(task).Some? ==> Pending(task).value.serial < d.next
  {
  }

  lemma StartedIsOk(r: Range, d: Data, a: Action)
    requires Started(d, a).Some? && !a.Tick? && !a.Restart? && d.lock != Some(a.t)
    ensures TaskOk(r, d, a.t, Started(d, a).value) && Pending(Started(d, a).value) == None
  {
  }

  lemma StartKeepsInv(r: Range, s: State, a: Action)
    requires Inv(r, s) && !a.Tick? && !a.Restart? && a.t !in s.tasks
    ensures Inv(r, Step(r, s, a))
  {
    if Started(s.data, a).Some? { StartedIsOk(r, s.data, a); }
    hide DataOk, TaskOk, TaskStep, Started;
  }

  lemma QuietStepKeepsInv(r: Range, s: State, a: Action)
    requires Inv(r, s) && (a.Tick? || a.Restart?)
    ensures Inv(r, Step(r, s, a))
  {
    var s' := Step(r, s, a);
    QuietKeepsData(r, s.data, s'.data);
    forall u | u in s'.tasks ensures TaskOk(r, s'.data, u, s'.tasks[u]) {
      QuietKeepsTask(r, s.data, s'.data, u, s.tasks[u]);
    }
  }

  lemma {:induction false} StepKeepsInv(r: Range, s: State, a: Action)
    requires r.start <= r.end && Inv(r, s) && Steady(Step(r, s, a).data.log)
    ensures Inv(r, Step(r, s, a))
  {
    hide Inv, Step;
    if a.Tick? || a.Restart? {
      QuietStepKeepsInv(r, s, a);
    } else if a.t in s.tasks {
      TaskStepKeepsInv(r, s, a);
    } else {
      StartKeepsInv(r, s, a);
    }
  }
}
