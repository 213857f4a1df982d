/** The WireGuard lease protocol as a state machine. Any number of requests, extensions, daemon
    ticks and restarts interleave; every SQL statement, every clock reading and every step of the
    named lock is a step of its own, so a clock reading may be stale when the statement that uses
    it runs. `Step` is total: an action that is not enabled changes nothing. */
module LeaseProtocol {
  import opened Wrappers
  import opened LeaseTable

  /** The ids `start..end` that `allocate_wireguard` asks for. */
  datatype Range = Range(start: int, end: int) {
    predicate Contains(id: int) { start <= id <= end }
  }

  /** A row reserved by a request: its id, the serial number of the INSERT, and its expiry. */
  datatype Reservation = Reservation(id: int, serial: nat, expiry: int)

  /** Where a task is; the comment names what happens next. */
  datatype Task =
    | Queued(expiry: int)                        // wait for the named lock
    | Probing(expiry: int)                       // lock held: SELECT the first free id
    | Inserting(expiry: int, id: int)            // lock held: INSERT
    | ReadingClock(expiry: int)                  // lock held: read the clock for the purge
    | Purging(expiry: int, cutoff: int)          // lock held: DELETE expired rows
    | Reprobing(expiry: int, cutoff: int)        // lock held: SELECT again
    | Unlocking(outcome: Option<Reservation>)    // lock held: drop the guard
    | AddingPeer(reserved: Reservation)          // add the peer to the interface
    | StoringKeys(reserved: Reservation)         // UPDATE the keys
    | RollingBack(reserved: Reservation)         // DELETE the reservation
    | Extending(id: int, expected: int, renewed: int, reading: int) // UPDATE expires_at
    | Sweeping(cutoff: int)                      // daemon: DELETE expired rows
    | Finished

  /** What happened, in order; `at` is the clock when it happened. */
  datatype Event =
    | Issued(serial: nat, id: int, expiry: int, at: int)    // a row was inserted
    | Granted(serial: nat, id: int, expiry: int, at: int)   // the lease went out to a client
    | Extended(serial: nat, id: int, expiry: int, at: int, from: int, reading: int)
    | Refused(cutoff: int, at: int)                         // LeaseUnavailable

  /** What all tasks share: the clock, the table, the named lock. `serials`, `next` and `log` only
      record history: every row has a serial number, so they never decide what a step does. */
  datatype Data = Data(
    now: int,
    rows: Rows,
    lock: Option<nat>,          // the task holding "register_wireguard_lease"
    serials: map<int, nat>,     // the serial number of the last INSERT of each id
    next: nat,                  // the next serial number
    log: seq<Event>)

  datatype State = State(data: Data, tasks: map<nat, Task>)

  datatype Action =
    | Tick(ms: nat)
    | Request(t: nat, seconds: int)
    | Acquire(t: nat)
    | TimeOut(t: nat)
    | Select(t: nat)
    | Insert(t: nat)
    | ReadClock(t: nat)
    | Purge(t: nat)
    | Fail(t: nat)
    | Unlock(t: nat)
    | AddPeer(t: nat, ok: bool)
    | Store(t: nat, ok: bool, privateKey: string, publicKey: string, presharedKey: string, allowedIp: string)
    | Rollback(t: nat, ok: bool)
    | RequestExtension(t: nat, id: int, expected: int, requestedAt: int, seconds: int)
    | Update(t: nat, ok: bool)
    | StartSweep(t: nat)
    | Sweep(t: nat, ok: bool)
    | Restart

  predicate Holds(task: Task) {
    task.Probing? || task.Inserting? || task.ReadingClock? || task.Purging? || task.Reprobing? || task.Unlocking?
  }

  function SelectStep(r: Range, d: Data, task: Task): (Data, Task) {
    match (task, FirstFree(d.rows, r.start, r.end))
    case (Probing(e), Some(id)) => (d, Inserting(e, id))
    case (Probing(e), None) => (d, ReadingClock(e))
    case (Reprobing(e, _), Some(id)) => (d, Inserting(e, id))
    case (Reprobing(_, cutoff), None) => (d.(log := d.log + [Refused(cutoff, d.now)]), Unlocking(None))
    case _ => (d, task)
  }

  function InsertStep(d: Data, e: int, id: int): (Data, Task) {
    (d.(rows := Upsert(d.rows, id, e),
        serials := d.serials[id := d.next],
        next := d.next + 1,
        log := d.log + [Issued(d.next, id, e, d.now)]),
     Unlocking(Some(Reservation(id, d.next, e))))
  }

  function StoreStep(
      d: Data, p: Reservation, privateKey: string, publicKey: string, presharedKey: string, allowedIp: string): Data {
    d.(rows := StoreKeys(d.rows, p.id, privateKey, publicKey, presharedKey, allowedIp),
       log := d.log + [Granted(p.serial, p.id, p.expiry, d.now)])
  }

  function UpdateStep(d: Data, id: int, expected: int, renewed: int, reading: int): Data {
    if Extendable(d.rows, id, expected, reading) && id in d.serials then
      d.(rows := Extend(d.rows, id, expected, renewed, reading),
         log := d.log + [Extended(d.serials[id], id, renewed, d.now, expected, reading)])
    else d
  }

  /** The step of task `t`, which is at `task`: the data it leaves and where it goes. */
  function TaskStep(r: Range, d: Data, t: nat, task: Task, a: Action): (Data, Task) {
    match (a, task)
    case (Acquire(_), Queued(e)) => if d.lock == None then (d.(lock := Some(t)), Probing(e)) else (d, task)
    case (TimeOut(_), Queued(_)) => (d, Finished)
    case (Select(_), _) => SelectStep(r, d, task)
    case (Insert(_), Inserting(e, id)) => InsertStep(d, e, id)
    case (ReadClock(_), ReadingClock(e)) => (d, Purging(e, d.now))
    case (Purge(_), Purging(e, cutoff)) => (d.(rows := DeleteExpired(d.rows, cutoff)), Reprobing(e, cutoff))
    case (Fail(_), Unlocking(_)) => (d, task)
    case (Fail(_), _) => if Holds(task) then (d, Unlocking(None)) else (d, task)
    case (Unlock(_), Unlocking(None)) => (d.(lock := None), Finished)
    case (Unlock(_), Unlocking(Some(p))) => (d.(lock := None), AddingPeer(p))
    case (AddPeer(_, ok), AddingPeer(p)) => (d, if ok then StoringKeys(p) else RollingBack(p))
    case (Store(_, ok, privateKey, publicKey, presharedKey, allowedIp), StoringKeys(p)) =>
      if ok then (StoreStep(d, p, privateKey, publicKey, presharedKey, allowedIp), Finished) else (d, RollingBack(p))
    case (Rollback(_, ok), RollingBack(p)) =>
      (if ok then d.(rows := DeleteIf(d.rows, p.id, Some(p.expiry))) else d, Finished)
    case (Update(_, ok), Extending(id, expected, renewed, reading)) =>
      (if ok then UpdateStep(d, id, expected, renewed, reading) else d, Finished)
    case (Sweep(_, ok), Sweeping(cutoff)) => (if ok then d.(rows := DeleteExpired(d.rows, cutoff)) else d, Finished)
    case _ => (d, task)
  }

  /** A task that an action starts. */
  function Started(d: Data, a: Action): Option<Task> {
    match a
    case Request(_, seconds) => if seconds > 0 then Some(Queued(d.now + seconds * 1000)) else None
    case RequestExtension(_, id, expected, requestedAt, seconds) =>
      if seconds > 0 && requestedAt <= d.now
      then Some(Extending(id, expected, requestedAt + seconds * 1000, d.now)) else None
    case StartSweep(_) => Some(Sweeping(d.now))
    case _ => None
  }

  function Step(r: Range, s: State, a: Action): State {
    match a
    case Tick(ms) => s.(data := s.data.(now := s.data.now + ms))
    case Restart => State(s.data.(lock := None), map[])
    case _ =>
      if a.t in s.tasks then
        var (d, task) := TaskStep(r, s.data, a.t, s.tasks[a.t], a);
        State(d, s.tasks[a.t := task])
      else
        match Started(s.data, a)
        case Some(task) => s.(tasks := s.tasks[a.t := task])
        case None => s
  }

  /** The state after a sequence of actions. */
  function Run(r: Range, s: State, actions: seq<Action>): State
    decreases |actions|
  {
    if actions == [] then s else Step(r, Run(r, s, actions[..|actions| - 1]), actions[|actions| - 1])
  }

  /** The lease runs until `expiry` as far as the client was told. */
  predicate IsPromise(e: Event) { e.Granted? || e.Extended? }

  /** The row of `id` is still the one inserted under this serial number. */
  predicate Current(d: Data, id: int, serial: nat) {
    id in d.rows && id in d.serials && d.serials[id] == serial
  }

  /** While a lease's own row is there it lasts at least as long; once it is not, the lease has
      strictly run out. */
  predicate Covered(d: Data, id: int, serial: nat, expiry: int) {
    if Current(d, id, serial) then expiry <= d.rows[id].expiresAt else expiry < d.now
  }

  /** A fresh process over any table whose ids are in range. The log holds grants of earlier
      processes: as many as one likes, each covered by its row or run out. */
  predicate Init(r: Range, s: State) {
    && s.tasks == map[] && s.data.lock == None
    && (forall id :: id in s.data.rows ==> r.Contains(id) && id in s.data.serials)
    && (forall id :: id in s.data.serials ==> s.data.serials[id] < s.data.next)
    && (forall e :: e in s.data.log ==>
          e.Granted? && r.Contains(e.id) && e.serial < s.data.next && Covered(s.data, e.id, e.serial, e.expiry))
  }

  // ----- what may be known of the extensions in a run -----

  /** Every extension moved the expiry strictly forward. */
  ghost predicate ForwardOnly(log: seq<Event>) {
    forall i :: 0 <= i < |log| && log[i].Extended? ==> log[i].from < log[i].expiry
  }

  /** No extension moved the expiry back. */
  ghost predicate NeverBack(log: seq<Event>) {
    forall i :: 0 <= i < |log| && log[i].Extended? ==> log[i].from <= log[i].expiry
  }

  /** The client got the token for the id of extension `i` with an earlier promise. */
  ghost predicate TokenHeld(log: seq<Event>, i: nat)
    requires i < |log| && log[i].Extended?
  {
    exists j :: 0 <= j < i && IsPromise(log[j]) && log[j].id == log[i].id
  }

  /** An earlier promise told the client the very pair that extension `i` presents. */
  ghost predicate PairTold(log: seq<Event>, i: nat)
    requires i < |log| && log[i].Extended?
  {
    exists j :: 0 <= j < i && IsPromise(log[j]) && log[j].id == log[i].id && log[j].expiry == log[i].from
  }

  /** Every extension came from a client that had a token for the id. */
  ghost predicate OnlyTokenHolders(log: seq<Event>) {
    forall i :: 0 <= i < |log| && log[i].Extended? ==> TokenHeld(log, i)
  }

  /** Clients present only pairs the API returned. */
  ghost predicate OnlyTold(log: seq<Event>) {
    forall i :: 0 <= i < |log| && log[i].Extended? ==> PairTold(log, i)
  }

  /** No extension moved back, and one that did not move presented a pair its client was told. */
  ghost predicate Steady(log: seq<Event>) {
    forall i :: 0 <= i < |log| && log[i].Extended? ==>
      log[i].from <= log[i].expiry && (log[i].from == log[i].expiry ==> PairTold(log, i))
  }

  /** Every extension's UPDATE ran at most `lag` milliseconds after its clock reading. */
  ghost predicate LaggedBy(log: seq<Event>, lag: int) {
    forall i :: 0 <= i < |log| && log[i].Extended? ==> log[i].at - log[i].reading <= lag
  }
}
