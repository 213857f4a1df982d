/** The two SOCKS5 pools over one table, as a state machine: unlocked priority requests,
    non-priority requests with their unlocked pre-check and their locked turn, extensions and
    restarts interleave at every SQL statement and clock reading. `slots` is PRIORITY_SLOTS. `Step`
    is total: an action that is not enabled changes nothing. Rows are named by rank, their position
    in id order; usernames and passwords do not change during a run. */
module Socks5Pool {
  import opened Wrappers
  import opened Socks5Table

  /** Where a task is; the comment names what happens next. */
  datatype Task =
    | Choosing(expiry: int)                                   // priority: SELECT, pick one
    | Touching(expiry: int, rank: nat, username: string)      // priority: UPDATE expires_at
    | Counting(expiry: int)                                   // non-priority: the pre-check's SELECT COUNT
    | Tidying(expiry: int)                                    // read the clock for the pre-check's cleanup
    | Clearing(expiry: int, cutoff: int)                      // UPDATE expired rows, without the lock
    | Recounting(expiry: int, cutoff: int)                    // SELECT COUNT again
    | Queued(expiry: int)                                     // wait for the named lock
    | Probing(expiry: int)                                    // lock held: SELECT ... OFFSET
    | ReadingClock(expiry: int)                               // lock held: read the clock for the cleanup
    | Freeing(expiry: int, cutoff: int)                       // lock held: UPDATE expired rows
    | Reprobing(expiry: int, cutoff: int)                     // lock held: SELECT ... OFFSET again
    | Marking(expiry: int, rank: nat, username: string, password: string) // lock held: UPDATE available = FALSE
    | Unlocking                                               // lock held: drop the guard
    | Extending(username: string, expected: int, renewed: int, reading: int) // UPDATE expires_at
    | Finished

  datatype Event =
    | Shared(rank: nat, expiry: int, at: int)
    | Taken(serial: nat, rank: nat, expiry: int, at: int)
    | Extended(serial: nat, rank: nat, expiry: int, at: int, from: int, reading: int)

  /** What all tasks share. `serials`, `next` and `log` only record history. */
  datatype Data = Data(
    now: int,
    pool: Pool,
    lock: Option<nat>,          // the task holding "get_socks5_config"
    serials: map<nat, nat>,     // the serial number of the last exclusive grant of each rank
    next: nat,
    log: seq<Event>)

  datatype State = State(data: Data, tasks: map<nat, Task>)

  datatype Action =
    | Tick(ms: nat)
    | RequestShared(t: nat, seconds: int)
    | Request(t: nat, seconds: int)
    | Choose(t: nat, pick: nat)
    | TouchRow(t: nat)
    | Count(t: nat)
    | Acquire(t: nat)
    | TimeOut(t: nat)
    | Select(t: nat)
    | ReadClock(t: nat)
    | Free(t: nat)
    | Mark(t: nat)
    | Fail(t: nat)
    | Unlock(t: nat)
    | RequestExtension(t: nat, username: string, expected: int, requestedAt: int, seconds: int)
    | Update(t: nat)
    | Restart

  predicate Holds(task: Task) {
    task.Probing? || task.ReadingClock? || task.Freeing? || task.Reprobing? || task.Marking? || task.Unlocking?
  }

  function SelectStep(slots: nat, d: Data, task: Task): Task
    requires task.Probing? || task.Reprobing?
  {
    match ExclusiveRank(d.pool, slots)
    case Some(k) => Marking(task.expiry, k, d.pool[k].username, d.pool[k].password)
    case None => if task.Probing? then ReadingClock(task.expiry) else Unlocking
  }

  function CountStep(slots: nat, d: Data, task: Task): Task
    requires task.Counting? || task.Recounting?
  {
    if CountAvailable(d.pool, slots) > 0 then Queued(task.expiry)
    else if task.Counting? then Tidying(task.expiry) else Finished
  }

  function ChooseStep(slots: nat, d: Data, e: int, pick: nat): Task {
    var ranks := SharedRanks(d.pool, slots);
    if ranks == [] then Finished
    else
      var k := ranks[pick % |ranks|];
      Touching(e, k, d.pool[k].username)
  }

  function MarkStep(d: Data, e: int, k: nat, username: string, password: string): Data {
    d.(pool := MarkTaken(d.pool, username, password, e),
       serials := d.serials[k := d.next],
       next := d.next + 1,
       log := d.log + [Taken(d.next, k, e, d.now)])
  }

  function RankOf(pool: Pool, username: string): (rank: Option<nat>)
    ensures rank.Some? ==> rank.value < |pool| && pool[rank.value].username == username
    ensures rank.None? ==> forall i :: 0 <= i < |pool| ==> pool[i].username != username
  {
    if pool == [] then None
    else if pool[|pool| - 1].username == username then Some(|pool| - 1)
    else RankOf(pool[..|pool| - 1], username)
  }

  /** An extension of a row that was granted exclusively is recorded. */
  function UpdateStep(d: Data, username: string, expected: int, renewed: int, reading: int): Data {
    match RankOf(d.pool, username)
    case None => d
    case Some(k) =>
      if ExtendableRow(d.pool[k], username, expected, reading) then
        d.(pool := Extend(d.pool, username, expected, renewed, reading),
           log := if k in d.serials then d.log + [Extended(d.serials[k], k, renewed, d.now, expected, reading)]
               else d.log)
      else d
  }

  function TouchStep(d: Data, e: int, k: nat, username: string): Data {
    d.(pool := Touch(d.pool, username, e), log := d.log + [Shared(k, e, d.now)])
  }

  /** The step of task `t`, which is at `task`: the data it leaves and where it goes. */
  function TaskStep(slots: nat, d: Data, t: nat, task: Task, a: Action): (Data, Task) {
    match (a, task)
    case (Choose(_, pick), Choosing(e)) => (d, ChooseStep(slots, d, e, pick))
    case (TouchRow(_), Touching(e, k, username)) => (TouchStep(d, e, k, username), Finished)
    case (Count(_), Counting(_)) => (d, CountStep(slots, d, task))
    case (Count(_), Recounting(_, _)) => (d, CountStep(slots, d, task))
    case (ReadClock(_), Tidying(e)) => (d, Clearing(e, d.now))
    case (Free(_), Clearing(e, cutoff)) => (d.(pool := FreeExpired(d.pool, cutoff)), Recounting(e, cutoff))
    case (Acquire(_), Queued(e)) => if d.lock == None then (d.(lock := Some(t)), Probing(e)) else (d, task)
    case (TimeOut(_), Queued(_)) => (d, Finished)
    case (Select(_), Probing(_)) => (d, SelectStep(slots, d, task))
    case (Select(_), Reprobing(_, _)) => (d, SelectStep(slots, d, task))
    case (ReadClock(_), ReadingClock(e)) => (d, Freeing(e, d.now))
    case (Free(_), Freeing(e, cutoff)) => (d.(pool := FreeExpired(d.pool, cutoff)), Reprobing(e, cutoff))
    case (Mark(_), Marking(e, k, username, password)) => (MarkStep(d, e, k, username, password), Unlocking)
    case (Fail(_), _) => (d, if Holds(task) then Unlocking else Finished)
    case (Unlock(_), Unlocking) => (d.(lock := None), Finished)
    case (Update(_), Extending(username, expected, renewed, reading)) =>
      (UpdateStep(d, username, expected, renewed, reading), Finished)
    case _ => (d, task)
  }

  /** A task that an action starts. */
  function Started(d: Data, a: Action): Option<Task> {
    match a
    case RequestShared(_, seconds) => if seconds > 0 then Some(Choosing(d.now + seconds * 1000)) else None
    case Request(_, seconds) => if seconds > 0 then Some(Counting(d.now + seconds * 1000)) else None
    case RequestExtension(_, username, expected, requestedAt, seconds) =>
      if seconds > 0 && 0 <= requestedAt <= d.now
      then Some(Extending(username, expected, requestedAt + seconds * 1000, d.now)) else None
    case _ => None
  }

  function Step(slots: nat, s: State, a: Action): State {
    match a
    case Tick(ms) => s.(data := s.data.(now := s.data.now + ms))
    case Restart => State(s.data.(lock := None), map[])
    case _ =>
      if a.t in s.tasks then
        var (d, task) := TaskStep(slots, s.data, a.t, s.tasks[a.t], a);
        State(d, s.tasks[a.t := task])
      else
        match Started(s.data, a)
        case Some(task) => s.(tasks := s.tasks[a.t := task])
        case None => s
  }

  function Run(slots: nat, s: State, actions: seq<Action>): State
    decreases |actions|
  {
    if actions == [] then s else Step(slots, Run(slots, s, actions[..|actions| - 1]), actions[|actions| - 1])
  }

  /** A freshly generated table: every row available, none with an expiry. */
  predicate Init(s: State) {
    && s.tasks == map[] && s.data.lock == None && s.data.serials == map[] && s.data.log == [] && s.data.now >= 0
    && UsernamesDistinct(s.data.pool)
    && (forall i :: 0 <= i < |s.data.pool| ==> s.data.pool[i].available && s.data.pool[i].expiresAt == 0)
  }

  /** No extension of an exclusive row moved its expiry back. */
  ghost predicate NeverBack(log: seq<Event>) {
    forall e :: e in log && e.Extended? ==> e.from <= e.expiry
  }

  /** Every extension of an exclusive row moved its expiry strictly forward. */
  ghost predicate ForwardOnly(log: seq<Event>) {
    forall e :: e in log && e.Extended? ==> e.from < e.expiry
  }

  /** The UPDATE of every such extension ran at most `lag` milliseconds after its clock reading. */
  ghost predicate LaggedBy(log: seq<Event>, lag: int) {
    forall e :: e in log && e.Extended? ==> e.at - e.reading <= lag
  }

  /** The credential is the client's alone until `expiry` as far as the client was told. */
  predicate IsPromise(e: Event) { e.Taken? || e.Extended? }

  /** An earlier promise told the client the very pair that extension `i` presents. */
  ghost predicate PairTold(log: seq<Event>, i: nat)
    requires i < |log| && log[i].Extended?
  {
    exists j :: 0 <= j < i && IsPromise(log[j]) && log[j].rank == log[i].rank && log[j].expiry == log[i].from
  }

  /** Clients present only pairs the API returned. */
  ghost predicate OnlyTold(log: seq<Event>) {
    forall i :: 0 <= i < |log| && log[i].Extended? ==> PairTold(log, i)
  }

  /** Clients behave: they extend forward, and only pairs they were told. */
  ghost predicate Honest(log: seq<Event>) { ForwardOnly(log) && OnlyTold(log) }
}
