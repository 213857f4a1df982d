/** Disjointness and exclusivity of the SOCKS5 pools over every interleaving. */
module Socks5PoolProofs {
  import opened Wrappers
  import opened Socks5Table
  import opened Socks5Pool

  // ----- one row at a time -----

  lemma TouchAt(pool: Pool, k: nat, e: int)
    requires UsernamesDistinct(pool) && k < |pool|
    ensures Touch(pool, pool[k].username, e) == pool[k := pool[k].(expiresAt := e)]
  {
  }

  lemma ExtendAt(pool: Pool, k: nat, expected: int, renewed: int, now: int)
    requires UsernamesDistinct(pool) && k < |pool| && ExtendableRow(pool[k], pool[k].username, expected, now)
    ensures Extend(pool, pool[k].username, expected, renewed, now) == pool[k := pool[k].(expiresAt := renewed)]
  {
  }

  // ----- the invariant of every run -----

  /** The rank invariant, and where the history variables stand. */
  ghost predicate RowsOk(slots: nat, d: Data) {
    && d.now >= 0 && UsernamesDistinct(d.pool) && RanksOk(d.pool, slots)
    && (forall k :: k in d.serials ==> slots <= k && d.serials[k] < d.next)
    && (forall i :: 0 <= i < |d.pool| && !d.pool[i].available ==> i in d.serials)
  }

  predicate EventOk(slots: nat, e: Event) {
    match e
    case Shared(rank, _, _) => rank < slots
    case Taken(_, rank, _, _) => slots <= rank
    case Extended(_, rank, _, _, from, reading) => slots <= rank && reading < from
  }

  ghost predicate LogOk(slots: nat, log: seq<Event>) {
    forall e :: e in log ==> EventOk(slots, e)
  }

  /** A shared row in hand has a rank below `slots`; an exclusive one a rank from `slots` on, and it
      is still free when it is marked, because only the lock's holder marks. Clock readings lie in
      the past. */
  ghost predicate TaskOk(slots: nat, d: Data, t: nat, task: Task) {
    && (Holds(task) <==> d.lock == Some(t))
    && match task
       case Touching(e, k, username) => e > 0 && k < slots && k < |d.pool| && d.pool[k].username == username
       case Freeing(e, cutoff) => e > 0 && cutoff <= d.now
       case Clearing(e, cutoff) => e > 0 && cutoff <= d.now
       case Marking(e, k, username, password) =>
         && e > 0 && slots <= k < |d.pool| && d.pool[k].available
         && d.pool[k].username == username && d.pool[k].password == password
       case Extending(_, _, renewed, reading) => renewed > 0 && 0 <= reading <= d.now
       case Unlocking => true
       case Finished => true
       case _ => task.expiry > 0
  }

  ghost predicate Inv(slots: nat, s: State) {
    && RowsOk(slots, s.data) && LogOk(slots, s.data.log)
    && (forall t :: t in s.tasks ==> TaskOk(slots, s.data, t, s.tasks[t]))
    && (s.data.lock.Some? ==> s.data.lock.value in s.tasks)
  }

  /** No row changes its identity. */
  ghost predicate SameRows(pool: Pool, pool': Pool) {
    && |pool'| == |pool|
    && forall i :: 0 <= i < |pool| ==> pool'[i].username == pool[i].username && pool'[i].password == pool[i].password
  }

  /** Nor is an available row taken. */
  ghost predicate StaysFree(pool: Pool, pool': Pool) {
    && SameRows(pool, pool')
    && forall i :: 0 <= i < |pool| && pool[i].available ==> pool'[i].available
  }

  // ----- the statements keep it -----

  lemma FreeKeeps(slots: nat, d: Data, cutoff: int)
    requires RowsOk(slots, d)
    ensures RowsOk(slots, d.(pool := FreeExpired(d.pool, cutoff))) && StaysFree(d.pool, FreeExpired(d.pool, cutoff))
  {
    FreeExpiredKeepsRanksOk(d.pool, slots, cutoff);
  }

  /** Row `k` may become `c`. */
  predicate MayBecome(slots: nat, pool: Pool, k: nat, c: Credential) {
    && k < |pool| && c.username == pool[k].username && c.password == pool[k].password
    && (if k < slots then c.available else c.expiresAt >= 0 && (c.available <==> c.expiresAt == 0))
  }

  lemma RowKeeps(slots: nat, d: Data, k: nat, c: Credential)
    requires RowsOk(slots, d) && MayBecome(slots, d.pool, k, c) && (!c.available ==> k in d.serials)
    ensures RowsOk(slots, d.(pool := d.pool[k := c])) && SameRows(d.pool, d.pool[k := c])
    ensures c.available == d.pool[k].available ==> StaysFree(d.pool, d.pool[k := c])
  {
  }

  lemma TouchKeeps(slots: nat, d: Data, t: nat, e: int, k: nat, username: string)
    requires RowsOk(slots, d) && LogOk(slots, d.log) && TaskOk(slots, d, t, Touching(e, k, username))
    ensures var d' := TouchStep(d, e, k, username);
            RowsOk(slots, d') && LogOk(slots, d'.log) && StaysFree(d.pool, d'.pool)
  {
    TouchAt(d.pool, k, e);
    RowKeeps(slots, d, k, d.pool[k].(expiresAt := e));
    hide Touch, RanksOk, UsernamesDistinct;
  }

  lemma MarkKeeps(slots: nat, d: Data, t: nat, e: int, k: nat, username: string, password: string)
    requires RowsOk(slots, d) && LogOk(slots, d.log) && TaskOk(slots, d, t, Marking(e, k, username, password))
    ensures var d' := MarkStep(d, e, k, username, password);
            RowsOk(slots, d') && LogOk(slots, d'.log) && SameRows(d.pool, d'.pool)
  {
    MarkTakenAt(d.pool, k, e);
    RowKeeps(slots, d.(serials := d.serials[k := d.next], next := d.next + 1), k,
        d.pool[k].(available := false, expiresAt := e));
    hide MarkTaken, RanksOk, UsernamesDistinct;
  }

  /** Row `k` with its new expiry, and the extension in the log if the row is out exclusively. */
  function Renewed(d: Data, k: nat, renewed: int, reading: int): Data
    requires k < |d.pool|
  {
    var d' := d.(pool := d.pool[k := d.pool[k].(expiresAt := renewed)]);
    if k in d.serials
    then d'.(log := d.log + [Extended(d.serials[k], k, renewed, d.now, d.pool[k].expiresAt, reading)])
    else d'
  }

  lemma UpdateIsRenewed(d: Data, username: string, expected: int, renewed: int, reading: int)
    requires UsernamesDistinct(d.pool)
    ensures var d' := UpdateStep(d, username, expected, renewed, reading);
            || d' == d
            || exists k: nat ::
                 k < |d.pool| && reading < d.pool[k].expiresAt && d' == Renewed(d, k, renewed, reading)
  {
    var k := RankOf(d.pool, username);
    if k.Some? && ExtendableRow(d.pool[k.value], username, expected, reading) {
      ExtendAt(d.pool, k.value, expected, renewed, reading);
      hide Extend;
      assert UpdateStep(d, username, expected, renewed, reading) == Renewed(d, k.value, renewed, reading);
    }
  }

  lemma RenewedKeeps(slots: nat, d: Data, k: nat, renewed: int, reading: int)
    requires RowsOk(slots, d) && LogOk(slots, d.log) && k < |d.pool|
    requires 0 <= reading < d.pool[k].expiresAt && renewed > 0
    ensures var d' := Renewed(d, k, renewed, reading);
            RowsOk(slots, d') && LogOk(slots, d'.log) && StaysFree(d.pool, d'.pool)
  {
    RowKeeps(slots, d, k, d.pool[k].(expiresAt := renewed));
    hide RanksOk, UsernamesDistinct;
  }

  lemma UpdateKeeps(slots: nat, d: Data, username: string, expected: int, renewed: int, reading: int)
    requires RowsOk(slots, d) && LogOk(slots, d.log) && reading >= 0 && renewed > 0
    ensures var d' := UpdateStep(d, username, expected, renewed, reading);
            RowsOk(slots, d') && LogOk(slots, d'.log) && StaysFree(d.pool, d'.pool)
  {
    UpdateIsRenewed(d, username, expected, renewed, reading);
    var d' := UpdateStep(d, username, expected, renewed, reading);
    hide UpdateStep, RowsOk, LogOk, Renewed;
    if d' != d {
      var k: nat :| k < |d.pool| && reading < d.pool[k].expiresAt && d' == Renewed(d, k, renewed, reading);
      RenewedKeeps(slots, d, k, renewed, reading);
    }
  }

  predicate Writes(a: Action, task: Task) {
    match (a, task)
    case (TouchRow(_), Touching(_, _, _)) => true
    case (Free(_), Freeing(_, _)) => true
    case (Free(_), Clearing(_, _)) => true
    case (Mark(_), Marking(_, _, _, _)) => true
    case (Update(_), Extending(_, _, _, _)) => true
    case _ => false
  }

  lemma OtherStepsAreQuiet(slots: nat, d: Data, t: nat, task: Task, a: Action)
    ensures var d' := TaskStep(slots, d, t, task, a).0;
            && d'.now == d.now
            && (d'.lock == d.lock || (task.Queued? && d.lock == None && d'.lock == Some(t))
               || (task.Unlocking? && d'.lock == None))
            && (!Writes(a, task) ==> d' == d.(lock := d'.lock))
  {
  }

  /** One task's step keeps the rows and the log in order. */
  lemma TaskStepKeepsData(slots: nat, d: Data, t: nat, task: Task, a: Action)
    requires RowsOk(slots, d) && LogOk(slots, d.log) && TaskOk(slots, d, t, task)
    ensures var d' := TaskStep(slots, d, t, task, a).0;
            && RowsOk(slots, d') && LogOk(slots, d'.log) && SameRows(d.pool, d'.pool)
            && (!task.Marking? ==> StaysFree(d.pool, d'.pool))
  {
    if Writes(a, task) {
      hide RowsOk, LogOk, TouchStep, MarkStep, UpdateStep;
      match task
      case Touching(e, k, username) => TouchKeeps(slots, d, t, e, k, username);
      case Freeing(e, cutoff) => FreeKeeps(slots, d, cutoff);
      case Clearing(e, cutoff) => FreeKeeps(slots, d, cutoff);
      case Marking(e, k, username, password) => MarkKeeps(slots, d, t, e, k, username, password);
      case Extending(username, expected, renewed, reading) =>
        UpdateKeeps(slots, d, username, expected, renewed, reading);
    } else {
      OtherStepsAreQuiet(slots, d, t, task, a);
      hide TaskStep;
    }
  }

  /** The queries hand out shared and exclusive ranks as they should. */
  lemma ChooseKeeps(slots: nat, d: Data, t: nat, e: int, pick: nat)
    requires RowsOk(slots, d) && TaskOk(slots, d, t, Choosing(e))
    ensures TaskOk(slots, d, t, ChooseStep(slots, d, e, pick))
  {
    QueriesAreDisjoint(d.pool, slots);
    hide UsernamesDistinct, SharedRanks, ExclusiveRank;
  }

  lemma SelectKeeps(slots: nat, d: Data, t: nat, task: Task)
    requires RowsOk(slots, d) && TaskOk(slots, d, t, task) && (task.Probing? || task.Reprobing?)
    ensures TaskOk(slots, d, t, SelectStep(slots, d, task))
  {
    QueriesAreDisjoint(d.pool, slots);
    hide UsernamesDistinct, SharedRanks, ExclusiveRank;
  }

  lemma WriteKeepsTask(slots: nat, d: Data, t: nat, task: Task, a: Action)
    requires TaskOk(slots, d, t, task) && Writes(a, task)
    ensures var (d', task') := TaskStep(slots, d, t, task, a); TaskOk(slots, d', t, task')
  {
    hide UpdateStep, TouchStep, MarkStep, FreeExpired;
    OtherStepsAreQuiet(slots, d, t, task, a);
  }

  lemma QuietKeepsTask(slots: nat, d: Data, t: nat, task: Task, a: Action)
    requires TaskOk(slots, d, t, task) && !Writes(a, task) && !a.Choose? && !a.Select?
    ensures var (d', task') := TaskStep(slots, d, t, task, a); TaskOk(slots, d', t, task')
  {
  }

  /** The task goes where it may. */
  lemma TaskStepKeepsTask(slots: nat, d: Data, t: nat, task: Task, a: Action)
    requires RowsOk(slots, d) && TaskOk(slots, d, t, task)
    ensures var (d', task') := TaskStep(slots, d, t, task, a); TaskOk(slots, d', t, task')
  {
    if a.Choose? {
      if task.Choosing? { ChooseKeeps(slots, d, t, task.expiry, a.pick); }
    } else if a.Select? {
      if task.Probing? || task.Reprobing? { SelectKeeps(slots, d, t, task); }
    } else if Writes(a, task) {
      WriteKeepsTask(slots, d, t, task, a);
    } else {
      QuietKeepsTask(slots, d, t, task, a);
    }
  }

  lemma OthersUndisturbed(slots: nat, d: Data, d': Data, t: nat, task: Task, u: nat, other: Task)
    requires TaskOk(slots, d, t, task) && TaskOk(slots, d, u, other) && t != u
    requires d'.now == d.now && SameRows(d.pool, d'.pool) && (!task.Marking? ==> StaysFree(d.pool, d'.pool))
    requires d'.lock == d.lock || (task.Queued? && d.lock == None && d'.lock == Some(t))
             || (task.Unlocking? && d'.lock == None)
    ensures TaskOk(slots, d', u, other)
  {
  }

  lemma TaskStepKeepsInv(slots: nat, s: State, a: Action)
    requires Inv(slots, s) && !a.Tick? && !a.Restart? && a.t in s.tasks
    ensures Inv(slots, Step(slots, s, a))
  {
    var d, task := s.data, s.tasks[a.t];
    var (d', task') := TaskStep(slots, d, a.t, task, a);
    TaskStepKeepsData(slots, d, a.t, task, a);
    TaskStepKeepsTask(slots, d, a.t, task, a);
    OtherStepsAreQuiet(slots, d, a.t, task, a);
    assert Step(slots, s, a) == State(d', s.tasks[a.t := task']) by { hide TaskStep, RowsOk, LogOk, TaskOk; }
    hide RowsOk, LogOk, TaskOk, Step, TaskStep, SameRows, StaysFree, Writes;
    forall u | u in s.tasks && u != a.t ensures TaskOk(slots, d', u, s.tasks[u]) {
      OthersUndisturbed(slots, d, d', a.t, task, u, s.tasks[u]);
    }
  }

  lemma {:induction false} StepKeepsInv(slots: nat, s: State, a: Action)
    requires Inv(slots, s)
    ensures Inv(slots, Step(slots, s, a))
  {
    if !a.Tick? && !a.Restart? && a.t in s.tasks {
      TaskStepKeepsInv(slots, s, a);
    } else {
      hide TaskStep, RanksOk, UsernamesDistinct, LogOk;
    }
  }

  lemma {:induction false} RunKeepsInv(slots: nat, s: State, actions: seq<Action>)
    requires Init(s)
    ensures Inv(slots, Run(slots, s, actions))
    decreases |actions|
  {
    if actions != [] {
      RunKeepsInv(slots, s, actions[..|actions| - 1]);
      StepKeepsInv(slots, Run(slots, s, actions[..|actions| - 1]), actions[|actions| - 1]);
    }
  }
}
