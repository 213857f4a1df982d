/** When the exclusive pool refuses a request, in every interleaving. */
module Socks5PoolRefusals {
  import opened Socks5Table
  import opened Socks5Pool
  import opened Socks5PoolProofs
  import opened Socks5PoolTheorems

  /** The row of rank `k` is out on a grant made at or after `cutoff`. */
  ghost predicate TakenSince(d: Data, k: nat, cutoff: int) {
    exists e :: e in d.log && e.Taken? && e.rank == k && e.at >= cutoff && k in d.serials && d.serials[k] == e.serial
  }

  /** Row `k` outlasts the cleanup at `cutoff`: it is free or expires later. */
  predicate Outlasts(pool: Pool, k: nat, cutoff: int)
    requires k < |pool|
  {
    pool[k].available || pool[k].expiresAt > cutoff
  }

  /** What a task knows after its cleanup. Under the lock nobody takes a row in between; in the
      pre-check others may, and what they take may have expired while they waited for the lock. */
  ghost predicate CleanupHolds(slots: nat, d: Data, task: Task) {
    && (task.Reprobing? ==> forall k: nat :: slots <= k < |d.pool| ==> Outlasts(d.pool, k, task.cutoff))
    && (task.Recounting? ==>
          && task.cutoff <= d.now
          && forall k: nat :: slots <= k < |d.pool| ==>
               Outlasts(d.pool, k, task.cutoff) || TakenSince(d, k, task.cutoff))
  }

  lemma FreedOutlasts(slots: nat, d: Data, cutoff: int, task: Task)
    requires RowsOk(slots, d) && cutoff <= d.now
    requires task.Reprobing? || task.Recounting? ==> task.cutoff == cutoff
    ensures CleanupHolds(slots, d.(pool := FreeExpired(d.pool, cutoff)), task)
  {
    hide UsernamesDistinct;
  }

  /** A statement of another task that changes the rows. */
  lemma WriteKeepsCleanup(slots: nat, d: Data, t: nat, task: Task, a: Action, other: Task)
    requires RowsOk(slots, d) && TaskOk(slots, d, t, task) && Writes(a, task)
    requires NeverBack(TaskStep(slots, d, t, task, a).0.log)
    requires other.Reprobing? ==> !task.Marking?
    requires CleanupHolds(slots, d, other)
    ensures CleanupHolds(slots, TaskStep(slots, d, t, task, a).0, other)
  {
    match task
    case Touching(e, k, username) => TouchKeepsCleanup(slots, d, e, k, username, other);
    case Freeing(e, cutoff) => FreeKeepsCleanup(slots, d, cutoff, other);
    case Clearing(e, cutoff) => FreeKeepsCleanup(slots, d, cutoff, other);
    case Marking(e, k, username, password) => MarkKeepsCleanup(slots, d, e, k, username, password, other);
    case Extending(username, expected, renewed, reading) =>
      UpdateKeepsCleanup(slots, d, username, expected, renewed, reading, other);
  }

  lemma TakenStays(d: Data, d': Data, k: nat, cutoff: int)
    requires TakenSince(d, k, cutoff) && d.log <= d'.log && k in d'.serials && d'.serials[k] == d.serials[k]
    ensures TakenSince(d', k, cutoff)
  {
    var e :| e in d.log && e.Taken? && e.rank == k && e.at >= cutoff && k in d.serials && d.serials[k] == e.serial;
    assert e in d'.log;
  }

  /** Rows that outlast the cleanup go on doing so, and grants are not forgotten. */
  lemma CleanupStays(slots: nat, d: Data, d': Data, other: Task)
    requires CleanupHolds(slots, d, other) && |d'.pool| == |d.pool| && d.log <= d'.log && d.now <= d'.now
    requires forall k :: k in d.serials ==> k in d'.serials && d'.serials[k] == d.serials[k]
    requires forall k :: slots <= k < |d.pool| ==>
               d'.pool[k].available || (!d.pool[k].available && d.pool[k].expiresAt <= d'.pool[k].expiresAt)
    ensures CleanupHolds(slots, d', other)
  {
    if other.Reprobing? || other.Recounting? {
      forall k: nat | slots <= k < |d.pool|
        ensures Outlasts(d.pool, k, other.cutoff) ==> Outlasts(d'.pool, k, other.cutoff)
        ensures TakenSince(d, k, other.cutoff) ==> TakenSince(d', k, other.cutoff)
      {
        if TakenSince(d, k, other.cutoff) { TakenStays(d, d', k, other.cutoff); }
      }
    }
  }

  lemma TouchKeepsCleanup(slots: nat, d: Data, e: int, k: nat, username: string, other: Task)
    requires RowsOk(slots, d) && k < slots && k < |d.pool| && d.pool[k].username == username
    requires CleanupHolds(slots, d, other)
    ensures CleanupHolds(slots, TouchStep(d, e, k, username), other)
  {
    TouchAt(d.pool, k, e);
    hide Touch, RowsOk, CleanupHolds;
    CleanupStays(slots, d, TouchStep(d, e, k, username), other);
  }

  lemma FreeKeepsCleanup(slots: nat, d: Data, cutoff: int, other: Task)
    requires CleanupHolds(slots, d, other)
    ensures CleanupHolds(slots, d.(pool := FreeExpired(d.pool, cutoff)), other)
  {
    hide CleanupHolds;
    CleanupStays(slots, d, d.(pool := FreeExpired(d.pool, cutoff)), other);
  }

  lemma MarkKeepsCleanup(slots: nat, d: Data, e: int, k: nat, username: string, password: string, other: Task)
    requires RowsOk(slots, d) && k < |d.pool| && d.pool[k].username == username && d.pool[k].password == password
    requires CleanupHolds(slots, d, other) && !other.Reprobing?
    ensures CleanupHolds(slots, MarkStep(d, e, k, username, password), other)
  {
    var d' := MarkStep(d, e, k, username, password);
    MarkTakenAt(d.pool, k, e);
    hide MarkTaken, RowsOk;
    if other.Recounting? {
      var taken := Taken(d.next, k, e, d.now);
      assert taken in d'.log;
      forall i: nat | slots <= i < |d'.pool|
        ensures Outlasts(d'.pool, i, other.cutoff) || TakenSince(d', i, other.cutoff)
      {
        if i != k && TakenSince(d, i, other.cutoff) { TakenStays(d, d', i, other.cutoff); }
      }
    }
  }

  lemma UpdateKeepsCleanup(
      slots: nat, d: Data, username: string, expected: int, renewed: int, reading: int, other: Task)
    requires RowsOk(slots, d) && reading >= 0 && NeverBack(UpdateStep(d, username, expected, renewed, reading).log)
    requires CleanupHolds(slots, d, other)
    ensures CleanupHolds(slots, UpdateStep(d, username, expected, renewed, reading), other)
  {
    UpdateIsRenewed(d, username, expected, renewed, reading);
    var d' := UpdateStep(d, username, expected, renewed, reading);
    hide UpdateStep, UsernamesDistinct, SharedIntact, CleanupHolds;
    if d' != d {
      var k: nat :| k < |d.pool| && reading < d.pool[k].expiresAt && d' == Renewed(d, k, renewed, reading);
      if k in d.serials {
        assert d'.log[|d.log|] in d'.log;
      }
      CleanupStays(slots, d, d', other);
    }
  }

  /** One task's step: what it, or another task, knows after a cleanup holds on. */
  lemma TaskStepKeepsCleanup(slots: nat, d: Data, t: nat, task: Task, a: Action, u: nat, other: Task)
    requires RowsOk(slots, d) && TaskOk(slots, d, t, task) && TaskOk(slots, d, u, other)
    requires NeverBack(TaskStep(slots, d, t, task, a).0.log) && CleanupHolds(slots, d, other)
    requires t == u ==> task == other
    ensures var (d', task') := TaskStep(slots, d, t, task, a);
            CleanupHolds(slots, d', if t == u then task' else other)
  {
    var (d', task') := TaskStep(slots, d, t, task, a);
    OtherStepsAreQuiet(slots, d, t, task, a);
    if Writes(a, task) {
      if t != u {
        WriteKeepsCleanup(slots, d, t, task, a, other);
      } else if task.Freeing? || task.Clearing? {
        FreedOutlasts(slots, d, task.cutoff, task');
      }
    } else {
      hide RowsOk, NeverBack, SelectStep, ChooseStep, CountStep, TaskOk;
      if t != u || task' == task {
        CleanupStays(slots, d, d', other);
      } else {
        QuietTargets(slots, d, t, task, a);
      }
    }
  }

  lemma QuietTargets(slots: nat, d: Data, t: nat, task: Task, a: Action)
    requires !Writes(a, task)
    ensures var task' := TaskStep(slots, d, t, task, a).1;
            task' == task || (!task'.Reprobing? && !task'.Recounting?)
  {
  }

  ghost predicate CleanupsHold(slots: nat, s: State) {
    forall t :: t in s.tasks ==> CleanupHolds(slots, s.data, s.tasks[t])
  }

  lemma StepKeepsCleanups(slots: nat, s: State, a: Action)
    requires Inv(slots, s) && CleanupsHold(slots, s) && NeverBack(Step(slots, s, a).data.log)
    ensures CleanupsHold(slots, Step(slots, s, a))
  {
    var s' := Step(slots, s, a);
    if !a.Tick? && !a.Restart? && a.t in s.tasks {
      var task := s.tasks[a.t];
      var (d', task') := TaskStep(slots, s.data, a.t, task, a);
      assert s' == State(d', s.tasks[a.t := task']) by { hide TaskStep, RowsOk, LogOk, TaskOk; }
      hide TaskStep, Step, RowsOk, LogOk, TaskOk, NeverBack, CleanupHolds;
      forall u | u in s.tasks ensures CleanupHolds(slots, d', if a.t == u then task' else s.tasks[u]) {
        TaskStepKeepsCleanup(slots, s.data, a.t, task, a, u, s.tasks[u]);
      }
    } else {
      hide TaskStep, RowsOk, LogOk, TaskOk, NeverBack;
      forall u | u in s.tasks && u in s'.tasks ensures CleanupHolds(slots, s'.data, s.tasks[u]) {
        CleanupStays(slots, s.data, s'.data, s.tasks[u]);
      }
    }
  }

  lemma {:induction false} RunKeepsCleanups(slots: nat, s: State, actions: seq<Action>)
    requires Init(s) && NeverBack(Run(slots, s, actions).data.log)
    ensures CleanupsHold(slots, Run(slots, s, actions))
    decreases |actions|
  {
    if actions != [] {
      var init, last := actions[..|actions| - 1], actions[|actions| - 1];
      var mid := Run(slots, s, init);
      RunKeepsInv(slots, s, init);
      LogGrows(slots, mid, last);
      assert NeverBack(mid.data.log) by {
        forall e | e in mid.data.log && e.Extended? ensures e.from <= e.expiry {
          assert e in Run(slots, s, actions).data.log;
        }
      }
      RunKeepsCleanups(slots, s, init);
      StepKeepsCleanups(slots, mid, last);
    }
  }

  /** Task `t` is refused by its next SELECT, under the lock or in the pre-check. */
  predicate Refuses(slots: nat, s: State, t: nat) {
    && t in s.tasks
    && ((s.tasks[t].Reprobing? && SelectStep(slots, s.data, s.tasks[t]).Unlocking?)
        || (s.tasks[t].Recounting? && CountStep(slots, s.data, s.tasks[t]).Finished?))
  }

  lemma RefusedMeansTaken(slots: nat, s: State, t: nat)
    requires RowsOk(slots, s.data) && Refuses(slots, s, t)
    ensures forall k: nat :: slots <= k < |s.data.pool| ==> !s.data.pool[k].available && s.data.pool[k].expiresAt > 0
  {
    QueriesAreDisjoint(s.data.pool, slots);
    SupplyIsConserved(s.data.pool, slots);
    hide ExclusiveRank, CountAvailable, AvailableRanks, TakenRanks, UsernamesDistinct;
  }

  /** At the very moment of a refusal every row from rank `slots` on is taken and has an expiry. If no
      extension moves back, that expiry is later than the cutoff of the request's own cleanup, or, in
      the pre-check, somebody has taken the row since. */
  lemma RefusedOnlyWhenAllTaken(slots: nat, s: State, actions: seq<Action>, t: nat)
    requires Init(s) && Refuses(slots, Run(slots, s, actions), t)
    ensures var f := Run(slots, s, actions); var pool := f.data.pool;
            && (forall k: nat :: slots <= k < |pool| ==> !pool[k].available && pool[k].expiresAt > 0)
            && (NeverBack(f.data.log) ==>
                  forall k: nat :: slots <= k < |pool| ==>
                    || pool[k].expiresAt > f.tasks[t].cutoff
                    || (f.tasks[t].Recounting? && TakenSince(f.data, k, f.tasks[t].cutoff)))
  {
    RunKeepsInv(slots, s, actions);
    var f := Run(slots, s, actions);
    RefusedMeansTaken(slots, f, t);
    hide Run, Init, RowsOk, LogOk, TaskOk, NeverBack, SelectStep, CountStep;
    if NeverBack(f.data.log) {
      RunKeepsCleanups(slots, s, actions);
      assert CleanupHolds(slots, f.data, f.tasks[t]);
      forall k: nat | slots <= k < |f.data.pool|
        ensures || f.data.pool[k].expiresAt > f.tasks[t].cutoff
                || (f.tasks[t].Recounting? && TakenSince(f.data, k, f.tasks[t].cutoff))
      {
        assert Outlasts(f.data.pool, k, f.tasks[t].cutoff) || TakenSince(f.data, k, f.tasks[t].cutoff);
      }
    }
  }

  // ----- refusals over a row that has run out -----

  /** Every grant is marked at least `margin` milliseconds before its expiry. */
  ghost predicate GrantsOutlast(log: seq<Event>, margin: int) {
    forall e :: e in log && e.Taken? ==> e.expiry - e.at >= margin
  }

  /** If task `t` is refused, every row from rank `slots` on expires after the cutoff of its cleanup. */
  ghost predicate RefusedRightly(slots: nat, s: State, t: nat) {
    Refuses(slots, s, t) ==>
      forall k: nat :: slots <= k < |s.data.pool| ==> s.data.pool[k].expiresAt > s.tasks[t].cutoff
  }

  /** Under the lock that takes extensions that do not move back; in the pre-check, moreover, grants
      that have not run out when they are marked. */
  lemma RefusalsAreRight(slots: nat, s: State, actions: seq<Action>, t: nat)
    requires Init(s) && NeverBack(Run(slots, s, actions).data.log)
    requires var f := Run(slots, s, actions);
             GrantsOutlast(f.data.log, 1) || (t in f.tasks && f.tasks[t].Reprobing?)
    ensures RefusedRightly(slots, Run(slots, s, actions), t)
  {
    var f := Run(slots, s, actions);
    var d := f.data;
    if Refuses(slots, f, t) {
      RefusedOnlyWhenAllTaken(slots, s, actions, t);
      RunKeepsHistory(slots, s, actions);
      hide Run, Init, Refuses, NeverBack, HistoryOk, TakenSince;
      forall k: nat | slots <= k < |d.pool| ensures d.pool[k].expiresAt > f.tasks[t].cutoff {
        if f.tasks[t].Recounting? && TakenSince(d, k, f.tasks[t].cutoff) {
          GrantOutlastsCutoff(d, k, f.tasks[t].cutoff);
        }
      }
    }
  }

  lemma GrantOutlastsCutoff(d: Data, k: nat, cutoff: int)
    requires HistoryOk(d) && GrantsOutlast(d.log, 1) && TakenSince(d, k, cutoff)
    requires k < |d.pool| && !d.pool[k].available
    ensures d.pool[k].expiresAt > cutoff
  {
    var e :| e in d.log && e.Taken? && e.rank == k && e.at >= cutoff && k in d.serials && d.serials[k] == e.serial;
    assert PromiseOk(d, e);
  }
}
