/** The step model of the SOCKS5 pools and the one-piece operation agree: a non-priority request
    that nobody interrupts does exactly what `RequestExclusive` says. */
module Socks5Turn {
  import opened Wrappers
  import opened Socks5Table
  import opened Socks5Pool
  import opened Socks5PoolProofs

  /** Every step a request can take, in order; those it does not need change nothing. */
  function PreCheck(t: nat): seq<Action> { [Count(t)] + [ReadClock(t)] + [Free(t)] + [Count(t)] }

  function Search(t: nat): seq<Action> { [Acquire(t)] + [Select(t)] }

  function Finish(t: nat): seq<Action> { [ReadClock(t)] + [Free(t)] + [Select(t)] + [Mark(t)] + [Unlock(t)] }

  lemma RunOne(slots: nat, s: State, actions: seq<Action>, a: Action)
    ensures Run(slots, s, actions + [a]) == Step(slots, Run(slots, s, actions), a)
  {
    assert (actions + [a])[..|actions|] == actions;
  }

  lemma {:induction false} RunAppend(slots: nat, s: State, before: seq<Action>, after: seq<Action>)
    ensures Run(slots, s, before + after) == Run(slots, Run(slots, s, before), after)
    decreases |after|
  {
    hide Step;
    if after == [] {
      assert before + after == before;
    } else {
      var init := after[..|after| - 1];
      RunAppend(slots, s, before, init);
      assert (before + after)[..|before + after| - 1] == before + init;
    }
  }

  lemma RunFirst(slots: nat, s: State, a: Action)
    ensures Run(slots, s, [a]) == Step(slots, s, a)
  {
    assert Run(slots, s, []) == s;
  }

  lemma PreCheckRuns(slots: nat, s: State, t: nat)
    ensures Run(slots, s, PreCheck(t))
            == Step(slots, Step(slots, Step(slots, Step(slots, s, Count(t)), ReadClock(t)), Free(t)), Count(t))
  {
    hide Step, Run;
    RunFirst(slots, s, Count(t));
    RunOne(slots, s, [Count(t)], ReadClock(t));
    RunOne(slots, s, [Count(t)] + [ReadClock(t)], Free(t));
    RunOne(slots, s, [Count(t)] + [ReadClock(t)] + [Free(t)], Count(t));
  }

  lemma SearchRuns(slots: nat, s: State, t: nat)
    ensures Run(slots, s, Search(t)) == Step(slots, Step(slots, s, Acquire(t)), Select(t))
  {
    hide Step, Run;
    RunFirst(slots, s, Acquire(t));
    RunOne(slots, s, [Acquire(t)], Select(t));
  }

  lemma FinishRuns(slots: nat, s: State, t: nat)
    ensures Run(slots, s, Finish(t))
            == Step(slots, Step(slots, Step(slots, Step(slots, Step(slots, s, ReadClock(t)), Free(t)), Select(t)),
                Mark(t)), Unlock(t))
  {
    hide Step, Run;
    var p := [ReadClock(t)] + [Free(t)];
    RunFirst(slots, s, ReadClock(t));
    RunOne(slots, s, [ReadClock(t)], Free(t));
    RunOne(slots, s, p, Select(t));
    RunOne(slots, s, p + [Select(t)], Mark(t));
    RunOne(slots, s, p + [Select(t)] + [Mark(t)], Unlock(t));
  }

  /** The step of a task, as an equation on the whole state. */
  lemma Moves(slots: nat, d: Data, tasks: map<nat, Task>, t: nat, task: Task, a: Action)
    requires !a.Tick? && !a.Restart? && a.t == t
    ensures var (d', task') := TaskStep(slots, d, t, task, a);
            Step(slots, State(d, tasks[t := task]), a) == State(d', tasks[t := task'])
  {
    hide TaskStep;
    var task' := TaskStep(slots, d, t, task, a).1;
    assert tasks[t := task][t := task'] == tasks[t := task'];
  }

  /** The pre-check: on to the lock when a row is left over, if need be after a cleanup. */
  lemma PreCheckMeaning(slots: nat, d: Data, tasks: map<nat, Task>, t: nat, e: int)
    ensures var freed := d.(pool := FreeExpired(d.pool, d.now));
            Run(slots, State(d, tasks[t := Counting(e)]), PreCheck(t)) ==
              if CountAvailable(d.pool, slots) > 0 then State(d, tasks[t := Queued(e)])
              else State(freed, tasks[t := if CountAvailable(freed.pool, slots) > 0 then Queued(e) else Finished])
  {
    var freed := d.(pool := FreeExpired(d.pool, d.now));
    PreCheckRuns(slots, State(d, tasks[t := Counting(e)]), t);
    hide Step, Run, PreCheck, CountAvailable, FreeExpired;
    Moves(slots, d, tasks, t, Counting(e), Count(t));
    if CountAvailable(d.pool, slots) > 0 {
      Moves(slots, d, tasks, t, Queued(e), ReadClock(t));
      Moves(slots, d, tasks, t, Queued(e), Free(t));
      Moves(slots, d, tasks, t, Queued(e), Count(t));
    } else {
      Moves(slots, d, tasks, t, Tidying(e), ReadClock(t));
      Moves(slots, d, tasks, t, Clearing(e, d.now), Free(t));
      Moves(slots, freed, tasks, t, Recounting(e, d.now), Count(t));
    }
  }

  lemma SearchMeaning(slots: nat, d: Data, tasks: map<nat, Task>, t: nat, e: int)
    requires d.lock == None
    ensures Run(slots, State(d, tasks[t := Queued(e)]), Search(t)) ==
              State(d.(lock := Some(t)),
                    tasks[t := match ExclusiveRank(d.pool, slots)
                               case Some(k) => Marking(e, k, d.pool[k].username, d.pool[k].password)
                               case None => ReadingClock(e)])
  {
    SearchRuns(slots, State(d, tasks[t := Queued(e)]), t);
    hide Step, Run, Search, ExclusiveRank;
    Moves(slots, d, tasks, t, Queued(e), Acquire(t));
    Moves(slots, d.(lock := Some(t)), tasks, t, Probing(e), Select(t));
  }

  /** What marking row `k` and dropping the lock leaves. */
  function Marked(d: Data, e: int, k: nat): Data
    requires k < |d.pool|
  {
    MarkStep(d, e, k, d.pool[k].username, d.pool[k].password).(lock := None)
  }

  lemma MarkAndUnlock(slots: nat, d: Data, tasks: map<nat, Task>, t: nat, e: int, k: nat)
    requires k < |d.pool|
    ensures Step(slots, Step(slots, State(d, tasks[t := Marking(e, k, d.pool[k].username, d.pool[k].password)]),
            Mark(t)), Unlock(t))
            == State(Marked(d, e, k), tasks[t := Finished])
  {
    var task := Marking(e, k, d.pool[k].username, d.pool[k].password);
    hide Step, MarkTaken;
    Moves(slots, d, tasks, t, task, Mark(t));
    Moves(slots, MarkStep(d, e, k, d.pool[k].username, d.pool[k].password), tasks, t, Unlocking, Unlock(t));
  }

  /** A turn that found row `k`. */
  lemma FoundTurnEnds(slots: nat, d: Data, tasks: map<nat, Task>, t: nat, e: int, k: nat)
    requires k < |d.pool|
    ensures Run(slots, State(d, tasks[t := Marking(e, k, d.pool[k].username, d.pool[k].password)]), Finish(t))
            == State(Marked(d, e, k), tasks[t := Finished])
  {
    var task := Marking(e, k, d.pool[k].username, d.pool[k].password);
    FinishRuns(slots, State(d, tasks[t := task]), t);
    MarkAndUnlock(slots, d, tasks, t, e, k);
    hide Step, Run, TaskStep, Finish, Marked;
    MarkingWaits(slots, d, tasks, t, task, ReadClock(t));
    MarkingWaits(slots, d, tasks, t, task, Free(t));
    MarkingWaits(slots, d, tasks, t, task, Select(t));
  }

  lemma MarkingWaits(slots: nat, d: Data, tasks: map<nat, Task>, t: nat, task: Task, a: Action)
    requires task.Marking? && (a.ReadClock? || a.Free? || a.Select?) && a.t == t
    ensures Step(slots, State(d, tasks[t := task]), a) == State(d, tasks[t := task])
  {
    hide Step;
    Moves(slots, d, tasks, t, task, a);
  }

  lemma FreeAndSelect(slots: nat, d: Data, tasks: map<nat, Task>, t: nat, e: int)
    ensures var c := d.(pool := FreeExpired(d.pool, d.now));
            Step(slots, Step(slots, Step(slots, State(d, tasks[t := ReadingClock(e)]), ReadClock(t)), Free(t)),
                Select(t))
            == State(c, tasks[t := match ExclusiveRank(c.pool, slots)
                                   case Some(k) => Marking(e, k, c.pool[k].username, c.pool[k].password)
                                   case None => Unlocking])
  {
    var c := d.(pool := FreeExpired(d.pool, d.now));
    hide Step, ExclusiveRank, FreeExpired;
    Moves(slots, d, tasks, t, ReadingClock(e), ReadClock(t));
    Moves(slots, d, tasks, t, Freeing(e, d.now), Free(t));
    Moves(slots, c, tasks, t, Reprobing(e, d.now), Select(t));
  }

  /** A turn that found none frees the expired rows and looks again. */
  lemma RetryEnds(slots: nat, d: Data, tasks: map<nat, Task>, t: nat, e: int)
    ensures var c := d.(pool := FreeExpired(d.pool, d.now));
            Run(slots, State(d, tasks[t := ReadingClock(e)]), Finish(t)) ==
              match ExclusiveRank(c.pool, slots)
              case Some(k) => State(Marked(c, e, k), tasks[t := Finished])
              case None => State(c.(lock := None), tasks[t := Finished])
  {
    var c := d.(pool := FreeExpired(d.pool, d.now));
    FinishRuns(slots, State(d, tasks[t := ReadingClock(e)]), t);
    FreeAndSelect(slots, d, tasks, t, e);
    hide Step, Run, Finish, Marked, ExclusiveRank, FreeExpired;
    match ExclusiveRank(c.pool, slots)
    case Some(k) => MarkAndUnlock(slots, c, tasks, t, e, k);
    case None =>
      Moves(slots, c, tasks, t, Unlocking, Mark(t));
      Moves(slots, c, tasks, t, Unlocking, Unlock(t));
  }

  /** `after` is `before` with these rows and, if one was taken, that row in the log. */
  ghost predicate Leaves(before: Data, after: Data, e: int, pool: Pool, result: Result<Credential, AppError>) {
    && after.pool == pool && after.lock == None && after.now == before.now
    && match result
       case Err(_) => after.log == before.log
       case Ok(c) =>
         exists k: nat ::
           && k < |before.pool| && SameCredential(c, before.pool[k])
           && k < |after.pool| && after.pool[k] == before.pool[k].(available := false, expiresAt := e)
           && after.log == before.log + [Taken(before.next, k, e, before.now)]
  }

  lemma MarkedLeaves(d: Data, base: Data, e: int, k: nat)
    requires k < |base.pool| && |base.pool| == |d.pool| && SameCredential(base.pool[k], d.pool[k])
    requires base == d.(lock := base.lock, pool := base.pool)
    ensures var (pool, result) := TakeAt(base.pool, k, e); Leaves(d, Marked(base, e, k), e, pool, result)
  {
    assert MarkTaken(base.pool, base.pool[k].username, base.pool[k].password, e)[k]
        == base.pool[k].(available := false, expiresAt := e);
    hide MarkTaken;
  }

  lemma FreedNames(pool: Pool, now: int)
    ensures var freed := FreeExpired(pool, now);
            |freed| == |pool| && forall k :: 0 <= k < |pool| ==> SameCredential(freed[k], pool[k])
  {
  }

  lemma LeavesAfterFreeing(d: Data, after: Data, e: int, pool: Pool, result: Result<Credential, AppError>)
    requires Leaves(d.(pool := FreeExpired(d.pool, d.now)), after, e, pool, result)
    ensures Leaves(d, after, e, pool, result)
  {
    FreedNames(d.pool, d.now);
    hide FreeExpired;
  }

  /** The turn under the lock does what `TakeExclusive` does. */
  lemma TurnMeaning(slots: nat, d: Data, tasks: map<nat, Task>, t: nat, e: int)
    requires d.lock == None
    ensures var f := Run(slots, State(d, tasks[t := Queued(e)]), Search(t) + Finish(t));
            var (pool, result) := TakeExclusive(d.pool, slots, e, d.now);
            f.tasks == tasks[t := Finished] && Leaves(d, f.data, e, pool, result)
  {
    var l := d.(lock := Some(t));
    var c := l.(pool := FreeExpired(d.pool, d.now));
    RunAppend(slots, State(d, tasks[t := Queued(e)]), Search(t), Finish(t));
    SearchMeaning(slots, d, tasks, t, e);
    FreedNames(d.pool, d.now);
    hide Run, Search, Finish, Marked, TakeAt, ExclusiveRank, FreeExpired, Leaves;
    match ExclusiveRank(d.pool, slots)
    case Some(k) =>
      FoundTurnEnds(slots, l, tasks, t, e, k);
      MarkedLeaves(d, l, e, k);
    case None =>
      RetryEnds(slots, l, tasks, t, e);
      match ExclusiveRank(c.pool, slots)
      case Some(k) => MarkedLeaves(d, c, e, k);
      case None =>
        RefusedLeaves(d, c.pool, e);
        assert Leaves(d, c.(lock := None), e, c.pool, Err(LeaseUnavailable));
  }

  lemma RefusedLeaves(d: Data, pool: Pool, e: int)
    ensures Leaves(d, d.(lock := None, pool := pool), e, pool, Err(LeaseUnavailable))
  {
  }

  /** A task that is done takes no further step. */
  lemma FinishedStays(slots: nat, d: Data, tasks: map<nat, Task>, t: nat)
    ensures Run(slots, State(d, tasks[t := Finished]), Search(t) + Finish(t)) == State(d, tasks[t := Finished])
  {
    var s := State(d, tasks[t := Finished]);
    RunAppend(slots, s, Search(t), Finish(t));
    SearchRuns(slots, s, t);
    FinishRuns(slots, s, t);
    hide Step, Run, Search, Finish;
    forall a: Action | !a.Tick? && !a.Restart? && a.t == t ensures Step(slots, s, a) == s {
      Moves(slots, d, tasks, t, Finished, a);
    }
  }

  /** An uninterrupted non-priority request leaves the rows `RequestExclusive` leaves, takes a row
      exactly when it returns one, and frees the lock. */
  lemma {:induction false} UninterruptedRequestIsRequestExclusive(
      slots: nat, d: Data, tasks: map<nat, Task>, t: nat, e: int)
    requires d.lock == None
    ensures var f := Run(slots, State(d, tasks[t := Counting(e)]), PreCheck(t) + (Search(t) + Finish(t)));
            var (pool, result) := RequestExclusive(d.pool, slots, e, d.now);
            f.tasks == tasks[t := Finished] && Leaves(d, f.data, e, pool, result)
  {
    var freed := d.(pool := FreeExpired(d.pool, d.now));
    RunAppend(slots, State(d, tasks[t := Counting(e)]), PreCheck(t), Search(t) + Finish(t));
    PreCheckMeaning(slots, d, tasks, t, e);
    hide Run, PreCheck, Search, Finish, FreeExpired, CountAvailable, TakeExclusive, Leaves;
    if CountAvailable(d.pool, slots) > 0 {
      TurnMeaning(slots, d, tasks, t, e);
    } else if CountAvailable(freed.pool, slots) > 0 {
      TurnMeaning(slots, freed, tasks, t, e);
      var (pool, result) := TakeExclusive(freed.pool, slots, e, d.now);
      LeavesAfterFreeing(d, Run(slots, State(freed, tasks[t := Queued(e)]), Search(t) + Finish(t)).data, e, pool,
          result);
    } else {
      FinishedStays(slots, freed, tasks, t);
      RefusedLeaves(d, freed.pool, e);
      assert freed.(lock := None) == freed;
    }
  }

  /** In every reachable state where the lock is free, an uninterrupted non-priority request is
      refused exactly when every row from rank `slots` on, if there is one, has an expiry later than
      now; otherwise it takes one that has not, for the expiry it asked for. */
  lemma RefusedExactlyWhenNoneHasRunOut(slots: nat, s: State, actions: seq<Action>, t: nat)
    requires Init(s)
    requires var f := Run(slots, s, actions); f.data.lock == None && t in f.tasks && f.tasks[t].Counting?
    ensures var f := Run(slots, s, actions);
            var g := Run(slots, f, PreCheck(t) + (Search(t) + Finish(t)));
            var d := f.data;
            && (g.data.log == d.log <==> forall i :: slots <= i < |d.pool| ==> d.pool[i].expiresAt > d.now)
            && (g.data.log != d.log ==>
                  exists k: nat ::
                    && slots <= k < |d.pool| && d.pool[k].expiresAt <= d.now
                    && g.data.log == d.log + [Taken(d.next, k, f.tasks[t].expiry, d.now)])
  {
    var f := Run(slots, s, actions);
    var e := f.tasks[t].expiry;
    RunKeepsInv(slots, s, actions);
    assert TaskOk(slots, f.data, t, f.tasks[t]);
    assert f.tasks[t := Counting(e)] == f.tasks && State(f.data, f.tasks) == f;
    UninterruptedRequestIsRequestExclusive(slots, f.data, f.tasks, t, e);
    RequestExclusiveMeaning(f.data.pool, slots, e, f.data.now);
    hide Run, PreCheck, Search, Finish, RequestExclusive, Took;
    var (pool, result) := RequestExclusive(f.data.pool, slots, e, f.data.now);
    if result.Ok? {
      var i: nat :|
        && Took(f.data.pool, pool, slots, i, e, f.data.now) && result.value.username == f.data.pool[i].username;
      SameNameSameRow(f.data, i, result.value.username);
    }
  }

  lemma SameNameSameRow(d: Data, i: nat, username: string)
    requires UsernamesDistinct(d.pool) && i < |d.pool| && d.pool[i].username == username
    ensures forall k :: 0 <= k < |d.pool| && d.pool[k].username == username ==> k == i
  {
  }

  lemma Starts(slots: nat, d: Data, tasks: map<nat, Task>, t: nat, a: Action, task: Task)
    requires t !in tasks && !a.Tick? && !a.Restart? && a.t == t && Started(d, a) == Some(task)
    ensures Step(slots, State(d, tasks), a) == State(d, tasks[t := task])
  {
    hide TaskStep;
  }

  /** `after` is `pool` with the expiry of the rows of this username replaced. */
  predicate OnlyExpiryOf(pool: Pool, after: Pool, username: string, expiresAt: int) {
    && |after| == |pool|
    && forall i :: 0 <= i < |pool| ==>
         after[i] == if pool[i].username == username then pool[i].(expiresAt := expiresAt) else pool[i]
  }

  /** A shared request that nobody interrupts takes one of the shared rows as chance picks it, and changes
      only its expiry, to the request's clock plus its seconds. */
  lemma UninterruptedSharedRequest(slots: nat, d: Data, tasks: map<nat, Task>, t: nat, seconds: int, pick: nat)
    requires t !in tasks && seconds > 0
    ensures var f := Run(slots, State(d, tasks), [RequestShared(t, seconds)] + [Choose(t, pick)] + [TouchRow(t)]);
            var ranks, e := SharedRanks(d.pool, slots), d.now + seconds * 1000;
            && f.tasks == tasks[t := Finished]
            && if ranks == [] then f.data == d
               else
                 var k := ranks[pick % |ranks|];
                 && f.data == d.(pool := f.data.pool, log := d.log + [Shared(k, e, d.now)])
                 && OnlyExpiryOf(d.pool, f.data.pool, d.pool[k].username, e)
  {
    var s, a, e := State(d, tasks), RequestShared(t, seconds), d.now + seconds * 1000;
    Starts(slots, d, tasks, t, a, Choosing(e));
    hide Step, Run, SharedRanks, OnlyExpiryOf;
    RunFirst(slots, s, a);
    RunOne(slots, s, [a], Choose(t, pick));
    RunOne(slots, s, [a] + [Choose(t, pick)], TouchRow(t));
    SharedSteps(slots, d, tasks, t, e, pick);
  }

  lemma SharedSteps(slots: nat, d: Data, tasks: map<nat, Task>, t: nat, e: int, pick: nat)
    ensures var ranks := SharedRanks(d.pool, slots);
            var f := Step(slots, Step(slots, State(d, tasks[t := Choosing(e)]), Choose(t, pick)), TouchRow(t));
            && f.tasks == tasks[t := Finished]
            && if ranks == [] then f.data == d
               else
                 var k := ranks[pick % |ranks|];
                 && f.data == d.(pool := f.data.pool, log := d.log + [Shared(k, e, d.now)])
                 && OnlyExpiryOf(d.pool, f.data.pool, d.pool[k].username, e)
  {
    var ranks := SharedRanks(d.pool, slots);
    hide Step, SharedRanks;
    Moves(slots, d, tasks, t, Choosing(e), Choose(t, pick));
    if ranks == [] {
      Moves(slots, d, tasks, t, Finished, TouchRow(t));
    } else {
      var k := ranks[pick % |ranks|];
      assert OnlyExpiryOf(d.pool, Touch(d.pool, d.pool[k].username, e), d.pool[k].username, e);
      hide OnlyExpiryOf, Touch;
      Moves(slots, d, tasks, t, Touching(e, k, d.pool[k].username), TouchRow(t));
    }
  }

  /** An extension that nobody interrupts renews the row of its username to the request's clock plus its
      seconds, if it has the expected expiry and that lies ahead; and changes no other row. */
  lemma UninterruptedExtension(
      slots: nat, d: Data, tasks: map<nat, Task>, t: nat, username: string, expected: int, requestedAt: int,
          seconds: int)
    requires t !in tasks && seconds > 0 && 0 <= requestedAt <= d.now && UsernamesDistinct(d.pool)
    ensures var a := RequestExtension(t, username, expected, requestedAt, seconds);
            var f := Run(slots, State(d, tasks), [a] + [Update(t)]);
            && f.tasks == tasks[t := Finished] && |f.data.pool| == |d.pool|
            && forall i :: 0 <= i < |d.pool| ==>
                 f.data.pool[i] == if d.pool[i].username == username && d.pool[i].expiresAt == expected
                     && d.now < expected
                                   then d.pool[i].(expiresAt := requestedAt + seconds * 1000) else d.pool[i]
  {
    var s, a := State(d, tasks), RequestExtension(t, username, expected, requestedAt, seconds);
    var x := Extending(username, expected, requestedAt + seconds * 1000, d.now);
    RunFirst(slots, s, a);
    RunOne(slots, s, [a], Update(t));
    Starts(slots, d, tasks, t, a, x);
    hide Step, Run;
    Moves(slots, d, tasks, t, x, Update(t));
    UpdateMeaning(d, username, expected, x.renewed, d.now);
    hide UpdateStep, UsernamesDistinct;
  }

  lemma UpdateMeaning(d: Data, username: string, expected: int, renewed: int, reading: int)
    requires UsernamesDistinct(d.pool)
    ensures var after := UpdateStep(d, username, expected, renewed, reading).pool;
            && |after| == |d.pool|
            && forall i :: 0 <= i < |d.pool| ==>
                 after[i] == if d.pool[i].username == username && d.pool[i].expiresAt == expected && reading < expected
                             then d.pool[i].(expiresAt := renewed) else d.pool[i]
  {
  }
}
