/** The named lock over every run of the lease protocol, whatever its extensions do. */
module LeaseLock {
  import opened Wrappers
  import opened LeaseTable
  import opened LeaseProtocol
  import opened LeaseProofs

  // ----- at most one task is in its turn -----

  ghost predicate TurnsOk(r: Range, s: State) {
    && (forall t :: t in s.tasks ==> TurnOk(r, s.data, t, s.tasks[t]))
    && (s.data.lock.Some? ==> s.data.lock.value in s.tasks)
  }

  lemma TaskStepKeepsTurns(r: Range, d: Data, t: nat, task: Task, a: Action, u: nat, other: Task)
    requires r.start <= r.end && TurnOk(r, d, t, task)
    ensures var (d', task') := TaskStep(r, d, t, task, a);
            && TurnOk(r, d', t, task')
            && (t != u && TurnOk(r, d, u, other) ==> TurnOk(r, d', u, other))
            && (d'.lock.Some? ==> d'.lock == d.lock || d'.lock.value == t)
  {
    FirstFreeIsLeast(d.rows, r.start, r.end);
  }

  lemma StepKeepsTurns(r: Range, s: State, a: Action)
    requires r.start <= r.end && TurnsOk(r, s)
    ensures TurnsOk(r, Step(r, s, a))
  {
    if !a.Tick? && !a.Restart? && a.t in s.tasks {
      var s', task := Step(r, s, a), s.tasks[a.t];
      var (d', task') := TaskStep(r, s.data, a.t, task, a);
      assert s' == State(d', s.tasks[a.t := task']);
      hide Step, TaskStep, TurnOk;
      forall u | u in s.tasks
        ensures TurnOk(r, s'.data, u, s'.tasks[u]) && (s'.data.lock.Some? ==> s'.data.lock.value in s.tasks)
      {
        TaskStepKeepsTurns(r, s.data, a.t, task, a, u, s.tasks[u]);
      }
    } else {
      hide TaskStep;
    }
  }

  /** In every run, extensions forward or not: at most one task is between its SELECT and the end
      of its turn, and the id it selected still has no row when it is inserted, so the ON CONFLICT
      arm is never taken. */
  lemma {:induction false} OneTaskAllocates(r: Range, s: State, actions: seq<Action>)
    requires r.start <= r.end && Init(r, s)
    ensures var f := Run(r, s, actions);
            && TurnsOk(r, f)
            && (forall t, u :: t in f.tasks && u in f.tasks && Holds(f.tasks[t]) && Holds(f.tasks[u]) ==> t == u)
            && (forall t :: t in f.tasks && f.tasks[t].Inserting? ==>
                  r.Contains(f.tasks[t].id) && f.tasks[t].id !in f.data.rows)
    decreases |actions|
  {
    if actions != [] {
      OneTaskAllocates(r, s, actions[..|actions| - 1]);
      StepKeepsTurns(r, Run(r, s, actions[..|actions| - 1]), actions[|actions| - 1]);
    }
    var f := Run(r, s, actions);
    forall t | t in f.tasks && f.tasks[t].Inserting?
      ensures r.Contains(f.tasks[t].id) && f.tasks[t].id !in f.data.rows
    {
      assert TurnOk(r, f.data, t, f.tasks[t]);
    }
    forall t, u | t in f.tasks && u in f.tasks && Holds(f.tasks[t]) && Holds(f.tasks[u]) ensures t == u {
      assert TurnOk(r, f.data, t, f.tasks[t]) && TurnOk(r, f.data, u, f.tasks[u]);
    }
  }

  // ----- every turn ends -----

  /** How many steps of its own a turn still has at most; none exactly for a task without the lock. */
  function Rank(task: Task): nat {
    match task
    case Probing(_) => 6
    case ReadingClock(_) => 5
    case Purging(_, _) => 4
    case Reprobing(_, _) => 3
    case Inserting(_, _) => 2
    case Unlocking(_) => 1
    case _ => 0
  }

  /** What the lock's holder does next, unless its statement fails. */
  function OwnAction(t: nat, task: Task): Action
    requires Holds(task)
  {
    match task
    case Probing(_) => Select(t)
    case ReadingClock(_) => ReadClock(t)
    case Purging(_, _) => Purge(t)
    case Reprobing(_, _) => Select(t)
    case Inserting(_, _) => Insert(t)
    case Unlocking(_) => Unlock(t)
  }

  /** The holder can always move on, by success and, before it unlocks, by failure. */
  lemma HolderCanMove(r: Range, s: State, t: nat)
    requires t in s.tasks && Holds(s.tasks[t])
    ensures var next := Step(r, s, OwnAction(t, s.tasks[t])); t in next.tasks && Rank(next.tasks[t]) < Rank(s.tasks[t])
    ensures var failed := Step(r, s, Fail(t));
            t in failed.tasks && (Rank(failed.tasks[t]) < Rank(s.tasks[t]) || s.tasks[t].Unlocking?)
  {
  }

  /** No step by anybody makes the turn longer: the lock is free, or the holder is where it was, or
      nearer its end. */
  lemma StepNeverProlongs(r: Range, s: State, a: Action, t: nat)
    requires t in s.tasks && Holds(s.tasks[t]) && TurnOk(r, s.data, t, s.tasks[t])
    requires !a.Tick? && !a.Restart? && a.t in s.tasks ==> TurnOk(r, s.data, a.t, s.tasks[a.t])
    ensures var s' := Step(r, s, a);
            || s'.data.lock == None
            || (t in s'.tasks && Holds(s'.tasks[t])
                && (s'.tasks[t] == s.tasks[t] || Rank(s'.tasks[t]) < Rank(s.tasks[t])))
  {
  }

  /** How often task `t` moved. */
  function OwnSteps(r: Range, s: State, actions: seq<Action>, t: nat): nat
    decreases |actions|
  {
    if actions == [] then 0
    else
      var init := actions[..|actions| - 1];
      var before, after := Run(r, s, init), Run(r, s, actions);
      OwnSteps(r, s, init, t)
      + if t in before.tasks && t in after.tasks && before.tasks[t] != after.tasks[t] then 1 else 0
  }

  ghost predicate FreedWithin(r: Range, s: State, actions: seq<Action>) {
    exists n :: 0 <= n <= |actions| && Run(r, s, actions[..n]).data.lock == None
  }

  lemma {:induction false} TurnsStayOk(r: Range, s: State, actions: seq<Action>)
    requires r.start <= r.end && TurnsOk(r, s)
    ensures TurnsOk(r, Run(r, s, actions))
    decreases |actions|
  {
    if actions != [] {
      TurnsStayOk(r, s, actions[..|actions| - 1]);
      StepKeepsTurns(r, Run(r, s, actions[..|actions| - 1]), actions[|actions| - 1]);
    }
  }

  lemma {:induction false} TurnIsBounded(r: Range, s: State, actions: seq<Action>, t: nat)
    requires r.start <= r.end && TurnsOk(r, s) && t in s.tasks && Holds(s.tasks[t])
    ensures var f := Run(r, s, actions);
            || FreedWithin(r, s, actions)
            || (t in f.tasks && Holds(f.tasks[t])
                && Rank(f.tasks[t]) + OwnSteps(r, s, actions, t) <= Rank(s.tasks[t]))
    decreases |actions|
  {
    if actions != [] {
      var init, last := actions[..|actions| - 1], actions[|actions| - 1];
      var mid := Run(r, s, init);
      TurnIsBounded(r, s, init, t);
      TurnsStayOk(r, s, init);
      hide TurnOk, Step, Rank;
      if FreedWithin(r, s, init) {
        var n :| 0 <= n <= |init| && Run(r, s, init[..n]).data.lock == None;
        assert actions[..n] == init[..n];
      } else {
        assert TurnOk(r, mid.data, t, mid.tasks[t]);
        StepNeverProlongs(r, mid, last, t);
        assert actions[..|actions|] == actions;
      }
    }
  }

  /** A restart forgets every task and frees the lock; rows and clock stay. */
  lemma RestartFreesTheLock(r: Range, s: State)
    ensures var s' := Step(r, s, Restart);
            && s'.tasks == map[] && s'.data.lock == None && s'.data.rows == s.data.rows && s'.data.now == s.data.now
            && s'.data.log == s.data.log && s'.data.serials == s.data.serials && s'.data.next == s.data.next
  {
  }

  /** From every reachable state in which task `t` has the lock, whatever all tasks do next: the
      lock is freed, or `t` still has it, can move on by success and by failure, and has moved fewer
      times than its rank, which is at most six. So six moves of the holder free the lock, on
      success and failure alike; and a waiter that gives up changes nothing for anybody. */
  lemma LockIsReleased(r: Range, s: State, before: seq<Action>, after: seq<Action>, t: nat)
    requires r.start <= r.end && Init(r, s) && Run(r, s, before).data.lock == Some(t)
    ensures var f := Run(r, s, before); var g := Run(r, f, after);
            && t in f.tasks && 1 <= Rank(f.tasks[t]) <= 6
            && (forall u: nat :: Step(r, g, TimeOut(u)).data == g.data)
            && (forall u: nat :: u in g.tasks && g.tasks[u].Queued? ==>
               Step(r, g, TimeOut(u)).tasks == g.tasks[u := Finished])
            && (|| FreedWithin(r, f, after)
                || (&& t in g.tasks && Holds(g.tasks[t]) && OwnSteps(r, f, after, t) < Rank(f.tasks[t])
                    && var next := Step(r, g, OwnAction(t, g.tasks[t])); var failed := Step(r, g, Fail(t));
                       && t in next.tasks && Rank(next.tasks[t]) < Rank(g.tasks[t])
                       && t in failed.tasks && (Rank(failed.tasks[t]) < Rank(g.tasks[t]) || g.tasks[t].Unlocking?)))
  {
    OneTaskAllocates(r, s, before);
    var f := Run(r, s, before);
    var g := Run(r, f, after);
    assert TurnOk(r, f.data, t, f.tasks[t]);
    TurnIsBounded(r, f, after, t);
    if t in g.tasks && Holds(g.tasks[t]) { HolderCanMove(r, g, t); }
    forall u: nat
      ensures Step(r, g, TimeOut(u)).data == g.data
      ensures u in g.tasks && g.tasks[u].Queued? ==> Step(r, g, TimeOut(u)).tasks == g.tasks[u := Finished]
    {
      hide Run, TurnOk;
    }
    hide Run, Step, TurnOk, OwnSteps, FreedWithin;
  }
}
