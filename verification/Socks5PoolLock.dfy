/** Every turn under the lock "get_socks5_config" ends. */
module Socks5PoolLock {
  import opened Wrappers
  import opened Socks5Table
  import opened Socks5Pool
  import opened Socks5PoolProofs

  /** How many steps of its own a turn still has at most; none exactly for a task without the lock. */
  function Rank(task: Task): nat {
    match task
    case Probing(_) => 6
    case ReadingClock(_) => 5
    case Freeing(_, _) => 4
    case Reprobing(_, _) => 3
    case Marking(_, _, _, _) => 2
    case Unlocking => 1
    case _ => 0
  }

  /** What the lock's holder does next, unless its statement fails. */
  function OwnAction(t: nat, task: Task): Action
    requires Holds(task)
  {
    match task
    case Probing(_) => Select(t)
    case ReadingClock(_) => ReadClock(t)
    case Freeing(_, _) => Free(t)
    case Reprobing(_, _) => Select(t)
    case Marking(_, _, _, _) => Mark(t)
    case Unlocking => Unlock(t)
  }

  /** The holder can always move on, by success and, before it unlocks, by failure. */
  predicate CanMove(slots: nat, s: State, t: nat)
    requires t in s.tasks && Holds(s.tasks[t])
  {
    var next, failed := Step(slots, s, OwnAction(t, s.tasks[t])), Step(slots, s, Fail(t));
    && t in next.tasks && Rank(next.tasks[t]) < Rank(s.tasks[t])
    && t in failed.tasks && (Rank(failed.tasks[t]) < Rank(s.tasks[t]) || s.tasks[t].Unlocking?)
  }

  lemma HolderCanMove(slots: nat, s: State, t: nat)
    requires t in s.tasks && Holds(s.tasks[t])
    ensures CanMove(slots, s, t)
  {
    hide MarkStep, FreeExpired, ExclusiveRank;
  }

  /** No step by anybody makes the turn longer: the lock is free, or the holder is where it was, or
      nearer its end. */
  lemma StepNeverProlongs(slots: nat, s: State, a: Action, t: nat)
    requires t in s.tasks && Holds(s.tasks[t]) && TaskOk(slots, s.data, t, s.tasks[t])
    requires !a.Tick? && !a.Restart? && a.t in s.tasks ==> TaskOk(slots, s.data, a.t, s.tasks[a.t])
    ensures var s' := Step(slots, s, a);
            || s'.data.lock == None
            || (t in s'.tasks && Holds(s'.tasks[t])
                && (s'.tasks[t] == s.tasks[t] || Rank(s'.tasks[t]) < Rank(s.tasks[t])))
  {
    hide MarkStep, FreeExpired, ExclusiveRank, UpdateStep, TouchStep, ChooseStep, CountStep;
    if !a.Tick? && !a.Restart? && a.t in s.tasks { OtherStepsAreQuiet(slots, s.data, a.t, s.tasks[a.t], a); }
  }

  /** How often task `t` moved. */
  function OwnSteps(slots: nat, s: State, actions: seq<Action>, t: nat): nat
    decreases |actions|
  {
    if actions == [] then 0
    else
      var init := actions[..|actions| - 1];
      var before, after := Run(slots, s, init), Run(slots, s, actions);
      OwnSteps(slots, s, init, t)
      + if t in before.tasks && t in after.tasks && before.tasks[t] != after.tasks[t] then 1 else 0
  }

  ghost predicate FreedWithin(slots: nat, s: State, actions: seq<Action>) {
    exists n :: 0 <= n <= |actions| && Run(slots, s, actions[..n]).data.lock == None
  }

  lemma {:induction false} InvStays(slots: nat, s: State, actions: seq<Action>)
    requires Inv(slots, s)
    ensures Inv(slots, Run(slots, s, actions))
    decreases |actions|
  {
    if actions != [] {
      InvStays(slots, s, actions[..|actions| - 1]);
      StepKeepsInv(slots, Run(slots, s, actions[..|actions| - 1]), actions[|actions| - 1]);
    }
  }

  lemma {:induction false} TurnIsBounded(slots: nat, s: State, actions: seq<Action>, t: nat)
    requires Inv(slots, s) && t in s.tasks && Holds(s.tasks[t])
    ensures var f := Run(slots, s, actions);
            || FreedWithin(slots, s, actions)
            || (t in f.tasks && Holds(f.tasks[t])
                && Rank(f.tasks[t]) + OwnSteps(slots, s, actions, t) <= Rank(s.tasks[t]))
    decreases |actions|
  {
    if actions != [] {
      var init, last := actions[..|actions| - 1], actions[|actions| - 1];
      var mid := Run(slots, s, init);
      TurnIsBounded(slots, s, init, t);
      InvStays(slots, s, init);
      hide TaskOk, RowsOk, LogOk, Step, Rank;
      if FreedWithin(slots, s, init) {
        var n :| 0 <= n <= |init| && Run(slots, s, init[..n]).data.lock == None;
        assert actions[..n] == init[..n];
      } else {
        assert TaskOk(slots, mid.data, t, mid.tasks[t]);
        StepNeverProlongs(slots, mid, last, t);
        assert actions[..|actions|] == actions;
      }
    }
  }

  /** A restart forgets every task and frees the lock; rows and clock stay. */
  lemma RestartFreesTheLock(slots: nat, s: State)
    ensures var s' := Step(slots, s, Restart);
            && s'.tasks == map[] && s'.data.lock == None && s'.data.pool == s.data.pool && s'.data.now == s.data.now
            && s'.data.log == s.data.log && s'.data.serials == s.data.serials && s'.data.next == s.data.next
  {
  }

  /** A waiter that gives up is done and changes nothing else. */
  lemma WaiterGivesUp(slots: nat, s: State, t: nat)
    requires t in s.tasks && s.tasks[t].Queued?
    ensures Step(slots, s, TimeOut(t)) == s.(tasks := s.tasks[t := Finished])
  {
  }

  /** From every reachable state in which task `t` has the lock, whatever all tasks do next: the
      lock is freed, or `t` still has it, can move on by success and by failure, and has moved fewer
      times than its rank, which is at most six. */
  lemma LockIsReleased(slots: nat, s: State, before: seq<Action>, after: seq<Action>, t: nat)
    requires Init(s) && Run(slots, s, before).data.lock == Some(t)
    ensures var f := Run(slots, s, before); var g := Run(slots, f, after);
            && t in f.tasks && 1 <= Rank(f.tasks[t]) <= 6
            && (|| FreedWithin(slots, f, after)
                || (&& t in g.tasks && Holds(g.tasks[t]) && CanMove(slots, g, t)
                    && OwnSteps(slots, f, after, t) < Rank(f.tasks[t])))
  {
    RunKeepsInv(slots, s, before);
    var f := Run(slots, s, before);
    var g := Run(slots, f, after);
    assert TaskOk(slots, f.data, t, f.tasks[t]);
    TurnIsBounded(slots, f, after, t);
    if t in g.tasks && Holds(g.tasks[t]) { HolderCanMove(slots, g, t); }
    hide Run, Step, TaskOk, RowsOk, LogOk, OwnSteps, FreedWithin, CanMove, Init;
  }
}
