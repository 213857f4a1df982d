/** Which ids requests get, and when a request is refused, in every run of the lease protocol. */
module LeaseRefusals {
  import opened Wrappers
  import opened LeaseTable
  import opened LeaseProtocol
  import opened LeaseProofs
  import opened LeaseLock
  import opened LeaseTheorems

  // ----- ids stay in range, whatever the extensions do -----

  /** Rows, reservations and promises are of ids in range. */
  ghost predicate IdsOk(r: Range, d: Data) {
    && (forall id :: id in d.rows ==> r.Contains(id) && id in d.serials)
    && (forall e :: e in d.log && IsPromise(e) ==> r.Contains(e.id))
  }

  predicate PendingOk(r: Range, task: Task) { Pending(task).Some? ==> r.Contains(Pending(task).value.id) }

  lemma TaskStepKeepsIds(r: Range, d: Data, t: nat, task: Task, a: Action)
    requires IdsOk(r, d) && TurnOk(r, d, t, task) && PendingOk(r, task)
    ensures var (d', task') := TaskStep(r, d, t, task, a); IdsOk(r, d') && PendingOk(r, task')
  {
  }

  ghost predicate AllIdsOk(r: Range, s: State) {
    IdsOk(r, s.data) && forall t :: t in s.tasks ==> PendingOk(r, s.tasks[t])
  }

  lemma StepKeepsIds(r: Range, s: State, a: Action)
    requires TurnsOk(r, s) && AllIdsOk(r, s)
    ensures AllIdsOk(r, Step(r, s, a))
  {
    if !a.Tick? && !a.Restart? && a.t in s.tasks {
      TaskStepKeepsIds(r, s.data, a.t, s.tasks[a.t], a);
      hide TaskStep, IdsOk, PendingOk, TurnOk;
    } else {
      hide TaskStep, IdsOk, TurnOk;
    }
  }

  lemma {:induction false} RunKeepsIds(r: Range, s: State, actions: seq<Action>)
    requires r.start <= r.end && Init(r, s)
    ensures AllIdsOk(r, Run(r, s, actions))
    decreases |actions|
  {
    if actions != [] {
      RunKeepsIds(r, s, actions[..|actions| - 1]);
      OneTaskAllocates(r, s, actions[..|actions| - 1]);
      StepKeepsIds(r, Run(r, s, actions[..|actions| - 1]), actions[|actions| - 1]);
    }
  }

  /** In every run, every id ever promised is one that was asked for. */
  lemma PromisedIdsInRange(r: Range, s: State, actions: seq<Action>)
    requires r.start <= r.end && Init(r, s)
    ensures forall e :: e in Run(r, s, actions).data.log && IsPromise(e) ==> r.Contains(e.id)
  {
    RunKeepsIds(r, s, actions);
  }

  // ----- refusals -----

  /** After its purge, and until its turn ends, a request sees no row that had expired at the purge. */
  predicate PurgeHolds(d: Data, task: Task) {
    task.Reprobing? ==> forall id :: id in d.rows ==> task.cutoff <= d.rows[id].expiresAt
  }

  ghost predicate PurgesHold(s: State) {
    forall t :: t in s.tasks ==> PurgeHolds(s.data, s.tasks[t])
  }

  lemma TaskStepKeepsPurge(r: Range, d: Data, t: nat, task: Task, a: Action, u: nat, other: Task)
    requires IdsOk(r, d) && TurnOk(r, d, t, task) && TurnOk(r, d, u, other) && PurgeHolds(d, other)
    requires NeverBack(TaskStep(r, d, t, task, a).0.log) && (t == u ==> task == other)
    ensures var (d', task') := TaskStep(r, d, t, task, a); PurgeHolds(d', if t == u then task' else other)
  {
    var d' := TaskStep(r, d, t, task, a).0;
    if task.Extending? && d'.log != d.log {
      assert d'.log[|d.log|].Extended?;
    }
  }

  lemma StepKeepsPurges(r: Range, s: State, a: Action)
    requires TurnsOk(r, s) && AllIdsOk(r, s) && PurgesHold(s) && NeverBack(Step(r, s, a).data.log)
    ensures PurgesHold(Step(r, s, a))
  {
    if !a.Tick? && !a.Restart? && a.t in s.tasks {
      var (d', task') := TaskStep(r, s.data, a.t, s.tasks[a.t], a);
      assert Step(r, s, a) == State(d', s.tasks[a.t := task']) by { hide TaskStep, TurnOk, IdsOk; }
      hide TaskStep, Step, TurnOk, IdsOk, NeverBack, PurgeHolds;
      forall u | u in s.tasks ensures PurgeHolds(d', if a.t == u then task' else s.tasks[u]) {
        TaskStepKeepsPurge(r, s.data, a.t, s.tasks[a.t], a, u, s.tasks[u]);
      }
    } else {
      hide TaskStep, TurnOk, IdsOk, NeverBack;
    }
  }

  lemma NeverBackPrefix(log: seq<Event>, log': seq<Event>)
    requires log <= log' && NeverBack(log')
    ensures NeverBack(log)
  {
    forall i | 0 <= i < |log| && log[i].Extended? ensures log[i].from <= log[i].expiry { assert log'[i] == log[i]; }
  }

  lemma {:induction false} RunKeepsPurges(r: Range, s: State, actions: seq<Action>)
    requires r.start <= r.end && Init(r, s) && NeverBack(Run(r, s, actions).data.log)
    ensures PurgesHold(Run(r, s, actions))
    decreases |actions|
  {
    if actions != [] {
      var init, last := actions[..|actions| - 1], actions[|actions| - 1];
      var mid := Run(r, s, init);
      LogGrows(r, mid, last);
      NeverBackPrefix(mid.data.log, Run(r, s, actions).data.log);
      RunKeepsPurges(r, s, init);
      RunKeepsIds(r, s, init);
      OneTaskAllocates(r, s, init);
      StepKeepsPurges(r, mid, last);
    }
  }

  /** The next SELECT of task `t` finds nothing after its purge, and the request is refused. */
  predicate Refuses(r: Range, s: State, t: nat) {
    t in s.tasks && s.tasks[t].Reprobing? && FirstFree(s.data.rows, r.start, r.end).None?
  }

  /** A refusal is logged exactly by that SELECT. */
  lemma RefusalsAreLogged(r: Range, s: State, t: nat)
    ensures Refuses(r, s, t) <==> Step(r, s, Select(t)).data.log != s.data.log
    ensures Refuses(r, s, t) ==>
              Step(r, s, Select(t)).data.log == s.data.log + [Refused(s.tasks[t].cutoff, s.data.now)]
  {
    hide FirstFree;
  }

  lemma RefusedWhenFull(r: Range, s: State, actions: seq<Action>, t: nat)
    requires r.start <= r.end && Init(r, s) && NeverBack(Run(r, s, actions).data.log)
    requires Refuses(r, Run(r, s, actions), t)
    ensures var f := Run(r, s, actions);
            f.tasks[t].cutoff <= f.data.now && AllHeld(f.data.rows, r.start, r.end, f.tasks[t].cutoff)
  {
    var f := Run(r, s, actions);
    OneTaskAllocates(r, s, actions);
    RunKeepsPurges(r, s, actions);
    assert TurnOk(r, f.data, t, f.tasks[t]) && PurgeHolds(f.data, f.tasks[t]);
    FirstFreeIsLeast(f.data.rows, r.start, r.end);
    hide Run, Init, NeverBack, FirstFree;
  }

  /** When no extension moves back, LeaseUnavailable is reported only when every id of the range is held
      by a row that had not expired at the purge made in the same turn. */
  lemma RefusedOnlyWhenFull(r: Range, s: State, actions: seq<Action>, t: nat)
    requires r.start <= r.end && Init(r, s) && NeverBack(Run(r, s, actions).data.log)
    ensures var f := Run(r, s, actions); var f' := Step(r, f, Select(t));
            f'.data.log != f.data.log ==>
              && t in f.tasks && f.tasks[t].Reprobing? && f.tasks[t].cutoff <= f.data.now
              && f'.data.log == f.data.log + [Refused(f.tasks[t].cutoff, f.data.now)]
              && AllHeld(f.data.rows, r.start, r.end, f.tasks[t].cutoff)
  {
    RefusalsAreLogged(r, Run(r, s, actions), t);
    if Refuses(r, Run(r, s, actions), t) { RefusedWhenFull(r, s, actions, t); }
    hide Run, Init, NeverBack, Step, AllHeld;
  }
}
