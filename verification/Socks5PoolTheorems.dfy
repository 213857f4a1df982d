/** What every run of the two SOCKS5 pools guarantees. */
module Socks5PoolTheorems {
  import opened Wrappers
  import opened Socks5Table
  import opened Socks5Pool
  import opened Socks5PoolProofs

  // ----- for every run whatsoever -----

  lemma StepKeepsRows(slots: nat, s: State, a: Action)
    requires Inv(slots, s)
    ensures SameRows(s.data.pool, Step(slots, s, a).data.pool)
  {
    if !a.Tick? && !a.Restart? && a.t in s.tasks {
      TaskStepKeepsData(slots, s.data, a.t, s.tasks[a.t], a);
      hide RowsOk, LogOk, TaskOk;
    } else {
      hide TaskStep, RowsOk, LogOk, TaskOk;
    }
  }

  lemma LogGrows(slots: nat, s: State, a: Action)
    ensures s.data.log <= Step(slots, s, a).data.log
  {
  }

  lemma {:induction false} RunKeepsRows(slots: nat, s: State, actions: seq<Action>)
    requires Init(s)
    ensures SameRows(s.data.pool, Run(slots, s, actions).data.pool)
    decreases |actions|
  {
    if actions != [] {
      var init := actions[..|actions| - 1];
      RunKeepsRows(slots, s, init);
      RunKeepsInv(slots, s, init);
      StepKeepsRows(slots, Run(slots, s, init), actions[|actions| - 1]);
    }
  }

  /** The two pools never meet. In every run the rows of the `slots` lowest ids are available, every
      shared grant is of one of them, and no exclusive grant and no marked row ever is. */
  lemma PoolsStayDisjoint(slots: nat, s: State, actions: seq<Action>)
    requires Init(s)
    ensures var f := Run(slots, s, actions);
            && SharedIntact(f.data.pool, slots)
            && (forall e :: e in f.data.log ==> (e.rank < slots <==> e.Shared?))
            && (forall t :: t in f.tasks ==> (f.tasks[t].Touching? ==> f.tasks[t].rank < slots)
                                             && (f.tasks[t].Marking? ==> slots <= f.tasks[t].rank))
  {
    RunKeepsInv(slots, s, actions);
    var f := Run(slots, s, actions);
    assert forall e :: e in f.data.log ==> EventOk(slots, e);
    forall t | t in f.tasks
      ensures (f.tasks[t].Touching? ==> f.tasks[t].rank < slots) && (f.tasks[t].Marking? ==> slots <= f.tasks[t].rank)
    {
      assert TaskOk(slots, f.data, t, f.tasks[t]);
    }
  }

  /** Rows are never lost or made up; at most N - P are out at a time; and the pre-check's count is
      what the shared pool leaves over, so it is positive exactly when the exclusive query finds a
      row. */
  lemma SupplyInEveryRun(slots: nat, s: State, actions: seq<Action>)
    requires Init(s)
    ensures var (n, pool) := (|s.data.pool|, Run(slots, s, actions).data.pool);
            && |AvailableRanks(pool)| + |TakenRanks(pool)| == n
            && |TakenRanks(pool)| <= (if slots <= n then n - slots else 0)
            && CountAvailable(pool, slots)
               == (if slots <= |AvailableRanks(pool)| then |AvailableRanks(pool)| - slots else 0)
            && (CountAvailable(pool, slots) > 0 <==> ExclusiveRank(pool, slots).Some?)
  {
    RunKeepsInv(slots, s, actions);
    RunKeepsRows(slots, s, actions);
    SupplyIsConserved(Run(slots, s, actions).data.pool, slots);
  }

  /** At most one task is in its turn, and what it marks is a free row: available, without expiry. */
  lemma OnlyFreeRowsAreTaken(slots: nat, s: State, actions: seq<Action>)
    requires Init(s)
    ensures var f := Run(slots, s, actions);
            && (forall t, u :: t in f.tasks && u in f.tasks && Holds(f.tasks[t]) && Holds(f.tasks[u]) ==> t == u)
            && (forall i :: slots <= i < |f.data.pool| ==>
               (f.data.pool[i].available <==> f.data.pool[i].expiresAt == 0))
            && (forall t :: t in f.tasks && f.tasks[t].Marking? ==>
                  var k := f.tasks[t].rank;
                  k < |f.data.pool| && f.data.pool[k].available && f.data.pool[k].expiresAt == 0)
  {
    RunKeepsInv(slots, s, actions);
    var f := Run(slots, s, actions);
    assert RanksOk(f.data.pool, slots);
    hide Run, Init, RowsOk, LogOk;
    forall t | t in f.tasks && f.tasks[t].Marking?
      ensures var k := f.tasks[t].rank; slots <= k < |f.data.pool| && f.data.pool[k].available
    {
      assert TaskOk(slots, f.data, t, f.tasks[t]);
    }
    forall t | t in f.tasks && Holds(f.tasks[t]) ensures f.data.lock == Some(t) {
      assert TaskOk(slots, f.data, t, f.tasks[t]);
    }
  }

  lemma FreeSparesUnexpired(slots: nat, s: State, t: nat, k: nat)
    requires t in s.tasks ==> TaskOk(slots, s.data, t, s.tasks[t])
    requires k < |s.data.pool| && s.data.pool[k].expiresAt > s.data.now
    ensures var pool := Step(slots, s, Free(t)).data.pool; k < |pool| && pool[k] == s.data.pool[k]
  {
  }

  /** A cleanup changes no row that an extension could still succeed on at that instant. */
  lemma {:induction false} CleanupSparesExtendable(slots: nat, s: State, actions: seq<Action>, t: nat, k: nat)
    requires Init(s) && k < |s.data.pool|
    ensures var f := Run(slots, s, actions); var f' := Step(slots, f, Free(t));
            && k < |f.data.pool| && k < |f'.data.pool|
            && (f.data.pool[k].expiresAt > f.data.now ==> f'.data.pool[k] == f.data.pool[k])
  {
    RunKeepsInv(slots, s, actions);
    RunKeepsRows(slots, s, actions);
    var f := Run(slots, s, actions);
    StepKeepsRows(slots, f, Free(t));
    hide Run, Init, RowsOk, LogOk, TaskOk, Step;
    if f.data.pool[k].expiresAt > f.data.now { FreeSparesUnexpired(slots, f, t, k); }
  }

  // ----- when no extension moves back -----

  /** The row of rank `k` is still out on the grant of this serial number. */
  predicate Held(d: Data, k: nat, serial: nat) {
    k in d.serials && d.serials[k] == serial && k < |d.pool| && !d.pool[k].available
  }

  /** While the grant is out its row lasts at least as long as promised; after it, the promise has
      run out. */
  predicate PromiseOk(d: Data, e: Event)
    requires IsPromise(e)
  {
    e.serial < d.next && if Held(d, e.rank, e.serial) then e.expiry <= d.pool[e.rank].expiresAt else e.expiry <= d.now
  }

  /** A row is taken again only when every earlier promise of it has run out. */
  ghost predicate Exclusive(log: seq<Event>) {
    forall i, j ::
      0 <= i < j < |log| && IsPromise(log[i]) && log[j].Taken? && log[i].rank == log[j].rank ==>
          log[i].expiry <= log[j].at
  }

  /** If two extensions succeed on one (row, expiry) pair, the pair had run out before the second. */
  ghost predicate ExtendedOnce(log: seq<Event>) {
    forall i, j ::
      && 0 <= i < j < |log| && log[i].Extended? && log[j].Extended?
      && log[i].rank == log[j].rank && log[i].from == log[j].from
      ==> log[j].from < log[j].at
  }

  ghost predicate HistoryOk(d: Data) {
    && (forall e :: e in d.log && IsPromise(e) ==> PromiseOk(d, e))
    && Exclusive(d.log) && (ForwardOnly(d.log) ==> ExtendedOnce(d.log))
  }

  ghost predicate Follows(earlier: Event, e: Event, forward: bool) {
    && (IsPromise(earlier) && e.Taken? && earlier.rank == e.rank ==> earlier.expiry <= e.at)
    && (forward && earlier.Extended? && e.Extended? && earlier.rank == e.rank && earlier.from == e.from ==>
       e.from < e.at)
  }

  lemma Append(log: seq<Event>, e: Event)
    requires Exclusive(log) && (ForwardOnly(log) ==> ExtendedOnce(log))
    requires forall earlier :: earlier in log ==> Follows(earlier, e, ForwardOnly(log + [e]))
    ensures Exclusive(log + [e]) && (ForwardOnly(log + [e]) ==> ExtendedOnce(log + [e]))
  {
    var log' := log + [e];
    if ForwardOnly(log') {
      forall x | x in log && x.Extended? ensures x.from < x.expiry { assert x in log'; }
    }
    forall i, j | 0 <= i < j < |log'| ensures j == |log| ==> Follows(log'[i], log'[j], ForwardOnly(log')) {
      assert log'[i] == log[i];
    }
  }

  lemma FreeKeepsHistory(slots: nat, d: Data, cutoff: int)
    requires RowsOk(slots, d) && HistoryOk(d) && cutoff <= d.now
    ensures HistoryOk(d.(pool := FreeExpired(d.pool, cutoff)))
  {
    var d' := d.(pool := FreeExpired(d.pool, cutoff));
    forall e | e in d.log && IsPromise(e) ensures PromiseOk(d', e) { assert PromiseOk(d, e); }
  }

  lemma TouchKeepsHistory(slots: nat, d: Data, t: nat, e: int, k: nat, username: string)
    requires RowsOk(slots, d) && LogOk(slots, d.log) && TaskOk(slots, d, t, Touching(e, k, username)) && HistoryOk(d)
    ensures HistoryOk(TouchStep(d, e, k, username))
  {
    var d' := TouchStep(d, e, k, username);
    TouchAt(d.pool, k, e);
    hide Touch, UsernamesDistinct;
    forall p | p in d'.log && IsPromise(p) ensures PromiseOk(d', p) {
      assert p in d.log && EventOk(slots, p) && PromiseOk(d, p);
    }
    Append(d.log, Shared(k, e, d.now));
  }

  lemma TakenKeepsHistory(d: Data, e: int, k: nat)
    requires HistoryOk(d) && k < |d.pool| && d.pool[k].available
    ensures HistoryOk(d.(pool := d.pool[k := d.pool[k].(available := false, expiresAt := e)],
                         serials := d.serials[k := d.next], next := d.next + 1,
                         log := d.log + [Taken(d.next, k, e, d.now)]))
  {
    var d' := d.(pool := d.pool[k := d.pool[k].(available := false, expiresAt := e)],
                 serials := d.serials[k := d.next], next := d.next + 1, log := d.log + [Taken(d.next, k, e, d.now)]);
    forall p | p in d.log && IsPromise(p) ensures PromiseOk(d', p) && (p.rank == k ==> p.expiry <= d.now) {
      assert PromiseOk(d, p);
    }
    Append(d.log, Taken(d.next, k, e, d.now));
  }

  lemma MarkKeepsHistory(slots: nat, d: Data, t: nat, e: int, k: nat, username: string, password: string)
    requires RowsOk(slots, d) && TaskOk(slots, d, t, Marking(e, k, username, password)) && HistoryOk(d)
    ensures HistoryOk(MarkStep(d, e, k, username, password))
  {
    MarkTakenAt(d.pool, k, e);
    TakenKeepsHistory(d, e, k);
    hide MarkTaken, RowsOk, HistoryOk;
  }

  lemma RenewedKeepsHistory(slots: nat, d: Data, k: nat, renewed: int, reading: int)
    requires RowsOk(slots, d) && HistoryOk(d) && k < |d.pool| && 0 <= reading < d.pool[k].expiresAt
    requires NeverBack(Renewed(d, k, renewed, reading).log)
    ensures HistoryOk(Renewed(d, k, renewed, reading))
  {
    hide UsernamesDistinct;
    var d' := Renewed(d, k, renewed, reading);
    if k in d.serials {
      var x := Extended(d.serials[k], k, renewed, d.now, d.pool[k].expiresAt, reading);
      assert x in d'.log && !d.pool[k].available;
      forall e | e in d.log && IsPromise(e) ensures PromiseOk(d', e) && Follows(e, x, ForwardOnly(d'.log)) {
        assert PromiseOk(d, e) && e in d'.log;
      }
      Append(d.log, x);
    } else {
      forall e | e in d.log && IsPromise(e) ensures PromiseOk(d', e) { assert PromiseOk(d, e); }
    }
  }

  lemma UpdateKeepsHistory(slots: nat, d: Data, username: string, expected: int, renewed: int, reading: int)
    requires RowsOk(slots, d) && HistoryOk(d) && reading >= 0
    requires NeverBack(UpdateStep(d, username, expected, renewed, reading).log)
    ensures HistoryOk(UpdateStep(d, username, expected, renewed, reading))
  {
    UpdateIsRenewed(d, username, expected, renewed, reading);
    var d' := UpdateStep(d, username, expected, renewed, reading);
    hide UpdateStep, HistoryOk, NeverBack, Renewed, RowsOk;
    if d' != d {
      var k: nat :| k < |d.pool| && reading < d.pool[k].expiresAt && d' == Renewed(d, k, renewed, reading);
      RenewedKeepsHistory(slots, d, k, renewed, reading);
    }
  }

  /** Only the lock and the clock differ. */
  lemma QuietKeepsHistory(d: Data, d': Data)
    requires HistoryOk(d) && d' == d.(lock := d'.lock, now := d'.now) && d.now <= d'.now
    ensures HistoryOk(d')
  {
    forall e | e in d'.log && IsPromise(e) ensures PromiseOk(d', e) { assert PromiseOk(d, e); }
  }

  lemma StepKeepsHistory(slots: nat, s: State, a: Action)
    requires Inv(slots, s) && HistoryOk(s.data) && NeverBack(Step(slots, s, a).data.log)
    ensures HistoryOk(Step(slots, s, a).data)
  {
    var d, d' := s.data, Step(slots, s, a).data;
    if !a.Tick? && !a.Restart? && a.t in s.tasks {
      var task := s.tasks[a.t];
      OtherStepsAreQuiet(slots, d, a.t, task, a);
      assert TaskOk(slots, d, a.t, task);
      hide RowsOk, LogOk, HistoryOk, NeverBack, TouchStep, MarkStep, UpdateStep, FreeExpired;
      if Writes(a, task) {
        match task
        case Touching(e, k, username) => TouchKeepsHistory(slots, d, a.t, e, k, username);
        case Freeing(e, cutoff) => FreeKeepsHistory(slots, d, cutoff);
        case Clearing(e, cutoff) => FreeKeepsHistory(slots, d, cutoff);
        case Marking(e, k, username, password) => MarkKeepsHistory(slots, d, a.t, e, k, username, password);
        case Extending(username, expected, renewed, reading) =>
          UpdateKeepsHistory(slots, d, username, expected, renewed, reading);
      } else {
        QuietKeepsHistory(d, d');
      }
    } else {
      QuietKeepsHistory(d, d');
    }
  }

  lemma {:induction false} RunKeepsHistory(slots: nat, s: State, actions: seq<Action>)
    requires Init(s) && NeverBack(Run(slots, s, actions).data.log)
    ensures HistoryOk(Run(slots, s, actions).data)
    decreases |actions|
  {
    if actions != [] {
      var init, last := actions[..|actions| - 1], actions[|actions| - 1];
      var mid := Run(slots, s, init);
      RunKeepsInv(slots, s, init);
      LogGrows(slots, mid, last);
      assert NeverBack(mid.data.log) by {
        forall e | e in mid.data.log && e.Extended? ensures e.from <= e.expiry {
          assert e in Run(slots, s, actions).data.log;
        }
      }
      RunKeepsHistory(slots, s, init);
      StepKeepsHistory(slots, mid, last);
    }
  }

  /** Any two promises of one row that have not run out belong to the same grant. */
  ghost predicate OneHolder(d: Data) {
    forall e, f ::
      && e in d.log && f in d.log && IsPromise(e) && IsPromise(f) && e.rank == f.rank
      && d.now < e.expiry && d.now < f.expiry
      ==> e.serial == f.serial
  }

  /** In every interleaving whose extensions do not move back, an exclusive credential has one
      holder at a time and is taken again only when every earlier promise of it has run out; when
      they move strictly forward, a (username, expiry) pair that has not run out is extended at most
      once. */
  lemma CredentialsAreExclusive(slots: nat, s: State, actions: seq<Action>)
    requires Init(s) && NeverBack(Run(slots, s, actions).data.log)
    ensures var d := Run(slots, s, actions).data;
            OneHolder(d) && Exclusive(d.log) && (ForwardOnly(d.log) ==> ExtendedOnce(d.log))
  {
    RunKeepsHistory(slots, s, actions);
    var d := Run(slots, s, actions).data;
    forall e, f |
      && e in d.log && f in d.log && IsPromise(e) && IsPromise(f) && e.rank == f.rank
      && d.now < e.expiry && d.now < f.expiry
      ensures e.serial == f.serial
    {
      assert PromiseOk(d, e) && PromiseOk(d, f);
    }
  }

  // ----- expired grants stay expired -----

  /** From `d` to `d'` row `k` changes neither its grant nor, once it expired `lag` milliseconds ago,
      its expiry. */
  predicate NotRevived(d: Data, d': Data, k: nat, serial: nat, lag: nat) {
    && d.next <= d'.next
    && (Held(d', k, serial) ==>
          Held(d, k, serial)
          && (d.pool[k].expiresAt + lag <= d.now ==> d'.pool[k].expiresAt == d.pool[k].expiresAt))
  }

  lemma UpdateNeverRevives(
      d: Data, username: string, expected: int, renewed: int, reading: int, k: nat, serial: nat, lag: nat)
    requires UsernamesDistinct(d.pool) && LaggedBy(UpdateStep(d, username, expected, renewed, reading).log, lag)
    ensures NotRevived(d, UpdateStep(d, username, expected, renewed, reading), k, serial, lag)
  {
    UpdateIsRenewed(d, username, expected, renewed, reading);
    var d' := UpdateStep(d, username, expected, renewed, reading);
    hide UpdateStep, UsernamesDistinct;
    if d'.log != d.log { assert d'.log[|d.log|] in d'.log; }
  }

  lemma TaskStepNeverRevives(slots: nat, d: Data, t: nat, task: Task, a: Action, k: nat, serial: nat, lag: nat)
    requires RowsOk(slots, d) && TaskOk(slots, d, t, task) && serial < d.next
    requires LaggedBy(TaskStep(slots, d, t, task, a).0.log, lag)
    ensures NotRevived(d, TaskStep(slots, d, t, task, a).0, k, serial, lag)
  {
    if Writes(a, task) {
      hide UpdateStep, LaggedBy, Touch, MarkTaken, UsernamesDistinct;
      match task
      case Touching(e, i, username) => TouchAt(d.pool, i, e);
      case Marking(e, i, username, password) => MarkTakenAt(d.pool, i, e);
      case Extending(username, expected, renewed, reading) =>
        UpdateNeverRevives(d, username, expected, renewed, reading, k, serial, lag);
      case _ =>
    } else {
      OtherStepsAreQuiet(slots, d, t, task, a);
      hide TaskStep;
    }
  }

  lemma StepNeverRevives(slots: nat, s: State, a: Action, k: nat, serial: nat, lag: nat)
    requires Inv(slots, s) && serial < s.data.next && LaggedBy(Step(slots, s, a).data.log, lag)
    ensures var d, d' := s.data, Step(slots, s, a).data;
            d.now <= d'.now && NotRevived(d, d', k, serial, lag)
  {
    if !a.Tick? && !a.Restart? && a.t in s.tasks {
      TaskStepNeverRevives(slots, s.data, a.t, s.tasks[a.t], a, k, serial, lag);
      OtherStepsAreQuiet(slots, s.data, a.t, s.tasks[a.t], a);
      hide RowsOk, LogOk, TaskOk, TaskStep, LaggedBy;
    } else {
      hide TaskStep;
    }
  }

  /** When no clock reading is older than `lag`, the expiry of a grant that expired `lag` milliseconds
      ago never changes again. */
  lemma {:induction false} ExpiredGrantsStayExpired(
      slots: nat, s: State, actions: seq<Action>, k: nat, serial: nat, lag: nat)
    requires Inv(slots, s) && serial < s.data.next && LaggedBy(Run(slots, s, actions).data.log, lag)
    requires Held(s.data, k, serial) && s.data.pool[k].expiresAt + lag <= s.data.now
    ensures var f := Run(slots, s, actions); var d := f.data;
            && Inv(slots, f) && s.data.now <= d.now && s.data.next <= d.next
            && (Held(d, k, serial) ==> d.pool[k].expiresAt == s.data.pool[k].expiresAt)
    decreases |actions|
  {
    if actions != [] {
      var init, last := actions[..|actions| - 1], actions[|actions| - 1];
      var mid := Run(slots, s, init);
      LogGrows(slots, mid, last);
      assert LaggedBy(mid.data.log, lag) by {
        forall e | e in mid.data.log && e.Extended? ensures e.at - e.reading <= lag {
          assert e in Run(slots, s, actions).data.log;
        }
      }
      ExpiredGrantsStayExpired(slots, s, init, k, serial, lag);
      StepKeepsInv(slots, mid, last);
      StepNeverRevives(slots, mid, last, k, serial, lag);
    }
  }

  // ----- one extension for each pair -----

  /** No (row, expiry) pair is extended twice. */
  ghost predicate NoPairTwice(log: seq<Event>) {
    forall i, j ::
      && 0 <= i < |log| && 0 <= j < |log| && log[i].Extended? && log[j].Extended?
      && log[i].rank == log[j].rank && log[i].from == log[j].from
      ==> i == j
  }

  /** When extensions move forward and no clock reading is older than a millisecond, no
      (username, expiry) pair of an exclusive row is extended twice. */
  lemma ExtensionSucceedsOnce(slots: nat, s: State, actions: seq<Action>)
    requires Init(s)
    requires var log := Run(slots, s, actions).data.log; ForwardOnly(log) && LaggedBy(log, 1)
    ensures NoPairTwice(Run(slots, s, actions).data.log)
  {
    var log := Run(slots, s, actions).data.log;
    CredentialsAreExclusive(slots, s, actions);
    RunKeepsInv(slots, s, actions);
    forall i | 0 <= i < |log| && log[i].Extended?
      ensures log[i].reading < log[i].from && log[i].at <= log[i].reading + 1
    {
      assert log[i] in log && EventOk(slots, log[i]);
    }
    hide Run, Inv, Init;
  }
}
