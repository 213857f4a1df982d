/** What every run of the lease protocol guarantees, and where the guarantees end. */
module LeaseTheorems {
  import opened Wrappers
  import opened LeaseTable
  import opened LeaseProtocol
  import opened LeaseProofs
  import opened LeaseLock

  // ----- runs -----

  lemma LogGrows(r: Range, s: State, a: Action)
    ensures s.data.log <= Step(r, s, a).data.log
  {
  }

  lemma {:induction false} RunKeepsInv(r: Range, s: State, actions: seq<Action>)
    requires r.start <= r.end && Init(r, s) && Steady(Run(r, s, actions).data.log)
    ensures Inv(r, Run(r, s, actions))
    decreases |actions|
  {
    if actions != [] {
      var init, last := actions[..|actions| - 1], actions[|actions| - 1];
      var mid := Run(r, s, init);
      LogGrows(r, mid, last);
      SteadyPrefix(mid.data.log, Run(r, s, actions).data.log);
      RunKeepsInv(r, s, init);
      StepKeepsInv(r, mid, last);
    }
  }

  // ----- exclusivity -----

  /** Any two promises on one id that have not run out belong to the same lease. */
  ghost predicate OneHolder(d: Data) {
    forall e, f ::
      e in d.log && f in d.log && IsPromise(e) && IsPromise(f) && e.id == f.id && d.now <= e.expiry && d.now <= f.expiry
      ==> e.serial == f.serial
  }

  /** In every interleaving with steady extensions an id has one holder at a time and is issued
      again only after every earlier promise on it has strictly run out. If the extensions all move
      forward, an (id, expiry) pair that has not run out is extended at most once. */
  lemma LeasesAreExclusive(r: Range, s: State, actions: seq<Action>)
    requires r.start <= r.end && Init(r, s) && Steady(Run(r, s, actions).data.log)
    ensures var d := Run(r, s, actions).data;
            OneHolder(d) && Exclusive(d.log) && (ForwardOnly(d.log) ==> ExtendedOnce(d.log))
  {
    RunKeepsInv(r, s, actions);
    var d := Run(r, s, actions).data;
    forall e, f |
      && e in d.log && f in d.log && IsPromise(e) && IsPromise(f) && e.id == f.id
      && d.now <= e.expiry && d.now <= f.expiry
      ensures e.serial == f.serial
    {
      assert PromiseOk(r, d, e) && PromiseOk(r, d, f);
    }
  }

  /** No (id, expiry) pair is extended twice. */
  ghost predicate NoPairTwice(log: seq<Event>) {
    forall i, j ::
      && 0 <= i < |log| && 0 <= j < |log| && log[i].Extended? && log[j].Extended?
      && log[i].id == log[j].id && log[i].from == log[j].from
      ==> i == j
  }

  /** When extensions move forward and no clock reading is older than two milliseconds, no
      (id, expiry) pair is extended twice. */
  lemma ExtensionSucceedsOnce(r: Range, s: State, actions: seq<Action>)
    requires r.start <= r.end && Init(r, s)
    requires var log := Run(r, s, actions).data.log; ForwardOnly(log) && LaggedBy(log, 2)
    ensures NoPairTwice(Run(r, s, actions).data.log)
  {
    var log := Run(r, s, actions).data.log;
    ForwardIsSteady(log);
    LeasesAreExclusive(r, s, actions);
    RunExtendsUnexpired(r, s, actions);
    assert forall i :: 0 <= i < |log| && log[i].Extended? ==> log[i] in log && log[i].reading < log[i].from;
  }

  /** A successful extension found its expected expiry later than the clock it had read. */
  lemma {:induction false} RunExtendsUnexpired(r: Range, s: State, actions: seq<Action>)
    requires Init(r, s)
    ensures forall e :: e in Run(r, s, actions).data.log && e.Extended? ==> e.reading < e.from
    decreases |actions|
  {
    if actions != [] {
      RunExtendsUnexpired(r, s, actions[..|actions| - 1]);
    }
  }

  // ----- what single statements may remove -----

  /** What a rollback of `p` may delete: its own reservation, which no client was ever promised, or
      a row that has strictly expired. */
  ghost predicate OwnOrExpired(d: Data, p: Reservation, id: int)
    requires id in d.rows
  {
    || d.rows[id].expiresAt < d.now
    || (&& Current(d, id, p.serial)
        && forall e :: e in d.log && IsPromise(e) && e.id == id ==> e.serial != p.serial)
  }

  lemma RollbackAt(r: Range, d: Data, t: nat, p: Reservation, id: int)
    requires DataOk(r, d) && TaskOk(r, d, t, RollingBack(p))
    requires id in d.rows && id !in DeleteIf(d.rows, p.id, Some(p.expiry))
    ensures p.id == id && OwnOrExpired(d, p, id)
  {
    forall e | e in d.log && IsPromise(e) ensures PromiseOk(r, d, e) {}
  }

  lemma RollbackRemovesOwnOrExpired(r: Range, s: State, actions: seq<Action>, t: nat, ok: bool, id: int)
    requires r.start <= r.end && Init(r, s) && Steady(Run(r, s, actions).data.log)
    ensures var f := Run(r, s, actions); var f' := Step(r, f, Rollback(t, ok));
            id in f.data.rows && id !in f'.data.rows ==>
              && t in f.tasks && f.tasks[t].RollingBack? && f.tasks[t].reserved.id == id
              && OwnOrExpired(f.data, f.tasks[t].reserved, id)
  {
    RunKeepsInv(r, s, actions);
    var f := Run(r, s, actions);
    hide Run, Init, DataOk, OwnOrExpired;
    if t in f.tasks && f.tasks[t].RollingBack? && id in f.data.rows && id !in Step(r, f, Rollback(t, ok)).data.rows {
      assert TaskOk(r, f.data, t, f.tasks[t]);
      RollbackAt(r, f.data, t, f.tasks[t].reserved, id);
    }
  }

  /** A purge or sweep removes only rows that no extension could still succeed on at that instant. */
  lemma CleanupSparesExtendable(r: Range, s: State, actions: seq<Action>, a: Action, id: int, expected: int)
    requires r.start <= r.end && Init(r, s) && (a.Purge? || a.Sweep?)
    ensures var f := Run(r, s, actions);
            Extendable(f.data.rows, id, expected, f.data.now) ==> id in Step(r, f, a).data.rows
  {
    OneTaskAllocates(r, s, actions);
    var f := Run(r, s, actions);
    if a.t in f.tasks { assert TurnOk(r, f.data, a.t, f.tasks[a.t]); }
  }

  /** `store_peer_keys` has no guard on the expiry: it writes to the row of its own reservation, or
      its reservation has strictly expired. */
  lemma KeysGoToOwnRowUnlessExpired(r: Range, s: State, actions: seq<Action>, t: nat)
    requires r.start <= r.end && Init(r, s) && Steady(Run(r, s, actions).data.log)
    ensures var f := Run(r, s, actions);
            t in f.tasks && f.tasks[t].StoringKeys? ==>
              var p := f.tasks[t].reserved;
              p.expiry < f.data.now || Current(f.data, p.id, p.serial)
  {
    RunKeepsInv(r, s, actions);
    var f := Run(r, s, actions);
    if t in f.tasks { assert TaskOk(r, f.data, t, f.tasks[t]); }
  }

  // ----- expired leases stay expired -----

  lemma StepNeverRevives(r: Range, s: State, a: Action, id: int, serial: nat, lag: nat)
    requires serial < s.data.next && LaggedBy(Step(r, s, a).data.log, lag)
    ensures var d, d' := s.data, Step(r, s, a).data;
            && d.now <= d'.now && d.next <= d'.next
            && (Current(d', id, serial) ==>
                  Current(d, id, serial)
                  && (d.rows[id].expiresAt + lag <= d.now ==> d'.rows[id].expiresAt == d.rows[id].expiresAt))
  {
    var d, d' := s.data, Step(r, s, a).data;
    if a.Update? && a.t in s.tasks && s.tasks[a.t].Extending? && d'.log != d.log {
      assert d'.log[|d.log|].Extended?;
    }
  }

  lemma LaggedPrefix(log: seq<Event>, log': seq<Event>, lag: int)
    requires log <= log' && LaggedBy(log', lag)
    ensures LaggedBy(log, lag)
  {
    forall i | 0 <= i < |log| && log[i].Extended? ensures log[i].at - log[i].reading <= lag {
      assert log'[i] == log[i];
    }
  }

  /** When no clock reading is older than `lag`, the expiry of a lease that expired `lag`
      milliseconds ago never changes again. */
  lemma {:induction false} ExpiredLeasesStayExpired(
      r: Range, s: State, actions: seq<Action>, id: int, serial: nat, lag: nat)
    requires serial < s.data.next && LaggedBy(Run(r, s, actions).data.log, lag)
    requires Current(s.data, id, serial) && s.data.rows[id].expiresAt + lag <= s.data.now
    ensures var d := Run(r, s, actions).data;
            && s.data.now <= d.now && s.data.next <= d.next
            && (Current(d, id, serial) ==> d.rows[id].expiresAt == s.data.rows[id].expiresAt)
    decreases |actions|
  {
    if actions != [] {
      var init, last := actions[..|actions| - 1], actions[|actions| - 1];
      var mid := Run(r, s, init);
      LogGrows(r, mid, last);
      LaggedPrefix(mid.data.log, Run(r, s, actions).data.log, lag);
      ExpiredLeasesStayExpired(r, s, init, id, serial, lag);
      StepNeverRevives(r, mid, last, id, serial, lag);
    }
  }
}
