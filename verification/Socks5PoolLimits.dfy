/** Where the guarantees of the exclusive pool end: each hypothesis with its exact bound. */
module Socks5PoolLimits {
  import opened Wrappers
  import opened Socks5Table
  import opened Socks5Pool
  import opened Socks5PoolProofs
  import opened Socks5PoolTheorems
  import opened Socks5PoolRefusals
  import opened Socks5PoolRuns

  ghost predicate Lagging(slots: nat, s: State, actions: seq<Action>, lag: int) {
    Init(s) && LaggedBy(Run(slots, s, actions).data.log, lag)
  }

  // ----- old clock readings: reviving an expired grant -----

  /** Every extension of an exclusive row ran before the expiry it found. */
  ghost predicate NoneRevived(log: seq<Event>) {
    forall e :: e in log && e.Extended? ==> e.at < e.from
  }

  /** A grant until 1000 whose extension reads the clock at 999 and updates the row at 1000. */
  function RevivingLog(slots: nat): seq<Event> {
    [Taken(0, slots, 1000, 0)] + [Extended(0, slots, 1999, 1000, 1000, 999)]
  }

  lemma RevivingLogIsHonest(slots: nat)
    ensures var log := RevivingLog(slots); Honest(log) && LaggedBy(log, 1) && !NoneRevived(log)
  {
    var log := RevivingLog(slots);
    assert PairTold(log, 1) by { assert log[0].expiry == log[1].from; }
    assert log[1] in log;
  }

  /** A clock reading one millisecond old revives an expired grant, its client honest. */
  lemma StaleReadingRevives(slots: nat)
    ensures exists actions :: Run(slots, Fresh(slots), actions).data.log == RevivingLog(slots)
    ensures var log := RevivingLog(slots); Honest(log) && LaggedBy(log, 1) && !NoneRevived(log)
  {
    RevivingLogIsHonest(slots);
    var s0, log := Fresh(slots), [Taken(0, slots, 1000, 0)];
    var t1: map<nat, Task> := map[1 := Queued(1000)];
    FreshIsWorld(slots);
    Start(slots, s0);
    WorldFields(slots, 999, false, 1000, 1, log);
    hide Reaches, World, Name, Honest, NoneRevived;
    Queues(slots, s0, 0, 0, [], map[], 1, 1);
    assert map[][1 := Queued(1000)] == t1 && [] + log == log;
    Takes(slots, s0, 0, 0, [], t1, 1, 1000);
    var t2 := t1[1 := Finished];
    Elapse(slots, s0, 0, false, 1000, 1, log, t2, 999);
    ExtensionStarts(slots, s0, World(slots, 999, false, 1000, 1, log), t2, 2, 1000, 1);
    var t3 := t2[2 := Extending(Name(slots), 1000, 1999, 999)];
    Elapse(slots, s0, 999, false, 1000, 1, log, t3, 1);
    ExtensionSucceeds(slots, s0, 1000, 1000, 1, log, t3, 2, 1999, 999);
    WorldFields(slots, 1000, false, 1999, 1, RevivingLog(slots));
    Reached(slots, s0, State(World(slots, 1000, false, 1999, 1, RevivingLog(slots)), t3[2 := Finished]));
  }

  lemma RunExtendsUnexpired(slots: nat, s: State, actions: seq<Action>)
    requires Init(s)
    ensures forall e :: e in Run(slots, s, actions).data.log && e.Extended? ==> e.reading < e.from
  {
    RunKeepsInv(slots, s, actions);
    var log := Run(slots, s, actions).data.log;
    forall e | e in log && e.Extended? ensures e.reading < e.from { assert EventOk(slots, e); }
  }

  /** Runs whose clock readings are at most `lag` milliseconds old revive no expired grant, whatever
      else they do, exactly when `lag` is not positive; and honest clients change nothing about it. */
  lemma ReadingsMustBeCurrent(slots: nat, lag: int)
    ensures (forall s, actions :: Lagging(slots, s, actions, lag) ==> NoneRevived(Run(slots, s, actions).data.log))
            <==> lag <= 0
    ensures (forall s, actions ::
               Lagging(slots, s, actions, lag) && Honest(Run(slots, s, actions).data.log)
               ==> NoneRevived(Run(slots, s, actions).data.log)) <==> lag <= 0
  {
    if lag <= 0 {
      forall s, actions | Lagging(slots, s, actions, lag) ensures NoneRevived(Run(slots, s, actions).data.log) {
        RunExtendsUnexpired(slots, s, actions);
      }
    } else {
      StaleReadingRevives(slots);
      FreshIsInit(slots);
      hide Run, RevivingLog, NoneRevived, Honest;
      var actions :| Run(slots, Fresh(slots), actions).data.log == RevivingLog(slots);
      assert Lagging(slots, Fresh(slots), actions, lag);
    }
  }

  // ----- old clock readings: extending one pair twice -----

  /** The pair (row, 1000) is extended to 1001 at once; at 1001 the row is freed and taken again
      until 1000, long asked for, and the pair extended again by a reading two milliseconds old. */
  function TwiceLog(slots: nat): seq<Event> {
    [Taken(0, slots, 1000, 0)] + [Extended(0, slots, 1001, 1, 1000, 1)]
    + [Taken(1, slots, 1000, 1001)] + [Extended(1, slots, 1999, 1001, 1000, 999)]
  }

  lemma TwiceLogIsHonest(slots: nat)
    ensures var log := TwiceLog(slots); Honest(log) && LaggedBy(log, 2) && !NoPairTwice(log)
  {
    var log := TwiceLog(slots);
    assert log == [Taken(0, slots, 1000, 0), Extended(0, slots, 1001, 1, 1000, 1),
                   Taken(1, slots, 1000, 1001), Extended(1, slots, 1999, 1001, 1000, 999)];
    assert PairTold(log, 1) by { assert log[0].expiry == log[1].from; }
    assert PairTold(log, 3) by { assert log[0].expiry == log[3].from; }
    assert log[1].Extended? && log[3].Extended? && log[1].rank == log[3].rank && log[1].from == log[3].from;
  }

  /** Request 3 queues until `e3`; request 1 queues until `e` and takes the row. */
  lemma FirstTakes(slots: nat, e3: int, e: int)
    requires e3 > 0 && e3 % 1000 == 0 && e > 0 && e % 1000 == 0
    ensures Reaches(slots, Fresh(slots), State(World(slots, 0, false, e, 1, [Taken(0, slots, e, 0)]),
                                               map[3 := Queued(e3), 1 := Finished]))
  {
    var s0 := Fresh(slots);
    var t3: map<nat, Task> := map[3 := Queued(e3)];
    assert e3 == (e3 / 1000) * 1000 && e == (e / 1000) * 1000;
    FreshIsWorld(slots);
    Start(slots, s0);
    hide Reaches, World;
    Queues(slots, s0, 0, 0, [], map[], 3, e3 / 1000);
    assert map[][3 := Queued(e3)] == t3 && [] + [Taken(0, slots, e, 0)] == [Taken(0, slots, e, 0)];
    Queues(slots, s0, 0, 0, [], t3, 1, e / 1000);
    Takes(slots, s0, 0, 0, [], t3[1 := Queued(e)], 1, e);
    assert t3[1 := Queued(e)][1 := Finished] == map[3 := Queued(e3), 1 := Finished];
  }

  lemma TwiceReachable(slots: nat) returns (tasks: map<nat, Task>)
    ensures Reaches(slots, Fresh(slots), State(World(slots, 1001, false, 1999, 2, TwiceLog(slots)), tasks))
  {
    var s0, log := Fresh(slots), [Taken(0, slots, 1000, 0)];
    var log2 := log + [Extended(0, slots, 1001, 1, 1000, 1)];
    var x := Extending(Name(slots), 1000, 1999, 999);
    FirstTakes(slots, 1000, 1000);
    WorldFields(slots, 999, false, 1001, 1, log2);
    hide Reaches, World, Name;
    tasks := map[3 := Queued(1000), 1 := Finished];
    Elapse(slots, s0, 0, false, 1000, 1, log, tasks, 1);
    ExtendedAtOnce(slots, s0, 1, 1000, 1, log, tasks, 2, 1);
    tasks := tasks[2 := Finished];
    Elapse(slots, s0, 1, false, 1001, 1, log2, tasks, 998);
    ExtensionStarts(slots, s0, World(slots, 999, false, 1001, 1, log2), tasks, 4, 1000, 1);
    tasks := tasks[4 := x];
    Elapse(slots, s0, 999, false, 1001, 1, log2, tasks, 2);
    Retakes(slots, s0, 1001, 1001, 1, log2, tasks, 3, 1000);
    tasks := tasks[3 := Finished];
    ExtensionSucceeds(slots, s0, 1001, 1000, 2, log2 + [Taken(1, slots, 1000, 1001)], tasks, 4, 1999, 999);
    tasks := tasks[4 := Finished];
  }

  /** Runs whose clock readings are at most `lag` milliseconds old extend a (username, expiry) pair of
      an exclusive row forward at most once exactly when `lag` is at most one; honest clients change
      nothing about it. */
  lemma PairsAreExtendedOnceExactly(slots: nat, lag: int)
    ensures (forall s, actions ::
               Lagging(slots, s, actions, lag) && ForwardOnly(Run(slots, s, actions).data.log)
               ==> NoPairTwice(Run(slots, s, actions).data.log)) <==> lag <= 1
    ensures (forall s, actions ::
               Lagging(slots, s, actions, lag) && Honest(Run(slots, s, actions).data.log)
               ==> NoPairTwice(Run(slots, s, actions).data.log)) <==> lag <= 1
  {
    if lag <= 1 {
      forall s, actions | Lagging(slots, s, actions, lag) && ForwardOnly(Run(slots, s, actions).data.log)
        ensures NoPairTwice(Run(slots, s, actions).data.log)
      {
        ExtensionSucceedsOnce(slots, s, actions);
      }
    } else {
      var tasks := TwiceReachable(slots);
      TwiceLogIsHonest(slots);
      FreshIsInit(slots);
      WorldFields(slots, 1001, false, 1999, 2, TwiceLog(slots));
      hide Run, TwiceLog, NoPairTwice, World;
      Reached(slots, Fresh(slots), State(World(slots, 1001, false, 1999, 2, TwiceLog(slots)), tasks));
      var actions :| Run(slots, Fresh(slots), actions).data.log == TwiceLog(slots);
      assert Lagging(slots, Fresh(slots), actions, lag);
    }
  }

  // ----- extensions that move back -----

  /** Every extension of an exclusive row moves the expiry by `delta`. */
  ghost predicate ShiftedBy(log: seq<Event>, delta: int) {
    forall e :: e in log && e.Extended? ==> e.expiry - e.from == delta
  }

  /** A grant until `e` is shortened by its own client to `m + 1000`; then the row is taken again. */
  function ShortenedLog(slots: nat, m: nat, e: int): seq<Event> {
    [Taken(0, slots, e, 0)] + [Extended(0, slots, m + 1000, m, e, m)] + [Taken(1, slots, 3000, m + 1000)]
  }

  lemma ShortenedLogBreaks(slots: nat, m: nat, e: int)
    requires m < 1000 && e > m + 1000
    ensures ShiftedBy(ShortenedLog(slots, m, e), m + 1000 - e) && OnlyTold(ShortenedLog(slots, m, e))
    ensures var d := World(slots, m + 1000, false, 3000, 2, ShortenedLog(slots, m, e));
            d.log == ShortenedLog(slots, m, e) && !OneHolder(d)
  {
    var log := ShortenedLog(slots, m, e);
    WorldFields(slots, m + 1000, false, 3000, 2, log);
    hide World;
    assert PairTold(log, 1) by { assert log[0].expiry == log[1].from; }
    assert log[0] in log && log[2] in log;
  }

  lemma ShortenedReachable(slots: nat, m: nat, e: int) returns (tasks: map<nat, Task>)
    requires e % 1000 == 0 && e > m + 1000
    ensures Reaches(slots, Fresh(slots),
            State(World(slots, m + 1000, false, 3000, 2, ShortenedLog(slots, m, e)), tasks))
  {
    var s0, log := Fresh(slots), [Taken(0, slots, e, 0)];
    var log2 := log + [Extended(0, slots, m + 1000, m, e, m)];
    FirstTakes(slots, 3000, e);
    hide Reaches, World;
    tasks := map[3 := Queued(3000), 1 := Finished];
    Elapse(slots, s0, 0, false, e, 1, log, tasks, m);
    ExtendedAtOnce(slots, s0, m, e, 1, log, tasks, 2, 1);
    tasks := tasks[2 := Finished];
    Elapse(slots, s0, m, false, m + 1000, 1, log2, tasks, 1000);
    Retakes(slots, s0, m + 1000, m + 1000, 1, log2, tasks, 3, 3000);
    tasks := tasks[3 := Finished];
  }

  /** Runs whose extensions all move the expiry by `delta` milliseconds keep one holder per
      exclusive credential, whatever else they do, exactly when `delta` is not negative; that clients
      present only pairs they were told changes nothing about it. */
  lemma NeverBackIsExactlySafe(slots: nat, delta: int)
    ensures (forall s, actions ::
               Init(s) && ShiftedBy(Run(slots, s, actions).data.log, delta) && OnlyTold(Run(slots, s, actions).data.log)
               ==> OneHolder(Run(slots, s, actions).data)) <==> delta >= 0
    ensures (forall s, actions ::
               Init(s) && ShiftedBy(Run(slots, s, actions).data.log, delta) ==> OneHolder(Run(slots, s, actions).data))
            <==> delta >= 0
  {
    if delta >= 0 {
      forall s, actions | Init(s) && ShiftedBy(Run(slots, s, actions).data.log, delta)
        ensures OneHolder(Run(slots, s, actions).data)
      {
        CredentialsAreExclusive(slots, s, actions);
      }
    } else {
      var m := delta % 1000;
      var e := m + 1000 - delta;
      var tasks := ShortenedReachable(slots, m, e);
      var d := World(slots, m + 1000, false, 3000, 2, ShortenedLog(slots, m, e));
      ShortenedLogBreaks(slots, m, e);
      FreshIsInit(slots);
      assert ShiftedBy(d.log, delta);
      hide Run, World, ShortenedLog, OneHolder, ShiftedBy, OnlyTold;
      var actions :| Run(slots, Fresh(slots), actions) == State(d, tasks);
      assert Run(slots, Fresh(slots), actions).data == d;
    }
  }

  // ----- refusals on expired rows -----

  /** The pre-check of request 5, which has cleaned up and will count again. */
  lemma PreCheckCleansUp(slots: nat, d: Data, tasks: map<nat, Task>, log: seq<Event>)
    requires d == World(slots, 1000, false, 1000, 1, log) && 5 !in tasks
    requires Reaches(slots, Fresh(slots), State(d, tasks))
    ensures Reaches(slots, Fresh(slots), State(World(slots, 1000, true, 0, 1, log), tasks[5 := Recounting(2000, 1000)]))
  {
    var s0, freed := Fresh(slots), World(slots, 1000, true, 0, 1, log);
    PreCheckSteps(slots, d, log);
    WorldFields(slots, 1000, false, 1000, 1, log);
    hide Reaches, Step, TaskStep, World;
    RequestStarts(slots, s0, d, tasks, 5, 1);
    NextOf(slots, s0, d, tasks, 5, Counting(2000), Count(5), d, Tidying(2000));
    NextOf(slots, s0, d, tasks, 5, Tidying(2000), ReadClock(5), d, Clearing(2000, 1000));
    NextOf(slots, s0, d, tasks, 5, Clearing(2000, 1000), Free(5), freed, Recounting(2000, 1000));
  }

  lemma PreCheckSteps(slots: nat, d: Data, log: seq<Event>)
    requires d == World(slots, 1000, false, 1000, 1, log)
    ensures TaskStep(slots, d, 5, Counting(2000), Count(5)) == (d, Tidying(2000))
    ensures TaskStep(slots, d, 5, Tidying(2000), ReadClock(5)) == (d, Clearing(2000, 1000))
    ensures TaskStep(slots, d, 5, Clearing(2000, 1000), Free(5))
         == (World(slots, 1000, true, 0, 1, log), Recounting(2000, 1000))
  {
    OnlyRank(slots, false, 1000);
    OnlyStatements(slots, false, 1000, 0, 1000);
    assert d.(pool := FreeExpired(d.pool, 1000)) == World(slots, 1000, true, 0, 1, log);
    assert CountAvailable(d.pool, slots) == 0;
    hide Only, CountAvailable, FreeExpired, World;
  }

  /** Request 5 counts again at 1000: the only exclusive row is taken until then. */
  function PreChecked(slots: nat): State {
    State(World(slots, 1000, false, 1000, 2, [Taken(0, slots, 1000, 0)] + [Taken(1, slots, 1000, 1000)]),
          map[3 := Finished, 1 := Finished, 5 := Recounting(2000, 1000)])
  }

  lemma PreCheckedReachable(slots: nat)
    ensures Reaches(slots, Fresh(slots), PreChecked(slots))
  {
    var s0, log := Fresh(slots), [Taken(0, slots, 1000, 0)];
    var t0: map<nat, Task> := map[3 := Queued(1000), 1 := Finished];
    var t1 := t0[5 := Recounting(2000, 1000)];
    FirstTakes(slots, 1000, 1000);
    assert t1[3 := Finished] == PreChecked(slots).tasks;
    hide Reaches, World;
    Elapse(slots, s0, 0, false, 1000, 1, log, t0, 1000);
    PreCheckCleansUp(slots, World(slots, 1000, false, 1000, 1, log), t0, log);
    Takes(slots, s0, 1000, 1, log, t1, 3, 1000);
  }

  lemma PreCheckedIsRefused(slots: nat)
    ensures var f := PreChecked(slots);
            && Refuses(slots, f, 5) && !RefusedRightly(slots, f, 5)
            && f.data.now == 1000 && slots + 1 == |f.data.pool| && f.data.pool[slots].expiresAt == 1000
            && (forall e :: e in f.data.log ==> e.Taken? && e.expiry - e.at >= 0)
  {
    OnlyRank(slots, false, 1000);
    OnlyStatements(slots, false, 1000, 1000, 0);
    hide Only, CountAvailable;
  }

  /** The exception for the pre-check is real: it can refuse a request although the only exclusive row
      has run out, because another request, which waited for the lock, took it after the cleanup with
      an expiry that had come. */
  lemma PreCheckMayRefuseOnExpiredRow(slots: nat)
    ensures exists actions ::
              var f := Run(slots, Fresh(slots), actions);
              && Refuses(slots, f, 5) && f.tasks[5] == Recounting(2000, 1000)
              && f.data.now == 1000 && slots + 1 == |f.data.pool| && f.data.pool[slots].expiresAt == 1000
              && forall e :: e in f.data.log ==> e.Taken?
  {
    PreCheckedIsRefused(slots);
    PreCheckedReachable(slots);
    assert PreChecked(slots).tasks[5] == Recounting(2000, 1000);
    hide Run, PreChecked, Refuses;
    var actions :| Run(slots, Fresh(slots), actions) == PreChecked(slots);
  }

  // ----- refusals after a shortened grant -----

  /** Request 3 has freed nothing at `e - 1`; then extension 4, which read the clock at `m`, shortened the
      grant to `b`. */
  function SqueezedLog(slots: nat, m: nat, b: int, e: int): seq<Event> {
    [Taken(0, slots, e, 0)] + [Extended(0, slots, b, e - 1, e, m)]
  }

  function Squeezed(slots: nat, m: nat, b: int, e: int): State {
    State(World(slots, e - 1, false, b, 1, SqueezedLog(slots, m, b, e)).(lock := Some(3)),
          map[3 := Reprobing(1000, e - 1), 1 := Finished, 4 := Finished])
  }

  lemma SqueezedIsRefused(slots: nat, m: nat, b: int, e: int)
    requires b < e
    ensures Refuses(slots, Squeezed(slots, m, b, e), 3) && !RefusedRightly(slots, Squeezed(slots, m, b, e), 3)
    ensures ShiftedBy(Squeezed(slots, m, b, e).data.log, b - e) && GrantsOutlast(Squeezed(slots, m, b, e).data.log, e)
  {
    OnlyRank(slots, false, b);
    OnlyStatements(slots, false, b, b, 0);
    assert SelectStep(slots, Squeezed(slots, m, b, e).data, Reprobing(1000, e - 1)).Unlocking? by {
      hide Only, ExclusiveRank;
    }
    assert Squeezed(slots, m, b, e).data.pool[slots].expiresAt == b;
    hide Only, ExclusiveRank, SelectStep;
  }

  lemma LiveRowIsNotFreed(slots: nat, e: int, cutoff: int)
    requires cutoff < e
    ensures FreeExpired(Only(slots, false, e), cutoff) == Only(slots, false, e)
  {
    FreshIsInit(slots);
    var pool := Only(slots, false, e);
    assert forall i :: 0 <= i < |pool| ==> FreeExpired(pool, cutoff)[i] == pool[i];
  }

  /** Request 3's turn up to its second SELECT. */
  lemma SqueezedTurn(slots: nat, s0: State, e: int, log: seq<Event>, tasks: map<nat, Task>)
    requires Reaches(slots, s0, State(World(slots, e - 1, false, e, 1, log), tasks))
    requires 3 in tasks && tasks[3] == Queued(1000)
    ensures Reaches(slots, s0, State(World(slots, e - 1, false, e, 1, log).(lock := Some(3)),
                                     tasks[3 := Reprobing(1000, e - 1)]))
  {
    var d := World(slots, e - 1, false, e, 1, log);
    OnlyRank(slots, false, e);
    LiveRowIsNotFreed(slots, e, e - 1);
    assert d.(lock := Some(3), pool := FreeExpired(d.pool, d.now)) == d.(lock := Some(3));
    assert tasks == tasks[3 := Queued(1000)];
    hide Reaches, ExclusiveRank, FreeExpired, Only;
    TurnFrees(slots, s0, d, tasks, 3, 1000);
  }

  lemma SqueezeStarts(slots: nat, m: nat, seconds: int, e: int)
    requires seconds > 0 && e % 1000 == 0 && m + seconds * 1000 < e
    ensures Reaches(slots, Fresh(slots),
                    State(World(slots, e - 1, false, e, 1, [Taken(0, slots, e, 0)]),
                          map[3 := Queued(1000), 1 := Finished][4 := Extending(Name(slots), e, m + seconds * 1000, m)]))
  {
    var s0, log := Fresh(slots), [Taken(0, slots, e, 0)];
    var t1: map<nat, Task> := map[3 := Queued(1000), 1 := Finished];
    FirstTakes(slots, 1000, e);
    WorldFields(slots, m, false, e, 1, log);
    hide Reaches, World, Name;
    Elapse(slots, s0, 0, false, e, 1, log, t1, m);
    ExtensionStarts(slots, s0, World(slots, m, false, e, 1, log), t1, 4, e, seconds);
    Elapse(slots, s0, m, false, e, 1, log, t1[4 := Extending(Name(slots), e, m + seconds * 1000, m)], e - 1 - m);
  }

  lemma SqueezedReachable(slots: nat, m: nat, seconds: int, e: int)
    requires seconds > 0 && e % 1000 == 0 && m + seconds * 1000 < e
    ensures Reaches(slots, Fresh(slots), Squeezed(slots, m, m + seconds * 1000, e))
  {
    var s0, b, log := Fresh(slots), m + seconds * 1000, [Taken(0, slots, e, 0)];
    var x, p := Extending(Name(slots), e, b, m), Reprobing(1000, e - 1);
    var t1: map<nat, Task> := map[3 := Queued(1000), 1 := Finished];
    var t2 := t1[4 := x];
    var d := World(slots, e - 1, false, e, 1, log);
    assert t2[3 := p] == map[3 := p, 1 := Finished, 4 := x];
    UpdateOfWorld(slots, e - 1, e, 1, log, b, m);
    assert UpdateStep(d.(lock := Some(3)), Name(slots), e, b, m) == Squeezed(slots, m, b, e).data;
    SqueezeStarts(slots, m, seconds, e);
    hide Reaches, World, Name, Squeezed, UpdateStep;
    SqueezedTurn(slots, s0, e, log, t2);
    SqueezedEnds(slots, s0, d.(lock := Some(3)), t2[3 := p], m, b, e);
  }

  lemma SqueezedEnds(slots: nat, s0: State, d: Data, tasks: map<nat, Task>, m: nat, b: int, e: int)
    requires Reaches(slots, s0, State(d, tasks))
    requires tasks == map[3 := Reprobing(1000, e - 1), 1 := Finished, 4 := Extending(Name(slots), e, b, m)]
    requires UpdateStep(d, Name(slots), e, b, m) == Squeezed(slots, m, b, e).data
    ensures Reaches(slots, s0, Squeezed(slots, m, b, e))
  {
    assert tasks == tasks[4 := tasks[4]] && tasks[4 := Finished] == Squeezed(slots, m, b, e).tasks;
    hide Reaches, Name, UpdateStep, World, SqueezedLog;
    NextOf(slots, s0, d, tasks, 4, tasks[4], Update(4), Squeezed(slots, m, b, e).data, Finished);
  }

  // ----- when refusals are right -----

  /** A refused request found every exclusive row to outlast its own cleanup: under the lock exactly when
      extensions do not move back, ... */
  lemma LockedRefusalsAreRightExactly(slots: nat, delta: int)
    ensures (forall s, actions, t: nat ::
               Init(s) && ShiftedBy(Run(slots, s, actions).data.log, delta)
               && t in Run(slots, s, actions).tasks && Run(slots, s, actions).tasks[t].Reprobing?
               ==> RefusedRightly(slots, Run(slots, s, actions), t)) <==> delta >= 0
  {
    if delta >= 0 {
      forall s, actions, t: nat |
        && Init(s) && ShiftedBy(Run(slots, s, actions).data.log, delta)
        && t in Run(slots, s, actions).tasks && Run(slots, s, actions).tasks[t].Reprobing?
        ensures RefusedRightly(slots, Run(slots, s, actions), t)
      {
        ShiftedIsNeverBack(Run(slots, s, actions).data.log, delta);
        RefusalsAreRight(slots, s, actions, t);
      }
    } else {
      var s := ShorteningRefusesWrongly(slots, delta, 0);
      FreshIsInit(slots);
      hide Run, RefusedRightly;
      var actions :| Run(slots, Fresh(slots), actions) == s;
      assert !RefusedRightly(slots, Run(slots, Fresh(slots), actions), 3);
    }
  }

  lemma ShiftedIsNeverBack(log: seq<Event>, delta: int)
    requires ShiftedBy(log, delta) && delta >= 0
    ensures NeverBack(log)
  {
  }

  lemma ShorteningRefusesWrongly(slots: nat, delta: int, margin: int) returns (s: State)
    requires delta < 0
    ensures Reaches(slots, Fresh(slots), s) && 3 in s.tasks && s.tasks[3].Reprobing?
    ensures ShiftedBy(s.data.log, delta) && GrantsOutlast(s.data.log, margin) && !RefusedRightly(slots, s, 3)
  {
    var m := delta % 1000;
    var seconds := 1 + if margin > 0 then margin else 0;
    var b := m + seconds * 1000;
    var e := b - delta;
    SqueezedReachable(slots, m, seconds, e);
    SqueezedIsRefused(slots, m, b, e);
    s := Squeezed(slots, m, b, e);
    assert e >= margin && GrantsOutlast(s.data.log, margin);
  }

  /** ... and over pre-check and lock together exactly when, besides, every grant is marked before its
      expiry. The marking UPDATE has no such guard. */
  lemma RefusalsAreRightExactly(slots: nat, delta: int, margin: int)
    ensures (forall s, actions, t: nat ::
               Init(s) && NeverBack(Run(slots, s, actions).data.log)
               && GrantsOutlast(Run(slots, s, actions).data.log, margin)
               ==> RefusedRightly(slots, Run(slots, s, actions), t)) <==> margin >= 1
    ensures (forall s, actions, t: nat ::
               Init(s) && ShiftedBy(Run(slots, s, actions).data.log, delta)
               && GrantsOutlast(Run(slots, s, actions).data.log, margin)
               ==> RefusedRightly(slots, Run(slots, s, actions), t)) <==> delta >= 0 && margin >= 1
  {
    if margin >= 1 {
      forall s, actions, t: nat |
        && Init(s) && NeverBack(Run(slots, s, actions).data.log)
        && GrantsOutlast(Run(slots, s, actions).data.log, margin)
        ensures RefusedRightly(slots, Run(slots, s, actions), t)
      {
        RefusalsAreRight(slots, s, actions, t);
      }
      MarginSuffices(slots, delta, margin);
    } else {
      PreCheckedReachable(slots);
      PreCheckedIsRefused(slots);
      FreshIsInit(slots);
      var s := PreChecked(slots);
      assert NeverBack(s.data.log) && ShiftedBy(s.data.log, delta) && GrantsOutlast(s.data.log, margin);
      hide Run, RefusedRightly, PreChecked, NeverBack, ShiftedBy, GrantsOutlast;
      var actions :| Run(slots, Fresh(slots), actions) == s;
      assert !RefusedRightly(slots, Run(slots, Fresh(slots), actions), 5);
    }
  }

  lemma MarginSuffices(slots: nat, delta: int, margin: int)
    requires margin >= 1
    ensures (forall s, actions, t: nat ::
               Init(s) && ShiftedBy(Run(slots, s, actions).data.log, delta)
               && GrantsOutlast(Run(slots, s, actions).data.log, margin)
               ==> RefusedRightly(slots, Run(slots, s, actions), t)) <==> delta >= 0
  {
    if delta >= 0 {
      forall s, actions, t: nat |
        && Init(s) && ShiftedBy(Run(slots, s, actions).data.log, delta)
        && GrantsOutlast(Run(slots, s, actions).data.log, margin)
        ensures RefusedRightly(slots, Run(slots, s, actions), t)
      {
        ShiftedIsNeverBack(Run(slots, s, actions).data.log, delta);
        RefusalsAreRight(slots, s, actions, t);
      }
    } else {
      var s := ShorteningRefusesWrongly(slots, delta, margin);
      FreshIsInit(slots);
      hide Run, RefusedRightly;
      var actions :| Run(slots, Fresh(slots), actions) == s;
      assert !RefusedRightly(slots, Run(slots, Fresh(slots), actions), 3);
    }
  }
}
