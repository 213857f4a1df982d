/** Where the guarantees of the lease protocol end: each hypothesis with its exact bound. */
module LeaseLimits {
  import opened Wrappers
  import opened LeaseTable
  import opened LeaseProtocol
  import opened LeaseProofs
  import opened LeaseRefusals
  import opened LeaseTheorems
  import opened LeaseRuns

  // ----- old clock readings: reviving an expired lease -----

  /** Every extension ran before the expiry it found. */
  ghost predicate NoneRevived(log: seq<Event>) {
    forall i :: 0 <= i < |log| && log[i].Extended? ==> log[i].at < log[i].from
  }

  /** Clients behave: they extend forward, and only pairs they were told. */
  ghost predicate Honest(log: seq<Event>) { ForwardOnly(log) && OnlyTold(log) }

  /** A lease until 1000 whose extension reads the clock at 999 and updates the row at 1000. */
  function RevivingLog(r: Range): seq<Event> {
    LogGrant(r, [], 0, 1000, 0) + [Extended(0, r.start, 1999, 1000, 1000, 999)]
  }

  lemma RevivingLogIsHonest(r: Range)
    ensures var log := RevivingLog(r); Honest(log) && LaggedBy(log, 1) && !NoneRevived(log)
  {
    var log := RevivingLog(r);
    assert log == [Issued(0, r.start, 1000, 0), Granted(0, r.start, 1000, 0),
           Extended(0, r.start, 1999, 1000, 1000, 999)];
    assert PairTold(log, 2) by { assert log[1].expiry == log[2].from; }
    assert log[2].Extended? && !(log[2].at < log[2].from);
  }

  /** A clock reading one millisecond old revives an expired lease, its client honest. */
  lemma StaleReadingRevives(r: Range)
    requires r.start <= r.end
    ensures exists actions :: Run(r, Fresh(r), actions).data.log == RevivingLog(r)
    ensures var log := RevivingLog(r); Honest(log) && LaggedBy(log, 1) && !NoneRevived(log)
  {
    RevivingLogIsHonest(r);
    var s0, log := Fresh(r), LogGrant(r, [], 0, 1000, 0);
    var t1: map<nat, Task> := map[1 := Finished];
    var t2 := t1[2 := Extending(r.start, 1000, 1999, 999)];
    Start(r, s0);
    hide Reaches, Run, LogGrant, World, Honest, NoneRevived;
    RequestIsGranted(r, s0, 0, 0, [], map[], 1, 1);
    assert map[][1 := Finished] == t1;
    Elapse(r, s0, 0, Some(1000), 1, log, t1, 999);
    WorldClock(r, 999, Some(1000), 1, log);
    ExtensionStarts(r, s0, World(r, 999, Some(1000), 1, log), t1, 2, 1000, 1);
    Elapse(r, s0, 999, Some(1000), 1, log, t2, 1);
    ExtensionSucceeds(r, s0, 1000, 1000, 1, log, t2, 2, 1999, 999);
    WorldClock(r, 1000, Some(1999), 1, RevivingLog(r));
    Reached(r, s0, State(World(r, 1000, Some(1999), 1, RevivingLog(r)), t2[2 := Finished]));
  }

  ghost predicate Lagging(r: Range, s: State, actions: seq<Action>, lag: int) {
    Init(r, s) && LaggedBy(Run(r, s, actions).data.log, lag)
  }

  /** Runs whose clock readings are at most `lag` milliseconds old revive no expired lease, whatever
      else they do, exactly when `lag` is not positive; and honest clients change nothing about it. */
  lemma ReadingsMustBeCurrent(r: Range, lag: int)
    requires r.start <= r.end
    ensures (forall s, actions :: Lagging(r, s, actions, lag) ==> NoneRevived(Run(r, s, actions).data.log))
            <==> lag <= 0
    ensures (forall s, actions ::
               Lagging(r, s, actions, lag) && Honest(Run(r, s, actions).data.log)
               ==> NoneRevived(Run(r, s, actions).data.log)) <==> lag <= 0
  {
    if lag <= 0 {
      forall s, actions | Lagging(r, s, actions, lag) ensures NoneRevived(Run(r, s, actions).data.log) {
        RunExtendsUnexpired(r, s, actions);
        var log := Run(r, s, actions).data.log;
        assert forall i :: 0 <= i < |log| && log[i].Extended? ==> log[i] in log && log[i].reading < log[i].from;
      }
    } else {
      StaleReadingRevives(r);
      hide Run, RevivingLog, NoneRevived, Honest;
      var actions :| Run(r, Fresh(r), actions).data.log == RevivingLog(r);
      assert Lagging(r, Fresh(r), actions, lag);
    }
  }

  // ----- old clock readings: extending one pair twice -----

  /** The pair (first id, 1000) is extended to 1001 at once; then the id is swept, issued again
      until 1000, long asked for, and the pair extended again by a reading three milliseconds old. */
  function FirstTwice(r: Range): seq<Event> {
    LogGrant(r, [], 0, 1000, 0) + [Extended(0, r.start, 1001, 1, 1000, 1)]
  }

  function TwiceLog(r: Range): seq<Event> {
    LogGrant(r, FirstTwice(r), 1, 1000, 1002) + [Extended(1, r.start, 1999, 1002, 1000, 999)]
  }

  lemma TwiceLogIsHonest(r: Range)
    ensures var log := TwiceLog(r); Honest(log) && LaggedBy(log, 3) && !NoPairTwice(log)
  {
    var log := TwiceLog(r);
    assert log == [Issued(0, r.start, 1000, 0), Granted(0, r.start, 1000, 0), Extended(0, r.start, 1001, 1, 1000, 1),
                   Issued(1, r.start, 1000, 1002), Granted(1, r.start, 1000, 1002),
                   Extended(1, r.start, 1999, 1002, 1000, 999)];
    assert PairTold(log, 2) by { assert log[1].expiry == log[2].from; }
    assert PairTold(log, 5) by { assert log[1].expiry == log[5].from; }
    assert log[2].Extended? && log[5].Extended? && log[2].id == log[5].id && log[2].from == log[5].from;
  }

  lemma TwiceReachable(r: Range) returns (tasks: map<nat, Task>)
    requires r.start <= r.end
    ensures Reaches(r, Fresh(r), State(World(r, 1002, Some(1999), 2, TwiceLog(r)), tasks))
  {
    var s0, log, log2 := Fresh(r), LogGrant(r, [], 0, 1000, 0), FirstTwice(r);
    var q: map<nat, Task> := map[2 := Queued(1000)];
    var x := Extending(r.start, 1000, 1999, 999);
    Start(r, s0);
    hide Reaches, Run, LogGrant;
    NextStarts(r, s0, s0, 2, Request(2, 1), Queued(1000));
    assert s0.tasks[2 := Queued(1000)] == q;
    RequestIsGranted(r, s0, 0, 0, [], q, 1, 1);
    var t1 := q[1 := Finished];
    Elapse(r, s0, 0, Some(1000), 1, log, t1, 1);
    ExtendedAtOnce(r, s0, 1, 1000, 1, log, t1, 3, 1);
    var t4 := t1[3 := Finished];
    Elapse(r, s0, 1, Some(1001), 1, log2, t4, 998);
    ExtensionStarts(r, s0, World(r, 999, Some(1001), 1, log2), t4, 4, 1000, 1);
    var t5 := t4[4 := x];
    Elapse(r, s0, 999, Some(1001), 1, log2, t5, 3);
    SweptOut(r, s0, 1002, 1001, 1, log2, t5, 5);
    var t6 := t5[5 := Finished];
    QueuedIsGranted(r, s0, 1002, 1, log2, t6, 2, 1000);
    var t7 := t6[2 := Finished];
    ExtensionSucceeds(r, s0, 1002, 1000, 2, LogGrant(r, log2, 1, 1000, 1002), t7, 4, 1999, 999);
    tasks := t7[4 := Finished];
  }

  /** Runs whose clock readings are at most `lag` milliseconds old extend an (id, expiry) pair
      forward at most once exactly when `lag` is at most two; honest clients change nothing about it. */
  lemma PairsAreExtendedOnceExactly(r: Range, lag: int)
    requires r.start <= r.end
    ensures (forall s, actions ::
               Lagging(r, s, actions, lag) && ForwardOnly(Run(r, s, actions).data.log)
               ==> NoPairTwice(Run(r, s, actions).data.log)) <==> lag <= 2
    ensures (forall s, actions ::
               Lagging(r, s, actions, lag) && Honest(Run(r, s, actions).data.log)
               ==> NoPairTwice(Run(r, s, actions).data.log)) <==> lag <= 2
  {
    if lag <= 2 {
      forall s, actions | Lagging(r, s, actions, lag) && ForwardOnly(Run(r, s, actions).data.log)
        ensures NoPairTwice(Run(r, s, actions).data.log)
      {
        ExtensionSucceedsOnce(r, s, actions);
      }
    } else {
      var tasks := TwiceReachable(r);
      TwiceLogIsHonest(r);
      WorldClock(r, 1002, Some(1999), 2, TwiceLog(r));
      hide Run, TwiceLog, NoPairTwice, World;
      Reached(r, Fresh(r), State(World(r, 1002, Some(1999), 2, TwiceLog(r)), tasks));
      var actions :| Run(r, Fresh(r), actions).data.log == TwiceLog(r);
      assert Lagging(r, Fresh(r), actions, lag);
    }
  }

  // ----- grants slower than their lease: keys in another lease's row -----

  /** Request 1's reservation has run out and been swept; its id went to request 5, until 2001. */
  function AstrayLog(r: Range): seq<Event> { LogGrant(r, [Issued(0, r.start, 1000, 0)], 1, 2001, 1001) }

  function Astray(r: Range): State {
    State(World(r, 1001, Some(2001), 2, AstrayLog(r)),
          map[1 := StoringKeys(Reservation(r.start, 0, 1000)), 2 := Finished, 5 := Finished])
  }

  lemma ReservationSweptOut(r: Range)
    requires r.start <= r.end
    ensures Reaches(r, Fresh(r), State(World(r, 1001, None, 1, [Issued(0, r.start, 1000, 0)]),
                                       map[1 := AddingPeer(Reservation(r.start, 0, 1000)), 2 := Finished]))
  {
    var s0, p := Fresh(r), Reservation(r.start, 0, 1000);
    var d := Inserted(s0.data, r.start, 1000);
    var q: map<nat, Task> := map[1 := Queued(1000)];
    Start(r, s0);
    assert d.(now := 1001, rows := map[]) == World(r, 1001, None, 1, [Issued(0, r.start, 1000, 0)]);
    hide Reaches, Run, World;
    NextStarts(r, s0, s0, 1, Request(1, 1), Queued(1000));
    assert s0.tasks[1 := Queued(1000)] == q;
    TurnReserves(r, s0, s0.data, q, 1, 1000);
    Wait(r, s0, d, q[1 := AddingPeer(p)], 1001);
    SweepEmpties(r, s0, d.(now := 1001), q[1 := AddingPeer(p)], 2);
    assert q[1 := AddingPeer(p)][2 := Finished] == map[1 := AddingPeer(p), 2 := Finished];
  }

  lemma AstrayReachable(r: Range)
    requires r.start <= r.end
    ensures Reaches(r, Fresh(r), Astray(r))
  {
    var s0, p, log := Fresh(r), Reservation(r.start, 0, 1000), [Issued(0, r.start, 1000, 0)];
    var t1: map<nat, Task> := map[1 := AddingPeer(p), 2 := Finished];
    ReservationSweptOut(r);
    hide Reaches, Run, LogGrant, World;
    RequestIsGranted(r, s0, 1001, 1, log, t1, 5, 1);
    var t2 := t1[5 := Finished];
    NextOf(r, s0, State(Astray(r).data, t2), 1, AddPeer(1, true), Astray(r).data, StoringKeys(p));
    assert t2[1 := StoringKeys(p)] == Astray(r).tasks;
  }

  /** A grant that outlasts its own lease by a millisecond writes its keys into the row of the lease
      that has its id now. */
  lemma KeysGoAstray(r: Range, privateKey: string, publicKey: string, presharedKey: string, allowedIp: string)
    requires r.start <= r.end
    ensures exists actions ::
              var f := Run(r, Fresh(r), actions);
              && f == Astray(r) && Granted(1, r.start, 2001, 1001) in f.data.log && Current(f.data, r.start, 1)
              && Step(r, f, Store(1, true, privateKey, publicKey, presharedKey, allowedIp)).data.rows[r.start]
                 == Row(2001, Some(privateKey), Some(publicKey), Some(presharedKey), Some(allowedIp))
  {
    AstrayReachable(r);
    assert AstrayLog(r)[2] == Granted(1, r.start, 2001, 1001);
    assert StoringKeys(Reservation(r.start, 0, 1000)) == Astray(r).tasks[1];
    Reached(r, Fresh(r), Astray(r));
  }

  /** Task `t` is about to store keys, at most `late` milliseconds after its lease's expiry. */
  ghost predicate StoresBy(r: Range, s: State, actions: seq<Action>, t: nat, late: int) {
    var f := Run(r, s, actions);
    Init(r, s) && t in f.tasks && f.tasks[t].StoringKeys? && f.data.now <= f.tasks[t].reserved.expiry + late
  }

  ghost predicate StoresToOwnRow(r: Range, s: State, actions: seq<Action>, t: nat) {
    var f := Run(r, s, actions);
    t in f.tasks && f.tasks[t].StoringKeys? ==> Current(f.data, f.tasks[t].reserved.id, f.tasks[t].reserved.serial)
  }

  /** In runs with steady extensions, keys stored at most `late` milliseconds after the expiry of
      their lease always go to its own row exactly when `late` is not positive; honest clients change
      nothing about it. */
  lemma KeysStayHomeExactly(r: Range, late: int)
    requires r.start <= r.end
    ensures (forall s, actions, t ::
               StoresBy(r, s, actions, t, late) && Steady(Run(r, s, actions).data.log)
               ==> StoresToOwnRow(r, s, actions, t)) <==> late <= 0
    ensures (forall s, actions, t ::
               StoresBy(r, s, actions, t, late) && Honest(Run(r, s, actions).data.log)
               ==> StoresToOwnRow(r, s, actions, t)) <==> late <= 0
  {
    if late <= 0 {
      forall s, actions, t | StoresBy(r, s, actions, t, late) && Steady(Run(r, s, actions).data.log)
        ensures StoresToOwnRow(r, s, actions, t)
      {
        KeysGoToOwnRowUnlessExpired(r, s, actions, t);
      }
      forall s, actions, t | StoresBy(r, s, actions, t, late) && Honest(Run(r, s, actions).data.log)
        ensures StoresToOwnRow(r, s, actions, t)
      {
        ForwardIsSteady(Run(r, s, actions).data.log);
        KeysGoToOwnRowUnlessExpired(r, s, actions, t);
      }
    } else {
      KeysGoAstray(r, "", "", "", "");
      var log := AstrayLog(r);
      assert log == [Issued(0, r.start, 1000, 0), Issued(1, r.start, 2001, 1001), Granted(1, r.start, 2001, 1001)];
      assert Steady(log) && Honest(log);
      hide Run;
      var actions :| Run(r, Fresh(r), actions) == Astray(r);
      assert StoresBy(r, Fresh(r), actions, 1, late) && !StoresToOwnRow(r, Fresh(r), actions, 1);
    }
  }

  // ----- extensions that do not move forward -----

  lemma TwoHolders(d: Data, i: nat, j: nat)
    requires i < |d.log| && j < |d.log| && IsPromise(d.log[i]) && IsPromise(d.log[j]) && d.log[i].id == d.log[j].id
    requires d.now <= d.log[i].expiry && d.now <= d.log[j].expiry && d.log[i].serial != d.log[j].serial
    ensures !OneHolder(d)
  {
    assert d.log[i] in d.log && d.log[j] in d.log;
  }

  /** Every extension moves the expiry by `delta`. */
  ghost predicate ShiftedBy(log: seq<Event>, delta: int) {
    forall i :: 0 <= i < |log| && log[i].Extended? ==> log[i].expiry - log[i].from == delta
  }

  /** A lease is granted until `e`, shortened by its own client to `b`, swept at `b + 1` and issued
      again, while the first promise still runs. */
  function ShortenedLog(r: Range, m: nat, e: int): seq<Event> {
    LogGrant(r, ShortenedStart(r, m, e), 1, m + 2001, m + 1001)
  }

  function ShortenedStart(r: Range, m: nat, e: int): seq<Event> {
    LogGrant(r, [], 0, e, 0) + [Extended(0, r.start, m + 1000, m, e, m)]
  }

  lemma ShortenedStartReachable(r: Range, m: nat, e: int)
    requires r.start <= r.end && e % 1000 == 0 && e > m + 1000
    ensures Reaches(r, Fresh(r), State(World(r, m, Some(m + 1000), 1, ShortenedStart(r, m, e)),
                                       map[1 := Finished, 3 := Finished]))
  {
    var log := LogGrant(r, [], 0, e, 0);
    var t1: map<nat, Task> := map[1 := Finished];
    assert e == (e / 1000) * 1000;
    assert map[][1 := Finished] == t1 && t1[3 := Finished] == map[1 := Finished, 3 := Finished];
    Start(r, Fresh(r));
    hide Reaches, Run, LogGrant, World;
    RequestIsGranted(r, Fresh(r), 0, 0, [], map[], 1, e / 1000);
    Elapse(r, Fresh(r), 0, Some(e), 1, log, t1, m);
    ExtendedAtOnce(r, Fresh(r), m, e, 1, log, t1, 3, 1);
  }

  lemma ShortenedReachable(r: Range, m: nat, e: int) returns (tasks: map<nat, Task>)
    requires r.start <= r.end && e % 1000 == 0 && e > m + 1000
    ensures Reaches(r, Fresh(r), State(World(r, m + 1001, Some(m + 2001), 2, ShortenedLog(r, m, e)), tasks))
  {
    var log := ShortenedStart(r, m, e);
    ShortenedStartReachable(r, m, e);
    hide Reaches, Run, LogGrant, World, ShortenedStart;
    tasks := map[1 := Finished, 3 := Finished];
    Elapse(r, Fresh(r), m, Some(m + 1000), 1, log, tasks, 1001);
    SweptOut(r, Fresh(r), m + 1001, m + 1000, 1, log, tasks, 4);
    tasks := tasks[4 := Finished];
    RequestIsGranted(r, Fresh(r), m + 1001, 1, log, tasks, 5, 1);
    tasks := tasks[5 := Finished];
  }

  /** An honest client's extension by a negative `delta` ends a promise early. */
  lemma ShorteningBreaks(r: Range, delta: int) returns (actions: seq<Action>)
    requires r.start <= r.end && delta < 0
    ensures var d := Run(r, Fresh(r), actions).data;
            ShiftedBy(d.log, delta) && OnlyTold(d.log) && OnlyTokenHolders(d.log) && !OneHolder(d)
  {
    var m := delta % 1000;
    var e := m + 1000 - delta;
    var tasks := ShortenedReachable(r, m, e);
    var d := World(r, m + 1001, Some(m + 2001), 2, ShortenedLog(r, m, e));
    ShortenedLogBreaks(r, m, e);
    hide Run, OneHolder, ShortenedLog, ShiftedBy, OnlyTold, OnlyTokenHolders, World;
    actions :| Run(r, Fresh(r), actions) == State(d, tasks);
  }

  lemma ShortenedLogBreaks(r: Range, m: nat, e: int)
    requires e > m + 1000
    ensures var log := ShortenedLog(r, m, e);
            ShiftedBy(log, m + 1000 - e) && OnlyTold(log) && OnlyTokenHolders(log)
    ensures var d := World(r, m + 1001, Some(m + 2001), 2, ShortenedLog(r, m, e));
            d.log == ShortenedLog(r, m, e) && !OneHolder(d)
  {
    var log := ShortenedLog(r, m, e);
    assert log == [Issued(0, r.start, e, 0), Granted(0, r.start, e, 0), Extended(0, r.start, m + 1000, m, e, m),
                   Issued(1, r.start, m + 2001, m + 1001), Granted(1, r.start, m + 2001, m + 1001)];
    assert PairTold(log, 2) && TokenHeld(log, 2) by { assert log[1].expiry == log[2].from; }
    hide OneHolder, ShortenedLog;
    TwoHolders(World(r, m + 1001, Some(m + 2001), 2, log), 1, 4);
  }

  /** The id had an earlier tenancy until 1000. Then request 1 reserves it until 2001. A client of
      the earlier tenancy guesses that expiry and extends the reservation by nothing; the rollback
      of request 1 deletes the row, and request 5 gets the id. */
  function GuessedLog(r: Range): seq<Event> { LogGrant(r, GuessedStart(r), 2, 2001, 1001) }

  function GuessedStart(r: Range): seq<Event> {
    LogGrant(r, [], 0, 1000, 0) + [Issued(1, r.start, 2001, 1001)] + [Extended(1, r.start, 2001, 1001, 2001, 1001)]
  }

  /** Request 1 has reserved the id at 1001. */
  function Guessable(r: Range): Data {
    Inserted(World(r, 1001, None, 1, LogGrant(r, [], 0, 1000, 0)), r.start, 2001)
  }

  lemma GuessableReachable(r: Range) returns (tasks: map<nat, Task>)
    requires r.start <= r.end
    ensures Reaches(r, Fresh(r), State(Guessable(r), tasks))
    ensures tasks == map[6 := Finished, 7 := Finished, 1 := AddingPeer(Reservation(r.start, 1, 2001))]
  {
    var s0, log, p := Fresh(r), LogGrant(r, [], 0, 1000, 0), Reservation(r.start, 1, 2001);
    var d := World(r, 1001, None, 1, log);
    Start(r, s0);
    assert d.now == 1001 && d.lock == None && r.start !in d.rows && d.next == 1;
    hide Reaches, Run, LogGrant, World, Inserted;
    RequestIsGranted(r, s0, 0, 0, [], map[], 6, 1);
    var t1: map<nat, Task> := map[6 := Finished];
    assert map[][6 := Finished] == t1;
    Elapse(r, s0, 0, Some(1000), 1, log, t1, 1001);
    SweptOut(r, s0, 1001, 1000, 1, log, t1, 7);
    var t2 := t1[7 := Finished];
    NextStarts(r, s0, State(d, t2), 1, Request(1, 1), Queued(2001));
    TurnReserves(r, s0, d, t2[1 := Queued(2001)], 1, 2001);
    tasks := t2[1 := Queued(2001)][1 := AddingPeer(p)];
  }

  /** The extension stays at 2001; the row is then the reservation's own as far as the rollback knows. */
  lemma GuessedThenDeleted(r: Range)
    ensures var d := UpdateStep(Guessable(r), r.start, 2001, 2001, 1001);
            d.(rows := DeleteIf(d.rows, r.start, Some(2001))) == World(r, 1001, None, 2, GuessedStart(r))
    ensures Guessable(r).now == 1001
  {
    var d := UpdateStep(Guessable(r), r.start, 2001, 2001, 1001);
    assert DeleteIf(d.rows, r.start, Some(2001)) == map[];
  }

  lemma GuessExtends(r: Range, tasks: map<nat, Task>)
    requires Reaches(r, Fresh(r), State(Guessable(r), tasks)) && 3 !in tasks
    ensures Reaches(r, Fresh(r), State(UpdateStep(Guessable(r), r.start, 2001, 2001, 1001), tasks[3 := Finished]))
  {
    var d, x := Guessable(r), Extending(r.start, 2001, 2001, 1001);
    var d' := UpdateStep(d, r.start, 2001, 2001, 1001);
    GuessedThenDeleted(r);
    assert TaskStep(r, d, 3, x, Update(3, true)) == (d', Finished);
    hide Reaches, Run, TaskStep, Guessable, UpdateStep;
    ExtensionStarts(r, Fresh(r), d, tasks, 3, 2001, 1);
    NextOf(r, Fresh(r), State(d, tasks[3 := x]), 3, Update(3, true), d', Finished);
    Overwrite(tasks, 3, x, Finished);
  }

  lemma GuessedReachable(r: Range) returns (tasks: map<nat, Task>)
    requires r.start <= r.end
    ensures Reaches(r, Fresh(r), State(World(r, 1001, Some(2001), 3, GuessedLog(r)), tasks))
  {
    tasks := GuessableReachable(r);
    hide Reaches, Run, TaskStep, World, Guessable, UpdateStep, DeleteIf, LogGrant, GuessedStart;
    GuessExtends(r, tasks);
    tasks := tasks[3 := Finished];
    GuessedThenDeleted(r);
    RefusedAndRolledBack(r, Fresh(r), UpdateStep(Guessable(r), r.start, 2001, 2001, 1001), tasks, 1,
                         Reservation(r.start, 1, 2001));
    tasks := tasks[1 := Finished];
    RequestIsGranted(r, Fresh(r), 1001, 2, GuessedStart(r), tasks, 5, 1);
    tasks := tasks[5 := Finished];
  }

  lemma GuessedLogBreaks(r: Range)
    ensures var log := GuessedLog(r); ShiftedBy(log, 0) && OnlyTokenHolders(log)
    ensures var d := World(r, 1001, Some(2001), 3, GuessedLog(r)); d.log == GuessedLog(r) && !OneHolder(d)
  {
    var log := GuessedLog(r);
    assert log == [Issued(0, r.start, 1000, 0), Granted(0, r.start, 1000, 0), Issued(1, r.start, 2001, 1001),
                   Extended(1, r.start, 2001, 1001, 2001, 1001),
                   Issued(2, r.start, 2001, 1001), Granted(2, r.start, 2001, 1001)];
    assert TokenHeld(log, 3) by { assert log[1].id == log[3].id; }
    hide OneHolder, GuessedLog;
    TwoHolders(World(r, 1001, Some(2001), 3, log), 3, 5);
  }

  lemma GuessingBreaks(r: Range) returns (actions: seq<Action>)
    requires r.start <= r.end
    ensures var d := Run(r, Fresh(r), actions).data;
            ShiftedBy(d.log, 0) && OnlyTokenHolders(d.log) && !OneHolder(d)
  {
    var tasks := GuessedReachable(r);
    var d := World(r, 1001, Some(2001), 3, GuessedLog(r));
    GuessedLogBreaks(r);
    hide Run, OneHolder, GuessedLog, ShiftedBy, OnlyTokenHolders, World;
    actions :| Run(r, Fresh(r), actions) == State(d, tasks);
  }

  ghost predicate Shifting(r: Range, s: State, actions: seq<Action>, delta: int) {
    Init(r, s) && ShiftedBy(Run(r, s, actions).data.log, delta)
  }

  /** Runs whose extensions all move the expiry by `delta` milliseconds keep one holder per id,
      whatever else they do, exactly when `delta` is positive. It changes nothing that extensions need
      a token for the id, because a token outlives its lease. */
  lemma ForwardExtensionsAreExactlySafe(r: Range, delta: int)
    requires r.start <= r.end
    ensures (forall s, actions :: Shifting(r, s, actions, delta) ==> OneHolder(Run(r, s, actions).data)) <==> delta > 0
    ensures (forall s, actions ::
               Shifting(r, s, actions, delta) && OnlyTokenHolders(Run(r, s, actions).data.log)
               ==> OneHolder(Run(r, s, actions).data)) <==> delta > 0
  {
    if delta > 0 {
      forall s, actions | Shifting(r, s, actions, delta) ensures OneHolder(Run(r, s, actions).data) {
        ForwardIsSteady(Run(r, s, actions).data.log);
        LeasesAreExclusive(r, s, actions);
      }
    } else {
      var actions: seq<Action>;
      if delta < 0 { actions := ShorteningBreaks(r, delta); } else { actions := GuessingBreaks(r); }
      assert Shifting(r, Fresh(r), actions, delta);
    }
  }

  /** For clients that present only pairs they were told, it is exactly that `delta` is not
      negative. */
  lemma ToldExtensionsAreExactlySafe(r: Range, delta: int)
    requires r.start <= r.end
    ensures (forall s, actions ::
               Shifting(r, s, actions, delta) && OnlyTold(Run(r, s, actions).data.log)
               ==> OneHolder(Run(r, s, actions).data)) <==> delta >= 0
  {
    if delta >= 0 {
      forall s, actions | Shifting(r, s, actions, delta) && OnlyTold(Run(r, s, actions).data.log)
        ensures OneHolder(Run(r, s, actions).data)
      {
        ForwardIsSteady(Run(r, s, actions).data.log);
        LeasesAreExclusive(r, s, actions);
      }
    } else {
      var actions := ShorteningBreaks(r, delta);
      assert Shifting(r, Fresh(r), actions, delta);
    }
  }

  // ----- refusals -----

  function Ids(r: Range): set<int> { set id | r.start <= id <= r.end && r.Contains(id) }

  /** A full table: every id of the range is held until `e`, the first by a client that was told so. */
  function FullTable(r: Range, e: int): Data {
    Data(0, map id | id in Ids(r) :: KeyedRow(e), None, map id | id in Ids(r) :: 0, 1, [Granted(0, r.start, e, 0)])
  }

  /** Request 1 has purged nothing at `e`; then extension 2, which read the clock at `m`, shortened the
      first lease to `m + 1000`. */
  function Squeezed(r: Range, m: nat, e: int): Data {
    var d := FullTable(r, e);
    d.(now := e, lock := Some(1), rows := d.rows[r.start := KeyedRow(m + 1000)],
       log := d.log + [Extended(0, r.start, m + 1000, e, e, m)])
  }

  function SqueezedTasks(e: int): map<nat, Task> { map[1 := Reprobing(1000, e), 2 := Finished] }

  lemma FullTableIsFull(r: Range, e: int)
    requires r.start <= r.end
    ensures Init(r, State(FullTable(r, e), map[]))
    ensures FirstFree(FullTable(r, e).rows, r.start, r.end) == None
    ensures DeleteExpired(FullTable(r, e).rows, e) == FullTable(r, e).rows
  {
    FirstFreeIsLeast(FullTable(r, e).rows, r.start, r.end);
    assert r.start in Ids(r);
    hide FirstFree;
  }

  lemma SqueezedIsRefused(r: Range, m: nat, e: int)
    requires r.start <= r.end && e > m + 1000
    ensures Refuses(r, State(Squeezed(r, m, e), SqueezedTasks(e)), 1)
    ensures !AllHeld(Squeezed(r, m, e).rows, r.start, r.end, e)
    ensures UpdateStep(FullTable(r, e).(now := e, lock := Some(1)), r.start, e, m + 1000, m) == Squeezed(r, m, e)
  {
    FirstFreeIsLeast(Squeezed(r, m, e).rows, r.start, r.end);
    hide FirstFree;
    assert r.start in Ids(r);
    assert KeyedRow(e).(expiresAt := m + 1000) == KeyedRow(m + 1000);
  }

  /** Request 1 and extension 2 wait until `e`. */
  lemma SqueezeStarts(r: Range, d: Data, m: nat, e: int)
    requires d.now == 0 && e > m + 1000
    ensures Reaches(r, State(d, map[]),
                    State(d.(now := e), map[1 := Queued(1000), 2 := Extending(r.start, e, m + 1000, m)]))
  {
    var s0, x := State(d, map[]), Extending(r.start, e, m + 1000, m);
    var q: map<nat, Task> := map[1 := Queued(1000)];
    Start(r, s0);
    assert s0.tasks[1 := Queued(1000)] == q && q[2 := x] == map[1 := Queued(1000), 2 := x];
    hide Reaches, Step;
    NextStarts(r, s0, s0, 1, Request(1, 1), Queued(1000));
    Wait(r, s0, d, q, m);
    NextStarts(r, s0, State(d.(now := m), q), 2, RequestExtension(2, r.start, e, m, 1), x);
    Wait(r, s0, d.(now := m), q[2 := x], e - m);
    assert d.(now := m).(now := e) == d.(now := e);
  }

  /** Request 1's turn up to its second SELECT. */
  lemma SqueezedTurn(r: Range, s0: State, d: Data, tasks: map<nat, Task>)
    requires Reaches(r, s0, State(d, tasks)) && 1 in tasks && tasks[1] == Queued(1000) && d.lock == None
    requires FirstFree(d.rows, r.start, r.end) == None && DeleteExpired(d.rows, d.now) == d.rows
    ensures Reaches(r, s0, State(d.(lock := Some(1)), tasks[1 := Reprobing(1000, d.now)]))
  {
    var l, e := d.(lock := Some(1)), d.now;
    SqueezedProbe(r, s0, d, tasks);
    assert l.(rows := DeleteExpired(l.rows, e)) == l;
    hide Reaches, Step, FirstFree, DeleteExpired;
    NextOf(r, s0, State(l, tasks[1 := ReadingClock(1000)]), 1, ReadClock(1), l, Purging(1000, e));
    Overwrite(tasks, 1, ReadingClock(1000), Purging(1000, e));
    NextOf(r, s0, State(l, tasks[1 := Purging(1000, e)]), 1, Purge(1), l, Reprobing(1000, e));
    Overwrite(tasks, 1, Purging(1000, e), Reprobing(1000, e));
  }

  lemma SqueezedProbe(r: Range, s0: State, d: Data, tasks: map<nat, Task>)
    requires Reaches(r, s0, State(d, tasks)) && 1 in tasks && tasks[1] == Queued(1000) && d.lock == None
    requires FirstFree(d.rows, r.start, r.end) == None
    ensures Reaches(r, s0, State(d.(lock := Some(1)), tasks[1 := ReadingClock(1000)]))
  {
    var l := d.(lock := Some(1));
    hide Reaches, Step, FirstFree;
    NextOf(r, s0, State(d, tasks), 1, Acquire(1), l, Probing(1000));
    NextOf(r, s0, State(l, tasks[1 := Probing(1000)]), 1, Select(1), l, ReadingClock(1000));
    Overwrite(tasks, 1, Probing(1000), ReadingClock(1000));
  }

  lemma SqueezedReachable(r: Range, m: nat, e: int)
    requires r.start <= r.end && e > m + 1000
    ensures Reaches(r, State(FullTable(r, e), map[]), State(Squeezed(r, m, e), SqueezedTasks(e)))
  {
    var s0, x := State(FullTable(r, e), map[]), Extending(r.start, e, m + 1000, m);
    var de := FullTable(r, e).(now := e);
    var tasks: map<nat, Task> := map[1 := Queued(1000), 2 := x];
    FullTableIsFull(r, e);
    SqueezedIsRefused(r, m, e);
    hide Reaches, Step, FirstFree, DeleteExpired, UpdateStep, Ids, Squeezed, Refuses, AllHeld, Init;
    SqueezeStarts(r, FullTable(r, e), m, e);
    SqueezedTurn(r, s0, de, tasks);
    hide FullTable;
    NextOf(r, s0, State(de.(lock := Some(1)), tasks[1 := Reprobing(1000, e)]), 2, Update(2, true),
           Squeezed(r, m, e), Finished);
    assert tasks[1 := Reprobing(1000, e)][2 := Finished] == SqueezedTasks(e);
  }

  /** What task `t` is refused for. */
  ghost predicate RefusedRightly(r: Range, s: State, t: nat) {
    Refuses(r, s, t) ==> AllHeld(s.data.rows, r.start, r.end, s.tasks[t].cutoff)
  }

  /** In runs whose extensions all move the expiry by `delta` milliseconds a request is refused only when
      every id is held by a row unexpired at its purge, exactly when `delta` is not negative; that
      clients present only pairs they were told changes nothing about it. */
  lemma RefusedOnlyWhenFullExactly(r: Range, delta: int)
    requires r.start <= r.end
    ensures (forall s, actions, t: nat :: Shifting(r, s, actions, delta) ==> RefusedRightly(r, Run(r, s, actions), t))
            <==> delta >= 0
    ensures (forall s, actions, t: nat ::
               Shifting(r, s, actions, delta) && OnlyTold(Run(r, s, actions).data.log)
               ==> RefusedRightly(r, Run(r, s, actions), t)) <==> delta >= 0
  {
    if delta >= 0 {
      forall s, actions, t: nat | Shifting(r, s, actions, delta) ensures RefusedRightly(r, Run(r, s, actions), t) {
        if Refuses(r, Run(r, s, actions), t) { RefusedWhenFull(r, s, actions, t); }
      }
    } else {
      var s0, actions := SqueezingRefusesWrongly(r, delta);
      hide Run, RefusedRightly, Shifting, OnlyTold;
      assert Shifting(r, s0, actions, delta) && !RefusedRightly(r, Run(r, s0, actions), 1);
    }
  }

  lemma SqueezingRefusesWrongly(r: Range, delta: int) returns (s0: State, actions: seq<Action>)
    requires r.start <= r.end && delta < 0
    ensures Shifting(r, s0, actions, delta) && OnlyTold(Run(r, s0, actions).data.log)
    ensures !RefusedRightly(r, Run(r, s0, actions), 1)
  {
    var m := delta % 1000;
    var e := m + 1000 - delta;
    s0 := State(FullTable(r, e), map[]);
    var f := State(Squeezed(r, m, e), SqueezedTasks(e));
    FullTableIsFull(r, e);
    SqueezedIsRefused(r, m, e);
    SqueezedReachable(r, m, e);
    SqueezedLogIsTold(r, m, e);
    assert !RefusedRightly(r, f, 1) && ShiftedBy(f.data.log, delta);
    hide Run, Squeezed, FullTable, RefusedRightly, OnlyTold, ShiftedBy, Refuses, AllHeld, Init;
    actions :| Run(r, s0, actions) == f;
  }

  lemma SqueezedLogIsTold(r: Range, m: nat, e: int)
    ensures var log := Squeezed(r, m, e).log; OnlyTold(log) && ShiftedBy(log, m + 1000 - e)
  {
    var log := Squeezed(r, m, e).log;
    assert log == [Granted(0, r.start, e, 0), Extended(0, r.start, m + 1000, e, e, m)];
    assert PairTold(log, 1) by { assert log[0].expiry == log[1].from; }
  }
}
