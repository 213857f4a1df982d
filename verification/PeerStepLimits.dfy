/** The daemon does orphan leases: a run in which the row and the peer of a live lease disagree. */
module PeerStepLimits {
  import opened Wrappers
  import opened LeaseTable
  import opened LeaseProtocol
  import opened LeaseProofs
  import opened LeaseLimits
  import opened LeaseRuns
  import opened LeaseTurn
  import opened WireGuardServer
  import opened PeerSteps
  import opened PeerStepProofs

  // ----- building runs -----

  ghost predicate WorkerReaches(settings: Settings, r: Range, w0: Worker, w: Worker) {
    exists moves :: WorkerRun(settings, r, w0, moves) == w
  }

  lemma {:induction false} WorkerStart(settings: Settings, r: Range, w0: Worker)
    ensures WorkerReaches(settings, r, w0, w0)
  {
    assert WorkerRun(settings, r, w0, []) == w0;
  }

  lemma {:induction false} WorkerNext(settings: Settings, r: Range, w0: Worker, w: Worker, m: Move)
    requires WorkerReaches(settings, r, w0, w)
    ensures WorkerReaches(settings, r, w0, WorkerStep(settings, r, w, m))
  {
    var moves :| WorkerRun(settings, r, w0, moves) == w;
    assert (moves + [m])[..|moves|] == moves;
    assert WorkerRun(settings, r, w0, moves + [m]) == WorkerStep(settings, r, w, m);
  }

  /** Statements of a request before it has a peer, and the clock. */
  predicate Quiet(a: Action) {
    || a.Tick? || a.Request? || a.Acquire? || a.Select? || a.Insert?
    || a.ReadClock? || a.Purge? || a.Unlock? || a.StartSweep?
  }

  lemma {:induction false} QuietRun(settings: Settings, r: Range, w0: Worker, w: Worker, actions: seq<Action>)
    requires WorkerReaches(settings, r, w0, w) && forall i :: 0 <= i < |actions| ==> Quiet(actions[i])
    ensures WorkerReaches(settings, r, w0, w.(lease := Run(r, w.lease, actions)))
    decreases |actions|
  {
    if actions == [] {
      assert w.(lease := Run(r, w.lease, actions)) == w;
    } else {
      var init, a := actions[..|actions| - 1], actions[|actions| - 1];
      QuietRun(settings, r, w0, w, init);
      WorkerNext(settings, r, w0, w.(lease := Run(r, w.lease, init)), Plain(a));
      hide Step;
    }
  }

  // ----- a request whose keys cannot be stored -----

  /** Undisturbed, such a request leaves neither row nor peer: it adds its peer, fails to store the keys,
      removes the peer and rolls its row back. */
  lemma {:induction false} FailedRequestLeavesNothing(
      settings: Settings, r: Range, w: Worker, t: nat, p: Reservation, privateKey: string, presharedKey: string)
    requires t in w.lease.tasks && w.lease.tasks[t] == AddingPeer(p) && t !in w.drafts
    requires p.id in w.lease.data.rows && w.lease.data.rows[p.id].expiresAt == p.expiry
    ensures var a := WorkerStep(settings, r, w, Add(t, true, privateKey, presharedKey));
            var b := WorkerStep(settings, r, a, Keep(t, false));
            var c := WorkerStep(settings, r, b, Undo(t));
            var f := WorkerStep(settings, r, c, Plain(Rollback(t, true)));
            && p.id in a.peers && a.peers - {p.id} == w.peers - {p.id} && b.peers == a.peers
            && f.peers == w.peers - {p.id} && f.drafts == w.drafts
            && f.lease.data.rows == w.lease.data.rows - {p.id} && f.lease.tasks == w.lease.tasks[t := Finished]
  {
    AddsAndFails(settings, r, w, t, p, privateKey, presharedKey);
    hide WorkerStep, NewPeer;
    var b := WorkerStep(settings, r, WorkerStep(settings, r, w, Add(t, true, privateKey, presharedKey)),
        Keep(t, false));
    UndoesAndRollsBack(settings, r, b, t, p);
  }

  lemma {:induction false} AddsAndFails(
      settings: Settings, r: Range, w: Worker, t: nat, p: Reservation, privateKey: string, presharedKey: string)
    requires t in w.lease.tasks && w.lease.tasks[t] == AddingPeer(p) && t !in w.drafts
    ensures var a := WorkerStep(settings, r, w, Add(t, true, privateKey, presharedKey));
            var b := WorkerStep(settings, r, a, Keep(t, false));
            && p.id in a.peers && a.peers - {p.id} == w.peers - {p.id} && b.peers == a.peers
            && t in b.drafts && b.drafts - {t} == w.drafts
            && b.lease.data == w.lease.data && b.lease.tasks == w.lease.tasks[t := RollingBack(p)]
  {
    var peer := NewPeer(settings, p.id, privateKey, presharedKey);
    AddSteps(r, w.lease, t, true);
    var a := WorkerStep(settings, r, w, Add(t, true, privateKey, presharedKey));
    KeepSteps(r, a.lease, t, peer);
    assert a.lease.tasks[t := RollingBack(p)] == w.lease.tasks[t := RollingBack(p)];
    hide Step, NewPeer;
  }

  lemma {:induction false} UndoesAndRollsBack(settings: Settings, r: Range, b: Worker, t: nat, p: Reservation)
    requires t in b.lease.tasks && b.lease.tasks[t] == RollingBack(p) && t in b.drafts
    requires p.id in b.lease.data.rows && b.lease.data.rows[p.id].expiresAt == p.expiry
    ensures var c := WorkerStep(settings, r, b, Undo(t));
            var f := WorkerStep(settings, r, c, Plain(Rollback(t, true)));
            && f.peers == b.peers - {p.id} && f.drafts == b.drafts - {t}
            && f.lease.data.rows == b.lease.data.rows - {p.id} && f.lease.tasks == b.lease.tasks[t := Finished]
  {
    var c := WorkerStep(settings, r, b, Undo(t));
    assert c.lease == b.lease && t !in c.drafts;
  }

  // ----- the run -----

  /** Every id of the range is held until 1000, with its peer in memory. */
  function FullWorker(settings: Settings, r: Range): Worker {
    var d := FullTable(r, 1000);
    Worker(State(d, map[]), RestoredFrom(settings, d.rows, 0, {}), map[], map[], {}, [], 1, false)
  }

  /** At 1001 daemon 2 has listed them all, and request 1 queues for the lock. */
  function Listed(settings: Settings, r: Range): Worker {
    FullWorker(settings, r).(
      lease := State(FullTable(r, 1000).(now := 1001), map[2 := Sweeping(1001), 1 := Queued(2001)]),
      ticks := map[2 := Listing(Ids(r), 0, 1)])
  }

  lemma {:induction false} ListSteps(settings: Settings, r: Range, w0: Worker, d: Data)
    requires d.now == 1001 && w0.drafts == map[] && w0.ticks == map[] && w0.lease.tasks == map[]
    requires w0.lease.data == d.(now := 0)
    ensures var w1 := w0.(lease := State(d, map[]));
            var w2 := w0.(lease := State(d, map[2 := Sweeping(1001)]));
            var w3 := w2.(ticks := map[2 := Listing(ExpiredIds(d.rows, 1001), |w0.notes|, d.next)]);
            && WorkerStep(settings, r, w0, Plain(Tick(1001))) == w1
            && WorkerStep(settings, r, w1, Plain(StartSweep(2))) == w2
            && WorkerStep(settings, r, w2, List(2)) == w3
            && WorkerStep(settings, r, w3, Plain(Request(1, 1)))
               == w3.(lease := State(d, map[2 := Sweeping(1001), 1 := Queued(2001)]))
  {
    hide TaskStep;
  }

  lemma {:induction false} ListedReachable(settings: Settings, r: Range)
    requires r.start <= r.end
    ensures WorkerReaches(settings, r, FullWorker(settings, r), Listed(settings, r))
  {
    var w0, d := FullWorker(settings, r), FullTable(r, 1000).(now := 1001);
    var w1 := w0.(lease := State(d, map[]));
    var w2 := w0.(lease := State(d, map[2 := Sweeping(1001)]));
    var w3 := w2.(ticks := map[2 := Listing(Ids(r), 0, 1)]);
    WorkerStart(settings, r, w0);
    assert ExpiredIds(d.rows, 1001) == Ids(r);
    ListSteps(settings, r, w0, d);
    hide FullTable, Ids, WorkerReaches, WorkerStep, RestoredFrom;
    WorkerNext(settings, r, w0, w0, Plain(Tick(1001)));
    WorkerNext(settings, r, w0, w1, Plain(StartSweep(2)));
    WorkerNext(settings, r, w0, w2, List(2));
    WorkerNext(settings, r, w0, w3, Plain(Request(1, 1)));
  }

  /** Request 1 found the table full, purged it and reserved the first id. */
  function Reissued(settings: Settings, r: Range): Worker {
    var d := FullTable(r, 1000);
    Listed(settings, r).(lease := State(
      d.(now := 1001, rows := map[r.start := BareRow(2001)], serials := d.serials[r.start := 1], next := 2,
         log := d.log + [Issued(1, r.start, 2001, 1001)]),
      map[2 := Sweeping(1001), 1 := AddingPeer(Reservation(r.start, 1, 2001))]))
  }

  lemma TurnReissues(r: Range)
    requires r.start <= r.end
    ensures var d := FullTable(r, 1000).(now := 1001);
            && Register(d.rows, r.start, r.end, 2001, 1001)
               == (map[r.start := BareRow(2001)], Ok(Lease(r.start, 2001)))
            && d.lock == None && d.next == 1
  {
    var d := FullTable(r, 1000).(now := 1001);
    FullTableIsFull(r, 1000);
    assert DeleteExpired(d.rows, 1001) == map[];
    assert FirstFree(map[], r.start, r.end) == Some(r.start);
    hide FirstFree, DeleteExpired;
  }

  lemma {:induction false} ReissuedReachable(settings: Settings, r: Range)
    requires r.start <= r.end
    ensures WorkerReaches(settings, r, FullWorker(settings, r), Reissued(settings, r))
  {
    var w := Listed(settings, r);
    var d := w.lease.data;
    var tasks: map<nat, Task> := map[2 := Sweeping(1001)];
    ListedReachable(settings, r);
    TurnReissues(r);
    hide Run, WorkerReaches, WholeTurn, FullTable, Register, Ids;
    UninterruptedTurnIsRegister(r, d, tasks, 1, 2001);
    assert tasks[1 := Queued(2001)] == w.lease.tasks;
    assert tasks[1 := AddingPeer(Reservation(r.start, 1, 2001))] == Reissued(settings, r).lease.tasks;
    assert Run(r, w.lease, WholeTurn(1)) == Reissued(settings, r).lease;
    TurnIsQuiet();
    QuietRun(settings, r, FullWorker(settings, r), w, WholeTurn(1));
  }

  lemma TurnIsQuiet()
    ensures forall i :: 0 <= i < |WholeTurn(1)| ==> Quiet(WholeTurn(1)[i])
  {
  }

  /** Request 1 has added its peer and stored the keys. */
  function Granting(settings: Settings, r: Range): Worker {
    var w, p := Reissued(settings, r), Reservation(r.start, 1, 2001);
    var peer := NewPeer(settings, r.start, "", "");
    w.(lease := State(Kept(w.lease.data, p, peer), map[2 := Sweeping(1001), 1 := Finished]),
       peers := w.peers[r.start := peer], drafts := map[], lost := {}, notes := [Added(r.start, 1)], late := false)
  }

  /** In between, the keys are not stored yet. */
  function Adding(settings: Settings, r: Range): Worker {
    var w := Reissued(settings, r);
    var peer := NewPeer(settings, r.start, "", "");
    w.(lease := State(w.lease.data, map[2 := Sweeping(1001), 1 := StoringKeys(Reservation(r.start, 1, 2001))]),
       peers := w.peers[r.start := peer], drafts := map[1 := peer], notes := [Added(r.start, 1)])
  }

  lemma {:induction false} AddStep(settings: Settings, r: Range)
    ensures WorkerStep(settings, r, Reissued(settings, r), Add(1, true, "", "")) == Adding(settings, r)
  {
    var w, p := Reissued(settings, r), Reservation(r.start, 1, 2001);
    AddSteps(r, w.lease, 1, true);
    assert w.lease.tasks[1 := StoringKeys(p)] == Adding(settings, r).lease.tasks;
    assert w.lease.data.now == 1001;
    hide Step, NewPeer, FullTable, Ids, RestoredFrom;
  }

  lemma {:induction false} KeepStep(settings: Settings, r: Range)
    ensures WorkerStep(settings, r, Adding(settings, r), Keep(1, true)) == Granting(settings, r)
  {
    var a := Adding(settings, r);
    KeepSteps(r, a.lease, 1, NewPeer(settings, r.start, "", ""));
    assert a.lease.tasks[1 := Finished] == Granting(settings, r).lease.tasks && a.drafts - {1} == map[];
    assert a.lease.data.now == 1001;
    hide Step, NewPeer, FullTable, Ids, RestoredFrom, Kept;
  }

  lemma {:induction false} GrantingReachable(settings: Settings, r: Range)
    requires r.start <= r.end
    ensures WorkerReaches(settings, r, FullWorker(settings, r), Granting(settings, r))
  {
    ReissuedReachable(settings, r);
    AddStep(settings, r);
    KeepStep(settings, r);
    hide WorkerReaches, WorkerStep, Reissued, Adding, Granting, FullWorker;
    WorkerNext(settings, r, FullWorker(settings, r), Reissued(settings, r), Add(1, true, "", ""));
    WorkerNext(settings, r, FullWorker(settings, r), Adding(settings, r), Keep(1, true));
  }

  lemma {:induction false} GrantingIsPrompt(settings: Settings, r: Range)
    requires r.start <= r.end
    ensures var f := Granting(settings, r);
            && Prompt(f) && r.start in f.lease.data.rows && f.lease.data.now == 1001 && r.start in f.ticks[2].todo
            && Restorable(f.lease.data.rows[r.start], 1001)
  {
    assert Granting(settings, r).lease.data.log
        == [Granted(0, r.start, 1000, 0), Issued(1, r.start, 2001, 1001), Granted(1, r.start, 2001, 1001)];
    assert r.start in Ids(r);
  }

  /** Then the daemon removes the peer it has listed: the lease is live and keyed, and its peer is gone. */
  lemma {:induction false} DaemonOrphansALease(settings: Settings, r: Range) returns (f: Worker)
    requires 1 <= r.start <= r.end <= 253
    ensures Booted(settings, r, FullWorker(settings, r)) && WorkerReaches(settings, r, FullWorker(settings, r), f)
    ensures Prompt(f) && r.start in f.lease.data.rows && r.start !in f.lost
    ensures Restorable(f.lease.data.rows[r.start], f.lease.data.now) && r.start !in f.peers
  {
    var w0, w := FullWorker(settings, r), Granting(settings, r);
    FullTableIsFull(r, 1000);
    assert Booted(settings, r, w0) by { hide Rebuilt; }
    GrantingReachable(settings, r);
    GrantingIsPrompt(settings, r);
    f := WorkerStep(settings, r, w, Drop(2, r.start));
    WorkerNext(settings, r, w0, w, Drop(2, r.start));
    hide WorkerReaches, FullWorker, Booted;
  }
}
