/** When rows and peers agree, statement by statement. */
module PeerStepProofs {
  import opened Wrappers
  import opened Text
  import opened LeaseTable
  import opened LeaseProtocol
  import opened LeaseProofs
  import opened LeaseTheorems
  import opened WireGuardServer
  import opened PeerSteps

  // ----- notes -----

  ghost predicate WasAdded(notes: seq<Note>, id: int, serial: nat) {
    exists i :: 0 <= i < |notes| && notes[i] == Added(id, serial)
  }

  /** One more note. */
  lemma Noted(notes: seq<Note>, n: Note, id: int, serial: nat)
    ensures WasAdded(notes + [n], id, serial) <==> WasAdded(notes, id, serial) || n == Added(id, serial)
    ensures Orphaned(notes, id, serial) ==> Orphaned(notes + [n], id, serial)
    ensures n.Added? || n.id != id ==> (Orphaned(notes + [n], id, serial) <==> Orphaned(notes, id, serial))
    ensures !WasAdded(notes, id, serial) ==> !Orphaned(notes + [n], id, serial)
  {
    var notes' := notes + [n];
    assert forall i :: 0 <= i < |notes| ==> notes'[i] == notes[i];
    assert notes'[|notes|] == n;
    if Orphaned(notes, id, serial) {
      var i, j :| 0 <= i < j < |notes| && notes[i] == Added(id, serial) && notes[j].Removed? && notes[j].id == id
                  && notes[j].listed <= i;
      assert notes'[i] == Added(id, serial) && notes'[j].Removed?;
    }
  }

  /** A peer added since the list and removed now is orphaned. */
  lemma NotedOrphan(notes: seq<Note>, id: int, serial: nat, listed: nat)
    requires WasAdded(notes, id, serial)
    requires forall i :: 0 <= i < listed && i < |notes| ==> notes[i] != Added(id, serial)
    ensures Orphaned(notes + [Removed(id, listed)], id, serial)
  {
    var i :| 0 <= i < |notes| && notes[i] == Added(id, serial);
    var notes' := notes + [Removed(id, listed)];
    assert notes'[i] == Added(id, serial) && notes'[|notes|] == Removed(id, listed);
  }

  // ----- the invariant -----

  predicate Unkeyed(row: Row) { row.privateKey.None? && row.publicKey.None? }

  /** The peer of a reservation is in the map, unless it is orphaned. */
  ghost predicate PeerIs(peers: Peers, notes: seq<Note>, id: int, serial: nat, peer: PeerState) {
    if Orphaned(notes, id, serial) then id !in peers else id in peers && peers[id] == peer
  }

  /** Every live keyed row has exactly the peer rebuilt from it, unless it is orphaned or lost. */
  ghost predicate RowAgrees(settings: Settings, d: Data, peers: Peers, lost: set<int>, notes: seq<Note>, id: int) {
    id in d.rows && id in d.serials && Restorable(d.rows[id], d.now) && id !in lost ==>
      PeerIs(peers, notes, id, d.serials[id], Rebuilt(settings, id, d.rows[id]))
  }

  /** A reservation that has not run out: its row has no keys yet; its peer, once added, is the draft. */
  ghost predicate PendingAgrees(
      settings: Settings, d: Data, peers: Peers, notes: seq<Note>, task: Task, draft: Option<PeerState>) {
    match Pending(task)
    case None => draft.None?
    case Some(p) =>
      && (task.StoringKeys? ==> draft.Some?) && (draft.Some? ==> task.StoringKeys? || task.RollingBack?)
      && (task.Unlocking? || task.AddingPeer? ==> !WasAdded(notes, p.id, p.serial))
      && (d.now < p.expiry && Current(d, p.id, p.serial) ==>
            && Unkeyed(d.rows[p.id])
            && (draft.Some? ==>
                  && WasAdded(notes, p.id, p.serial)
                  && draft.value == NewPeer(settings, p.id, draft.value.privateKey, draft.value.presharedKey)
                  && PeerIs(peers, notes, p.id, p.serial, draft.value)))
  }

  function DraftOf(w: Worker, t: nat): Option<PeerState> { if t in w.drafts then Some(w.drafts[t]) else None }

  /** What a tick has still to remove has run out or was issued since its list. */
  ghost predicate TickOk(d: Data, notes: seq<Note>, born: nat, tick: Listing) {
    && born <= tick.next <= d.next && tick.listed <= |notes|
    && (forall id :: id in tick.todo && id in d.rows && id in d.serials ==>
          d.rows[id].expiresAt < d.now || tick.next <= d.serials[id])
    && (forall i :: 0 <= i < tick.listed && notes[i].Added? ==> notes[i].serial < tick.next)
  }

  /** Rows keyed in this process had their peer added. */
  ghost predicate NotesOk(d: Data, notes: seq<Note>, born: nat) {
    && born <= d.next
    && (forall i :: 0 <= i < |notes| && notes[i].Added? ==> notes[i].serial < d.next)
    && (forall id :: id in d.rows && id in d.serials && !Unkeyed(d.rows[id]) && born <= d.serials[id] ==>
          WasAdded(notes, id, d.serials[id]))
  }

  ghost predicate WorkerInv(settings: Settings, r: Range, w: Worker) {
    var d := w.lease.data;
    && Inv(r, w.lease)
    && (forall id :: RowAgrees(settings, d, w.peers, w.lost, w.notes, id))
    && (forall t :: t in w.lease.tasks ==>
          PendingAgrees(settings, d, w.peers, w.notes, w.lease.tasks[t], DraftOf(w, t)))
    && (forall t :: t in w.drafts ==> t in w.lease.tasks)
    && (forall t :: t in w.ticks ==> TickOk(d, w.notes, w.born, w.ticks[t]))
    && NotesOk(d, w.notes, w.born)
  }

  // ----- steps that touch no peer -----

  /** A row is as it was but for its expiry, which moved only while the row was live; or it is new. */
  predicate RowEvolves(d: Data, d': Data, id: int)
    requires id in d'.rows
  {
    id in d'.serials
    && if id in d.rows && id in d.serials && d'.serials[id] == d.serials[id]
       then d'.rows[id] == d.rows[id].(expiresAt := d'.rows[id].expiresAt)
            && (d'.rows[id].expiresAt == d.rows[id].expiresAt || d.now < d.rows[id].expiresAt)
       else d'.serials[id] == d.next && Unkeyed(d'.rows[id])
  }

  ghost predicate Evolves(d: Data, d': Data) {
    && d.now <= d'.now && d.next <= d'.next
    && (forall id :: id in d'.rows ==> RowEvolves(d, d', id))
    && (forall id :: id in d.serials ==> d.serials[id] < d.next)
  }

  lemma TaskStepEvolves(r: Range, d: Data, t: nat, task: Task, a: Action)
    requires RowsOk(r, d) && TurnOk(r, d, t, task) && !a.AddPeer? && !a.Store?
    requires LaggedBy(TaskStep(r, d, t, task, a).0.log, 0)
    ensures Evolves(d, TaskStep(r, d, t, task, a).0)
  {
    var d' := TaskStep(r, d, t, task, a).0;
    if task.Extending? && d'.log != d.log {
      assert d'.log[|d.log|].Extended?;
    }
  }

  lemma EvolvesKeepsRow(settings: Settings, d: Data, d': Data, peers: Peers, lost: set<int>, notes: seq<Note>, id: int)
    requires Evolves(d, d') && RowAgrees(settings, d, peers, lost, notes, id)
    ensures RowAgrees(settings, d', peers, lost, notes, id)
  {
    hide Orphaned;
    if id in d'.rows { assert RowEvolves(d, d', id); }
  }

  lemma EvolvesKeepsPending(
      settings: Settings, d: Data, d': Data, peers: Peers, notes: seq<Note>, task: Task, draft: Option<PeerState>)
    requires Evolves(d, d') && PendingAgrees(settings, d, peers, notes, task, draft)
    requires Pending(task).Some? ==>
               var p := Pending(task).value; p.serial < d.next && Covered(d, p.id, p.serial, p.expiry)
    ensures PendingAgrees(settings, d', peers, notes, task, draft)
  {
    hide Orphaned, WasAdded, NewPeer;
    if Pending(task).Some? {
      var p := Pending(task).value;
      if p.id in d'.rows { assert RowEvolves(d, d', p.id); }
    }
  }

  lemma EvolvesKeepsTick(d: Data, d': Data, notes: seq<Note>, born: nat, tick: Listing)
    requires Evolves(d, d') && TickOk(d, notes, born, tick)
    ensures TickOk(d', notes, born, tick)
  {
    forall id | id in tick.todo && id in d'.rows && id in d'.serials
      ensures d'.rows[id].expiresAt < d'.now || tick.next <= d'.serials[id]
    {
      assert RowEvolves(d, d', id);
    }
  }

  lemma EvolvesKeepsNotes(d: Data, d': Data, notes: seq<Note>, born: nat)
    requires Evolves(d, d') && NotesOk(d, notes, born)
    ensures NotesOk(d', notes, born)
  {
    hide WasAdded;
    forall id | id in d'.rows && id in d'.serials && !Unkeyed(d'.rows[id]) && born <= d'.serials[id]
      ensures WasAdded(notes, id, d'.serials[id])
    {
      assert RowEvolves(d, d', id);
    }
  }

  /** The acting task's own reservation: passed on, made, or given up. */
  lemma OwnPending(
      settings: Settings, r: Range, d: Data, t: nat, task: Task, a: Action, peers: Peers, notes: seq<Note>, born: nat,
      draft: Option<PeerState>)
    requires TaskOk(r, d, t, task) && NotesOk(d, notes, born) && PendingAgrees(settings, d, peers, notes, task, draft)
    requires !a.AddPeer? && !a.Store? && (a.Rollback? ==> draft.None?)
    ensures var (d', task') := TaskStep(r, d, t, task, a);
            Pending(task') == Pending(task) || PendingAgrees(settings, d', peers, notes, task', draft)
    ensures var task' := TaskStep(r, d, t, task, a).1;
            Pending(task') == Pending(task) && PendingAgrees(settings, d, peers, notes, task, draft) ==>
              PendingAgrees(settings, d, peers, notes, task', draft)
  {
    hide Orphaned, NewPeer;
  }

  lemma PendingCovered(r: Range, d: Data, t: nat, task: Task)
    requires TaskOk(r, d, t, task)
    ensures Pending(task).Some? ==>
              var p := Pending(task).value;
              p.serial < d.next && Covered(d, p.id, p.serial, p.expiry) && r.Contains(p.id)
  {
  }

  lemma PlainEvolves(r: Range, s: State, a: Action)
    requires Inv(r, s) && !a.AddPeer? && !a.Store? && !a.Restart? && LaggedBy(Step(r, s, a).data.log, 0)
    ensures Evolves(s.data, Step(r, s, a).data)
  {
    if !a.Tick? && a.t in s.tasks {
      assert TaskOk(r, s.data, a.t, s.tasks[a.t]);
      TaskStepEvolves(r, s.data, a.t, s.tasks[a.t], a);
    } else {
      hide TaskStep;
    }
  }

  /** Every task's reservation, after a plain step. */
  lemma PlainPending(settings: Settings, r: Range, w: Worker, a: Action, u: nat)
    requires WorkerInv(settings, r, w) && IsPlain(w, a) && Evolves(w.lease.data, Step(r, w.lease, a).data)
    requires u in Step(r, w.lease, a).tasks
    ensures var s' := Step(r, w.lease, a);
            PendingAgrees(settings, s'.data, w.peers, w.notes, s'.tasks[u], DraftOf(w, u))
  {
    var d, tasks, s' := w.lease.data, w.lease.tasks, Step(r, w.lease, a);
    if u in tasks {
      assert PendingAgrees(settings, d, w.peers, w.notes, tasks[u], DraftOf(w, u)) && TaskOk(r, d, u, tasks[u]);
      PendingCovered(r, d, u, tasks[u]);
      if !a.Tick? && a.t == u {
        var (d', task') := TaskStep(r, d, u, tasks[u], a);
        assert s' == State(d', tasks[u := task']);
        OwnPending(settings, r, d, u, tasks[u], a, w.peers, w.notes, w.born, DraftOf(w, u));
        hide TaskStep, Step, PendingAgrees, WorkerInv, TaskOk, Evolves, NotesOk;
        if Pending(task') == Pending(tasks[u]) {
          EvolvesKeepsPending(settings, d, d', w.peers, w.notes, task', DraftOf(w, u));
        }
      } else {
        assert s'.tasks[u] == tasks[u];
        hide TaskStep, Step, PendingAgrees, WorkerInv, TaskOk, Evolves;
        EvolvesKeepsPending(settings, d, s'.data, w.peers, w.notes, tasks[u], DraftOf(w, u));
      }
    } else {
      hide TaskStep, TaskOk, Orphaned, WasAdded;
    }
  }

  lemma TasksStay(r: Range, s: State, a: Action)
    requires !a.Restart?
    ensures forall t :: t in s.tasks ==> t in Step(r, s, a).tasks
  {
    hide TaskStep;
  }

  lemma PlainKeeps(settings: Settings, r: Range, w: Worker, a: Action)
    requires r.start <= r.end && WorkerInv(settings, r, w) && IsPlain(w, a)
    requires Prompt(w.(lease := Step(r, w.lease, a)))
    ensures WorkerInv(settings, r, w.(lease := Step(r, w.lease, a)))
  {
    var w' := w.(lease := Step(r, w.lease, a));
    var d, d' := w.lease.data, w'.lease.data;
    StepKeepsInv(r, w.lease, a);
    PlainEvolves(r, w.lease, a);
    EvolvesKeepsNotes(d, d', w.notes, w.born);
    TasksStay(r, w.lease, a);
    hide Step, Inv, Evolves, NotesOk, Prompt;
    forall id ensures RowAgrees(settings, d', w.peers, w.lost, w.notes, id) {
      EvolvesKeepsRow(settings, d, d', w.peers, w.lost, w.notes, id);
    }
    forall u | u in w'.lease.tasks
      ensures PendingAgrees(settings, d', w.peers, w.notes, w'.lease.tasks[u], DraftOf(w, u))
    {
      PlainPending(settings, r, w, a, u);
    }
    forall t | t in w.ticks ensures TickOk(d', w.notes, w.born, w.ticks[t]) {
      EvolvesKeepsTick(d, d', w.notes, w.born, w.ticks[t]);
    }
    assert forall u :: u in w'.lease.tasks ==> DraftOf(w', u) == DraftOf(w, u);
    hide RowAgrees, PendingAgrees, TickOk;
  }

  // ----- adding a peer -----

  /** Nobody else holds a reservation of the same id that has not run out. */
  lemma OnlyHolder(r: Range, s: State, t: nat, u: nat, p: Reservation, q: Reservation)
    requires Inv(r, s) && t in s.tasks && u in s.tasks && t != u
    requires Pending(s.tasks[t]) == Some(p) && Pending(s.tasks[u]) == Some(q)
    requires s.data.now < p.expiry && s.data.now < q.expiry
    ensures p.id != q.id
  {
    assert TaskOk(r, s.data, t, s.tasks[t]) && TaskOk(r, s.data, u, s.tasks[u]);
  }

  lemma AddKeepsPending(
      settings: Settings, d: Data, peers: Peers, notes: seq<Note>, task: Task, draft: Option<PeerState>,
      p: Reservation, peer: PeerState)
    requires PendingAgrees(settings, d, peers, notes, task, draft)
    requires Pending(task).Some? ==> Pending(task).value.serial != p.serial
    requires Pending(task).Some? && d.now < Pending(task).value.expiry ==> Pending(task).value.id != p.id
    ensures PendingAgrees(settings, d, peers[p.id := peer], notes + [Added(p.id, p.serial)], task, draft)
  {
    if Pending(task).Some? {
      Noted(notes, Added(p.id, p.serial), Pending(task).value.id, Pending(task).value.serial);
    }
    hide Orphaned, WasAdded, NewPeer;
  }

  lemma AddKeepsRow(
      settings: Settings, d: Data, peers: Peers, lost: set<int>, notes: seq<Note>, id: int, p: Reservation,
      peer: PeerState)
    requires RowAgrees(settings, d, peers, lost, notes, id)
    requires p.id in d.rows ==> Unkeyed(d.rows[p.id])
    ensures RowAgrees(settings, d, peers[p.id := peer], lost - {p.id}, notes + [Added(p.id, p.serial)], id)
  {
    if id in d.rows && id in d.serials { Noted(notes, Added(p.id, p.serial), id, d.serials[id]); }
    hide Orphaned, Rebuilt;
  }

  lemma AddKeepsHistory(d: Data, notes: seq<Note>, born: nat, tick: Listing, id: int, serial: nat)
    requires NotesOk(d, notes, born) && serial < d.next
    ensures NotesOk(d, notes + [Added(id, serial)], born)
    ensures TickOk(d, notes, born, tick) ==> TickOk(d, notes + [Added(id, serial)], born, tick)
  {
    var notes' := notes + [Added(id, serial)];
    assert forall i :: 0 <= i < |notes| ==> notes'[i] == notes[i];
    forall k | k in d.rows && k in d.serials && !Unkeyed(d.rows[k]) && born <= d.serials[k]
      ensures WasAdded(notes', k, d.serials[k])
    {
      Noted(notes, Added(id, serial), k, d.serials[k]);
    }
    hide WasAdded;
  }

  /** The peer of a request that holds its reservation enters the map. */
  lemma AddedPending(
      settings: Settings, d: Data, peers: Peers, notes: seq<Note>, p: Reservation, privateKey: string,
      presharedKey: string)
    requires PendingAgrees(settings, d, peers, notes, AddingPeer(p), None)
    ensures var peer := NewPeer(settings, p.id, privateKey, presharedKey);
            PendingAgrees(settings, d, peers[p.id := peer], notes + [Added(p.id, p.serial)], StoringKeys(p), Some(peer))
  {
    Noted(notes, Added(p.id, p.serial), p.id, p.serial);
    hide Orphaned, WasAdded;
  }

  lemma AddSteps(r: Range, s: State, t: nat, ok: bool)
    requires t in s.tasks && s.tasks[t].AddingPeer?
    ensures var p := s.tasks[t].reserved;
            Step(r, s, AddPeer(t, ok)) == State(s.data, s.tasks[t := if ok then StoringKeys(p) else RollingBack(p)])
  {
  }

  /** The interface or the key UPDATE failed: the task goes on to its rollback. */
  lemma FailedKeeps(settings: Settings, r: Range, w: Worker, t: nat, s': State)
    requires WorkerInv(settings, r, w) && t in w.lease.tasks && Inv(r, s')
    requires w.lease.tasks[t].AddingPeer? || w.lease.tasks[t].StoringKeys?
    requires s' == State(w.lease.data, w.lease.tasks[t := RollingBack(w.lease.tasks[t].reserved)])
    ensures WorkerInv(settings, r, w.(lease := s'))
  {
    var w' := w.(lease := s');
    assert PendingAgrees(settings, w.lease.data, w.peers, w.notes, w.lease.tasks[t], DraftOf(w, t));
    assert PendingAgrees(settings, w.lease.data, w.peers, w.notes, s'.tasks[t], DraftOf(w, t)) by {
      hide Inv, Orphaned, WasAdded, WorkerInv;
    }
    assert forall u :: DraftOf(w', u) == DraftOf(w, u);
    hide Inv, RowAgrees, PendingAgrees, TickOk, NotesOk;
  }

  lemma AddKeeps(settings: Settings, r: Range, w: Worker, t: nat, ok: bool, privateKey: string, presharedKey: string)
    requires r.start <= r.end && WorkerInv(settings, r, w)
    requires Prompt(AddMove(settings, r, w, t, ok, privateKey, presharedKey))
    ensures WorkerInv(settings, r, AddMove(settings, r, w, t, ok, privateKey, presharedKey))
  {
    if t in w.lease.tasks && w.lease.tasks[t].AddingPeer? {
      AddSteps(r, w.lease, t, ok);
      StepKeepsInv(r, w.lease, AddPeer(t, ok));
      if ok {
        AddedKeeps(settings, r, w, t, privateKey, presharedKey);
      } else {
        FailedKeeps(settings, r, w, t, Step(r, w.lease, AddPeer(t, false)));
        hide Step, Inv, WorkerInv;
      }
    }
  }

  lemma AddedKeeps(settings: Settings, r: Range, w: Worker, t: nat, privateKey: string, presharedKey: string)
    requires WorkerInv(settings, r, w) && t in w.lease.tasks && w.lease.tasks[t].AddingPeer?
    requires w.lease.data.now < w.lease.tasks[t].reserved.expiry && Inv(r, Step(r, w.lease, AddPeer(t, true)))
    ensures WorkerInv(settings, r, AddMove(settings, r, w, t, true, privateKey, presharedKey))
  {
    var w' := AddMove(settings, r, w, t, true, privateKey, presharedKey);
    var d, tasks, p := w.lease.data, w.lease.tasks, w.lease.tasks[t].reserved;
    var peer := NewPeer(settings, p.id, privateKey, presharedKey);
    assert PendingAgrees(settings, d, w.peers, w.notes, tasks[t], DraftOf(w, t));
    AddSteps(r, w.lease, t, true);
    AddKeepsOthers(settings, r, w, t, peer);
    hide Step, Inv, NewPeer, RowAgrees, TickOk, NotesOk;
    assert DraftOf(w, t) == None by { hide Orphaned, WasAdded; }
    hide PendingAgrees;
    AddedPending(settings, d, w.peers, w.notes, p, privateKey, presharedKey);
    assert forall u :: u != t ==> DraftOf(w', u) == DraftOf(w, u);
  }

  lemma AddKeepsOthers(settings: Settings, r: Range, w: Worker, t: nat, peer: PeerState)
    requires WorkerInv(settings, r, w) && t in w.lease.tasks && w.lease.tasks[t].AddingPeer?
    requires w.lease.data.now < w.lease.tasks[t].reserved.expiry
    ensures var d, p := w.lease.data, w.lease.tasks[t].reserved;
            var peers, notes := w.peers[p.id := peer], w.notes + [Added(p.id, p.serial)];
            && (forall id :: RowAgrees(settings, d, peers, w.lost - {p.id}, notes, id))
            && (forall u :: u in w.lease.tasks && u != t ==>
                  PendingAgrees(settings, d, peers, notes, w.lease.tasks[u], DraftOf(w, u)))
            && (forall u :: u in w.ticks ==> TickOk(d, notes, w.born, w.ticks[u]))
            && NotesOk(d, notes, w.born)
  {
    var d, p := w.lease.data, w.lease.tasks[t].reserved;
    var peers, notes := w.peers[p.id := peer], w.notes + [Added(p.id, p.serial)];
    assert TaskOk(r, d, t, w.lease.tasks[t]);
    PendingCovered(r, d, t, w.lease.tasks[t]);
    assert PendingAgrees(settings, d, w.peers, w.notes, w.lease.tasks[t], DraftOf(w, t));
    assert Unkeyed(d.rows[p.id]) by { hide Orphaned, WasAdded; }
    AddKeepsHistory(d, w.notes, w.born, Listing({}, 0, w.born), p.id, p.serial);
    hide TaskOk, Orphaned, WasAdded;
    forall id ensures RowAgrees(settings, d, peers, w.lost - {p.id}, notes, id) {
      assert RowAgrees(settings, d, w.peers, w.lost, w.notes, id);
      AddKeepsRow(settings, d, w.peers, w.lost, w.notes, id, p, peer);
    }
    forall u | u in w.lease.tasks && u != t
      ensures PendingAgrees(settings, d, peers, notes, w.lease.tasks[u], DraftOf(w, u))
    {
      OthersApart(r, w.lease, t, u);
      AddKeepsPending(settings, d, w.peers, w.notes, w.lease.tasks[u], DraftOf(w, u), p, peer);
    }
    forall u | u in w.ticks ensures TickOk(d, notes, w.born, w.ticks[u]) {
      AddKeepsHistory(d, w.notes, w.born, w.ticks[u], p.id, p.serial);
    }
  }

  /** Other reservations have other serial numbers and, while both last, other ids. */
  lemma OthersApart(r: Range, s: State, t: nat, u: nat)
    requires Inv(r, s) && t in s.tasks && u in s.tasks && t != u && Pending(s.tasks[t]).Some?
    requires s.data.now < Pending(s.tasks[t]).value.expiry
    ensures Pending(s.tasks[u]).Some? ==>
              var p, q := Pending(s.tasks[t]).value, Pending(s.tasks[u]).value;
              q.serial != p.serial && (s.data.now < q.expiry ==> q.id != p.id)
  {
    if Pending(s.tasks[u]).Some? && s.data.now < Pending(s.tasks[u]).value.expiry {
      OnlyHolder(r, s, t, u, Pending(s.tasks[t]).value, Pending(s.tasks[u]).value);
    }
    hide DataOk, TaskOk;
  }

  // ----- keeping its keys -----

  lemma StoredRowIsDraft(settings: Settings, row: Row, id: int, peer: PeerState)
    requires 1 <= id <= 253 && peer == NewPeer(settings, id, peer.privateKey, peer.presharedKey)
    requires row.privateKey == Some(peer.privateKey) && row.publicKey == Some(peer.publicKey)
    requires row.presharedKey == Some(peer.presharedKey) && row.allowedIp == Some(peer.allowedIp.Show())
    ensures Rebuilt(settings, id, row) == peer
  {
    ParseShowQuad(PeerIp(settings.subnetBase, id));
  }

  function Kept(d: Data, p: Reservation, peer: PeerState): Data {
    StoreStep(d, p, peer.privateKey, peer.publicKey, peer.presharedKey, peer.allowedIp.Show())
  }

  lemma KeptRows(
      settings: Settings, d: Data, peers: Peers, lost: set<int>, notes: seq<Note>, id: int, p: Reservation,
      peer: PeerState)
    requires RowAgrees(settings, d, peers, lost, notes, id)
    requires Current(d, p.id, p.serial) && 1 <= p.id <= 253 && PeerIs(peers, notes, p.id, p.serial, peer)
    requires peer == NewPeer(settings, p.id, peer.privateKey, peer.presharedKey)
    ensures RowAgrees(settings, Kept(d, p, peer), peers, lost, notes, id)
  {
    StoredRowIsDraft(settings, Kept(d, p, peer).rows[p.id], p.id, peer);
    hide Orphaned, Rebuilt, NewPeer;
  }

  lemma KeptPending(
      settings: Settings, d: Data, peers: Peers, notes: seq<Note>, task: Task, draft: Option<PeerState>,
      p: Reservation, peer: PeerState)
    requires PendingAgrees(settings, d, peers, notes, task, draft)
    requires Pending(task).Some? && d.now < Pending(task).value.expiry ==> Pending(task).value.id != p.id
    ensures PendingAgrees(settings, Kept(d, p, peer), peers, notes, task, draft)
  {
    hide Orphaned, WasAdded, NewPeer;
  }

  lemma KeptHistory(d: Data, notes: seq<Note>, born: nat, tick: Listing, p: Reservation, peer: PeerState)
    requires NotesOk(d, notes, born) && WasAdded(notes, p.id, p.serial) && Current(d, p.id, p.serial)
    ensures NotesOk(Kept(d, p, peer), notes, born)
    ensures TickOk(d, notes, born, tick) ==> TickOk(Kept(d, p, peer), notes, born, tick)
  {
    hide WasAdded;
  }

  lemma KeepSteps(r: Range, s: State, t: nat, peer: PeerState)
    requires t in s.tasks && s.tasks[t].StoringKeys?
    ensures var p := s.tasks[t].reserved;
            && Step(r, s, Store(t, true, peer.privateKey, peer.publicKey, peer.presharedKey, peer.allowedIp.Show()))
               == State(Kept(s.data, p, peer), s.tasks[t := Finished])
            && Step(r, s, Store(t, false, "", "", "", "")) == State(s.data, s.tasks[t := RollingBack(p)])
  {
  }

  lemma KeepKeeps(settings: Settings, r: Range, w: Worker, t: nat, ok: bool)
    requires 1 <= r.start <= r.end <= 253 && WorkerInv(settings, r, w) && Prompt(KeepMove(r, w, t, ok))
    ensures WorkerInv(settings, r, KeepMove(r, w, t, ok))
  {
    if t in w.lease.tasks && w.lease.tasks[t].StoringKeys? && t in w.drafts {
      var peer := w.drafts[t];
      KeepSteps(r, w.lease, t, peer);
      if ok {
        StepKeepsInv(r, w.lease,
                     Store(t, true, peer.privateKey, peer.publicKey, peer.presharedKey, peer.allowedIp.Show()));
        KeptKeeps(settings, r, w, t);
      } else {
        StepKeepsInv(r, w.lease, Store(t, false, "", "", "", ""));
        FailedKeeps(settings, r, w, t, Step(r, w.lease, Store(t, false, "", "", "", "")));
        hide Step, Inv, WorkerInv;
      }
    }
  }

  lemma KeptKeeps(settings: Settings, r: Range, w: Worker, t: nat)
    requires 1 <= r.start <= r.end <= 253 && WorkerInv(settings, r, w)
    requires t in w.lease.tasks && w.lease.tasks[t].StoringKeys? && t in w.drafts
    requires w.lease.data.now < w.lease.tasks[t].reserved.expiry && Inv(r, KeepMove(r, w, t, true).lease)
    ensures WorkerInv(settings, r, KeepMove(r, w, t, true))
  {
    hide Step, Kept, Inv, RowAgrees, TickOk, NotesOk, TaskStep, Orphaned, WasAdded;
    var w' := KeepMove(r, w, t, true);
    KeepSteps(r, w.lease, t, w.drafts[t]);
    KeptOthers(settings, r, w, t);
    assert PendingAgrees(settings, w'.lease.data, w.peers, w.notes, Finished, None);
    hide PendingAgrees;
    assert DraftOf(w', t) == None && forall u :: u != t ==> DraftOf(w', u) == DraftOf(w, u);
  }

  lemma KeptOthers(settings: Settings, r: Range, w: Worker, t: nat)
    requires 1 <= r.start <= r.end <= 253 && WorkerInv(settings, r, w)
    requires t in w.lease.tasks && w.lease.tasks[t].StoringKeys? && t in w.drafts
    requires w.lease.data.now < w.lease.tasks[t].reserved.expiry
    ensures var d := Kept(w.lease.data, w.lease.tasks[t].reserved, w.drafts[t]);
            && (forall id :: RowAgrees(settings, d, w.peers, w.lost, w.notes, id))
            && (forall u :: u in w.lease.tasks && u != t ==>
                  PendingAgrees(settings, d, w.peers, w.notes, w.lease.tasks[u], DraftOf(w, u)))
            && (forall u :: u in w.ticks ==> TickOk(d, w.notes, w.born, w.ticks[u]))
            && NotesOk(d, w.notes, w.born)
  {
    var d, tasks, p, peer := w.lease.data, w.lease.tasks, w.lease.tasks[t].reserved, w.drafts[t];
    assert TaskOk(r, d, t, tasks[t]) && PendingAgrees(settings, d, w.peers, w.notes, tasks[t], DraftOf(w, t));
    PendingCovered(r, d, t, tasks[t]);
    assert Current(d, p.id, p.serial);
    hide TaskOk, Kept, Orphaned, WasAdded, NewPeer;
    KeptHistory(d, w.notes, w.born, Listing({}, 0, w.born), p, peer);
    forall id ensures RowAgrees(settings, Kept(d, p, peer), w.peers, w.lost, w.notes, id) {
      assert RowAgrees(settings, d, w.peers, w.lost, w.notes, id);
      KeptRows(settings, d, w.peers, w.lost, w.notes, id, p, peer);
    }
    hide RowAgrees;
    forall u | u in tasks && u != t
      ensures PendingAgrees(settings, Kept(d, p, peer), w.peers, w.notes, tasks[u], DraftOf(w, u))
    {
      OthersApart(r, w.lease, t, u);
      KeptPending(settings, d, w.peers, w.notes, tasks[u], DraftOf(w, u), p, peer);
    }
    forall u | u in w.ticks ensures TickOk(Kept(d, p, peer), w.notes, w.born, w.ticks[u]) {
      KeptHistory(d, w.notes, w.born, w.ticks[u], p, peer);
    }
  }

  // ----- undoing, listing, dropping, rebooting -----

  lemma UndonePending(
      settings: Settings, d: Data, peers: Peers, notes: seq<Note>, task: Task, draft: Option<PeerState>, id: int)
    requires PendingAgrees(settings, d, peers, notes, task, draft)
    requires Pending(task).Some? && d.now < Pending(task).value.expiry ==> Pending(task).value.id != id
    ensures PendingAgrees(settings, d, peers - {id}, notes, task, draft)
  {
    hide Orphaned, WasAdded, NewPeer;
  }

  lemma UndoneOthers(settings: Settings, r: Range, w: Worker, t: nat)
    requires WorkerInv(settings, r, w) && t in w.lease.tasks && w.lease.tasks[t].RollingBack? && t in w.drafts
    requires w.lease.data.now < w.lease.tasks[t].reserved.expiry
    ensures var d, peers := w.lease.data, w.peers - {w.lease.tasks[t].reserved.id};
            && (forall id :: RowAgrees(settings, d, peers, w.lost, w.notes, id))
            && (forall u :: u in w.lease.tasks && u != t ==>
                  PendingAgrees(settings, d, peers, w.notes, w.lease.tasks[u], DraftOf(w, u)))
            && PendingAgrees(settings, d, peers, w.notes, w.lease.tasks[t], None)
  {
    var d, tasks, p := w.lease.data, w.lease.tasks, w.lease.tasks[t].reserved;
    assert PendingAgrees(settings, d, w.peers, w.notes, tasks[t], DraftOf(w, t)) && TaskOk(r, d, t, tasks[t]);
    PendingCovered(r, d, t, tasks[t]);
    hide TaskOk, Orphaned, WasAdded, NewPeer, Rebuilt;
    forall id ensures RowAgrees(settings, d, w.peers - {p.id}, w.lost, w.notes, id) {
      assert RowAgrees(settings, d, w.peers, w.lost, w.notes, id);
    }
    hide RowAgrees;
    forall u | u in tasks && u != t
      ensures PendingAgrees(settings, d, w.peers - {p.id}, w.notes, tasks[u], DraftOf(w, u))
    {
      OthersApart(r, w.lease, t, u);
      UndonePending(settings, d, w.peers, w.notes, tasks[u], DraftOf(w, u), p.id);
    }
  }

  lemma UndoKeeps(settings: Settings, r: Range, w: Worker, t: nat)
    requires WorkerInv(settings, r, w) && Prompt(UndoMove(w, t))
    ensures WorkerInv(settings, r, UndoMove(w, t))
  {
    var w' := UndoMove(w, t);
    if t in w.lease.tasks && w.lease.tasks[t].RollingBack? && t in w.drafts {
      UndoneOthers(settings, r, w, t);
      assert DraftOf(w', t) == None && forall u :: u != t ==> DraftOf(w', u) == DraftOf(w, u);
      hide Inv, RowAgrees, TickOk, NotesOk, PendingAgrees;
    }
  }

  lemma ListKeeps(settings: Settings, r: Range, w: Worker, t: nat)
    requires WorkerInv(settings, r, w)
    ensures WorkerInv(settings, r, ListMove(w, t))
  {
    var w' := ListMove(w, t);
    hide Inv, RowAgrees, PendingAgrees, WasAdded;
    assert forall u :: DraftOf(w', u) == DraftOf(w, u);
  }

  lemma DroppedRow(
      settings: Settings, d: Data, peers: Peers, lost: set<int>, notes: seq<Note>, born: nat, tick: Listing, id: int,
      k: int)
    requires RowAgrees(settings, d, peers, lost, notes, k) && TickOk(d, notes, born, tick) && NotesOk(d, notes, born)
    requires id in tick.todo
    ensures RowAgrees(settings, d, peers - {id}, lost, notes + [Removed(id, tick.listed)], k)
  {
    if k in d.rows && k in d.serials && Restorable(d.rows[k], d.now) {
      Noted(notes, Removed(id, tick.listed), k, d.serials[k]);
      if k == id { NotedOrphan(notes, id, d.serials[id], tick.listed); }
    }
    hide Orphaned, WasAdded, Rebuilt;
  }

  lemma DroppedPending(
      settings: Settings, d: Data, peers: Peers, notes: seq<Note>, born: nat, tick: Listing, id: int,
      task: Task, draft: Option<PeerState>)
    requires PendingAgrees(settings, d, peers, notes, task, draft) && TickOk(d, notes, born, tick) && id in tick.todo
    requires Pending(task).Some? ==>
               Covered(d, Pending(task).value.id, Pending(task).value.serial, Pending(task).value.expiry)
    ensures PendingAgrees(settings, d, peers - {id}, notes + [Removed(id, tick.listed)], task, draft)
  {
    if Pending(task).Some? {
      var p := Pending(task).value;
      Noted(notes, Removed(id, tick.listed), p.id, p.serial);
      if p.id == id && d.now < p.expiry && draft.Some? { NotedOrphan(notes, id, p.serial, tick.listed); }
    }
    hide Orphaned, WasAdded, NewPeer;
  }

  lemma DroppedHistory(d: Data, notes: seq<Note>, born: nat, tick: Listing, n: Note)
    requires NotesOk(d, notes, born) && n.Removed?
    ensures NotesOk(d, notes + [n], born)
    ensures TickOk(d, notes, born, tick) ==> TickOk(d, notes + [n], born, tick)
  {
    var notes' := notes + [n];
    assert forall i :: 0 <= i < |notes| ==> notes'[i] == notes[i];
    forall k | k in d.rows && k in d.serials && !Unkeyed(d.rows[k]) && born <= d.serials[k]
      ensures WasAdded(notes', k, d.serials[k])
    {
      Noted(notes, n, k, d.serials[k]);
    }
    hide WasAdded;
  }

  lemma DropKeeps(settings: Settings, r: Range, w: Worker, t: nat, id: int)
    requires WorkerInv(settings, r, w)
    ensures WorkerInv(settings, r, DropMove(w, t, id))
  {
    var w' := DropMove(w, t, id);
    if t in w.ticks && id in w.ticks[t].todo {
      var d, tick := w.lease.data, w.ticks[t];
      var n := Removed(id, tick.listed);
      hide Orphaned, WasAdded;
      forall k ensures RowAgrees(settings, d, w'.peers, w.lost, w'.notes, k) {
        assert RowAgrees(settings, d, w.peers, w.lost, w.notes, k);
        DroppedRow(settings, d, w.peers, w.lost, w.notes, w.born, tick, id, k);
      }
      forall u | u in w.lease.tasks
        ensures PendingAgrees(settings, d, w'.peers, w'.notes, w.lease.tasks[u], DraftOf(w', u))
      {
        assert TaskOk(r, d, u, w.lease.tasks[u]);
        PendingCovered(r, d, u, w.lease.tasks[u]);
        DroppedPending(settings, d, w.peers, w.notes, w.born, tick, id, w.lease.tasks[u], DraftOf(w, u));
      }
      forall u | u in w'.ticks ensures TickOk(d, w'.notes, w.born, w'.ticks[u]) {
        DroppedHistory(d, w.notes, w.born, w.ticks[u], n);
      }
      DroppedHistory(d, w.notes, w.born, tick, n);
      hide Inv, RowAgrees, TickOk, NotesOk, PendingAgrees;
    }
  }

  lemma RebootKeeps(settings: Settings, r: Range, w: Worker, refused: set<int>)
    requires r.start <= r.end && WorkerInv(settings, r, w) && Prompt(RebootMove(settings, r, w, refused))
    ensures WorkerInv(settings, r, RebootMove(settings, r, w, refused))
  {
    StepKeepsInv(r, w.lease, Restart);
    var w' := RebootMove(settings, r, w, refused);
    assert w'.lease == State(w.lease.data.(lock := None), map[]);
    hide Step, Rebuilt, TaskOk;
    assert forall id :: RowAgrees(settings, w'.lease.data, w'.peers, refused, [], id);
  }

  lemma MoveKeeps(settings: Settings, r: Range, w: Worker, m: Move)
    requires 1 <= r.start <= r.end <= 253 && WorkerInv(settings, r, w) && Prompt(WorkerStep(settings, r, w, m))
    ensures WorkerInv(settings, r, WorkerStep(settings, r, w, m))
  {
    hide WorkerInv, Prompt, Step, AddMove, KeepMove, UndoMove, ListMove, DropMove, RebootMove;
    match m
    case Plain(a) => if IsPlain(w, a) { PlainKeeps(settings, r, w, a); }
    case Add(t, ok, privateKey, presharedKey) => AddKeeps(settings, r, w, t, ok, privateKey, presharedKey);
    case Keep(t, ok) => KeepKeeps(settings, r, w, t, ok);
    case Undo(t) => UndoKeeps(settings, r, w, t);
    case List(t) => ListKeeps(settings, r, w, t);
    case Drop(t, id) => DropKeeps(settings, r, w, t, id);
    case Reboot(refused) => RebootKeeps(settings, r, w, refused);
  }

  // ----- runs -----

  lemma MoveGrows(settings: Settings, r: Range, w: Worker, m: Move)
    ensures w.lease.data.log <= WorkerStep(settings, r, w, m).lease.data.log
    ensures w.late ==> WorkerStep(settings, r, w, m).late
  {
    forall a ensures w.lease.data.log <= Step(r, w.lease, a).data.log { LogGrows(r, w.lease, a); }
    hide Step;
  }

  lemma PromptBefore(w: Worker, w': Worker)
    requires Prompt(w') && w.lease.data.log <= w'.lease.data.log && (w.late ==> w'.late)
    ensures Prompt(w)
  {
    SteadyPrefix(w.lease.data.log, w'.lease.data.log);
    LaggedPrefix(w.lease.data.log, w'.lease.data.log, 0);
  }

  lemma BootedIsInv(settings: Settings, r: Range, w: Worker)
    requires Booted(settings, r, w)
    ensures WorkerInv(settings, r, w)
  {
    assert forall id, serial :: !Orphaned(w.notes, id, serial);
    hide Rebuilt;
  }

  lemma {:induction false} RunKeepsWorkerInv(settings: Settings, r: Range, w: Worker, moves: seq<Move>)
    requires 1 <= r.start <= r.end <= 253 && Booted(settings, r, w) && Prompt(WorkerRun(settings, r, w, moves))
    ensures WorkerInv(settings, r, WorkerRun(settings, r, w, moves))
    decreases |moves|
  {
    if moves == [] {
      BootedIsInv(settings, r, w);
    } else {
      var mid, last := WorkerRun(settings, r, w, moves[..|moves| - 1]), moves[|moves| - 1];
      MoveGrows(settings, r, mid, last);
      PromptBefore(mid, WorkerRun(settings, r, w, moves));
      RunKeepsWorkerInv(settings, r, w, moves[..|moves| - 1]);
      MoveKeeps(settings, r, mid, last);
    }
  }

  /** In every reachable state of every prompt interleaving, for every live row with keys whose peer the
      kernel took at the last restart: the peer in memory is exactly the one rebuilt from the row, unless
      a daemon tick had listed the id before that peer was added and removed it afterwards; and then there
      is no peer at all. */
  lemma RowsAndPeersAgreeExactly(settings: Settings, r: Range, w: Worker, moves: seq<Move>, id: int)
    requires 1 <= r.start <= r.end <= 253 && Booted(settings, r, w) && Prompt(WorkerRun(settings, r, w, moves))
    requires var f := WorkerRun(settings, r, w, moves); var d := f.lease.data;
             id in d.rows && id !in f.lost && Restorable(d.rows[id], d.now)
    ensures var f := WorkerRun(settings, r, w, moves); var d := f.lease.data;
            && id in d.serials
            && (id in f.peers <==> !Orphaned(f.notes, id, d.serials[id]))
            && (id in f.peers ==> f.peers[id] == Rebuilt(settings, id, d.rows[id]))
  {
    RunKeepsWorkerInv(settings, r, w, moves);
    var f := WorkerRun(settings, r, w, moves);
    assert RowAgrees(settings, f.lease.data, f.peers, f.lost, f.notes, id);
    assert id in f.lease.data.serials;
    hide WorkerRun, Orphaned, WorkerInv, Booted, Prompt;
  }
}
