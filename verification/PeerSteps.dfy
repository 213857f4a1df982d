/** Rows and peers, statement by statement: the lease protocol with the server's in-memory peers. The
    daemon lists the expired ids, removes their peers one at a time and only then deletes the rows, and
    everything else may happen in between. */
module PeerSteps {
  import opened Text
  import opened LeaseTable
  import opened LeaseProtocol
  import opened WireGuardServer

  /** A daemon tick after its list: the ids still to remove. `listed` and `next` only record history: how
      many notes and serial numbers there were at the list. */
  datatype Listing = Listing(todo: set<int>, listed: nat, next: nat)

  /** The peer of a reservation entered the map; a tick, listed after `listed` notes, removed a peer. */
  datatype Note = Added(id: int, serial: nat) | Removed(id: int, listed: nat)

  /** A worker process. `drafts` are the peers that requests have added and not yet stored, by task.
      `lost` are the ids the kernel refused at the last restart and nobody added since; `notes`, `born`
      (the next serial number at the last restart) and `late` only record history. */
  datatype Worker = Worker(
    lease: State,
    peers: Peers,
    drafts: map<nat, PeerState>,
    ticks: map<nat, Listing>,
    lost: set<int>,
    notes: seq<Note>,
    born: nat,
    late: bool)

  datatype Move =
    | Plain(a: Action)                                             // a step that touches no peer
    | Add(t: nat, ok: bool, privateKey: string, presharedKey: string)
    | Keep(t: nat, ok: bool)                                       // UPDATE the keys
    | Undo(t: nat)                                                 // remove the peer before the rollback
    | List(t: nat)
    | Drop(t: nat, id: int)
    | Reboot(refused: set<int>)

  /** Plain steps, except that a rollback undoes its peer first and a tick removes all peers first. */
  predicate IsPlain(w: Worker, a: Action) {
    && !a.AddPeer? && !a.Store? && !a.Restart?
    && (a.Rollback? ==> a.t !in w.drafts)
    && (a.Sweep? && a.t in w.ticks ==> w.ticks[a.t].todo == {})
  }

  function AddMove(settings: Settings, r: Range, w: Worker, t: nat, ok: bool, privateKey: string, presharedKey: string)
    : Worker
  {
    if t !in w.lease.tasks || !w.lease.tasks[t].AddingPeer? then w
    else if !ok then w.(lease := Step(r, w.lease, AddPeer(t, false)))
    else
      var p := w.lease.tasks[t].reserved;
      var peer := NewPeer(settings, p.id, privateKey, presharedKey);
      w.(lease := Step(r, w.lease, AddPeer(t, true)),
         peers := w.peers[p.id := peer], drafts := w.drafts[t := peer], lost := w.lost - {p.id},
         notes := w.notes + [Added(p.id, p.serial)], late := w.late || p.expiry <= w.lease.data.now)
  }

  function KeepMove(r: Range, w: Worker, t: nat, ok: bool): Worker {
    if t !in w.lease.tasks || !w.lease.tasks[t].StoringKeys? || t !in w.drafts then w
    else if !ok then w.(lease := Step(r, w.lease, Store(t, false, "", "", "", "")))
    else
      var p, peer := w.lease.tasks[t].reserved, w.drafts[t];
      var a := Store(t, true, peer.privateKey, peer.publicKey, peer.presharedKey, peer.allowedIp.Show());
      w.(lease := Step(r, w.lease, a), drafts := w.drafts - {t}, late := w.late || p.expiry <= w.lease.data.now)
  }

  function UndoMove(w: Worker, t: nat): Worker {
    if t !in w.lease.tasks || !w.lease.tasks[t].RollingBack? || t !in w.drafts then w
    else
      var p := w.lease.tasks[t].reserved;
      w.(peers := w.peers - {p.id}, drafts := w.drafts - {t}, late := w.late || p.expiry <= w.lease.data.now)
  }

  function ListMove(w: Worker, t: nat): Worker {
    if t !in w.lease.tasks || !w.lease.tasks[t].Sweeping? || t in w.ticks then w
    else
      var d := w.lease.data;
      w.(ticks := w.ticks[t := Listing(ExpiredIds(d.rows, d.now), |w.notes|, d.next)])
  }

  function DropMove(w: Worker, t: nat, id: int): Worker {
    if t !in w.ticks || id !in w.ticks[t].todo then w
    else
      var tick := w.ticks[t];
      w.(peers := w.peers - {id}, ticks := w.ticks[t := tick.(todo := tick.todo - {id})],
         notes := w.notes + [Removed(id, tick.listed)])
  }

  function RebootMove(settings: Settings, r: Range, w: Worker, refused: set<int>): Worker {
    var d := w.lease.data;
    Worker(Step(r, w.lease, Restart), RestoredFrom(settings, d.rows, d.now, refused), map[], map[], refused, [], d.next,
           w.late)
  }

  function WorkerStep(settings: Settings, r: Range, w: Worker, m: Move): Worker {
    match m
    case Plain(a) => if IsPlain(w, a) then w.(lease := Step(r, w.lease, a)) else w
    case Add(t, ok, privateKey, presharedKey) => AddMove(settings, r, w, t, ok, privateKey, presharedKey)
    case Keep(t, ok) => KeepMove(r, w, t, ok)
    case Undo(t) => UndoMove(w, t)
    case List(t) => ListMove(w, t)
    case Drop(t, id) => DropMove(w, t, id)
    case Reboot(refused) => RebootMove(settings, r, w, refused)
  }

  function WorkerRun(settings: Settings, r: Range, w: Worker, moves: seq<Move>): Worker
    decreases |moves|
  {
    if moves == [] then w
    else WorkerStep(settings, r, WorkerRun(settings, r, w, moves[..|moves| - 1]), moves[|moves| - 1])
  }

  /** A worker that has just started over any table. */
  ghost predicate Booted(settings: Settings, r: Range, w: Worker) {
    && Init(r, w.lease) && w.drafts == map[] && w.ticks == map[] && w.notes == [] && !w.late
    && w.born == w.lease.data.next
    && w.peers == RestoredFrom(settings, w.lease.data.rows, w.lease.data.now, w.lost)
  }

  /** A tick that had listed the id before the peer of this reservation was added removed it after. */
  ghost predicate Orphaned(notes: seq<Note>, id: int, serial: nat) {
    exists i, j ::
      0 <= i < j < |notes| && notes[i] == Added(id, serial) && notes[j].Removed? && notes[j].id == id
      && notes[j].listed <= i
  }

  /** Extensions are steady, run at the instant of their clock reading, and requests add, keep and undo
      their peers before their reservation runs out. */
  ghost predicate Prompt(w: Worker) {
    Steady(w.lease.data.log) && LaggedBy(w.lease.data.log, 0) && !w.late
  }
}
