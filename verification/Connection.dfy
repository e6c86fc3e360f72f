/**
 * A served connection as a step machine: the read task, the five workers, the write task, and any number of
 * `close`, `ping` and handler calls, interleaved at every load, store, lock and channel operation.
 */
module Connection {
  import opened Octets
  import opened Frame
  import opened Receive

  const N_WORKERS: nat := 5
  const WRITE_QUEUE: nat := 64
  const WORKER_QUEUE: nat := 128
  const SETTINGS_MAX_CONCURRENT_STREAMS: u32 := 4

  function InitialSettings(): Frame {
    Settings([Setting(SETTINGS_MAX_CONCURRENT_STREAMS, 0, 100)], 0)
  }

  // ---------------------------------------------------------------------------
  // State
  // ---------------------------------------------------------------------------

  /**
   * The write queue and the write task: what waits in the queue, the frame the write task has taken but not yet
   * written, whether it still runs, and the histories of frames written and of frames that entered the queue.
   */
  datatype Outbox = Outbox(
    queue: seq<Frame>, hand: Option<Frame>, alive: bool, written: seq<Frame>, enqueued: seq<Frame>)

  /** A frame on its way to a worker, with the stream object (by number) that the table held for it. */
  datatype Msg = Msg(frame: Frame, obj: nat)

  datatype Worker =
    | Resting
    | Handling(msg: Msg)
    | Closing(obj: nat)     // about to close the remote side after a FIN
    | Removing(obj: nat)    // closed after a RST, about to remove the table entry

  /** Where the read task is; every constructor is a point at which other tasks may run. */
  datatype Reader =
    | Booting                               // the initial SETTINGS has not been sent
    | AtRead
    | CheckingLast(syn: Frame)              // about to load the last client stream id
    | CheckingGone(syn: Frame)              // about to load gone_away
    | Inserting(syn: Frame)                 // about to lock the table and insert
    | StoringLast(syn: Frame, obj: nat)     // about to store the last client stream id
    | RoutingSyn(syn: Frame, obj: nat)      // waiting for room in the worker's queue
    | Replying(reply: Frame)                // waiting for room in the write queue
    | ReplyingLocked(reply: Frame)          // the same, with the table locked
    | LookingUp(frame: Frame)               // about to lock the table and look the stream up
    | Routing(frame: Frame, obj: nat)       // waiting for room in the worker's queue
    | Resolving(id: u32)                    // about to lock the ping map
    | StoringGone | FlaggingGone            // a GOAWAY arrived
    | SweepStarting                         // the loop has ended
    | Sweeping(todo: set<nat>)              // the table is locked; these streams are still to be closed
    | Flagging | Ended

  /** A `close` call: it lost the swap, or it won it and is at one of its steps. */
  datatype Closer = Lost | Loading | Sending(last: u32) | SettingFlag | Finished

  datatype PingAt = Registering | SendingPing | Awaiting | Left

  /** A `ping` call, and how often its waiter has been resolved. */
  datatype Pinger = Pinger(id: u32, at: PingAt, resolved: nat)

  /**
   * Histories: frames received, frames sent to workers, replies the reader enqueued, replies lost with the write
   * task.
   */
  datatype Log = Log(inbound: seq<Frame>, routed: seq<Frame>, replies: seq<Frame>, lost: seq<Frame>)

  /**
   * Stream objects are numbered in the order of registration. For object o: ids[o] is its stream id, rxs[o] its
   * receive half, routed[o] the frames sent to its worker so far and handled[o] those the worker has acted on.
   * `starts` lists the objects whose handler was started. `carried` is the id the reader was carrying past the
   * gone_away check when a close call won its swap.
   */
  datatype State = State(
    table: map<u32, nat>, ids: seq<u32>, rxs: seq<Rx>, lastId: u32, goneAway: bool, closeFlag: bool,
    nextPing: u32, pingMap: map<u32, nat>, pingers: seq<Pinger>,
    closers: seq<Closer>, carried: Option<u32>,
    out: Outbox, reader: Reader, queues: seq<seq<Msg>>, workers: seq<Worker>,
    routed: seq<seq<Frame>>, handled: seq<seq<Frame>>, starts: seq<nat>, log: Log)

  const INITIAL := State(
    map[], [], [], 0, false, false, 2, map[], [], [], None,
    Outbox([], None, true, [], []), Booting, [[], [], [], [], []], [Resting, Resting, Resting, Resting, Resting],
    [], [], [], Log([], [], [], []))

  // ---------------------------------------------------------------------------
  // Steps
  // ---------------------------------------------------------------------------

  datatype Action =
    | Boot | Arrives(frame: Frame) | ReadFails | ReaderMoves | SweepOne(obj: nat)
    | WorkerTakes(w: nat) | WorkerMoves(w: nat)
    | WriterTakes | WriterWrites | WriterFails
    | CallClose | CloserMoves(c: nat)
    | CallPing | PingerMoves(p: nat) | PingerTimesOut(p: nat)
    | HandlerSends(obj: nat, frame: Frame) | HandlerReads(obj: nat, step: ReadStep)

  /** A send completes when there is room, or at once, without effect, when the write task is gone. */
  predicate CanSend(o: Outbox) {
    o.alive ==> |o.queue| < WRITE_QUEUE
  }

  function Send(o: Outbox, f: Frame): Outbox {
    if o.alive then o.(queue := o.queue + [f], enqueued := o.enqueued + [f]) else o
  }

  function WorkerOf(id: u32): nat {
    id % N_WORKERS
  }

  predicate IsRoutable(f: Frame) {
    f.Data? || f.SynReply? || f.RstStream? || f.Headers?
  }

  predicate HasStreamId(f: Frame) {
    f.SynStream? || IsRoutable(f)
  }

  /** The table lock is held across steps only by the reader. */
  predicate TableFree(s: State) {
    !s.reader.ReplyingLocked? && !s.reader.Sweeping?
  }

  predicate HasRoom(s: State, id: u32) {
    WorkerOf(id) < |s.queues| && |s.queues[WorkerOf(id)]| < WORKER_QUEUE
  }

  predicate ReaderCanMove(s: State) {
    match s.reader
    case Booting => false
    case AtRead => false
    case Ended => false
    case Sweeping(todo) => todo == {}
    case Replying(_) => CanSend(s.out)
    case ReplyingLocked(_) => CanSend(s.out)
    case RoutingSyn(syn, obj) => syn.SynStream? && HasRoom(s, syn.streamId) && obj < |s.routed|
    case Routing(f, obj) => IsRoutable(f) && HasRoom(s, f.streamId) && obj < |s.routed|
    case LookingUp(f) => IsRoutable(f)
    case CheckingLast(syn) => syn.SynStream?
    case CheckingGone(syn) => syn.SynStream?
    case Inserting(syn) => syn.SynStream?
    case StoringLast(syn, _) => syn.SynStream?
    case _ => true
  }

  predicate WorkerCanMove(s: State, w: nat) {
    w < |s.workers| &&
    match s.workers[w]
    case Resting => false
    case Handling(m) => m.obj < |s.rxs| && m.obj < |s.handled|
    case Closing(obj) => obj < |s.rxs|
    case Removing(obj) => obj < |s.ids| && TableFree(s)
  }

  predicate IsHandlerFrame(s: State, obj: nat, f: Frame) {
    obj < |s.ids| && (f.SynReply? || f.Data? || f.RstStream?) && f.streamId == s.ids[obj]
  }

  predicate CloserCanMove(s: State, c: nat) {
    c < |s.closers| && !s.closers[c].Lost? && !s.closers[c].Finished? && (s.closers[c].Sending? ==> CanSend(s.out))
  }

  /** The ping map holds this caller's waiter. */
  predicate InMap(s: State, p: nat) {
    p < |s.pingers| && s.pingers[p].id in s.pingMap && s.pingMap[s.pingers[p].id] == p
  }

  /** A wait ends when the waiter has left the map: it was resolved, or dropped because another one took its place. */
  predicate PingerCanMove(s: State, p: nat) {
    p < |s.pingers| &&
    match s.pingers[p].at
    case Registering => true
    case SendingPing => CanSend(s.out)
    case Awaiting => !InMap(s, p)
    case Left => false
  }

  predicate Can(s: State, a: Action) {
    match a
    case Boot => s.reader.Booting? && CanSend(s.out)
    case Arrives(f) => s.reader.AtRead? && IsDecoded(f)
    case ReadFails => s.reader.AtRead?
    case ReaderMoves => ReaderCanMove(s)
    case SweepOne(obj) => s.reader.Sweeping? && obj in s.reader.todo && obj < |s.rxs|
    case WorkerTakes(w) => w < |s.queues| && w < |s.workers| && s.workers[w].Resting? && s.queues[w] != []
    case WorkerMoves(w) => WorkerCanMove(s, w)
    case WriterTakes => s.out.alive && s.out.hand.None? && s.out.queue != []
    case WriterWrites => s.out.alive && s.out.hand.Some?
    case WriterFails => s.out.alive && s.out.hand.Some?
    case CallClose => !s.reader.Booting?
    case CloserMoves(c) => CloserCanMove(s, c)
    case CallPing => !s.reader.Booting?
    case PingerMoves(p) => PingerCanMove(s, p)
    case PingerTimesOut(p) => p < |s.pingers| && s.pingers[p].at.Awaiting?
    case HandlerSends(obj, f) => obj in s.starts && IsHandlerFrame(s, obj, f) && CanSend(s.out)
    case HandlerReads(obj, step) => obj in s.starts && obj < |s.rxs| && CanRead(s.rxs[obj], step)
  }

  /** What the decoder can deliver: ids and deltas are masked. */
  predicate IsDecoded(f: Frame) {
    && (HasStreamId(f) || f.WindowUpdate? ==> f.streamId < 0x8000_0000)
    && (f.GoAway? ==> f.lastGoodStreamId < 0x8000_0000)
  }

  function Dispatch(s: State, f: Frame): State {
    var t := s.(log := s.log.(inbound := s.log.inbound + [f]));
    match f
    case SynStream(id, _, _, _, _) =>
      if id == 0 || id % 2 == 0 then t.(reader := Replying(RstStream(id, ProtocolError)))
        else t.(reader := CheckingLast(f))
    case Data(_, _, _) => t.(reader := LookingUp(f))
    case SynReply(_, _, _) => t.(reader := LookingUp(f))
    case RstStream(_, _) => t.(reader := LookingUp(f))
    case Headers(_, _, _) => t.(reader := LookingUp(f))
    case Ping(id) => t.(reader := if id % 2 == 1 then Replying(f) else Resolving(id))
    case GoAway(_, _) => t.(reader := StoringGone)
    case Settings(_, _) => t
    case WindowUpdate(_, _) => t
  }

  /** The reader's send of a reply completes. */
  function Reply(s: State, f: Frame): State {
    s.(reader := AtRead, out := Send(s.out, f),
       log := if s.out.alive then s.log.(replies := s.log.replies + [f]) else s.log.(lost := s.log.lost + [f]))
  }

  /** The stream is registered: a new object, entered in the table. */
  function Register(s: State, syn: Frame): State
    requires syn.SynStream?
  {
    var obj := |s.ids|;
    s.(table := s.table[syn.streamId := obj], ids := s.ids + [syn.streamId], rxs := s.rxs + [NewRx()],
       routed := s.routed + [[]], handled := s.handled + [[]], reader := StoringLast(syn, obj))
  }

  function Route(s: State, f: Frame, obj: nat): State
    requires HasStreamId(f) && HasRoom(s, f.streamId) && obj < |s.routed|
  {
    var w := WorkerOf(f.streamId);
    s.(queues := s.queues[w := s.queues[w] + [Msg(f, obj)]], routed := s.routed[obj := s.routed[obj] + [f]],
       log := s.log.(routed := s.log.routed + [f]), reader := AtRead)
  }

  function Resolve(s: State, id: u32): State {
    if id in s.pingMap && s.pingMap[id] < |s.pingers| then
      var p := s.pingMap[id];
      s.(pingMap := s.pingMap - {id}, pingers := s.pingers[p := s.pingers[p].(resolved := s.pingers[p].resolved + 1)],
         reader := AtRead)
    else s.(reader := AtRead)
  }

  function MoveReader(s: State): State
    requires ReaderCanMove(s)
  {
    match s.reader
    case CheckingLast(syn) =>
      if syn.streamId <= s.lastId then s.(reader := Replying(RstStream(syn.streamId, ProtocolError)))
      else s.(reader := CheckingGone(syn))
    case CheckingGone(syn) =>
      if s.goneAway then s.(reader := Replying(RstStream(syn.streamId, RefusedStream)))
        else s.(reader := Inserting(syn))
    case Inserting(syn) =>
      if syn.streamId in s.table then s.(reader := ReplyingLocked(RstStream(syn.streamId, StreamInUse)))
      else Register(s, syn)
    case StoringLast(syn, obj) => s.(lastId := syn.streamId, reader := RoutingSyn(syn, obj))
    case RoutingSyn(syn, obj) => Route(s, syn, obj)
    case Replying(f) => Reply(s, f)
    case ReplyingLocked(f) => Reply(s, f)
    case LookingUp(f) =>
      if f.streamId in s.table then s.(reader := Routing(f, s.table[f.streamId]))
      else if f.Data? then s.(reader := Replying(RstStream(f.streamId, InvalidStream)))
      else s.(reader := AtRead)
    case Routing(f, obj) => Route(s, f, obj)
    case Resolving(id) => Resolve(s, id)
    case StoringGone => s.(goneAway := true, reader := FlaggingGone)
    case FlaggingGone => s.(closeFlag := true, reader := SweepStarting)
    case SweepStarting => s.(reader := Sweeping(s.table.Values))
    case Sweeping(_) => s.(reader := Flagging)
    case Flagging => s.(closeFlag := true, reader := Ended)
    case _ => s
  }

  function SetRx(s: State, obj: nat, rx: Rx): State
    requires obj < |s.rxs|
  {
    s.(rxs := s.rxs[obj := rx])
  }

  function SetWorker(s: State, w: nat, at: Worker): State
    requires w < |s.workers|
  {
    s.(workers := s.workers[w := at])
  }

  /** The worker acts on the message it has taken. */
  function Handle(s: State, w: nat, m: Msg): State
    requires w < |s.workers| && m.obj < |s.rxs| && m.obj < |s.handled|
  {
    var t := s.(handled := s.handled[m.obj := s.handled[m.obj] + [m.frame]]);
    match m.frame
    case SynStream(_, _, _, _, _) => SetWorker(t, w, Resting).(starts := s.starts + [m.obj])
    case Data(_, flags, data) =>
      SetWorker(SetRx(t, m.obj, Push(s.rxs[m.obj], data)), w, if HasFin(flags) then Closing(m.obj) else Resting)
    case RstStream(_, _) => SetWorker(SetRx(t, m.obj, Close(s.rxs[m.obj])), w, Removing(m.obj))
    case SynReply(_, _, flags) => SetWorker(t, w, if HasFin(flags) then Closing(m.obj) else Resting)
    case Headers(_, _, flags) => SetWorker(t, w, if HasFin(flags) then Closing(m.obj) else Resting)
    case _ => SetWorker(t, w, Resting)
  }

  function MoveWorker(s: State, w: nat): State
    requires WorkerCanMove(s, w)
  {
    match s.workers[w]
    case Handling(m) => Handle(s, w, m)
    case Closing(obj) => SetWorker(SetRx(s, obj, Close(s.rxs[obj])), w, Resting)
    case Removing(obj) => SetWorker(s.(table := s.table - {s.ids[obj]}), w, Resting)
    case Resting => s
  }

  /** The id the reader carries past the gone_away check but has not yet stored as the last one. */
  function CarriedId(r: Reader): Option<u32> {
    match r
    case Inserting(syn) => if syn.SynStream? then Some(syn.streamId) else None
    case StoringLast(syn, _) => if syn.SynStream? then Some(syn.streamId) else None
    case _ => None
  }

  function SetCloser(s: State, c: nat, at: Closer): State
    requires c < |s.closers|
  {
    s.(closers := s.closers[c := at])
  }

  function MoveCloser(s: State, c: nat): State
    requires c < |s.closers|
  {
    match s.closers[c]
    case Loading => SetCloser(s, c, Sending(s.lastId))
    case Sending(last) => SetCloser(s.(out := Send(s.out, GoAway(last, GoAwayOk))), c, SettingFlag)
    case SettingFlag => SetCloser(s.(closeFlag := true), c, Finished)
    case _ => s
  }

  function SetPinger(s: State, p: nat, at: PingAt): State
    requires p < |s.pingers|
  {
    s.(pingers := s.pingers[p := s.pingers[p].(at := at)])
  }

  function MovePinger(s: State, p: nat): State
    requires p < |s.pingers|
  {
    var id := s.pingers[p].id;
    match s.pingers[p].at
    case Registering => SetPinger(s.(pingMap := s.pingMap[id := p]), p, SendingPing)
    case SendingPing =>
      if s.out.alive then SetPinger(s.(out := Send(s.out, Ping(id))), p, Awaiting) else SetPinger(s, p, Left)
    case Awaiting => SetPinger(s, p, Left)
    case Left => s
  }

  function Step(s: State, a: Action): State
    requires Can(s, a)
  {
    match a
    case Boot => s.(reader := AtRead, out := Send(s.out, InitialSettings()))
    case Arrives(f) => Dispatch(s, f)
    case ReadFails => s.(reader := SweepStarting)
    case ReaderMoves => MoveReader(s)
    case SweepOne(obj) => SetRx(s, obj, Close(s.rxs[obj])).(reader := Sweeping(s.reader.todo - {obj}))
    case WorkerTakes(w) => SetWorker(s.(queues := s.queues[w := s.queues[w][1..]]), w, Handling(s.queues[w][0]))
    case WorkerMoves(w) => MoveWorker(s, w)
    case WriterTakes => s.(out := s.out.(queue := s.out.queue[1..], hand := Some(s.out.queue[0])))
    case WriterWrites => s.(out := s.out.(hand := None, written := s.out.written + [s.out.hand.value]))
    case WriterFails => s.(out := s.out.(hand := None, alive := false, queue := []))
    case CallClose =>
      if s.goneAway then s.(closers := s.closers + [Lost])
      else s.(goneAway := true, closers := s.closers + [Loading], carried := CarriedId(s.reader))
    case CloserMoves(c) => MoveCloser(s, c)
    case CallPing =>
      s.(nextPing := (s.nextPing + 2) % 0x1_0000_0000, pingers := s.pingers + [Pinger(s.nextPing, Registering, 0)])
    case PingerMoves(p) => MovePinger(s, p)
    case PingerTimesOut(p) => SetPinger(s, p, Left)
    case HandlerSends(_, f) => s.(out := Send(s.out, f))
    case HandlerReads(obj, step) => SetRx(s, obj, Read(s.rxs[obj], step).0)
  }

  // ---------------------------------------------------------------------------
  // Runs
  // ---------------------------------------------------------------------------

  function Run(acts: seq<Action>): Option<State> {
    if acts == [] then Some(INITIAL)
    else match Run(acts[..|acts| - 1])
      case None => None
      case Some(s) => if Can(s, acts[|acts| - 1]) then Some(Step(s, acts[|acts| - 1])) else None
  }

  ghost predicate Reachable(s: State) {
    exists acts :: Run(acts) == Some(s)
  }

  lemma ReachStep(s: State, a: Action)
    requires Reachable(s) && Can(s, a)
    ensures Reachable(Step(s, a))
  {
    var acts :| Run(acts) == Some(s);
    assert (acts + [a])[..|acts|] == acts;
    assert Run(acts + [a]) == Some(Step(s, a));
  }
}
