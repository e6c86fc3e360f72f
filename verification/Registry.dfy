/** Which ids are accepted, what the stream table and the messages in flight refer to, and who can hold the lock. */
module Registry {
  import opened Octets
  import opened Frame
  import opened Receive
  import opened Connection
  import opened Frames

  ghost predicate Shape(s: State) {
    && |s.queues| == N_WORKERS && |s.workers| == N_WORKERS
    && |s.rxs| == |s.ids| && |s.routed| == |s.ids| && |s.handled| == |s.ids|
  }

  /** Accepted ids are odd, below 2^31 and strictly increasing. */
  ghost predicate Accepted(ids: seq<u32>) {
    && (forall o :: 0 <= o < |ids| ==> ids[o] % 2 == 1 && ids[o] < 0x8000_0000)
    && (forall o, p :: 0 <= o < p < |ids| ==> ids[o] < ids[p])
  }

  /** The last id is the newest one, except between the insert and the store. */
  ghost predicate LastInv(s: State) {
    if s.reader.StoringLast? then
      && |s.ids| > 0 && s.lastId < s.ids[|s.ids| - 1]
      && s.lastId == NewestOf(s.ids[..|s.ids| - 1])
    else s.lastId == NewestOf(s.ids)
  }

  function NewestOf(ids: seq<u32>): u32 {
    if ids == [] then 0 else ids[|ids| - 1]
  }

  ghost predicate TableInv(s: State) {
    forall id :: id in s.table ==> s.table[id] < |s.ids| && s.ids[s.table[id]] == id
  }

  /** A frame the reader or a worker holds together with a stream object belongs to that object. */
  predicate Fits(ids: seq<u32>, f: Frame, obj: nat) {
    obj < |ids| && HasStreamId(f) && f.streamId == ids[obj]
  }

  ghost predicate ReaderInv(s: State) {
    match s.reader
    case CheckingLast(syn) => NewSyn(syn)
    case CheckingGone(syn) => NewSyn(syn) && syn.streamId > s.lastId
    case Inserting(syn) => NewSyn(syn) && syn.streamId > s.lastId
    case StoringLast(syn, obj) => syn.SynStream? && Fits(s.ids, syn, obj) && obj == |s.ids| - 1
    case RoutingSyn(syn, obj) => syn.SynStream? && Fits(s.ids, syn, obj) && obj == |s.ids| - 1
    case Replying(f) => IsReply(f)
    case ReplyingLocked(_) => false
    case Resolving(id) => id % 2 == 0
    case LookingUp(f) => IsRoutable(f) && f.streamId < 0x8000_0000
    case Routing(f, obj) => IsRoutable(f) && Fits(s.ids, f, obj)
    case Sweeping(todo) => forall o :: o in todo ==> o < |s.ids|
    case _ => true
  }

  /** What the reader sends of its own accord: a RST for a 31-bit id, or the echo of an odd ping. */
  predicate IsReply(f: Frame) {
    (f.RstStream? && f.streamId < 0x8000_0000) || (f.Ping? && f.id % 2 == 1)
  }

  predicate NewSyn(f: Frame) {
    f.SynStream? && f.streamId % 2 == 1 && f.streamId < 0x8000_0000
  }

  predicate MsgOk(ids: seq<u32>, w: nat, m: Msg) {
    Fits(ids, m.frame, m.obj) && w == WorkerOf(ids[m.obj])
  }

  predicate WorkerOk(ids: seq<u32>, w: nat, at: Worker) {
    match at
    case Resting => true
    case Handling(m) => MsgOk(ids, w, m)
    case Closing(obj) => obj < |ids| && w == WorkerOf(ids[obj])
    case Removing(obj) => obj < |ids| && w == WorkerOf(ids[obj])
  }

  ghost predicate WorkersInv(s: State) {
    forall w :: 0 <= w < |s.workers| ==> WorkerOk(s.ids, w, s.workers[w])
  }

  ghost predicate QueuesInv(s: State) {
    forall w, i :: 0 <= w < |s.queues| && 0 <= i < |s.queues[w]| ==> MsgOk(s.ids, w, s.queues[w][i])
  }

  ghost predicate BaseInv(s: State) {
    && Shape(s) && Accepted(s.ids) && LastInv(s) && TableInv(s) && ReaderInv(s) && WorkersInv(s) && QueuesInv(s)
  }

  // ---------------------------------------------------------------------------
  // Preservation
  // ---------------------------------------------------------------------------

  lemma IdsKept(s: State, a: Action)
    requires BaseInv(s) && Can(s, a)
    ensures Accepted(Step(s, a).ids) && LastInv(Step(s, a))
  {
    hide Step, MoveReader, Dispatch, Can, TableInv, WorkersInv, QueuesInv;
    StreamsFrame(s, a);
    TasksFrame(s, a);
    StepIs(s, a);
    if a.ReaderMoves? {
      ReaderMoveKeepsIds(s);
    } else if ReaderActs(a) {
      OtherReaderSteps(s, a);
    }
  }

  /** A step of the read loop other than its own moves never leaves it between insert and store. */
  lemma OtherReaderSteps(s: State, a: Action)
    requires Can(s, a) && ReaderActs(a) && !a.ReaderMoves?
    ensures !s.reader.StoringLast? && !Step(s, a).reader.StoringLast?
    ensures !s.reader.Inserting? && !Step(s, a).reader.Inserting?
  {
  }

  lemma ReaderMoveKeepsIds(s: State)
    requires BaseInv(s) && ReaderCanMove(s)
    ensures Accepted(MoveReader(s).ids) && LastInv(MoveReader(s))
  {
    hide MoveReader, ReaderCanMove, TableInv, WorkersInv, QueuesInv, Shape;
    if s.reader.Inserting? {
      InsertAppends(s);
      NewestBounds(s.ids);
      assert (s.ids + [s.reader.syn.streamId])[..|s.ids|] == s.ids;
    } else {
      ReaderKeeps(s);
      if s.reader.StoringLast? { StoresNewest(s); }
    }
  }

  lemma StoresNewest(s: State)
    requires BaseInv(s) && s.reader.StoringLast?
    ensures MoveReader(s).ids == s.ids && MoveReader(s).lastId == NewestOf(s.ids) && MoveReader(s).reader.RoutingSyn?
  {
  }

  lemma NewestBounds(ids: seq<u32>)
    requires Accepted(ids)
    ensures forall o :: 0 <= o < |ids| ==> ids[o] <= NewestOf(ids)
  {
  }

  /** The table never has the id of a stream that is about to be inserted. */
  lemma InsertIsNew(s: State)
    requires BaseInv(s) && s.reader.Inserting?
    ensures s.reader.syn.streamId !in s.table
  {
    NewestBounds(s.ids);
  }

  lemma ShapeKept(s: State, a: Action)
    requires BaseInv(s) && Can(s, a)
    ensures Shape(Step(s, a))
  {
    hide Step, MoveReader, MoveWorker, Can, Accepted, LastInv, TableInv, WorkersInv, QueuesInv, ReaderInv;
    StreamsFrame(s, a);
    TasksFrame(s, a);
    StepIs(s, a);
    if a.ReaderMoves? {
      ReaderFrame(s);
      ReaderKeeps(s);
    } else if a.WorkerMoves? {
      WorkerAfter(s, a.w);
    }
  }

  lemma TableKept(s: State, a: Action)
    requires BaseInv(s) && Can(s, a)
    ensures TableInv(Step(s, a))
  {
    hide Step, MoveReader, MoveWorker, Can, ReaderInv, WorkersInv, QueuesInv, Accepted, LastInv;
    StreamsFrame(s, a);
    TasksFrame(s, a);
    StepIs(s, a);
    if a.ReaderMoves? {
      ReaderKeeps(s);
      ReaderFrame(s);
    } else if a.WorkerMoves? {
      WorkerFrame(s, a.w);
      if s.workers[a.w].Removing? { RemoveFrame(s, a.w); }
    }
  }

  lemma RemoveFrame(s: State, w: nat)
    requires WorkerCanMove(s, w) && s.workers[w].Removing?
    ensures MoveWorker(s, w).table == s.table - {s.ids[s.workers[w].obj]}
  {
  }

  lemma ReaderKept(s: State, a: Action)
    requires BaseInv(s) && Can(s, a)
    ensures ReaderInv(Step(s, a))
  {
    hide Step, MoveReader, Can, WorkersInv, QueuesInv, Accepted, LastInv, TableInv;
    StreamsFrame(s, a);
    TasksFrame(s, a);
    StepIs(s, a);
    if a.ReaderMoves? {
      ReaderMoveKeepsReader(s);
    } else if ReaderActs(a) {
      OtherStepKeepsReader(s, a);
    }
  }

  lemma OtherStepKeepsReader(s: State, a: Action)
    requires BaseInv(s) && Can(s, a) && ReaderActs(a) && !a.ReaderMoves?
    ensures ReaderInv(Step(s, a))
  {
    hide Step, Can, WorkersInv, QueuesInv, Accepted, LastInv, TableInv, Dispatch;
    StepIs(s, a);
    if a.Arrives? {
      DispatchFrame(s, a.frame);
      DispatchReader(s, a.frame);
    }
  }

  lemma DispatchReader(s: State, f: Frame)
    requires IsDecoded(f)
    ensures var r := Dispatch(s, f).reader;
      || r == s.reader
      || (r.Replying? && IsReply(r.reply))
      || (r == CheckingLast(f) && NewSyn(f))
      || (r == LookingUp(f) && IsRoutable(f) && f.streamId < 0x8000_0000)
      || (r.Resolving? && r.id % 2 == 0) || r.StoringGone?
  {
  }

  lemma ReaderMoveKeepsReader(s: State)
    requires BaseInv(s) && ReaderCanMove(s)
    ensures ReaderInv(MoveReader(s))
  {
    hide MoveReader, WorkersInv, QueuesInv, Accepted, LastInv, Shape;
    ReaderGoesTo(s);
    if s.reader.Inserting? {
      InsertIsNew(s);
      InsertAppends(s);
    } else {
      ReaderKeeps(s);
    }
    if s.reader.SweepStarting? {
      forall o | o in s.table.Values ensures o < |s.ids| {
        var id :| id in s.table && s.table[id] == o;
      }
    }
  }

  lemma InsertAppends(s: State)
    requires BaseInv(s) && s.reader.Inserting?
    ensures MoveReader(s).ids == s.ids + [s.reader.syn.streamId] && MoveReader(s).lastId == s.lastId
    ensures MoveReader(s).reader == StoringLast(s.reader.syn, |s.ids|)
  {
    InsertIsNew(s);
  }

  lemma WorkersKept(s: State, a: Action)
    requires BaseInv(s) && Can(s, a)
    ensures WorkersInv(Step(s, a))
  {
    hide Step, MoveReader, MoveWorker, Can, TableInv, Accepted, LastInv;
    var t := Step(s, a);
    StreamsFrame(s, a);
    TasksFrame(s, a);
    StepIs(s, a);
    if a.ReaderMoves? {
      ReaderKeeps(s);
      ReaderFrame(s);
    } else if a.WorkerTakes? {
      TakeMessage(s, a);
    } else if a.WorkerMoves? {
      WorkerAfter(s, a.w);
    }
    forall w | 0 <= w < |t.workers| ensures WorkerOk(t.ids, w, t.workers[w]) {
      assert WorkerOk(s.ids, w, s.workers[w]);
    }
  }

  lemma TakeMessage(s: State, a: Action)
    requires BaseInv(s) && Can(s, a) && a.WorkerTakes?
    ensures Step(s, a).workers == s.workers[a.w := Handling(s.queues[a.w][0])]
    ensures Step(s, a).queues == s.queues[a.w := s.queues[a.w][1..]]
    ensures MsgOk(s.ids, a.w, s.queues[a.w][0])
  {
  }

  /** A worker only changes its own state, to one about the same object. */
  lemma WorkerAfter(s: State, w: nat)
    requires WorkerCanMove(s, w)
    ensures var t := MoveWorker(s, w);
      && |t.rxs| == |s.rxs| && |t.handled| == |s.handled|
      && exists at :: t.workers == s.workers[w := at] && NextWorker(s.workers[w], at)
  {
    hide Handle, Close;
    match s.workers[w]
    case Handling(m) => HandleAfter(s, w, m);
    case Closing(_) => assert NextWorker(s.workers[w], Resting);
    case Removing(_) => assert NextWorker(s.workers[w], Resting);
  }

  predicate NextWorker(before: Worker, after: Worker) {
    match after
    case Resting => true
    case Handling(_) => false
    case Closing(obj) => before.Handling? && before.msg.obj == obj
    case Removing(obj) => before.Handling? && before.msg.obj == obj
  }

  lemma HandleAfter(s: State, w: nat, m: Msg)
    requires w < |s.workers| && s.workers[w] == Handling(m) && m.obj < |s.rxs| && m.obj < |s.handled|
    ensures var t := Handle(s, w, m);
      && |t.rxs| == |s.rxs| && |t.handled| == |s.handled|
      && exists at :: t.workers == s.workers[w := at] && NextWorker(s.workers[w], at)
  {
    hide Push, Close;
    assert NextWorker(s.workers[w], Resting);
    assert NextWorker(s.workers[w], Closing(m.obj));
    assert NextWorker(s.workers[w], Removing(m.obj));
    match m.frame
    case Data(_, flags, _) =>
    case SynReply(_, _, flags) =>
    case Headers(_, _, flags) =>
    case _ =>
  }

  lemma RouteQueues(s: State, f: Frame, obj: nat)
    requires HasStreamId(f) && HasRoom(s, f.streamId) && obj < |s.routed|
    ensures var w := WorkerOf(f.streamId); var t := Route(s, f, obj);
      t.queues == s.queues[w := s.queues[w] + [Msg(f, obj)]] && t.routed == s.routed[obj := s.routed[obj] + [f]]
  {
  }

  lemma QueuesKept(s: State, a: Action)
    requires BaseInv(s) && Can(s, a)
    ensures QueuesInv(Step(s, a))
  {
    hide Step, MoveReader, MoveWorker, Can, TableInv, Accepted, LastInv, WorkersInv;
    var t := Step(s, a);
    StreamsFrame(s, a);
    TasksFrame(s, a);
    StepIs(s, a);
    if a.ReaderMoves? {
      ReaderKeeps(s);
      ReaderFrame(s);
      if s.reader.RoutingSyn? { RouteQueues(s, s.reader.syn, s.reader.obj); }
      if s.reader.Routing? { RouteQueues(s, s.reader.frame, s.reader.obj); }
    } else if a.WorkerTakes? {
      TakeMessage(s, a);
    }
    forall w, i | 0 <= w < |t.queues| && 0 <= i < |t.queues[w]| ensures MsgOk(t.ids, w, t.queues[w][i]) {
      var j := if a.WorkerTakes? && w == a.w then i + 1 else i;
      if j < |s.queues[w]| {
        assert MsgOk(s.ids, w, s.queues[w][j]);
        assert s.queues[w][j] == t.queues[w][i];
      }
    }
  }

  lemma BaseKept(s: State, a: Action)
    requires BaseInv(s) && Can(s, a)
    ensures BaseInv(Step(s, a))
  {
    hide Step, Can, Shape, Accepted, LastInv, TableInv, ReaderInv, WorkersInv, QueuesInv;
    ShapeKept(s, a);
    IdsKept(s, a);
    TableKept(s, a);
    ReaderKept(s, a);
    WorkersKept(s, a);
    QueuesKept(s, a);
  }

  lemma InitialBase()
    ensures BaseInv(INITIAL)
  {
  }

  lemma {:induction false} RunBase(acts: seq<Action>)
    requires Run(acts).Some?
    ensures BaseInv(Run(acts).value)
    decreases |acts|
  {
    if acts != [] {
      RunBase(acts[..|acts| - 1]);
      BaseKept(Run(acts[..|acts| - 1]).value, acts[|acts| - 1]);
    } else {
      InitialBase();
    }
  }

  lemma ReachableBase(s: State)
    requires Reachable(s)
    ensures BaseInv(s)
  {
    var acts :| Run(acts) == Some(s);
    RunBase(acts);
  }

  // ---------------------------------------------------------------------------
  // Results
  // ---------------------------------------------------------------------------

  /**
   * In every interleaving the accepted ids are odd, below 2^31 and strictly increasing; every table key is an accepted
   * id, at most the last one or the one in flight; and the StreamInUse reply, the one send made with the table
   * locked, is unreachable.
   */
  lemma AcceptedIds(s: State)
    requires Reachable(s)
    ensures forall o :: 0 <= o < |s.ids| ==> s.ids[o] % 2 == 1 && s.ids[o] < 0x8000_0000
    ensures forall o, p :: 0 <= o < p < |s.ids| ==> s.ids[o] < s.ids[p]
    ensures forall id :: id in s.table ==>
      id in s.ids && (id <= s.lastId || CarriedId(s.reader) == Some(id))
    ensures !s.reader.ReplyingLocked?
  {
    hide Shape, WorkersInv, QueuesInv;
    ReachableBase(s);
    forall id | id in s.table ensures id in s.ids && (id <= s.lastId || CarriedId(s.reader) == Some(id)) {
      KeyIsKnown(s, id);
    }
  }

  lemma KeyIsKnown(s: State, id: u32)
    requires BaseInv(s) && id in s.table
    ensures id in s.ids && (id <= s.lastId || CarriedId(s.reader) == Some(id))
  {
    hide Shape, WorkersInv, QueuesInv;
    var o := s.table[id];
    assert s.ids[o] == id;
    if s.reader.StoringLast? {
      var known := s.ids[..|s.ids| - 1];
      NewestBounds(known);
      if o < |known| { assert known[o] == id; }
    } else {
      NewestBounds(s.ids);
    }
  }

  /** A worker that removes a stream after its RST removes the very object it carries, or nothing. */
  lemma RemovesItsOwn(s: State, w: nat)
    requires Reachable(s) && w < |s.workers| && s.workers[w].Removing? && Can(s, WorkerMoves(w))
    ensures var obj := s.workers[w].obj; var t := Step(s, WorkerMoves(w));
      && obj < |s.ids| && t.table == s.table - {s.ids[obj]}
      && (s.ids[obj] in s.table ==> s.table[s.ids[obj]] == obj)
  {
    ReachableBase(s);
    var obj := s.workers[w].obj;
    if s.ids[obj] in s.table {
      SameIdSameObject(s.ids, obj, s.table[s.ids[obj]]);
    }
  }

  lemma SameIdSameObject(ids: seq<u32>, o: nat, p: nat)
    requires Accepted(ids) && o < |ids| && p < |ids| && ids[o] == ids[p]
    ensures o == p
  {
  }
}
