/** First in, first out from the reader through the worker queues to the streams, for every stream at once. */
module Routing {
  import opened Octets
  import opened Frame
  import opened Receive
  import opened Connection
  import opened Frames
  import opened Registry

  // ---------------------------------------------------------------------------
  // What is still on the way to one stream
  // ---------------------------------------------------------------------------

  /** The frames queued for one object, in queue order. */
  function FramesFor(q: seq<Msg>, o: nat): seq<Frame> {
    if q == [] then [] else (if q[0].obj == o then [q[0].frame] else []) + FramesFor(q[1..], o)
  }

  lemma {:induction false} FramesForAppend(q: seq<Msg>, m: Msg, o: nat)
    ensures FramesFor(q + [m], o) == FramesFor(q, o) + if m.obj == o then [m.frame] else []
    decreases |q|
  {
    if q != [] {
      assert (q + [m])[1..] == q[1..] + [m];
      FramesForAppend(q[1..], m, o);
    }
  }

  lemma {:induction false} NoFramesFor(q: seq<Msg>, o: nat)
    requires forall i :: 0 <= i < |q| ==> q[i].obj != o
    ensures FramesFor(q, o) == []
    decreases |q|
  {
    if q != [] {
      NoFramesFor(q[1..], o);
    }
  }

  function InHand(at: Worker, o: nat): seq<Frame> {
    if at.Handling? && at.msg.obj == o then [at.msg.frame] else []
  }

  /** Routed and not yet acted on: what the stream's worker has in hand, then what is queued for it. */
  function Pending(s: State, o: nat): seq<Frame>
    requires Shape(s) && o < |s.ids|
  {
    var w := WorkerOf(s.ids[o]);
    InHand(s.workers[w], o) + FramesFor(s.queues[w], o)
  }

  /** The payloads of the Data frames, in order. */
  function Payloads(fs: seq<Frame>): seq<Bytes> {
    if fs == [] then []
    else
      var f := fs[|fs| - 1];
      Payloads(fs[..|fs| - 1]) + if f.Data? then [f.data] else []
  }

  lemma {:induction false} PayloadsConcat(a: seq<Frame>, b: seq<Frame>)
    ensures Payloads(a + b) == Payloads(a) + Payloads(b)
    decreases |b|
  {
    if b == [] {
      assert a + b == a;
    } else {
      assert (a + b)[..|a + b| - 1] == a + b[..|b| - 1];
      PayloadsConcat(a, b[..|b| - 1]);
    }
  }

  // ---------------------------------------------------------------------------
  // Invariants
  // ---------------------------------------------------------------------------

  ghost predicate FifoInv(s: State)
    requires Shape(s)
  {
    forall o :: 0 <= o < |s.ids| ==> s.routed[o] == s.handled[o] + Pending(s, o)
  }

  /** A registered stream whose SYN_STREAM has not reached its worker's queue yet. */
  predicate AwaitsSyn(r: Connection.Reader, o: nat) {
    (r.StoringLast? || r.RoutingSyn?) && r.obj == o
  }

  ghost predicate SynFirst(fs: seq<Frame>) {
    fs != [] && fs[0].SynStream? && forall k :: 1 <= k < |fs| ==> !fs[k].SynStream?
  }

  ghost predicate SynInv(s: State)
    requires Shape(s)
  {
    forall o :: 0 <= o < |s.ids| ==> if AwaitsSyn(s.reader, o) then s.routed[o] == [] else SynFirst(s.routed[o])
  }

  ghost predicate StreamInv(rx: Rx, handled: seq<Frame>) {
    RxInv(rx) && rx.offered == Payloads(handled)
  }

  ghost predicate RxsInv(s: State)
    requires Shape(s)
  {
    forall o :: 0 <= o < |s.ids| ==> StreamInv(s.rxs[o], s.handled[o])
  }

  ghost predicate StartsInv(s: State)
    requires Shape(s)
  {
    && (forall k :: 0 <= k < |s.starts| ==> s.starts[k] < |s.ids|)
    && forall o :: 0 <= o < |s.ids| ==> multiset(s.starts)[o] == if s.handled[o] == [] then 0 else 1
  }

  ghost predicate RoutingInv(s: State) {
    BaseInv(s) && FifoInv(s) && SynInv(s) && RxsInv(s) && StartsInv(s)
  }

  // ---------------------------------------------------------------------------
  // What the relevant steps do
  // ---------------------------------------------------------------------------

  lemma HandleEffects(s: State, w: nat, m: Msg)
    requires w < |s.workers| && m.obj < |s.rxs| && m.obj < |s.handled|
    ensures var t := Handle(s, w, m);
      && t.handled == s.handled[m.obj := s.handled[m.obj] + [m.frame]]
      && t.starts == s.starts + (if m.frame.SynStream? then [m.obj] else [])
      && t.rxs == (if m.frame.Data? then s.rxs[m.obj := Push(s.rxs[m.obj], m.frame.data)]
                   else if m.frame.RstStream? then s.rxs[m.obj := Close(s.rxs[m.obj])]
                   else s.rxs)
      && |t.workers| == |s.workers|
      && (forall v :: 0 <= v < |s.workers| && v != w ==> t.workers[v] == s.workers[v])
      && !t.workers[w].Handling?
  {
    hide Push, Close;
    match m.frame
    case SynStream(_, _, _, _, _) =>
    case Data(_, flags, _) =>
    case SynReply(_, _, flags) =>
    case Headers(_, _, flags) =>
    case _ =>
  }

  lemma CloseEffects(s: State, w: nat)
    requires WorkerCanMove(s, w) && s.workers[w].Closing?
    ensures var t := MoveWorker(s, w);
      t.rxs == s.rxs[s.workers[w].obj := Close(s.rxs[s.workers[w].obj])] && t.workers == s.workers[w := Resting]
  {
    hide Close;
  }

  lemma RemoveEffects(s: State, w: nat)
    requires WorkerCanMove(s, w) && s.workers[w].Removing?
    ensures var t := MoveWorker(s, w); t.rxs == s.rxs && t.workers == s.workers[w := Resting]
  {
  }

  // ---------------------------------------------------------------------------
  // First in, first out
  // ---------------------------------------------------------------------------

  lemma FifoKept(s: State, a: Action)
    requires RoutingInv(s) && Can(s, a) && Shape(Step(s, a))
    ensures FifoInv(Step(s, a))
  {
    hide Step, Can, MoveReader, MoveWorker, SynInv, RxsInv, StartsInv, FramesFor, InHand, Accepted, LastInv, TableInv;
    StepIs(s, a);
    StreamsFrame(s, a);
    TasksFrame(s, a);
    if a.ReaderMoves? {
      ReaderFrame(s);
      ReaderKeeps(s);
      if s.reader.Inserting? {
        RegisterFifo(s);
      } else if s.reader.RoutingSyn? {
        RouteFifo(s, s.reader.syn, s.reader.obj);
      } else if s.reader.Routing? {
        RouteFifo(s, s.reader.frame, s.reader.obj);
      }
    } else if a.WorkerTakes? {
      TakeFifo(s, a);
    } else if a.WorkerMoves? {
      WorkerFrame(s, a.w);
      WorkerFifo(s, a.w);
    }
  }

  lemma RegisterFifo(s: State)
    requires RoutingInv(s) && s.reader.Inserting? && s.reader.syn.SynStream? && Shape(Register(s, s.reader.syn))
    ensures FifoInv(Register(s, s.reader.syn))
  {
    hide SynInv, RxsInv, StartsInv, FramesFor, Accepted, LastInv, TableInv;
    var t := Register(s, s.reader.syn);
    forall o | 0 <= o < |t.ids| ensures t.routed[o] == t.handled[o] + Pending(t, o) {
      var w := WorkerOf(t.ids[o]);
      if o == |s.ids| {
        forall i | 0 <= i < |s.queues[w]| ensures s.queues[w][i].obj != o { assert MsgOk(s.ids, w, s.queues[w][i]); }
        NoFramesFor(s.queues[w], o);
        assert WorkerOk(s.ids, w, s.workers[w]);
      } else {
        assert Pending(t, o) == Pending(s, o);
      }
    }
  }

  lemma RouteFifo(s: State, f: Frame, obj: nat)
    requires RoutingInv(s) && HasStreamId(f) && HasRoom(s, f.streamId) && Fits(s.ids, f, obj) && Shape(Route(s, f, obj))
    ensures FifoInv(Route(s, f, obj))
  {
    hide SynInv, RxsInv, StartsInv, FramesFor, Accepted, LastInv, TableInv, InHand;
    var t := Route(s, f, obj);
    RouteFrame(s, f, obj);
    RouteQueues(s, f, obj);
    hide Route;
    forall o | 0 <= o < |t.ids| ensures t.routed[o] == t.handled[o] + Pending(t, o) {
      var w := WorkerOf(s.ids[o]);
      FramesForAppend(s.queues[w], Msg(f, obj), o);
      var hand := InHand(s.workers[w], o);
      if o == obj {
        ConcatAssoc(hand, FramesFor(s.queues[w], o), [f]);
        ConcatAssoc(s.handled[o], Pending(s, o), [f]);
      } else {
        assert FramesFor(s.queues[w], o) + [] == FramesFor(s.queues[w], o);
        assert s.routed[o] == s.handled[o] + Pending(s, o);
      }
    }
  }

  lemma TakeFifo(s: State, a: Action)
    requires RoutingInv(s) && Can(s, a) && a.WorkerTakes? && Shape(Step(s, a))
    ensures FifoInv(Step(s, a))
  {
    hide Step, Can, SynInv, RxsInv, StartsInv, Accepted, LastInv, TableInv, ReaderInv;
    var t := Step(s, a);
    TakeMessage(s, a);
    StepIs(s, a);
    StreamsFrame(s, a);
    forall o | 0 <= o < |t.ids| ensures t.routed[o] == t.handled[o] + Pending(t, o) {
      assert s.routed[o] == s.handled[o] + Pending(s, o);
      if WorkerOf(s.ids[o]) == a.w {
        assert Pending(t, o) == Pending(s, o);
      }
    }
  }

  lemma WorkerFifo(s: State, w: nat)
    requires RoutingInv(s) && WorkerCanMove(s, w) && Shape(MoveWorker(s, w))
    requires var t := MoveWorker(s, w); t.ids == s.ids && t.routed == s.routed && t.queues == s.queues
    ensures FifoInv(MoveWorker(s, w))
  {
    hide SynInv, RxsInv, StartsInv, Accepted, LastInv, TableInv, ReaderInv, FramesFor, Handle;
    var t := MoveWorker(s, w);
    assert WorkerOk(s.ids, w, s.workers[w]);
    match s.workers[w]
    case Handling(m) =>
      HandleEffects(s, w, m);
      forall o | 0 <= o < |t.ids| ensures t.routed[o] == t.handled[o] + Pending(t, o) {
        assert s.routed[o] == s.handled[o] + Pending(s, o);
        if o == m.obj {
          assert Pending(s, o) == [m.frame] + Pending(t, o);
          ConcatAssoc(s.handled[o], [m.frame], Pending(t, o));
        } else {
          assert Pending(s, o) == Pending(t, o);
        }
      }
    case Closing(_) =>
      CloseEffects(s, w);
      RestingFifo(s, w, t);
    case Removing(_) =>
      RemoveEffects(s, w);
      RestingFifo(s, w, t);
    case Resting =>
  }

  lemma RestingFifo(s: State, w: nat, t: State)
    requires Shape(s) && FifoInv(s) && Shape(t) && w < |s.workers| && !s.workers[w].Handling?
    requires t.ids == s.ids && t.routed == s.routed && t.queues == s.queues && t.handled == s.handled
    requires t.workers == s.workers[w := Resting]
    ensures FifoInv(t)
  {
    hide FramesFor;
    forall o | 0 <= o < |t.ids| ensures t.routed[o] == t.handled[o] + Pending(t, o) {
      assert Pending(s, o) == Pending(t, o);
    }
  }

  // ---------------------------------------------------------------------------
  // SYN_STREAM first
  // ---------------------------------------------------------------------------

  lemma SynKept(s: State, a: Action)
    requires RoutingInv(s) && Can(s, a) && Shape(Step(s, a))
    ensures SynInv(Step(s, a))
  {
    hide Step, Can, MoveReader, MoveWorker, FifoInv, RxsInv, StartsInv, Accepted, LastInv, TableInv, WorkersInv,
      QueuesInv;
    StepIs(s, a);
    StreamsFrame(s, a);
    TasksFrame(s, a);
    var t := Step(s, a);
    if a.ReaderMoves? {
      ReaderSyn(s);
    } else if ReaderActs(a) {
      OtherReaderSteps(s, a);
      NotRoutingSyn(s, a);
    }
  }

  lemma NotRoutingSyn(s: State, a: Action)
    requires Can(s, a) && ReaderActs(a) && !a.ReaderMoves?
    ensures !s.reader.RoutingSyn? && !Step(s, a).reader.RoutingSyn?
  {
  }

  lemma ReaderSyn(s: State)
    requires RoutingInv(s) && ReaderCanMove(s) && Shape(MoveReader(s))
    ensures SynInv(MoveReader(s))
  {
    hide MoveReader, FifoInv, RxsInv, StartsInv, Accepted, LastInv, TableInv, WorkersInv, QueuesInv;
    ReaderFrame(s);
    ReaderKeeps(s);
    ReaderNext(s);
    var t := MoveReader(s);
    if s.reader.RoutingSyn? {
      RouteQueues(s, s.reader.syn, s.reader.obj);
    } else if s.reader.Routing? {
      RouteQueues(s, s.reader.frame, s.reader.obj);
    } else if s.reader.Inserting? {
      InsertIsNewSyn(s);
    }
    forall o | 0 <= o < |t.ids| ensures if AwaitsSyn(t.reader, o) then t.routed[o] == [] else SynFirst(t.routed[o]) {
      if o < |s.ids| { assert if AwaitsSyn(s.reader, o) then s.routed[o] == [] else SynFirst(s.routed[o]); }
    }
  }

  lemma InsertIsNewSyn(s: State)
    requires BaseInv(s) && s.reader.Inserting?
    ensures s.reader.syn.SynStream? && s.reader.syn.streamId !in s.table
  {
    InsertIsNew(s);
  }

  // ---------------------------------------------------------------------------
  // Streams and starts
  // ---------------------------------------------------------------------------

  lemma StreamPush(rx: Rx, handled: seq<Frame>, f: Frame)
    requires StreamInv(rx, handled)
    ensures f.Data? ==> StreamInv(Push(rx, f.data), handled + [f])
    ensures f.RstStream? ==> StreamInv(Close(rx), handled + [f])
    ensures !f.Data? && !f.RstStream? ==> StreamInv(rx, handled + [f])
  {
    hide RxInv, Push, Close;
    assert (handled + [f])[..|handled|] == handled;
    CloseInv(rx);
    if f.Data? { PushInv(rx, f.data); }
  }

  lemma RxsKept(s: State, a: Action)
    requires RoutingInv(s) && Can(s, a) && Shape(Step(s, a))
    ensures RxsInv(Step(s, a))
  {
    hide Step, Can, MoveReader, MoveWorker, FifoInv, SynInv, StartsInv, Accepted, LastInv, TableInv, WorkersInv,
      QueuesInv, StreamInv;
    StepIs(s, a);
    StreamsFrame(s, a);
    var t := Step(s, a);
    if a.ReaderMoves? {
      ReaderFrame(s);
      ReaderKeeps(s);
      if s.reader.Inserting? { RegisterRxs(s); }
    } else if a.WorkerMoves? {
      WorkerFrame(s, a.w);
      WorkerRxs(s, a.w);
    } else if a.SweepOne? {
      StreamClose(s.rxs[a.obj], s.handled[a.obj]);
    } else if a.HandlerReads? {
      StreamRead(s.rxs[a.obj], s.handled[a.obj], a.step);
    }
  }

  lemma StreamClose(rx: Rx, handled: seq<Frame>)
    requires StreamInv(rx, handled)
    ensures StreamInv(Close(rx), handled)
  {
    CloseInv(rx);
  }

  lemma StreamRead(rx: Rx, handled: seq<Frame>, step: ReadStep)
    requires StreamInv(rx, handled) && CanRead(rx, step)
    ensures StreamInv(Read(rx, step).0, handled)
  {
    ReadInv(rx, step);
  }

  lemma RegisterRxs(s: State)
    requires RoutingInv(s) && s.reader.Inserting? && s.reader.syn.SynStream? && Shape(Register(s, s.reader.syn))
    ensures RxsInv(Register(s, s.reader.syn))
  {
    NewRxInv();
    assert StreamInv(NewRx(), []);
  }

  lemma WorkerRxs(s: State, w: nat)
    requires RoutingInv(s) && WorkerCanMove(s, w) && Shape(MoveWorker(s, w)) && MoveWorker(s, w).ids == s.ids
    ensures RxsInv(MoveWorker(s, w))
  {
    hide FifoInv, SynInv, StartsInv, Accepted, LastInv, TableInv, QueuesInv, StreamInv, Push, Close, Handle, ReaderInv;
    var t := MoveWorker(s, w);
    assert WorkerOk(s.ids, w, s.workers[w]);
    match s.workers[w]
    case Handling(m) =>
      HandleEffects(s, w, m);
      StreamPush(s.rxs[m.obj], s.handled[m.obj], m.frame);
    case Closing(obj) =>
      CloseEffects(s, w);
      StreamClose(s.rxs[obj], s.handled[obj]);
    case Removing(_) => RemoveEffects(s, w);
    case Resting =>
  }

  lemma StartsKept(s: State, a: Action)
    requires RoutingInv(s) && Can(s, a) && Shape(Step(s, a))
    ensures StartsInv(Step(s, a))
  {
    hide Step, Can, MoveReader, MoveWorker, FifoInv, SynInv, RxsInv, Accepted, LastInv, TableInv, WorkersInv, QueuesInv;
    StepIs(s, a);
    StreamsFrame(s, a);
    TasksFrame(s, a);
    if a.ReaderMoves? {
      ReaderFrame(s);
      ReaderKeeps(s);
      if s.reader.Inserting? { RegisterStarts(s); }
    } else if a.WorkerMoves? {
      WorkerFrame(s, a.w);
      WorkerStarts(s, a.w);
    }
  }

  lemma RegisterStarts(s: State)
    requires RoutingInv(s) && s.reader.Inserting? && s.reader.syn.SynStream? && Shape(Register(s, s.reader.syn))
    ensures StartsInv(Register(s, s.reader.syn))
  {
    hide FifoInv, SynInv, RxsInv, Accepted, LastInv, TableInv, WorkersInv, QueuesInv;
    forall k | 0 <= k < |s.starts| ensures s.starts[k] != |s.ids| { assert s.starts[k] in s.starts; }
    assert |s.ids| !in s.starts;
  }

  /** What a worker is about to handle is the next frame routed to its stream. */
  lemma NextIsRouted(s: State, w: nat)
    requires RoutingInv(s) && w < |s.workers| && s.workers[w].Handling?
    ensures var m := s.workers[w].msg; var n := |s.handled[m.obj]|;
      m.obj < |s.ids| && n < |s.routed[m.obj]| && s.routed[m.obj][n] == m.frame
      && s.routed[m.obj][..n] == s.handled[m.obj]
  {
    hide SynInv, RxsInv, StartsInv, Accepted, LastInv, TableInv, QueuesInv, FramesFor, ReaderInv;
    assert WorkerOk(s.ids, w, s.workers[w]);
    var m := s.workers[w].msg;
    assert Pending(s, m.obj) == [m.frame] + FramesFor(s.queues[w], m.obj);
    assert s.routed[m.obj] == s.handled[m.obj] + Pending(s, m.obj);
  }

  lemma WorkerStarts(s: State, w: nat)
    requires RoutingInv(s) && WorkerCanMove(s, w) && Shape(MoveWorker(s, w)) && MoveWorker(s, w).ids == s.ids
    ensures StartsInv(MoveWorker(s, w))
  {
    hide FifoInv, RxsInv, Accepted, LastInv, TableInv, QueuesInv, Handle, ReaderInv;
    match s.workers[w]
    case Handling(m) =>
      HandleEffects(s, w, m);
      NextIsRouted(s, w);
      var routed := s.routed[m.obj];
      assert if AwaitsSyn(s.reader, m.obj) then routed == [] else SynFirst(routed);
      assert m.frame.SynStream? <==> s.handled[m.obj] == [];
      assert multiset(s.starts + [m.obj]) == multiset(s.starts) + multiset{m.obj};
    case _ =>
      WorkerFrame(s, w);
  }

  // ---------------------------------------------------------------------------
  // All runs
  // ---------------------------------------------------------------------------

  lemma RoutingKept(s: State, a: Action)
    requires RoutingInv(s) && Can(s, a)
    ensures RoutingInv(Step(s, a))
  {
    hide Step, Can, BaseInv, FifoInv, SynInv, RxsInv, StartsInv;
    BaseKept(s, a);
    BaseShape(s);
    BaseShape(Step(s, a));
    FifoKept(s, a);
    SynKept(s, a);
    RxsKept(s, a);
    StartsKept(s, a);
  }

  lemma BaseShape(s: State)
    requires BaseInv(s)
    ensures Shape(s)
  {
  }

  lemma {:induction false} RunRouting(acts: seq<Action>)
    requires Run(acts).Some?
    ensures RoutingInv(Run(acts).value)
    decreases |acts|
  {
    if acts != [] {
      hide RoutingInv, Step, Can;
      RunRouting(acts[..|acts| - 1]);
      RoutingKept(Run(acts[..|acts| - 1]).value, acts[|acts| - 1]);
    } else {
      RunBase(acts);
    }
  }

  lemma ReachableRouting(s: State)
    requires Reachable(s)
    ensures RoutingInv(s)
  {
    hide RoutingInv;
    var acts :| Run(acts) == Some(s);
    RunRouting(acts);
  }

  // ---------------------------------------------------------------------------
  // Results
  // ---------------------------------------------------------------------------

  /**
   * Per-stream order, in every interleaving of the reader and the five workers: the payloads routed for a stream are
   * those pushed into it so far followed by those its own worker has in hand or queued; and the chunks its reader has
   * taken, followed by those buffered, are the pushed ones that found room, in order and each once.
   */
  lemma PerStreamOrder(s: State, o: nat)
    requires Reachable(s) && o < |s.ids|
    ensures Shape(s)
    ensures Payloads(s.routed[o]) == s.rxs[o].offered + Payloads(Pending(s, o))
    ensures |s.rxs[o].offered| == |s.rxs[o].kept|
    ensures s.rxs[o].taken + s.rxs[o].buffer == Selected(s.rxs[o].offered, s.rxs[o].kept)
    ensures Payloads(s.routed[o]) == s.rxs[o].taken + s.rxs[o].buffer + Payloads(Pending(s, o)) <==>
      NoneDropped(s.rxs[o].kept)
  {
    hide SynInv, StartsInv, BaseInv, Pending, Payloads, Selected;
    ReachableRouting(s);
    BaseShape(s);
    assert StreamInv(s.rxs[o], s.handled[o]);
    assert s.routed[o] == s.handled[o] + Pending(s, o);
    PayloadsConcat(s.handled[o], Pending(s, o));
    AllKeptExactly(s.rxs[o].offered, s.rxs[o].kept);
    SameLength(s.rxs[o].offered, s.rxs[o].taken + s.rxs[o].buffer, Payloads(Pending(s, o)));
  }

  lemma SameLength(a: seq<Bytes>, b: seq<Bytes>, tail: seq<Bytes>)
    ensures a + tail == b + tail ==> |a| == |b|
  {
    assert |a + tail| == |a| + |tail| && |b + tail| == |b| + |tail|;
  }

  /** No other worker ever sees a frame of the stream. */
  lemma OneWorkerPerStream(s: State, o: nat, w: nat)
    requires Reachable(s) && o < |s.ids| && w < 5 && w != s.ids[o] % 5
    ensures |s.workers| == |s.queues| == 5
    ensures Shape(s) && InHand(s.workers[w], o) == [] && FramesFor(s.queues[w], o) == []
  {
    ReachableBase(s);
    assert WorkerOk(s.ids, w, s.workers[w]);
    forall i | 0 <= i < |s.queues[w]| ensures s.queues[w][i].obj != o { assert MsgOk(s.ids, w, s.queues[w][i]); }
    NoFramesFor(s.queues[w], o);
  }

  /**
   * Handler starts: a stream's handler is started at most once, exactly when its SYN_STREAM has been handled, which
   * is the first frame its worker handles; its SYN_STREAM is routed exactly once and ahead of everything else.
   */
  lemma HandlerStartedOnce(s: State, o: nat)
    requires Reachable(s) && o < |s.ids|
    ensures Shape(s)
    ensures multiset(s.starts)[o] == if s.handled[o] == [] then 0 else 1
    ensures s.handled[o] <= s.routed[o]
    ensures AwaitsSyn(s.reader, o) ==> s.routed[o] == []
    ensures !AwaitsSyn(s.reader, o) ==> SynFirst(s.routed[o])
  {
    hide BaseInv, RxsInv, Pending;
    ReachableRouting(s);
    BaseShape(s);
    assert s.routed[o] == s.handled[o] + Pending(s, o);
  }

  /** The workers have nothing left to do. */
  predicate Drained(s: State) {
    && (forall w :: 0 <= w < |s.queues| ==> s.queues[w] == [])
    && (forall w :: 0 <= w < |s.workers| ==> s.workers[w].Resting?)
  }

  /**
   * Once the reader has ended and the workers have drained, every accepted stream's handler was started exactly once.
   */
  lemma DrainedMeansStarted(s: State, o: nat)
    requires Reachable(s) && s.reader.Ended? && Drained(s) && o < |s.ids|
    ensures multiset(s.starts)[o] == 1
    ensures Shape(s) && s.handled[o] == s.routed[o]
  {
    ReachableRouting(s);
    assert s.routed[o] == s.handled[o] + Pending(s, o);
    assert Pending(s, o) == [];
    HandlerStartedOnce(s, o);
  }
}
