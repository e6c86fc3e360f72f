/**
 * The connection as its tasks share it: a table of stream objects, worker queues whose messages carry such objects,
 * and the atomics. Each method is one step of one task. `view` is the state of the machine that the step leads to;
 * Valid says that the objects, wherever they are shared, are the ones the machine numbers.
 */
module ConnectionObject {
  import opened Octets
  import opened Frame
  import opened Receive
  import opened Streams
  import opened Connection
  import opened Registry
  import Frames
  import Routing
  import Closing
  import Pings
  import Wire

  /** A frame on its way to a worker, with a reference to its stream. */
  datatype WorkerMsg = WorkerMsg(frame: Frame, stream: Stream)

  datatype Task = Free | Acting(msg: WorkerMsg) | ClosingRemote(stream: Stream) | RemovingEntry(stream: Stream)

  // ---------------------------------------------------------------------------
  // References against numbers
  // ---------------------------------------------------------------------------

  predicate Is(objects: seq<Stream>, st: Stream, o: nat) {
    o < |objects| && objects[o] == st
  }

  ghost predicate ObjectsAre(objects: seq<Stream>, ids: seq<u32>, rxs: seq<Rx>)
    reads objects
  {
    && |objects| == |ids| == |rxs|
    && forall o :: 0 <= o < |objects| ==>
         objects[o].streamId == ids[o] && objects[o].Valid() && objects[o].Receiving() == rxs[o]
  }

  ghost predicate TableIs(objects: seq<Stream>, streams: map<u32, Stream>, table: map<u32, nat>) {
    streams.Keys == table.Keys && forall id :: id in streams ==> Is(objects, streams[id], table[id])
  }

  predicate MsgIs(objects: seq<Stream>, m: WorkerMsg, v: Msg) {
    m.frame == v.frame && Is(objects, m.stream, v.obj)
  }

  ghost predicate QueueIs(objects: seq<Stream>, q: seq<WorkerMsg>, v: seq<Msg>) {
    |q| == |v| && forall i :: 0 <= i < |q| ==> MsgIs(objects, q[i], v[i])
  }

  ghost predicate QueuesAre(objects: seq<Stream>, qs: seq<seq<WorkerMsg>>, vs: seq<seq<Msg>>) {
    |qs| == |vs| && forall w :: 0 <= w < |qs| ==> QueueIs(objects, qs[w], vs[w])
  }

  predicate TaskIs(objects: seq<Stream>, t: Task, v: Worker) {
    match t
    case Free => v.Resting?
    case Acting(m) => v.Handling? && MsgIs(objects, m, v.msg)
    case ClosingRemote(st) => v.Closing? && Is(objects, st, v.obj)
    case RemovingEntry(st) => v.Removing? && Is(objects, st, v.obj)
  }

  ghost predicate TasksAre(objects: seq<Stream>, ts: seq<Task>, vs: seq<Worker>) {
    |ts| == |vs| && forall w :: 0 <= w < |ts| ==> TaskIs(objects, ts[w], vs[w])
  }

  /** What the read task keeps in its local variables between two steps. */
  ghost predicate ReaderHolds(objects: seq<Stream>, held: Option<Stream>, unswept: set<Stream>, r: Connection.Reader) {
    match r
    case StoringLast(_, obj) => held.Some? && Is(objects, held.value, obj)
    case RoutingSyn(_, obj) => held.Some? && Is(objects, held.value, obj)
    case Routing(_, obj) => held.Some? && Is(objects, held.value, obj)
    case Sweeping(todo) =>
      && (forall o :: o in todo ==> o < |objects|)
      && unswept == set o | o in todo && o < |objects| :: objects[o]
    case _ => true
  }

  /** No other number has the same object. */
  lemma Distinct(objects: seq<Stream>, ids: seq<u32>, rxs: seq<Rx>, o: nat)
    requires ObjectsAre(objects, ids, rxs) && Accepted(ids) && o < |objects|
    ensures forall p :: 0 <= p < |objects| && p != o ==> objects[p] != objects[o]
  {
    assert forall p :: 0 <= p < |objects| && p != o ==> ids[p] != ids[o];
  }

  lemma PushOffers(rx: Rx, data: Bytes)
    ensures Push(rx, data).offered == rx.offered + [data]
  {
  }

  lemma NumberOfNext(objects: seq<Stream>, ids: seq<u32>, rxs: seq<Rx>)
    requires ObjectsAre(objects, ids, rxs)
    ensures |ids| == |objects|
  {
  }

  /** A new object leaves the numbers of the others alone. */
  lemma OneMore(objects: seq<Stream>, ids: seq<u32>, rxs: seq<Rx>, st: Stream)
    requires ObjectsAre(objects, ids, rxs) && st.Valid() && st.Receiving() == NewRx()
    ensures ObjectsAre(objects + [st], ids + [st.streamId], rxs + [NewRx()])
  {
  }

  lemma TableGrows(objects: seq<Stream>, st: Stream, id: u32, streams: map<u32, Stream>, table: map<u32, nat>)
    requires TableIs(objects, streams, table)
    ensures TableIs(objects + [st], streams[id := st], table[id := |objects|]) && (id in streams <==> id in table)
  {
  }

  lemma ChannelsKeep(objects: seq<Stream>, st: Stream,
      qs: seq<seq<WorkerMsg>>, vs: seq<seq<Msg>>, ts: seq<Task>, ws: seq<Worker>)
    requires QueuesAre(objects, qs, vs) && TasksAre(objects, ts, ws)
    ensures QueuesAre(objects + [st], qs, vs) && TasksAre(objects + [st], ts, ws)
  {
    forall w | 0 <= w < |qs| ensures QueueIs(objects + [st], qs[w], vs[w]) {
      assert QueueIs(objects, qs[w], vs[w]);
      forall i | 0 <= i < |qs[w]| ensures MsgIs(objects + [st], qs[w][i], vs[w][i])
      { assert MsgIs(objects, qs[w][i], vs[w][i]); }
    }
    forall w | 0 <= w < |ts| ensures TaskIs(objects + [st], ts[w], ws[w]) { assert TaskIs(objects, ts[w], ws[w]); }
  }

  class Served {
    /** Shared: the table, the atomics, the channels, the ping waiters (by the number of their call). */
    var streams: map<u32, Stream>
    var lastClientStreamId: u32
    var goneAway: bool
    var closeFlag: bool
    var nextPingId: u32
    var pingMap: map<u32, nat>
    var outbox: Outbox
    var workerQueues: seq<seq<WorkerMsg>>
    /** The workers' and the read task's own variables. */
    var tasks: seq<Task>
    var held: Option<Stream>
    var unswept: set<Stream>

    /** Every stream ever accepted, in order, and the machine's state. */
    ghost var accepted: seq<Stream>
    ghost var view: State

    ghost predicate Valid()
      reads this, accepted
    {
      && Reachable(view)
      && lastClientStreamId == view.lastId && goneAway == view.goneAway && closeFlag == view.closeFlag
      && nextPingId == view.nextPing && pingMap == view.pingMap && outbox == view.out
      && ObjectsAre(accepted, view.ids, view.rxs)
      && TableIs(accepted, streams, view.table)
      && QueuesAre(accepted, workerQueues, view.queues)
      && TasksAre(accepted, tasks, view.workers)
      && ReaderHolds(accepted, held, unswept, view.reader)
    }

    ghost predicate Ready(a: Action)
      reads this, accepted
    {
      Valid() && Can(view, a)
    }

    /** The method was exactly this step of the machine, on the shared objects. */
    twostate predicate Took(a: Action)
      reads this, accepted
    {
      Can(old(view), a) && Valid() && view == Step(old(view), a)
    }

    constructor ()
      ensures Valid() && view == INITIAL && streams == map[] && accepted == []
    {
      streams, lastClientStreamId, goneAway, closeFlag, nextPingId, pingMap := map[], 0, false, false, 2, map[];
      outbox, workerQueues := Outbox([], None, true, [], []), [[], [], [], [], []];
      tasks, held, unswept := [Free, Free, Free, Free, Free], None, {};
      accepted, view := [], INITIAL;
      new;
      assert Run([]) == Some(INITIAL);
    }

    // --- What callers of any task may rely on -----------------------------------

    /** The table maps each id to its own stream, and no stream ever accepted shares its id with another. */
    lemma TableHoldsItsStreams()
      requires Valid()
      ensures forall id :: id in streams ==> streams[id] in accepted && streams[id].streamId == id
      ensures forall a, b :: a in accepted && b in accepted && a.streamId == b.streamId ==> a == b
    {
      hide Reachable, WorkersInv, QueuesInv;
      ReachableBase(view);
      forall a, b | a in accepted && b in accepted && a.streamId == b.streamId ensures a == b {
        var o :| 0 <= o < |accepted| && accepted[o] == a;
        var p :| 0 <= p < |accepted| && accepted[p] == b;
        SameIdSameObject(view.ids, o, p);
      }
    }

    lemma AllUpToLast()
      requires Valid() && !view.reader.StoringLast?
      ensures forall st :: st in accepted ==> st.streamId <= lastClientStreamId
    {
      hide Reachable, WorkersInv, QueuesInv, TableInv;
      ReachableBase(view);
      NewestBounds(view.ids);
    }

    lemma LastIsAccepted()
      requires Valid()
      ensures lastClientStreamId == 0 || exists st :: st in accepted && st.streamId == lastClientStreamId
    {
      hide Reachable, WorkersInv, QueuesInv, TableInv, Accepted;
      ReachableBase(view);
      var known := if view.reader.StoringLast? then view.ids[..|view.ids| - 1] else view.ids;
      if known != [] { assert accepted[|known| - 1] in accepted; }
    }

    /** A queued message carries the stream its frame names, and only that stream's worker ever gets it. */
    lemma MessagesFindTheirStream(w: nat, i: nat)
      requires Valid() && w < |workerQueues| && i < |workerQueues[w]|
      ensures var m := workerQueues[w][i];
        && m.stream in accepted && HasStreamId(m.frame) && m.frame.streamId == m.stream.streamId
        && w == m.stream.streamId % 5
    {
      hide Reachable, WorkersInv, Accepted, LastInv, TableInv;
      ReachableBase(view);
      assert QueueIs(accepted, workerQueues[w], view.queues[w]);
      assert MsgIs(accepted, workerQueues[w][i], view.queues[w][i]);
      assert MsgOk(view.ids, w, view.queues[w][i]);
    }

    /** A stream that is open is found in the table; once the read task has ended none is open, for good. */
    lemma OpenStreamsAreFound()
      requires Valid()
      ensures forall st :: st in accepted ==> st.closed || (st.streamId in streams && streams[st.streamId] == st)
      ensures view.reader.Ended? ==> closeFlag && forall st :: st in accepted ==> st.closed
    {
      hide Reachable;
      Closing.ClosingReachesAll(view);
      forall st | st in accepted ensures st.closed || (st.streamId in streams && streams[st.streamId] == st) {
        var o :| 0 <= o < |accepted| && accepted[o] == st;
        assert st.Receiving() == view.rxs[o];
      }
      forall st | st in accepted && view.reader.Ended? ensures st.closed {
        var o :| 0 <= o < |accepted| && accepted[o] == st;
        assert st.Receiving() == view.rxs[o];
      }
    }

    /**
     * What was routed to a stream is what was pushed into its object and what its worker still has; of the chunks
     * pushed, those that found room were taken or are buffered, and these are all exactly if none was dropped.
     */
    lemma StreamKeepsOrder(o: nat)
      requires Valid() && o < |accepted|
      ensures Shape(view) && o < |view.ids|
      ensures var st, pending := accepted[o], Routing.Payloads(Routing.Pending(view, o));
        && |st.offered| == |st.kept|
        && st.offered + pending == Routing.Payloads(view.routed[o])
        && st.taken + st.buffer == Selected(st.offered, st.kept)
        && (st.taken + st.buffer + pending == Routing.Payloads(view.routed[o]) <==> NoneDropped(st.kept))
    {
      hide Reachable, Routing.Pending, Routing.Payloads, Selected;
      Routing.PerStreamOrder(view, o);
      assert accepted[o].Receiving() == view.rxs[o];
    }

    // --- Read task: accepting a stream --------------------------------------------

    method SendInitialSettings()
      requires Ready(Boot)
      modifies `outbox, `view
      ensures Took(Boot) && outbox.queue == outbox.enqueued == [Settings([Setting(4, 0, 100)], 0)]
    {
      hide Reachable, ObjectsAre, TableIs, QueuesAre, TasksAre;
      Wire.ReachableWire(view);
      ReachStep(view, Boot);
      outbox := Send(outbox, InitialSettings());
      view := Step(view, Boot);
    }

    /** The frame's first step: a SYN_STREAM of an impossible id and an odd ping are answered at once. */
    method FrameArrives(f: Frame) returns (reply: Option<Frame>)
      requires Ready(Arrives(f))
      modifies `view
      ensures Took(Arrives(f))
      ensures reply.Some? <==> view.reader.Replying?
      ensures reply.Some? ==> view.reader == Replying(reply.value)
      ensures f.SynStream? && f.streamId % 2 == 1 ==> view.reader == CheckingLast(f)
      ensures f.GoAway? ==> view.reader.StoringGone?
      ensures f.Ping? && f.id % 2 == 0 ==> view.reader == Resolving(f.id)
      ensures f.Data? || f.SynReply? || f.RstStream? || f.Headers? ==> view.reader == LookingUp(f)
      ensures f.Settings? || f.WindowUpdate? ==> view.reader.AtRead?
    {
      hide Reachable, ObjectsAre, TableIs, QueuesAre, TasksAre;
      ReachStep(view, Arrives(f));
      view := Step(view, Arrives(f));
      if f.SynStream? && (f.streamId == 0 || f.streamId % 2 == 0) {
        reply := Some(RstStream(f.streamId, ProtocolError));
      } else if f.Ping? && f.id % 2 == 1 {
        reply := Some(f);
      } else {
        reply := None;
      }
    }

    method CheckLastId(syn: Frame) returns (reply: Option<Frame>)
      requires Ready(ReaderMoves) && view.reader == CheckingLast(syn)
      modifies `view
      ensures Took(ReaderMoves)
      ensures reply.None? ==> view.reader == CheckingGone(syn)
      ensures reply.None? ==> forall st :: st in accepted ==> st.streamId < syn.streamId
      ensures reply.Some? ==> view.reader == Replying(reply.value)
    {
      hide Reachable, ObjectsAre, TableIs, QueuesAre, TasksAre;
      AllUpToLast();
      ReachStep(view, ReaderMoves);
      view := Step(view, ReaderMoves);
      reply := if syn.streamId <= lastClientStreamId then Some(RstStream(syn.streamId, ProtocolError)) else None;
    }

    method CheckGoneAway(syn: Frame) returns (reply: Option<Frame>)
      requires Ready(ReaderMoves) && view.reader == CheckingGone(syn)
      modifies `view
      ensures Took(ReaderMoves)
      ensures reply.None? ==> view.reader == Inserting(syn) && !goneAway
      ensures reply.Some? ==> view.reader == Replying(reply.value)
    {
      hide Reachable, ObjectsAre, TableIs, QueuesAre, TasksAre;
      ReachStep(view, ReaderMoves);
      view := Step(view, ReaderMoves);
      reply := if goneAway then Some(RstStream(syn.streamId, RefusedStream)) else None;
    }

    /** Registers a new object. The id is never in use, so the branch that refuses it for that is not taken. */
    method Register(syn: Frame) returns (st: Stream)
      requires Ready(ReaderMoves) && view.reader == Inserting(syn)
      modifies `streams, `held, `accepted, `view
      ensures Took(ReaderMoves) && fresh(st) && syn.SynStream? && st.streamId == syn.streamId
      ensures syn.streamId !in old(streams) && streams == old(streams)[syn.streamId := st]
      ensures accepted == old(accepted) + [st]
    {
      hide Reachable, ObjectsAre, TableIs, QueuesAre, TasksAre, MoveReader, BaseInv, Step, Can;
      ReachableBase(view);
      RegisterView(view);
      ReachStep(view, ReaderMoves);
      NumberOfNext(accepted, view.ids, view.rxs);
      st := new Stream(syn.streamId);
      OneMore(accepted, view.ids, view.rxs, st);
      TableGrows(accepted, st, syn.streamId, streams, view.table);
      ChannelsKeep(accepted, st, workerQueues, view.queues, tasks, view.workers);
      view := Step(view, ReaderMoves);
      accepted := accepted + [st];
      streams := streams[syn.streamId := st];
      held := Some(st);
    }

    method StoreLastId(syn: Frame)
      requires Ready(ReaderMoves) && view.reader.StoringLast? && view.reader.syn == syn
      modifies `lastClientStreamId, `view
      ensures Took(ReaderMoves) && syn.SynStream? && lastClientStreamId == syn.streamId
    {
      hide Reachable, ObjectsAre, TableIs, QueuesAre, TasksAre;
      ReachStep(view, ReaderMoves);
      view := Step(view, ReaderMoves);
      lastClientStreamId := syn.streamId;
    }

    /** The stream that was registered or looked up goes to its worker together with the frame. */
    method SendToWorker(f: Frame)
      requires Ready(ReaderMoves) && HasStreamId(f)
      requires (view.reader.RoutingSyn? && view.reader.syn == f) || (view.reader.Routing? && view.reader.frame == f)
      modifies `workerQueues, `view
      ensures Took(ReaderMoves) && held.Some? && f.streamId % 5 < |old(workerQueues)|
      ensures workerQueues == old(workerQueues)[f.streamId % 5 :=
                old(workerQueues)[f.streamId % 5] + [WorkerMsg(f, held.value)]]
    {
      hide Reachable;
      ReachStep(view, ReaderMoves);
      ghost var obj := view.reader.obj;
      ghost var before := view;
      view := Step(view, ReaderMoves);
      assert view == Route(before, f, obj);
      var w := WorkerOf(f.streamId);
      assert QueueIs(accepted, workerQueues[w], before.queues[w]);
      workerQueues := workerQueues[w := workerQueues[w] + [WorkerMsg(f, held.value)]];
      assert MsgIs(accepted, WorkerMsg(f, held.value), Msg(f, obj));
    }

    // --- Read task: everything else -----------------------------------------------

    /** The table is locked for the look-up only. Data for a stream that is not there is refused. */
    method LookUp(f: Frame) returns (found: Option<Stream>, reply: Option<Frame>)
      requires Ready(ReaderMoves) && view.reader == LookingUp(f)
      modifies `held, `view
      ensures Took(ReaderMoves) && IsRoutable(f)
      ensures found.Some? <==> f.streamId in streams
      ensures found.Some? ==> view.reader.Routing? && held == found && found.value.streamId == f.streamId
      ensures forall st :: st in accepted && st.streamId == f.streamId && !st.closed ==> found == Some(st)
      ensures reply.Some? <==> found.None? && f.Data?
      ensures reply.Some? ==> view.reader == Replying(reply.value)
    {
      hide Reachable, MoveReader, ObjectsAre, QueuesAre, TasksAre;
      TableHoldsItsStreams();
      OpenStreamsAreFound();
      ReachStep(view, ReaderMoves);
      Frames.StepIs(view, ReaderMoves);
      Frames.ReaderFrame(view);
      view := Step(view, ReaderMoves);
      hide Step, Can;
      found, reply := None, None;
      if f.streamId in streams {
        found := Some(streams[f.streamId]);
        held := found;
      } else if f.Data? {
        reply := Some(RstStream(f.streamId, InvalidStream));
      }
    }

    method SendReply(f: Frame)
      requires Ready(ReaderMoves) && view.reader == Replying(f)
      modifies `outbox, `view
      ensures Took(ReaderMoves)
      ensures outbox.enqueued == old(outbox).enqueued + (if outbox.alive then [f] else [])
    {
      hide Reachable, ObjectsAre, TableIs, QueuesAre, TasksAre;
      ReachStep(view, ReaderMoves);
      view := Step(view, ReaderMoves);
      outbox := Send(outbox, f);
    }

    /** The echo's waiter leaves the map; its call's oneshot fires. */
    method ResolvePing(id: u32)
      requires Ready(ReaderMoves) && view.reader == Resolving(id)
      modifies `pingMap, `view
      ensures Took(ReaderMoves) && pingMap == old(pingMap) - {id}
    {
      hide Reachable, ObjectsAre, TableIs, QueuesAre, TasksAre;
      WaitersAreCalls(view, id);
      ReachStep(view, ReaderMoves);
      view := Step(view, ReaderMoves);
      pingMap := pingMap - {id};
    }

    /** The two stores after a GOAWAY. */
    method StoreGoneAway()
      requires Ready(ReaderMoves) && view.reader.StoringGone?
      modifies `goneAway, `view
      ensures Took(ReaderMoves) && goneAway
    {
      hide Reachable, ObjectsAre, TableIs, QueuesAre, TasksAre;
      ReachStep(view, ReaderMoves);
      view := Step(view, ReaderMoves);
      goneAway := true;
    }

    /** After a GOAWAY, and once more at the end: when the task has ended every stream ever accepted is closed. */
    method StoreCloseFlag()
      requires Ready(ReaderMoves) && (view.reader.FlaggingGone? || view.reader.Flagging?)
      modifies `closeFlag, `view
      ensures Took(ReaderMoves) && closeFlag
      ensures view.reader.Ended? ==> forall st :: st in accepted ==> st.closed
    {
      hide Reachable, ObjectsAre, TableIs, QueuesAre, TasksAre;
      ReachStep(view, ReaderMoves);
      view := Step(view, ReaderMoves);
      closeFlag := true;
      OpenStreamsAreFound();
    }

    /** Locks the table; nobody can remove a stream until the sweep is over. */
    method StartSweep()
      requires Ready(ReaderMoves) && view.reader.SweepStarting?
      modifies `unswept, `view
      ensures Took(ReaderMoves) && unswept == streams.Values && view.reader.Sweeping?
    {
      hide Reachable;
      ReachStep(view, ReaderMoves);
      view := Step(view, ReaderMoves);
      unswept := streams.Values;
      SameValues(accepted, streams, view.table);
    }

    method SweepStream(ghost o: nat, st: Stream)
      requires Ready(SweepOne(o)) && Is(accepted, st, o) && st in unswept
      modifies `unswept, `view, st`closed, st`version
      ensures Took(SweepOne(o)) && st.closed && unswept == old(unswept) - {st}
    {
      hide Reachable, ObjectsAre, TableIs, QueuesAre, TasksAre, BaseInv, Accepted;
      ReachableIds(view);
      ReachStep(view, SweepOne(o));
      Frames.StepIs(view, SweepOne(o));
      ghost var before := view;
      CloseOne(o, st);
      view := Step(view, SweepOne(o));
      hide Step, Can;
      unswept := unswept - {st};
      LeaveSweep(accepted, view.ids, view.rxs, before.reader.todo, o);
    }

    /** The end of the read loop, of the sweep, or of a ping call's wait: nothing shared is touched. */
    method StepAlone(ghost a: Action)
      requires Ready(a)
      requires a.ReadFails? || (a.ReaderMoves? && view.reader.Sweeping?) || a.PingerTimesOut?
            || (a.PingerMoves? && view.pingers[a.p].at.Awaiting?)
      modifies `view
      ensures Took(a) && view.rxs == old(view).rxs && view.table == old(view).table
    {
      hide Reachable, ObjectsAre, TableIs, QueuesAre, TasksAre;
      ReachStep(view, a);
      view := Step(view, a);
    }

    /** Closing one object closes the stream of that number and no other. */
    method CloseOne(ghost o: nat, st: Stream)
      requires Is(accepted, st, o) && Accepted(view.ids) && ObjectsAre(accepted, view.ids, view.rxs)
      modifies st`closed, st`version
      ensures o < |view.rxs| && ObjectsAre(accepted, view.ids, view.rxs[o := Close(view.rxs[o])]) && st.closed
    {
      assert forall p :: 0 <= p < |accepted| && p != o ==> view.ids[p] != view.ids[o];
      st.CloseRemote();
    }

    /** Likewise for a push. */
    method PushOne(ghost o: nat, st: Stream, data: Bytes)
      requires Is(accepted, st, o) && Accepted(view.ids) && ObjectsAre(accepted, view.ids, view.rxs)
      modifies st
      ensures o < |view.rxs| && ObjectsAre(accepted, view.ids, view.rxs[o := Push(view.rxs[o], data)])
      ensures st.offered == old(st.offered) + [data]
    {
      hide Push, RxInv;
      NumberedId(accepted, view.ids, view.rxs, o);
      Distinct(accepted, view.ids, view.rxs, o);
      PushOffers(view.rxs[o], data);
      st.PushData(data);
    }

    // --- Workers ------------------------------------------------------------------

    method TakeMessage(w: nat) returns (m: WorkerMsg)
      requires Ready(WorkerTakes(w))
      modifies `workerQueues, `tasks, `view
      ensures Took(WorkerTakes(w)) && w < |workerQueues| == |old(workerQueues)| && w < |tasks|
      ensures old(workerQueues)[w] == [m] + workerQueues[w] && tasks[w] == Acting(m)
      ensures m.stream in accepted && HasStreamId(m.frame) && m.frame.streamId == m.stream.streamId
    {
      hide Reachable;
      MessagesFindTheirStream(w, 0);
      ReachStep(view, WorkerTakes(w));
      assert QueueIs(accepted, workerQueues[w], view.queues[w]);
      assert MsgIs(accepted, workerQueues[w][0], view.queues[w][0]);
      view := Step(view, WorkerTakes(w));
      m := workerQueues[w][0];
      tasks := tasks[w := Acting(m)];
      workerQueues := workerQueues[w := workerQueues[w][1..]];
    }

    /** Data is pushed; the FIN that came with it is acted on in the next step. */
    method PushToStream(w: nat)
      requires Ready(WorkerMoves(w)) && w < |tasks| && tasks[w].Acting? && tasks[w].msg.frame.Data?
      modifies `tasks, `view, tasks[w].msg.stream
      ensures Took(WorkerMoves(w)) && w < |tasks|
      ensures var m := old(tasks[w]).msg;
        && m.stream.offered == old(m.stream.offered) + [m.frame.data]
        && tasks[w] == if HasFin(m.frame.flags) then ClosingRemote(m.stream) else Free
    {
      hide Reachable, ObjectsAre, TableIs, QueuesAre, BaseInv, Accepted, MoveWorker, Step;
      ReachableIds(view);
      assert TaskIs(accepted, tasks[w], view.workers[w]);
      var m := tasks[w].msg;
      Frames.DataView(view, w);
      ReachStep(view, WorkerMoves(w));
      PushOne(view.workers[w].msg.obj, m.stream, m.frame.data);
      view := Step(view, WorkerMoves(w));
      tasks := tasks[w := if HasFin(m.frame.flags) then ClosingRemote(m.stream) else Free];
    }

    /** A SYN_STREAM starts the handler; only SYN_REPLY and HEADERS have their FIN acted on. */
    method ActOnOther(w: nat) returns (start: Option<Stream>)
      requires Ready(WorkerMoves(w)) && w < |tasks| && tasks[w].Acting?
      requires !tasks[w].msg.frame.Data? && !tasks[w].msg.frame.RstStream?
      modifies `tasks, `view
      ensures Took(WorkerMoves(w)) && w < |tasks|
      ensures var m := old(tasks[w]).msg;
        && (start == if m.frame.SynStream? then Some(m.stream) else None)
        && (tasks[w] == if (m.frame.SynReply? || m.frame.Headers?) && HasFin(m.frame.flags)
              then ClosingRemote(m.stream) else Free)
    {
      hide Reachable, ObjectsAre, TableIs, QueuesAre, MoveWorker, Step, HasFin;
      assert TaskIs(accepted, tasks[w], view.workers[w]);
      var m := tasks[w].msg;
      Frames.OtherView(view, w);
      ReachStep(view, WorkerMoves(w));
      view := Step(view, WorkerMoves(w));
      start := if m.frame.SynStream? then Some(m.stream) else None;
      var fin := (m.frame.SynReply? || m.frame.Headers?) && HasFin(m.frame.flags);
      tasks := tasks[w := if fin then ClosingRemote(m.stream) else Free];
    }

    /** A RST closes the stream; its table entry goes in the next step. */
    method CloseForRst(w: nat)
      requires Ready(WorkerMoves(w)) && w < |tasks| && tasks[w].Acting? && tasks[w].msg.frame.RstStream?
      modifies `tasks, `view, tasks[w].msg.stream`closed, tasks[w].msg.stream`version
      ensures Took(WorkerMoves(w)) && w < |tasks|
      ensures var st := old(tasks[w]).msg.stream; st.closed && tasks[w] == RemovingEntry(st)
    {
      hide Reachable, ObjectsAre, TableIs, QueuesAre, BaseInv, Accepted, MoveWorker, Step;
      ReachableIds(view);
      assert TaskIs(accepted, tasks[w], view.workers[w]);
      var m := tasks[w].msg;
      Frames.RstView(view, w);
      ReachStep(view, WorkerMoves(w));
      CloseOne(view.workers[w].msg.obj, m.stream);
      view := Step(view, WorkerMoves(w));
      tasks := tasks[w := RemovingEntry(m.stream)];
    }

    method CloseAfterFin(w: nat)
      requires Ready(WorkerMoves(w)) && w < |tasks| && tasks[w].ClosingRemote?
      modifies `tasks, `view, tasks[w].stream`closed, tasks[w].stream`version
      ensures Took(WorkerMoves(w)) && w < |tasks| && tasks[w] == Free && old(tasks[w]).stream.closed
    {
      hide Reachable, ObjectsAre, TableIs, QueuesAre, BaseInv, Accepted, MoveWorker, Step;
      ReachableIds(view);
      assert TaskIs(accepted, tasks[w], view.workers[w]);
      var st := tasks[w].stream;
      Frames.FinView(view, w);
      ReachStep(view, WorkerMoves(w));
      CloseOne(view.workers[w].obj, st);
      view := Step(view, WorkerMoves(w));
      tasks := tasks[w := Free];
    }

    /** The entry goes that has the stream's id: it is the closed stream itself, or there is none. */
    method RemoveEntry(w: nat)
      requires Ready(WorkerMoves(w)) && w < |tasks| && tasks[w].RemovingEntry?
      modifies `streams, `tasks, `view
      ensures Took(WorkerMoves(w)) && w < |tasks| && tasks[w] == Free
      ensures var st := old(tasks[w]).stream;
        streams == old(streams) - {st.streamId} && (st.streamId in old(streams) ==> old(streams)[st.streamId] == st)
    {
      hide Reachable, ObjectsAre, QueuesAre, TableIs, BaseInv, Accepted, MoveWorker, Step;
      TableHoldsItsStreams();
      assert TaskIs(accepted, tasks[w], view.workers[w]);
      var st := tasks[w].stream;
      Frames.RemoveView(view, w);
      NumberedId(accepted, view.ids, view.rxs, view.workers[w].obj);
      ReachStep(view, WorkerMoves(w));
      TableLoses(accepted, streams, view.table, st.streamId);
      view := Step(view, WorkerMoves(w));
      streams := streams - {st.streamId};
      tasks := tasks[w := Free];
    }

    // --- Write task and handlers ------------------------------------------------

    method TakeFrame() returns (f: Frame)
      requires Ready(WriterTakes)
      modifies `outbox, `view
      ensures Took(WriterTakes) && old(outbox).queue == [f] + outbox.queue && outbox.hand == Some(f)
    {
      hide Reachable, ObjectsAre, TableIs, QueuesAre, TasksAre;
      ReachStep(view, WriterTakes);
      view := Step(view, WriterTakes);
      f := outbox.queue[0];
      outbox := outbox.(queue := outbox.queue[1..], hand := Some(f));
    }

    /** The frame is on the wire, or its write failed and the write task ends, dropping the queue. */
    method WriteFrame(failed: bool)
      requires Ready(if failed then WriterFails else WriterWrites)
      modifies `outbox, `view
      ensures Took(if failed then WriterFails else WriterWrites)
      ensures outbox.alive == !failed && outbox.enqueued == old(outbox).enqueued && outbox.written <= outbox.enqueued
    {
      hide Reachable, ObjectsAre, TableIs, QueuesAre, TasksAre;
      var a := if failed then WriterFails else WriterWrites;
      ReachStep(view, a);
      view := Step(view, a);
      if failed {
        outbox := outbox.(hand := None, alive := false, queue := []);
      } else {
        outbox := outbox.(hand := None, written := outbox.written + [outbox.hand.value]);
      }
      Wire.WrittenIsPrefix(view);
    }

    method HandlerSend(ghost o: nat, st: Stream, f: Frame)
      requires Ready(HandlerSends(o, f)) && Is(accepted, st, o)
      modifies `outbox, `view
      ensures Took(HandlerSends(o, f)) && (f.SynReply? || f.Data? || f.RstStream?) && f.streamId == st.streamId
      ensures outbox.enqueued == old(outbox).enqueued + (if outbox.alive then [f] else [])
    {
      hide Reachable, TableIs, QueuesAre, TasksAre;
      ReachStep(view, HandlerSends(o, f));
      view := Step(view, HandlerSends(o, f));
      outbox := Send(outbox, f);
    }

    /** One step of read_data by the stream's handler, beside everything the other tasks do to the stream. */
    method HandlerRead(ghost o: nat, st: Stream, step: ReadStep) returns (r: ReadResult)
      requires Ready(HandlerReads(o, step)) && Is(accepted, st, o)
      modifies `view, st`buffer, st`taken, st`receiverHeld, st`reader
      ensures Took(HandlerReads(o, step))
      ensures (st.Receiving(), r) == Read(old(st.Receiving()), step)
    {
      hide Reachable, ObjectsAre, TableIs, QueuesAre, TasksAre, BaseInv, Accepted, Step;
      ReachableIds(view);
      ReadView(view, o, step);
      ReachStep(view, HandlerReads(o, step));
      r := ReadFrom(o, st, step);
      view := Step(view, HandlerReads(o, step));
    }

    /** Reading from one object is reading from the stream of that number and no other. */
    method ReadFrom(ghost o: nat, st: Stream, step: ReadStep) returns (r: ReadResult)
      requires Is(accepted, st, o) && Accepted(view.ids) && ObjectsAre(accepted, view.ids, view.rxs)
      requires o < |view.rxs| && CanRead(view.rxs[o], step)
      modifies st`buffer, st`taken, st`receiverHeld, st`reader
      ensures (st.Receiving(), r) == Read(old(st.Receiving()), step)
      ensures ObjectsAre(accepted, view.ids, view.rxs[o := Read(view.rxs[o], step).0])
    {
      hide Read;
      assert forall p :: 0 <= p < |accepted| && p != o ==> view.ids[p] != view.ids[o];
      r := st.ReadOnce(step);
    }

    // --- close() and ping() -------------------------------------------------------

    /** The swap of gone_away: no matter how many calls race, the first one wins. */
    method SwapGoneAway() returns (won: bool)
      requires Ready(CallClose)
      modifies `goneAway, `view
      ensures Took(CallClose) && goneAway && won == !old(goneAway)
      ensures |view.closers| > 0 && view.closers[|view.closers| - 1] == if won then Loading else Lost
    {
      hide Reachable, ObjectsAre, TableIs, QueuesAre, TasksAre;
      ReachStep(view, CallClose);
      view := Step(view, CallClose);
      won := !goneAway;
      goneAway := true;
    }

    method LoadLastId(c: nat) returns (last: u32)
      requires Ready(CloserMoves(c)) && view.closers[c].Loading?
      modifies `view
      ensures Took(CloserMoves(c)) && c < |view.closers| && view.closers[c] == Sending(last)
      ensures last == 0 || exists st :: st in accepted && st.streamId == last
    {
      hide Reachable, ObjectsAre, TableIs, QueuesAre, TasksAre;
      LastIsAccepted();
      ReachStep(view, CloserMoves(c));
      view := Step(view, CloserMoves(c));
      last := lastClientStreamId;
    }

    /** The GOAWAY enters the write queue: it is the only one that ever does. */
    method SendGoAway(c: nat, last: u32)
      requires Ready(CloserMoves(c)) && view.closers[c] == Sending(last)
      modifies `outbox, `view
      ensures Took(CloserMoves(c))
      ensures outbox.enqueued == old(outbox).enqueued + (if outbox.alive then [GoAway(last, GoAwayOk)] else [])
      ensures forall i :: 0 <= i < |old(outbox).enqueued| && outbox.alive ==> !old(outbox).enqueued[i].GoAway?
    {
      hide Reachable, ObjectsAre, TableIs, QueuesAre, TasksAre;
      ReachStep(view, CloserMoves(c));
      ghost var before := outbox.enqueued;
      view := Step(view, CloserMoves(c));
      outbox := Send(outbox, GoAway(last, GoAwayOk));
      forall i | 0 <= i < |before| && outbox.alive ensures !before[i].GoAway? {
        if before[i].GoAway? { Closing.GoAwayRace(view, |before|, i); }
      }
    }

    method AnnounceClose(c: nat)
      requires Ready(CloserMoves(c)) && view.closers[c].SettingFlag?
      modifies `closeFlag, `view
      ensures Took(CloserMoves(c)) && closeFlag
    {
      hide Reachable, ObjectsAre, TableIs, QueuesAre, TasksAre;
      ReachStep(view, CloserMoves(c));
      view := Step(view, CloserMoves(c));
      closeFlag := true;
    }

    /** fetch_add on the next ping id: an even id, that of no call among the last 2^31. */
    method NewPing() returns (id: u32)
      requires Ready(CallPing)
      modifies `nextPingId, `view
      ensures Took(CallPing) && id % 2 == 0 && old(view).pingers + [Pinger(id, Registering, 0)] == view.pingers
      ensures forall p :: 0 <= p < |old(view).pingers| && p + Pings.DISTINCT > |old(view).pingers| ==>
        old(view).pingers[p].id != id
    {
      hide Reachable, ObjectsAre, TableIs, QueuesAre, TasksAre;
      ReachStep(view, CallPing);
      ghost var before, n := view.pingers, |view.pingers|;
      view := Step(view, CallPing);
      id := nextPingId;
      nextPingId := (id + 2) % 0x1_0000_0000;
      NewIdIsEven(view, n);
      assert view.pingers == before + [Pinger(id, Registering, 0)];
      forall p | 0 <= p < n && p + Pings.DISTINCT > n ensures before[p].id != id {
        Pings.PingIds(view, p, n);
        assert view.pingers[p] == before[p] && view.pingers[n].id == id;
      }
    }

    /** The waiter enters the map before its ping is sent. */
    method EnterWaiter(p: nat, id: u32)
      requires Ready(PingerMoves(p)) && view.pingers[p].at.Registering? && view.pingers[p].id == id
      modifies `pingMap, `view
      ensures Took(PingerMoves(p)) && pingMap == old(pingMap)[id := p] && InMap(view, p)
    {
      hide Reachable, ObjectsAre, TableIs, QueuesAre, TasksAre;
      ReachStep(view, PingerMoves(p));
      view := Step(view, PingerMoves(p));
      pingMap := pingMap[id := p];
    }

    method SendPing(p: nat, id: u32) returns (sent: bool)
      requires Ready(PingerMoves(p)) && view.pingers[p].at.SendingPing? && view.pingers[p].id == id
      modifies `outbox, `view
      ensures Took(PingerMoves(p)) && sent == outbox.alive
      ensures outbox.enqueued == old(outbox).enqueued + (if sent then [Ping(id)] else [])
    {
      hide Reachable, ObjectsAre, TableIs, QueuesAre, TasksAre;
      ReachStep(view, PingerMoves(p));
      view := Step(view, PingerMoves(p));
      sent := outbox.alive;
      outbox := Send(outbox, Ping(id));
    }
  }

  lemma NewIdIsEven(s: State, n: nat)
    requires Reachable(s) && n < |s.pingers|
    ensures s.pingers[n].id % 2 == 0
  {
    hide Pings.MapInv, Pings.OnceInv, Pings.FoundInv, Pings.SentInv, BaseInv, Pings.PingId;
    Pings.ReachablePings(s);
    Pings.PingIdEven(n);
  }

  // ---------------------------------------------------------------------------
  // What the machine's steps do to what is shared
  // ---------------------------------------------------------------------------

  lemma ReachableIds(s: State)
    requires Reachable(s)
    ensures Accepted(s.ids) && Shape(s)
  {
    hide Reachable;
    ReachableBase(s);
  }

  lemma RegisterView(s: State)
    requires BaseInv(s) && Can(s, ReaderMoves) && s.reader.Inserting?
    ensures var t := Step(s, ReaderMoves); var syn := s.reader.syn;
      && syn.SynStream? && syn.streamId !in s.table
      && Frames.SameAtomics(s, t) && t.queues == s.queues && t.workers == s.workers
      && t.ids == s.ids + [syn.streamId] && t.rxs == s.rxs + [NewRx()] && t.table == s.table[syn.streamId := |s.ids|]
      && t.reader == StoringLast(syn, |s.ids|)
  {
    hide WorkersInv, QueuesInv;
    InsertIsNew(s);
    Frames.RegisterFrame(s, s.reader.syn);
  }

  lemma ReadView(s: State, o: nat, step: ReadStep)
    requires Can(s, HandlerReads(o, step))
    ensures var t := Step(s, HandlerReads(o, step));
      && Frames.SameAtomics(s, t) && t.reader == s.reader && t.ids == s.ids && t.table == s.table
      && t.queues == s.queues && t.workers == s.workers
      && o < |s.rxs| && CanRead(s.rxs[o], step) && t.rxs == s.rxs[o := Read(s.rxs[o], step).0]
  {
    hide Read;
  }

  lemma NumberedId(objects: seq<Stream>, ids: seq<u32>, rxs: seq<Rx>, o: nat)
    requires ObjectsAre(objects, ids, rxs) && o < |objects|
    ensures o < |ids| && o < |rxs| && objects[o].streamId == ids[o]
    ensures objects[o].Valid() && objects[o].Receiving() == rxs[o]
  {
  }

  lemma TableLoses(objects: seq<Stream>, streams: map<u32, Stream>, table: map<u32, nat>, id: u32)
    requires TableIs(objects, streams, table)
    ensures TableIs(objects, streams - {id}, table - {id})
  {
  }

  /** One object leaves the set of the unswept as its number leaves the machine's. */
  lemma LeaveSweep(objects: seq<Stream>, ids: seq<u32>, rxs: seq<Rx>, todo: set<nat>, o: nat)
    requires ObjectsAre(objects, ids, rxs) && Accepted(ids) && o in todo && forall p :: p in todo ==> p < |objects|
    ensures (set p | p in todo && p < |objects| :: objects[p]) - {objects[o]} ==
      set p | p in todo - {o} && p < |objects| :: objects[p]
  {
    assert forall p :: 0 <= p < |objects| && p != o ==> ids[p] != ids[o];
  }

  /** The ping map numbers calls. */
  lemma WaitersAreCalls(s: State, id: u32)
    requires Reachable(s)
    ensures id in s.pingMap ==> s.pingMap[id] < |s.pingers|
  {
    hide Pings.IdsInv, Pings.OnceInv, Pings.FoundInv, Pings.SentInv, BaseInv;
    Pings.ReachablePings(s);
  }

  lemma SameValues(objects: seq<Stream>, streams: map<u32, Stream>, table: map<u32, nat>)
    requires TableIs(objects, streams, table)
    ensures streams.Values == set o | o in table.Values && o < |objects| :: objects[o]
    ensures forall o :: o in table.Values ==> o < |objects|
  {
  }
}
