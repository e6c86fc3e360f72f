/**
 * What can overtake what: when end of stream is the whole truth about a stream, and the runs in which the final sweep,
 * a close call or a later ping comes first.
 */
module Overtaking {
  import opened Octets
  import opened Frame
  import opened Receive
  import opened Connection
  import opened Registry
  import opened Routing
  import opened Pings

  /**
   * A handler that is told end of stream has read everything routed to the stream exactly when no push met a full
   * buffer, its worker has no more of its data and, if it was told by the flag test, nothing was accepted since it
   * looked into the buffer.
   */
  lemma EndOfStreamIsComplete(s: State, o: nat, step: ReadStep)
    requires Reachable(s) && Shape(s) && o < |s.ids| && Can(s, HandlerReads(o, step))
    requires Read(s.rxs[o], step).1.EndOfStream?
    ensures step.SelectClosed? ==>
      (s.rxs[o].taken == Payloads(s.routed[o]) <==> Payloads(Pending(s, o)) == [] && NoneDropped(s.rxs[o].kept))
    ensures step.TestClosed? ==>
      (s.rxs[o].taken == Payloads(s.routed[o]) <==>
       Payloads(Pending(s, o)) == [] && NoneDropped(s.rxs[o].kept) && |s.rxs[o].accepted| == s.rxs[o].reader.seen)
  {
    hide RxInv, Pending, Payloads, Selected, NoneDropped;
    PerStreamOrder(s, o);
    ReachableStream(s, o);
    var rx := s.rxs[o];
    AllKeptExactly(rx.offered, rx.kept);
    EndOfStreamExactly(rx, step);
    TakenAndBuffered(rx);
    NothingBehind(rx.taken, rx.buffer, rx.offered, Payloads(Pending(s, o)));
  }

  lemma ReachableStream(s: State, o: nat)
    requires Reachable(s) && Shape(s) && o < |s.ids|
    ensures RxInv(s.rxs[o])
  {
    hide BaseInv, FifoInv, SynInv, StartsInv, RxInv;
    ReachableRouting(s);
    assert StreamInv(s.rxs[o], s.handled[o]);
  }

  lemma TakenAndBuffered(rx: Rx)
    requires RxInv(rx)
    ensures rx.taken + rx.buffer == rx.accepted && (rx.taken == rx.accepted <==> rx.buffer == [])
  {
  }

  /** Of chunks no more than were offered, followed by others, the front is all only if nothing is missing or behind. */
  lemma NothingBehind(taken: seq<Bytes>, buffer: seq<Bytes>, offered: seq<Bytes>, pending: seq<Bytes>)
    requires |taken + buffer| <= |offered|
    ensures taken == offered + pending <==> taken == offered && buffer == [] && pending == []
    ensures taken + buffer == taken <==> buffer == []
  {
    assert |offered + pending| == |offered| + |pending| && |taken + buffer| == |taken| + |buffer|;
  }

  // ---------------------------------------------------------------------------
  // The final sweep can overtake data
  // ---------------------------------------------------------------------------

  const Syn := SynStream(1, 0, 0, map[], 0)
  const LastData := Data(1, DATA_FLAG_FIN, [7])

  lemma Next(s: State, a: Action) returns (t: State)
    requires Reachable(s) && Can(s, a)
    ensures Reachable(t) && t == Step(s, a)
  {
    ReachStep(s, a);
    t := Step(s, a);
  }

  ghost predicate ToldTooEarly(s: State) {
    && Shape(s) && |s.ids| == 1 && s.reader.Flagging?
    && Can(s, HandlerReads(0, TestClosed)) && Read(s.rxs[0], TestClosed).1.EndOfStream?
    && s.rxs[0].taken == [] && s.rxs[0].kept == [] && Payloads(s.routed[0]) == [[7]]
  }

  /**
   * The connection ends right after a stream's last data frame was read: the sweep closes the stream while the frame
   * waits in the worker's queue, and its handler is told end of stream although it has read nothing.
   */
  lemma SweepOvertakesData()
    ensures exists s :: Reachable(s) && ToldTooEarly(s)
  {
    hide Reachable, Payloads;
    var s := DataQueued();
    s := Swept(s);
    s := Next(s, HandlerReads(0, TestBuffer));
    assert s.rxs == [Close(NewRx()).(reader := FoundEmpty(0))];
    RoutedPayload();
    assert ToldTooEarly(s);
  }

  lemma RoutedPayload()
    ensures Payloads([Syn, LastData]) == [[7]]
  {
    PayloadsConcat([Syn], [LastData]);
    assert [Syn] + [LastData] == [Syn, LastData];
  }

  lemma Booted() returns (s: State)
    ensures Reachable(s) && s == INITIAL.(reader := AtRead, out := s.out)
    ensures s.out == INITIAL.out.(queue := [InitialSettings()], enqueued := [InitialSettings()])
  {
    assert Run([]) == Some(INITIAL);
    hide Reachable;
    s := Next(INITIAL, Boot);
  }

  /** The reader has passed all the checks. */
  lemma Checked() returns (s: State)
    ensures Reachable(s) && s == INITIAL.(reader := Inserting(Syn), out := s.out, log := s.log)
    ensures s.out == INITIAL.out.(queue := [InitialSettings()], enqueued := [InitialSettings()])
  {
    hide Reachable, MoveWorker, MoveCloser, MovePinger, Register, Route, Reply, Resolve, Send;
    s := Booted();
    s := Next(s, Arrives(Syn));
    s := Next(s, ReaderMoves);
    s := Next(s, ReaderMoves);
  }

  lemma Registered() returns (s: State)
    ensures Reachable(s) && s.reader == RoutingSyn(Syn, 0)
    ensures s.table == map[1 := 0] && s.ids == [1] && s.rxs == [NewRx()] && s.routed == [[]] && s.handled == [[]]
    ensures s.queues == INITIAL.queues && s.workers == INITIAL.workers && s.starts == []
  {
    hide Reachable, MoveWorker, MoveCloser, MovePinger, Dispatch, Route, Reply, Resolve, Send;
    s := Checked();
    s := Next(s, ReaderMoves);
    assert s.reader == StoringLast(Syn, 0);
    s := Next(s, ReaderMoves);
  }

  /** The stream's SYN_STREAM is in the queue of its worker. */
  lemma SynQueued() returns (s: State)
    ensures Reachable(s) && s.reader.AtRead? && s.table == map[1 := 0] && s.ids == [1] && s.rxs == [NewRx()]
    ensures s.queues == [[], [Msg(Syn, 0)], [], [], []] && s.workers == INITIAL.workers
    ensures s.routed == [[Syn]] && s.handled == [[]] && s.starts == []
  {
    hide Reachable, MoveWorker, MoveCloser, MovePinger, Dispatch, Register, Reply, Resolve, Send;
    s := Registered();
    assert s.queues[1] + [Msg(Syn, 0)] == [Msg(Syn, 0)] && s.routed[0] + [Syn] == [Syn];
    s := Next(s, ReaderMoves);
  }

  lemma Started() returns (s: State)
    ensures Reachable(s) && s.reader.AtRead? && s.table == map[1 := 0] && s.ids == [1] && s.rxs == [NewRx()]
    ensures s.queues == [[], [], [], [], []] && |s.workers| == N_WORKERS
    ensures s.routed == [[Syn]] && |s.handled| == 1 && s.starts == [0]
  {
    hide Reachable, MoveReader, MoveCloser, MovePinger, Dispatch, Send;
    s := SynQueued();
    s := Next(s, WorkerTakes(1));
    s := Next(s, WorkerMoves(1));
  }

  /** The handler has started, and the last data frame is queued behind. */
  lemma DataQueued() returns (s: State)
    ensures Reachable(s) && Shape(s) && s.reader.AtRead? && s.table == map[1 := 0] && s.ids == [1] && s.rxs == [NewRx()]
    ensures s.routed == [[Syn, LastData]] && s.starts == [0]
  {
    hide Reachable, MoveWorker, MoveCloser, MovePinger, Register, Reply, Resolve, Send;
    s := Started();
    s := Next(s, Arrives(LastData));
    s := Next(s, ReaderMoves);
    assert s.reader == Routing(LastData, 0);
    assert [Syn] + [LastData] == [Syn, LastData];
    s := Next(s, ReaderMoves);
  }

  lemma Swept(s: State) returns (t: State)
    requires Reachable(s) && Shape(s) && s.reader.AtRead? && s.table == map[1 := 0] && s.ids == [1]
    requires s.rxs == [NewRx()]
    ensures Reachable(t) && Shape(t) && t.reader.Flagging? && t.rxs == [Close(NewRx())]
    ensures t.ids == s.ids && t.routed == s.routed && t.starts == s.starts
  {
    hide Reachable, MoveWorker, MoveCloser, MovePinger, Dispatch, Register, Route, Reply, Resolve, Send;
    t := Next(s, ReadFails);
    t := Next(t, ReaderMoves);
    assert t.table[1] == 0 && t.table.Values == {0};
    t := Next(t, SweepOne(0));
    assert t.reader.todo == {};
    t := Next(t, ReaderMoves);
  }

  /**
   * A close call can overtake an acceptance: a stream is registered after a GOAWAY that does not cover it was queued.
   */
  lemma GoAwayMissesAStream()
    ensures exists s :: Reachable(s) && s.ids == [1] && GoAway(0, GoAwayOk) in s.out.enqueued
  {
    hide Reachable, MoveWorker, MovePinger, Dispatch, Route, Reply, Resolve;
    var s := Checked();
    s := Next(s, CallClose);
    s := Next(s, CloserMoves(0));
    assert s.closers == [Sending(0)] && s.reader == Inserting(Syn)
      && s.out == INITIAL.out.(queue := s.out.queue, enqueued := s.out.enqueued);
    s := Next(s, CloserMoves(0));
    assert GoAway(0, GoAwayOk) in s.out.enqueued;
    s := Next(s, ReaderMoves);
  }

  /** Any number of ping calls can be made before the first of them enters its waiter. */
  lemma {:induction false} CallsMade(n: nat) returns (s: State)
    ensures Reachable(s) && !s.reader.Booting? && |s.pingers| == n && s.pingMap == map[]
    ensures forall p :: 0 <= p < n ==> s.pingers[p].at.Registering? && s.pingers[p].resolved == 0
  {
    hide Reachable, MoveReader, MoveWorker, MoveCloser, MovePinger, Dispatch, Send;
    if n == 0 {
      s := Booted();
    } else {
      s := CallsMade(n - 1);
      s := Next(s, CallPing);
    }
  }

  /** Once the ids have gone round, a later ping takes the place of a waiter that is still waiting. */
  lemma PingTakesAPlace()
    ensures exists s, p :: Reachable(s) && IsWaiting(s, p) && !InMap(s, p)
  {
    hide Reachable, MoveReader, MoveWorker, MoveCloser, Dispatch, Send;
    var s := CallsMade(DISTINCT + 1);
    PingIds(s, 0, DISTINCT);
    s := Next(s, PingerMoves(0));
    assert IsWaiting(s, 0) && InMap(s, 0) && s.pingers[DISTINCT].at.Registering?;
    s := Next(s, PingerMoves(DISTINCT));
    assert IsWaiting(s, 0) && !InMap(s, 0);
  }
}
