/**
 * The connection with the reply gate of each of its streams: handlers send replies and data only through the gate, and
 * the worker's SYN_REPLY opens it. What the gates log is what the streams' frames in the write queue are, so all that
 * is proved of one gate holds of the wire.
 */
module Joint {
  import opened Octets
  import opened Frame
  import opened Connection
  import opened Frames
  import opened Registry
  import SendHalf
  import Routing
  import G = ReplyGate
  import Fin = FinDiscipline

  datatype Joint = Joint(conn: State, gates: seq<G.Gate>)

  /**
   * A step of the connection, or of the gate of stream o; `frame` is what a gate step that sends puts into the queue.
   */
  datatype Move = Conn(a: Action) | Gate(o: nat, act: G.Act, frame: Frame)

  /** The step waits for the write queue. */
  predicate AtSend(g: G.Gate, act: G.Act)
    requires G.Can(g, act)
  {
    match act
    case ReplierMoves(r, _) => g.repliers[r].at.Sending?
    case CallerMoves(c, _) => g.callers[c].at.Writing?
    case _ => false
  }

  function EntryOf(g: G.Gate, act: G.Act): G.Sent
    requires G.Can(g, act) && AtSend(g, act)
  {
    if act.ReplierMoves? then G.Reply(g.repliers[act.r].headers, g.repliers[act.r].fin)
    else G.DataOf(act.c, g.callers[act.c].data, g.callers[act.c].fin)
  }

  /** The frame that a log entry of a stream stands for. */
  predicate Stands(f: Frame, id: u32, e: G.Sent) {
    match e
    case Reply(headers, fin) => f == SynReply(id, headers, if fin then 1 else 0)
    case DataOf(_, data, fin) => f == Data(id, if fin then 1 else 0, data)
  }

  predicate CanMove(j: Joint, m: Move) {
    match m
    case Conn(a) => Can(j.conn, a) && (a.HandlerSends? ==> a.frame.RstStream?)
    case Gate(o, act, f) =>
      && o < |j.gates| && o < |j.conn.ids| && o in j.conn.starts && G.Can(j.gates[o], act) && !act.PeerReply?
      && (AtSend(j.gates[o], act) ==>
            IsOpen(act) == j.conn.out.alive && CanSend(j.conn.out)
            && Stands(f, j.conn.ids[o], EntryOf(j.gates[o], act)))
  }

  predicate IsOpen(act: G.Act) {
    match act
    case ReplierMoves(_, open) => open
    case CallerMoves(_, open) => open
    case _ => false
  }

  /** The stream whose SYN_REPLY a worker acts on with the step. */
  function RepliedTo(s: State, a: Action): Option<nat>
    requires Can(s, a)
  {
    if a.WorkerMoves? && s.workers[a.w].Handling? && s.workers[a.w].msg.frame.SynReply?
        then Some(s.workers[a.w].msg.obj)
    else None
  }

  function GatesAfter(j: Joint, a: Action): seq<G.Gate>
    requires Can(j.conn, a)
  {
    var peer := RepliedTo(j.conn, a);
    if |Step(j.conn, a).ids| > |j.conn.ids| then j.gates + [G.Fresh]
    else if peer.Some? && peer.value < |j.gates| then
      j.gates[peer.value := G.Step(j.gates[peer.value], G.PeerReply)]
    else j.gates
  }

  function Go(j: Joint, m: Move): Joint
    requires CanMove(j, m)
  {
    match m
    case Conn(a) => Joint(Step(j.conn, a), GatesAfter(j, a))
    case Gate(o, act, f) =>
      Joint(if AtSend(j.gates[o], act) then Step(j.conn, HandlerSends(o, f)) else j.conn,
            j.gates[o := G.Step(j.gates[o], act)])
  }

  function Run(moves: seq<Move>): Option<Joint> {
    if moves == [] then Some(Joint(INITIAL, []))
    else match Run(moves[..|moves| - 1])
      case None => None
      case Some(j) => if CanMove(j, moves[|moves| - 1]) then Some(Go(j, moves[|moves| - 1])) else None
  }

  ghost predicate Reachable(j: Joint) {
    exists moves :: Run(moves) == Some(j)
  }

  // ---------------------------------------------------------------------------
  // The queue against the logs
  // ---------------------------------------------------------------------------

  predicate IsGated(f: Frame) {
    f.SynReply? || f.Data?
  }

  /** A stream's replies and data among the frames. */
  function OfStream(fs: seq<Frame>, id: u32): seq<Frame> {
    if fs == [] then []
    else
      var n := |fs| - 1;
      OfStream(fs[..n], id) + if IsGated(fs[n]) && fs[n].streamId == id then [fs[n]] else []
  }

  lemma OfStreamAppend(fs: seq<Frame>, f: Frame, id: u32)
    ensures OfStream(fs + [f], id) == OfStream(fs, id) + if IsGated(f) && f.streamId == id then [f] else []
  {
    assert (fs + [f])[..|fs|] == fs;
  }

  lemma {:induction false} NoneOfStream(fs: seq<Frame>, id: u32)
    requires forall f :: f in fs && IsGated(f) ==> f.streamId != id
    ensures OfStream(fs, id) == []
    decreases |fs|
  {
    if fs != [] {
      assert fs[|fs| - 1] in fs;
      NoneOfStream(fs[..|fs| - 1], id);
    }
  }

  ghost predicate IsLog(fs: seq<Frame>, id: u32, log: seq<G.Sent>) {
    |fs| == |log| && forall i :: 0 <= i < |fs| ==> Stands(fs[i], id, log[i])
  }

  ghost predicate HasPeerReply(handled: seq<Frame>) {
    exists f :: f in handled && f.SynReply?
  }

  ghost predicate GatesInv(s: State, gates: seq<G.Gate>) {
    && |gates| == |s.ids| == |s.handled|
    && (forall o :: 0 <= o < |gates| ==> G.Reachable(gates[o]))
    && (forall o :: 0 <= o < |gates| ==> IsLog(OfStream(s.out.enqueued, s.ids[o]), s.ids[o], gates[o].log))
    && (forall o :: 0 <= o < |gates| ==> G.NoPeer(gates[o]) || HasPeerReply(s.handled[o]))
    && (forall f :: f in s.out.enqueued && IsGated(f) ==> f.streamId in s.ids)
  }

  ghost predicate JointInv(j: Joint) {
    Connection.Reachable(j.conn) && GatesInv(j.conn, j.gates)
  }

  /** Nobody but a handler sends replies or data. */
  lemma OthersSendNone(s: State, a: Action)
    requires BaseInv(s) && Can(s, a) && (a.HandlerSends? ==> a.frame.RstStream?)
    ensures Emitted(s, a) == [] || (|Emitted(s, a)| == 1 && !IsGated(Emitted(s, a)[0]))
  {
    hide WorkersInv, QueuesInv, TableInv, Accepted, LastInv;
  }

  lemma SameQueue(s: State, a: Action)
    requires BaseInv(s) && Can(s, a) && (a.HandlerSends? ==> a.frame.RstStream?)
    ensures forall id :: OfStream(Step(s, a).out.enqueued, id) == OfStream(s.out.enqueued, id)
    ensures forall f :: f in Step(s, a).out.enqueued && IsGated(f) ==> f in s.out.enqueued
  {
    hide Step, Can, Emitted, BaseInv, OfStream;
    EnqueuedFrame(s, a);
    OthersSendNone(s, a);
    var e := s.out.enqueued;
    if Emitted(s, a) == [] {
      assert e + [] == e;
    } else {
      var f := Emitted(s, a)[0];
      assert Emitted(s, a) == [f];
      forall id ensures OfStream(e + [f], id) == OfStream(e, id) {
        OfStreamAppend(e, f, id);
        assert OfStream(e, id) + [] == OfStream(e, id);
      }
    }
  }

  /** What a step of the connection does to ids and to the frames acted on. */
  lemma HandledAfter(s: State, a: Action)
    requires BaseInv(s) && Can(s, a)
    ensures var t := Step(s, a);
      || (t.ids == s.ids && t.handled == s.handled && RepliedTo(s, a).None?)
      || (t.ids == s.ids && |t.handled| == |s.handled| && a.WorkerMoves? && s.workers[a.w].Handling?
          && var m := s.workers[a.w].msg;
             m.obj < |s.handled| && t.handled == s.handled[m.obj := s.handled[m.obj] + [m.frame]])
      || (s.reader.Inserting? && s.reader.syn.SynStream? && t.ids == s.ids + [s.reader.syn.streamId]
          && t.handled == s.handled + [[]] && s.reader.syn.streamId !in s.ids)
  {
    hide Step, Can, MoveReader, MoveWorker, WorkersInv, QueuesInv, TableInv;
    StepIs(s, a);
    StreamsFrame(s, a);
    if a.ReaderMoves? {
      if s.reader.Inserting? {
        InsertIsNew(s);
        ReaderFrame(s);
        NewestBounds(s.ids);
      } else {
        ReaderKeeps(s);
      }
    } else if a.WorkerMoves? {
      WorkerFrame(s, a.w);
      if s.workers[a.w].Handling? { WorkerHandles(s, a.w); }
    }
  }

  lemma WorkerHandles(s: State, w: nat)
    requires WorkerCanMove(s, w) && s.workers[w].Handling?
    ensures var m := s.workers[w].msg;
      m.obj < |s.handled| && MoveWorker(s, w).handled == s.handled[m.obj := s.handled[m.obj] + [m.frame]]
  {
    hide Handle;
    Routing.HandleEffects(s, w, s.workers[w].msg);
  }

  lemma ConnKept(j: Joint, a: Action)
    requires GatesInv(j.conn, j.gates) && BaseInv(j.conn) && CanMove(j, Conn(a))
    ensures GatesInv(Step(j.conn, a), GatesAfter(j, a))
  {
    hide Step, Can, BaseInv, OfStream, RepliedTo, IsLog, G.Reachable, HasPeerReply, G.NoPeer;
    var s, t := j.conn, Step(j.conn, a);
    SameQueue(s, a);
    HandledAfter(s, a);
    if |t.ids| > |s.ids| {
      NewGate(j, a);
    } else if RepliedTo(s, a).Some? {
      PeerOpens(j, a);
    } else {
      forall o | 0 <= o < |j.gates| ensures G.NoPeer(j.gates[o]) || HasPeerReply(t.handled[o]) {
        HandledGrows(s, a, o);
      }
    }
  }

  lemma HandledGrows(s: State, a: Action, o: nat)
    requires BaseInv(s) && Can(s, a) && o < |s.handled| && |Step(s, a).ids| == |s.ids|
    ensures o < |Step(s, a).handled| && (HasPeerReply(s.handled[o]) ==> HasPeerReply(Step(s, a).handled[o]))
  {
    hide Step, Can, BaseInv, RepliedTo;
    HandledAfter(s, a);
  }

  lemma NewGate(j: Joint, a: Action)
    requires GatesInv(j.conn, j.gates) && BaseInv(j.conn) && CanMove(j, Conn(a))
    requires |Step(j.conn, a).ids| > |j.conn.ids|
    ensures GatesInv(Step(j.conn, a), j.gates + [G.Fresh])
  {
    hide Step, Can, BaseInv, OfStream, RepliedTo, HasPeerReply;
    var s, t := j.conn, Step(j.conn, a);
    SameQueue(s, a);
    HandledAfter(s, a);
    NoneOfStream(s.out.enqueued, s.reader.syn.streamId);
    assert G.Run([]) == Some(G.Fresh);
    hide G.Reachable, IsLog;
    var gates := j.gates + [G.Fresh];
    FreshLog(s.reader.syn.streamId);
    forall o | 0 <= o < |gates|
      ensures G.Reachable(gates[o]) && (G.NoPeer(gates[o]) || HasPeerReply(t.handled[o]))
      ensures IsLog(OfStream(t.out.enqueued, t.ids[o]), t.ids[o], gates[o].log)
    {
      if o < |j.gates| { assert gates[o] == j.gates[o] && t.ids[o] == s.ids[o] && t.handled[o] == s.handled[o]; }
    }
  }

  lemma FreshLog(id: u32)
    ensures IsLog([], id, G.Fresh.log)
    ensures G.Reachable(G.Fresh) && G.NoPeer(G.Fresh)
  {
    assert G.Run([]) == Some(G.Fresh);
  }

  lemma PeerOpens(j: Joint, a: Action)
    requires GatesInv(j.conn, j.gates) && BaseInv(j.conn) && CanMove(j, Conn(a))
    requires |Step(j.conn, a).ids| == |j.conn.ids| && RepliedTo(j.conn, a).Some?
    ensures GatesInv(Step(j.conn, a), GatesAfter(j, a))
  {
    var s, t, p := j.conn, Step(j.conn, a), RepliedTo(j.conn, a).value;
    SameQueue(s, a);
    HandledAfter(s, a);
    var m := s.workers[a.w].msg;
    assert m.frame in s.handled[p] + [m.frame];
    G.ReachStep(j.gates[p], G.PeerReply);
    hide Step, Can, BaseInv, OfStream, G.Reachable, G.Can, IsLog;
    var gates := GatesAfter(j, a);
    forall o | 0 <= o < |gates| ensures G.NoPeer(gates[o]) || HasPeerReply(t.handled[o]) {
      if o != p { assert gates[o] == j.gates[o] && t.handled[o] == s.handled[o]; }
    }
  }

  lemma GateEffects(g: G.Gate, act: G.Act)
    requires G.Can(g, act)
    ensures G.Step(g, act).log == if AtSend(g, act) && IsOpen(act) then g.log + [EntryOf(g, act)] else g.log
    ensures !act.PeerReply? ==> (G.NoPeer(g) ==> G.NoPeer(G.Step(g, act)))
  {
    match act
    case ReplierMoves(r, open) =>
      var h := G.Step(g, act);
      assert h.repliers[r].fromPeer == g.repliers[r].fromPeer;
    case CallerMoves(c, open) =>
    case _ =>
  }

  lemma LogGrows(fs: seq<Frame>, id: u32, log: seq<G.Sent>, f: Frame, e: G.Sent)
    requires IsLog(fs, id, log) && Stands(f, id, e)
    ensures IsLog(fs + [f], id, log + [e])
  {
  }

  /** One gate moves on without a send. */
  lemma QuietGate(s: State, gates: seq<G.Gate>, o: nat, h: G.Gate)
    requires GatesInv(s, gates) && o < |gates| && G.Reachable(h)
    requires h.log == gates[o].log && (G.NoPeer(gates[o]) ==> G.NoPeer(h))
    ensures GatesInv(s, gates[o := h])
  {
    hide OfStream, G.Reachable, G.NoPeer, HasPeerReply, IsLog;
  }

  /** One gate sends: its frame is the stream's newest in the queue and its entry the newest in the log. */
  lemma SendingGate(s: State, t: State, gates: seq<G.Gate>, o: nat, h: G.Gate, f: Frame, e: G.Sent)
    requires GatesInv(s, gates) && Accepted(s.ids) && o < |gates| && G.Reachable(h) && Stands(f, s.ids[o], e)
    requires h.log == gates[o].log + [e] && (G.NoPeer(gates[o]) ==> G.NoPeer(h))
    requires t.ids == s.ids && t.handled == s.handled && t.out.enqueued == s.out.enqueued + [f]
    ensures GatesInv(t, gates[o := h])
  {
    var q, after := s.out.enqueued, gates[o := h];
    LogGrows(OfStream(q, s.ids[o]), s.ids[o], gates[o].log, f, e);
    OthersDiffer(s.ids, o);
    assert s.ids[o] in s.ids;
    hide OfStream, G.Reachable, G.NoPeer, HasPeerReply, Accepted, IsLog;
    forall p | 0 <= p < |gates| ensures IsLog(OfStream(q + [f], s.ids[p]), s.ids[p], after[p].log) {
      OfStreamAppend(q, f, s.ids[p]);
      assert OfStream(q, s.ids[p]) + [] == OfStream(q, s.ids[p]);
    }
  }

  lemma HandlerSendIs(s: State, o: nat, f: Frame)
    requires Can(s, HandlerSends(o, f))
    ensures var t := Step(s, HandlerSends(o, f));
      && t.ids == s.ids && t.handled == s.handled
      && (if s.out.alive then t.out.enqueued == s.out.enqueued + [f] else t == s)
  {
  }

  lemma GateKept(j: Joint, o: nat, act: G.Act, f: Frame)
    requires GatesInv(j.conn, j.gates) && Accepted(j.conn.ids) && CanMove(j, Gate(o, act, f))
    ensures CanStep(j, o, act, f)
    ensures GatesInv(Go(j, Gate(o, act, f)).conn, Go(j, Gate(o, act, f)).gates)
  {
    var s, g := j.conn, j.gates[o];
    var h := G.Step(g, act);
    G.ReachStep(g, act);
    GateEffects(g, act);
    if AtSend(g, act) { HandlerSendIs(s, o, f); }
    hide GatesInv, G.Reachable, G.Step, G.NoPeer, Accepted, Step;
    if AtSend(g, act) && s.out.alive {
      SendingGate(s, Step(s, HandlerSends(o, f)), j.gates, o, h, f, EntryOf(g, act));
    } else {
      QuietGate(s, j.gates, o, h);
    }
  }

  /** The step on the connection's side can happen, too. */
  ghost predicate CanStep(j: Joint, o: nat, act: G.Act, f: Frame)
    requires CanMove(j, Gate(o, act, f))
  {
    AtSend(j.gates[o], act) ==> Can(j.conn, HandlerSends(o, f))
  }

  lemma OthersDiffer(ids: seq<u32>, o: nat)
    requires Accepted(ids) && o < |ids|
    ensures forall p :: 0 <= p < |ids| && p != o ==> ids[p] != ids[o]
  {
  }

  lemma {:induction false} RunJoint(moves: seq<Move>)
    requires Run(moves).Some?
    ensures JointInv(Run(moves).value)
    decreases |moves|
  {
    if moves == [] {
      assert Connection.Run([]) == Some(INITIAL);
    } else {
      hide Connection.Reachable, GatesInv, Step, Can, BaseInv, GatesAfter;
      var j, m := Run(moves[..|moves| - 1]).value, moves[|moves| - 1];
      RunJoint(moves[..|moves| - 1]);
      ReachableBase(j.conn);
      match m
      case Conn(a) =>
        ConnKept(j, a);
        ReachStep(j.conn, a);
      case Gate(o, act, f) =>
        IdsAccepted(j.conn);
        GateKept(j, o, act, f);
        if AtSend(j.gates[o], act) { ReachStep(j.conn, HandlerSends(o, f)); }
    }
  }

  lemma IdsAccepted(s: State)
    requires BaseInv(s)
    ensures Accepted(s.ids)
  {
  }

  // ---------------------------------------------------------------------------
  // Results
  // ---------------------------------------------------------------------------

  /**
   * In every joint run the connection is in a reachable state, each stream's gate is, and the stream's replies and data
   * in the write queue are, one by one and in order, what its gate logged.
   */
  lemma QueueIsTheLog(j: Joint, o: nat)
    requires Reachable(j) && o < |j.gates|
    ensures Connection.Reachable(j.conn) && G.Reachable(j.gates[o]) && o < |j.conn.ids| && o < |j.conn.handled|
    ensures IsLog(OfStream(j.conn.out.enqueued, j.conn.ids[o]), j.conn.ids[o], j.gates[o].log)
    ensures G.NoPeer(j.gates[o]) || HasPeerReply(j.conn.handled[o])
  {
    hide Connection.Reachable, G.Reachable, IsLog;
    var moves :| Run(moves) == Some(j);
    RunJoint(moves);
  }

  /**
   * What a handler writes is what is queued: each of a stream's data frames in the write queue has the payload, and FIN
   * exactly if asked, of a write_data call on that stream, each call's at most once, and the call is done.
   */
  lemma QueueHasThePayloads(j: Joint, o: nat) returns (acts: seq<G.Act>, writers: seq<nat>)
    requires Reachable(j) && o < |j.gates|
    ensures o < |j.conn.ids| && G.Run(acts) == Some(j.gates[o])
    ensures var sent, made := OfStream(j.conn.out.enqueued, j.conn.ids[o]), G.WritesMade(acts);
      && |writers| == |sent| && |made| == |j.gates[o].callers|
      && (forall i :: 0 <= i < |sent| && sent[i].Data? ==>
            writers[i] < |made| && j.gates[o].callers[writers[i]].at.Written?
            && sent[i] == Data(j.conn.ids[o], if made[writers[i]].1 then 1 else 0, made[writers[i]].0))
      && (forall i, k :: 0 <= i < k < |sent| && sent[i].Data? && sent[k].Data? ==> writers[i] != writers[k])
  {
    hide Reachable, OfStream, HasPeerReply, G.WrittenAt;
    QueueIsTheLog(j, o);
    acts :| G.Run(acts) == Some(j.gates[o]);
    G.LogIsTheWrites(acts);
    var g, id, sent := j.gates[o], j.conn.ids[o], OfStream(j.conn.out.enqueued, j.conn.ids[o]);
    writers := seq(|g.log|, i requires 0 <= i < |g.log| => if g.log[i].DataOf? then g.log[i].caller else 0);
    forall i | 0 <= i < |sent| && sent[i].Data? ensures g.log[i].DataOf? && G.IsWriteOf(g, g.log[i]) {
      assert Stands(sent[i], id, g.log[i]);
    }
    forall i | 0 <= i < |sent| ensures Stands(sent[i], id, g.log[i]) {}
  }

  /** No data of a stream precedes its SYN_REPLY in the write queue unless a worker has acted on the peer's. */
  lemma ReplyPrecedesData(j: Joint, o: nat)
    requires Reachable(j) && o < |j.gates|
    ensures o < |j.conn.ids| && o < |j.conn.handled|
    ensures var sent := OfStream(j.conn.out.enqueued, j.conn.ids[o]);
      sent != [] && !sent[0].SynReply? ==> HasPeerReply(j.conn.handled[o])
  {
    hide Reachable, OfStream, HasPeerReply;
    QueueIsTheLog(j, o);
    G.ReplyComesFirst(j.gates[o]);
    var sent := OfStream(j.conn.out.enqueued, j.conn.ids[o]);
    if sent != [] { assert Stands(sent[0], j.conn.ids[o], j.gates[o].log[0]); }
  }

  /** A FIN is the last of a stream's frames in the write queue exactly if it is the last its gate logged. */
  lemma FinLastInQueue(j: Joint, o: nat)
    requires Reachable(j) && o < |j.gates|
    ensures o < |j.conn.ids|
    ensures var sent := OfStream(j.conn.out.enqueued, j.conn.ids[o]);
      (forall i :: 0 <= i < |sent| && SendHalf.IsFin(sent[i]) ==> i == |sent| - 1) <==> Fin.FinIsLast(j.gates[o].log)
    ensures Fin.Safe(j.gates[o]) ==> Fin.FinIsLast(j.gates[o].log)
  {
    hide Reachable, OfStream, HasPeerReply;
    QueueIsTheLog(j, o);
    var sent, log := OfStream(j.conn.out.enqueued, j.conn.ids[o]), j.gates[o].log;
    forall i | 0 <= i < |sent| ensures SendHalf.IsFin(sent[i]) <==> Fin.IsFin(log[i]) {
      assert Stands(sent[i], j.conn.ids[o], log[i]);
    }
  }
}
