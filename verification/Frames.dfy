/** What each kind of step leaves alone. */
module Frames {
  import opened Octets
  import opened Frame
  import opened Receive
  import opened Connection

  lemma DispatchFrame(s: State, f: Frame)
    ensures var t := Dispatch(s, f);
      t == s.(reader := t.reader, log := s.log.(inbound := s.log.inbound + [f]))
  {
  }

  lemma RouteFrame(s: State, f: Frame, obj: nat)
    requires HasStreamId(f) && HasRoom(s, f.streamId) && obj < |s.routed|
    ensures var t := Route(s, f, obj);
      t == s.(queues := t.queues, routed := t.routed, log := s.log.(routed := s.log.routed + [f]), reader := AtRead)
  {
  }

  lemma ResolveFrame(s: State, id: u32)
    ensures var t := Resolve(s, id);
      t == s.(pingMap := t.pingMap, pingers := t.pingers, reader := AtRead)
  {
  }

  lemma RegisterFrame(s: State, syn: Frame)
    requires syn.SynStream?
    ensures var t := Register(s, syn);
      t == s.(table := t.table, ids := t.ids, rxs := t.rxs, routed := t.routed,
            handled := t.handled, reader := t.reader)
  {
  }

  lemma HandleFrame(s: State, w: nat, m: Msg)
    requires w < |s.workers| && m.obj < |s.rxs| && m.obj < |s.handled|
    ensures var t := Handle(s, w, m);
      t == s.(rxs := t.rxs, workers := t.workers, handled := t.handled, starts := t.starts)
  {
    hide Push, Close;
    match m.frame
    case SynStream(_, _, _, _, _) =>
    case Data(_, _, _) =>
    case RstStream(_, _) =>
    case SynReply(_, _, _) =>
    case Headers(_, _, _) =>
    case _ =>
  }

  lemma WorkerFrame(s: State, w: nat)
    requires WorkerCanMove(s, w)
    ensures var t := MoveWorker(s, w);
      t == s.(table := t.table, rxs := t.rxs, workers := t.workers, handled := t.handled, starts := t.starts)
    ensures !s.workers[w].Removing? ==> MoveWorker(s, w).table == s.table
    ensures !s.workers[w].Handling? ==> MoveWorker(s, w).handled == s.handled && MoveWorker(s, w).starts == s.starts
  {
    hide Handle;
    match s.workers[w]
    case Handling(m) => HandleFrame(s, w, m);
    case _ =>
  }

  lemma CloserFrame(s: State, c: nat)
    requires c < |s.closers|
    ensures var t := MoveCloser(s, c);
      t == s.(out := t.out, closers := t.closers, closeFlag := t.closeFlag)
  {
  }

  lemma PingerFrame(s: State, p: nat)
    requires p < |s.pingers|
    ensures var t := MovePinger(s, p);
      t == s.(out := t.out, pingMap := t.pingMap, pingers := t.pingers)
  {
    hide Send;
    match s.pingers[p].at
    case Registering =>
    case SendingPing =>
    case _ =>
  }

  /** The reader's step, by what it may touch. */
  lemma ReaderFrame(s: State)
    requires ReaderCanMove(s)
    ensures var t := MoveReader(s);
      match s.reader
      case StoringLast(syn, obj) => t == s.(lastId := syn.streamId, reader := RoutingSyn(syn, obj))
      case Inserting(syn) =>
        if syn.streamId in s.table then t == s.(reader := ReplyingLocked(RstStream(syn.streamId, StreamInUse)))
        else t == Register(s, syn)
      case RoutingSyn(syn, obj) => t == Route(s, syn, obj)
      case Routing(f, obj) => t == Route(s, f, obj)
      case Replying(f) => t == Reply(s, f)
      case ReplyingLocked(f) => t == Reply(s, f)
      case Resolving(id) => t == Resolve(s, id)
      case StoringGone => t == s.(goneAway := true, reader := FlaggingGone)
      case FlaggingGone => t == s.(closeFlag := true, reader := SweepStarting)
      case Flagging => t == s.(closeFlag := true, reader := Ended)
      case CheckingLast(syn) =>
        t == s.(reader := if syn.streamId <= s.lastId then Replying(RstStream(syn.streamId, ProtocolError))
                                  else CheckingGone(syn))
      case CheckingGone(syn) =>
        t == s.(reader := if s.goneAway then Replying(RstStream(syn.streamId, RefusedStream)) else Inserting(syn))
      case LookingUp(f) =>
        t == s.(reader := if f.streamId in s.table then Routing(f, s.table[f.streamId])
                          else if f.Data? then Replying(RstStream(f.streamId, InvalidStream)) else AtRead)
      case SweepStarting => t == s.(reader := Sweeping(s.table.Values))
      case Sweeping(_) => t == s.(reader := Connection.Reader.Flagging)
      case _ => true
  {
    hide Route, Resolve, Register, Reply;
  }

  /** Where the reader goes, apart from everything else it changes. */
  lemma ReaderGoesTo(s: State)
    requires ReaderCanMove(s)
    ensures var r := MoveReader(s).reader;
      match s.reader
      case CheckingLast(syn) =>
        r == if syn.streamId <= s.lastId then Replying(RstStream(syn.streamId, ProtocolError)) else CheckingGone(syn)
      case CheckingGone(syn) =>
        r == if s.goneAway then Replying(RstStream(syn.streamId, RefusedStream)) else Inserting(syn)
      case Inserting(syn) =>
        r == if syn.streamId in s.table then ReplyingLocked(RstStream(syn.streamId, StreamInUse))
             else StoringLast(syn, |s.ids|)
      case StoringLast(syn, obj) => r == RoutingSyn(syn, obj)
      case LookingUp(f) =>
        r == if f.streamId in s.table then Routing(f, s.table[f.streamId])
             else if f.Data? then Replying(RstStream(f.streamId, InvalidStream)) else AtRead
      case StoringGone => r == FlaggingGone
      case FlaggingGone => r == SweepStarting
      case SweepStarting => r == Sweeping(s.table.Values)
      case Sweeping(_) => r == Connection.Reader.Flagging
      case Flagging => r == Ended
      case _ => r == AtRead
  {
    hide MoveReader, Route, Resolve, Send;
    ReaderFrame(s);
    match s.reader
    case RoutingSyn(syn, obj) => RouteFrame(s, syn, obj);
    case Routing(f, obj) => RouteFrame(s, f, obj);
    case Resolving(id) => ResolveFrame(s, id);
    case _ =>
  }

  lemma ReaderNext(s: State)
    requires ReaderCanMove(s)
    ensures var t := MoveReader(s);
      && (!s.reader.Inserting? ==> !t.reader.StoringLast?)
      && (t.reader.Inserting? ==> s.reader.CheckingGone? && s.reader.syn == t.reader.syn && !s.goneAway)
      && (t.reader.RoutingSyn? ==> s.reader.StoringLast? && s.reader.obj == t.reader.obj)
      && (t.reader.StoringLast? ==> s.reader.Inserting? && t.reader.obj == |s.ids|)
      && (s.reader.RoutingSyn? || s.reader.Routing? ==> t.reader.AtRead?)
      && (s.reader.StoringLast? ==> t.reader.RoutingSyn?)
  {
    hide MoveReader, Send, Route, Resolve;
    ReaderFrame(s);
    match s.reader
    case RoutingSyn(syn, obj) => RouteFrame(s, syn, obj);
    case Routing(f, obj) => RouteFrame(s, f, obj);
    case Resolving(id) => ResolveFrame(s, id);
    case _ =>
  }

  predicate TouchesOutbox(a: Action) {
    a.Boot? || a.ReaderMoves? || a.WriterTakes? || a.WriterWrites? || a.WriterFails? || a.CloserMoves? || a.PingerMoves?
    || a.HandlerSends?
  }

  lemma ReaderKeeps(s: State)
    requires ReaderCanMove(s)
    ensures var t := MoveReader(s);
      && t.workers == s.workers && t.starts == s.starts && t.nextPing == s.nextPing && t.closers == s.closers
      && t.carried == s.carried
      && (!s.reader.Inserting? ==> t.table == s.table && t.ids == s.ids && t.rxs == s.rxs && t.handled == s.handled)
      && (!s.reader.StoringLast? ==> t.lastId == s.lastId)
      && (!s.reader.RoutingSyn? && !s.reader.Routing? ==> t.queues == s.queues && t.log.routed == s.log.routed)
      && (!s.reader.RoutingSyn? && !s.reader.Routing? && !s.reader.Inserting? ==> t.routed == s.routed)
      && (!s.reader.Resolving? ==> t.pingMap == s.pingMap && t.pingers == s.pingers)
      && (!s.reader.Replying? && !s.reader.ReplyingLocked? ==> t.out == s.out)
      && (!s.reader.StoringGone? ==> t.goneAway == s.goneAway)
      && (!s.reader.FlaggingGone? && !s.reader.Flagging? ==> t.closeFlag == s.closeFlag)
      && t.log.inbound == s.log.inbound
      && (!s.reader.Inserting? ==> !t.reader.StoringLast?)
      && (t.reader.Inserting? ==> s.reader.CheckingGone? && s.reader.syn == t.reader.syn && !s.goneAway)
  {
    hide MoveReader, Route, Resolve, Register;
    ReaderFrame(s);
    ReaderNext(s);
    match s.reader
    case Inserting(syn) => RegisterFrame(s, syn);
    case RoutingSyn(syn, obj) => RouteFrame(s, syn, obj);
    case Routing(f, obj) => RouteFrame(s, f, obj);
    case Resolving(id) => ResolveFrame(s, id);
    case _ =>
  }

  /** The steps with a body of their own. */
  lemma StepIs(s: State, a: Action)
    requires Can(s, a)
    ensures a.ReaderMoves? ==> ReaderCanMove(s) && Step(s, a) == MoveReader(s)
    ensures a.WorkerMoves? ==> WorkerCanMove(s, a.w) && Step(s, a) == MoveWorker(s, a.w)
    ensures a.Arrives? ==> s.reader.AtRead? && IsDecoded(a.frame) && Step(s, a) == Dispatch(s, a.frame)
    ensures a.CloserMoves? ==> CloserCanMove(s, a.c) && Step(s, a) == MoveCloser(s, a.c)
    ensures a.PingerMoves? ==> PingerCanMove(s, a.p) && Step(s, a) == MovePinger(s, a.p)
    ensures a.Boot? ==> s.reader.Booting? && Step(s, a) == s.(reader := AtRead, out := Send(s.out, InitialSettings()))
    ensures a.ReadFails? ==> s.reader.AtRead? && Step(s, a) == s.(reader := SweepStarting)
    ensures a.WorkerTakes? ==>
      a.w < |s.queues| && a.w < |s.workers| && s.workers[a.w].Resting? && s.queues[a.w] != [] &&
      Step(s, a) == SetWorker(s.(queues := s.queues[a.w := s.queues[a.w][1..]]), a.w, Handling(s.queues[a.w][0]))
    ensures a.SweepOne? ==>
      s.reader.Sweeping? && a.obj in s.reader.todo && a.obj < |s.rxs| &&
      Step(s, a) == SetRx(s, a.obj, Close(s.rxs[a.obj])).(reader := Sweeping(s.reader.todo - {a.obj}))
    ensures a.HandlerReads? ==>
      a.obj in s.starts && a.obj < |s.rxs| && CanRead(s.rxs[a.obj], a.step) &&
      Step(s, a) == SetRx(s, a.obj, Read(s.rxs[a.obj], a.step).0)
  {
    hide Dispatch, MoveReader, MoveWorker, MoveCloser, MovePinger, SetWorker, SetRx, Close, Read;
    hide ReaderCanMove, WorkerCanMove, CloserCanMove, PingerCanMove, IsDecoded;
  }

  /** Which components of the registered streams a step can change, by its kind. */
  lemma StreamsFrame(s: State, a: Action)
    requires Can(s, a)
    ensures var t := Step(s, a);
      && (!a.ReaderMoves? ==> t.ids == s.ids && t.lastId == s.lastId && t.routed == s.routed)
      && (!a.ReaderMoves? && !a.WorkerMoves? ==> t.table == s.table && t.handled == s.handled)
      && (!a.ReaderMoves? && !a.WorkerMoves? && !a.SweepOne? && !a.HandlerReads? ==> t.rxs == s.rxs)
  {
    hide Dispatch, MoveReader, MoveWorker, MoveCloser, MovePinger, Close, Read, Send, ReaderCanMove, WorkerCanMove;
    match a
    case ReaderMoves => ReaderKeeps(s);
    case Arrives(f) => DispatchFrame(s, f);
    case WorkerMoves(w) => WorkerFrame(s, w);
    case CloserMoves(c) => CloserFrame(s, c);
    case PingerMoves(p) => PingerFrame(s, p);
    case _ =>
  }

  /** Which components of the tasks a step can change, by its kind. */
  lemma TasksFrame(s: State, a: Action)
    requires Can(s, a)
    ensures var t := Step(s, a);
      && (!a.ReaderMoves? && !a.WorkerTakes? ==> t.queues == s.queues)
      && (!a.WorkerTakes? && !a.WorkerMoves? ==> t.workers == s.workers)
      && (!a.WorkerMoves? ==> t.starts == s.starts)
      && (!ReaderActs(a) ==> t.reader == s.reader)
  {
    hide Dispatch, MoveReader, MoveWorker, MoveCloser, MovePinger, Close, Read, Send, ReaderCanMove, WorkerCanMove;
    match a
    case ReaderMoves => ReaderKeeps(s);
    case Arrives(f) => DispatchFrame(s, f);
    case WorkerMoves(w) => WorkerFrame(s, w);
    case CloserMoves(c) => CloserFrame(s, c);
    case PingerMoves(p) => PingerFrame(s, p);
    case _ =>
  }

  predicate ReaderActs(a: Action) {
    a.Boot? || a.Arrives? || a.ReadFails? || a.ReaderMoves? || a.SweepOne?
  }

  /** Which components of pings and outgoing frames a step can change, by its kind. */
  lemma PingsFrame(s: State, a: Action)
    requires Can(s, a)
    ensures var t := Step(s, a);
      && (!a.CallPing? ==> t.nextPing == s.nextPing)
      && (!a.ReaderMoves? && !a.PingerMoves? ==> t.pingMap == s.pingMap)
      && (!a.CallPing? && !a.PingerMoves? && !a.PingerTimesOut? && !a.ReaderMoves? ==> t.pingers == s.pingers)
      && (!a.Arrives? && !a.ReaderMoves? ==> t.log == s.log)
      && (!TouchesOutbox(a) ==> t.out == s.out)
  {
    hide Dispatch, MoveReader, MoveWorker, MoveCloser, MovePinger, Close, Read, Send, ReaderCanMove, WorkerCanMove;
    match a
    case ReaderMoves => ReaderKeeps(s);
    case Arrives(f) => DispatchFrame(s, f);
    case WorkerMoves(w) => WorkerFrame(s, w);
    case CloserMoves(c) => CloserFrame(s, c);
    case PingerMoves(p) => PingerFrame(s, p);
    case _ =>
  }

  /** Which components of closing a step can change, by its kind. */
  lemma ClosingFrame(s: State, a: Action)
    requires Can(s, a)
    ensures var t := Step(s, a);
      && (!a.CallClose? && !a.CloserMoves? ==> t.closers == s.closers)
      && (!a.CallClose? ==> t.carried == s.carried)
      && (!a.CallClose? && !a.ReaderMoves? ==> t.goneAway == s.goneAway)
      && (!a.CloserMoves? && !a.ReaderMoves? ==> t.closeFlag == s.closeFlag)
  {
    hide Dispatch, MoveReader, MoveWorker, MoveCloser, MovePinger, Close, Read, Send, ReaderCanMove, WorkerCanMove;
    match a
    case ReaderMoves => ReaderKeeps(s);
    case Arrives(f) => DispatchFrame(s, f);
    case WorkerMoves(w) => WorkerFrame(s, w);
    case CloserMoves(c) => CloserFrame(s, c);
    case PingerMoves(p) => PingerFrame(s, p);
    case _ =>
  }

  /** The frame a step puts into the write queue, if it puts one. */
  function Emitted(s: State, a: Action): seq<Frame>
    requires Can(s, a)
  {
    if !s.out.alive then []
    else match a
      case Boot => [InitialSettings()]
      case ReaderMoves => if s.reader.Replying? || s.reader.ReplyingLocked? then [s.reader.reply] else []
      case CloserMoves(c) => if s.closers[c].Sending? then [GoAway(s.closers[c].last, GoAwayOk)] else []
      case PingerMoves(p) => if s.pingers[p].at.SendingPing? then [Ping(s.pingers[p].id)] else []
      case HandlerSends(_, f) => [f]
      case _ => []
  }

  /** The queue only grows at the end, by what is emitted; the write task takes from the front. */
  function OutboxAfter(s: State, a: Action): Outbox
    requires Can(s, a)
  {
    match a
    case WriterTakes => s.out.(queue := s.out.queue[1..], hand := Some(s.out.queue[0]))
    case WriterWrites => s.out.(hand := None, written := s.out.written + [s.out.hand.value])
    case WriterFails => s.out.(hand := None, alive := false, queue := [])
    case _ => s.out.(queue := s.out.queue + Emitted(s, a), enqueued := s.out.enqueued + Emitted(s, a))
  }

  lemma OutboxFrame(s: State, a: Action)
    requires Can(s, a)
    ensures Step(s, a).out == OutboxAfter(s, a)
    ensures Emitted(s, a) != [] ==> |s.out.queue| < WRITE_QUEUE
  {
    hide Dispatch, MoveReader, MoveWorker, MoveCloser, MovePinger, Close, Read, ReaderCanMove, WorkerCanMove;
    assert s.out.queue + [] == s.out.queue && s.out.enqueued + [] == s.out.enqueued;
    match a
    case ReaderMoves => ReaderOut(s);
    case Arrives(f) => DispatchFrame(s, f);
    case WorkerMoves(w) => WorkerFrame(s, w);
    case CloserMoves(c) => CloserOut(s, c);
    case PingerMoves(p) => PingerOut(s, p);
    case _ =>
  }

  lemma ReaderOut(s: State)
    requires ReaderCanMove(s)
    ensures var replying := s.reader.Replying? || s.reader.ReplyingLocked?;
      && MoveReader(s).out == (if replying then Send(s.out, s.reader.reply) else s.out)
      && (replying ==> CanSend(s.out))
  {
    hide MoveReader, Send, Route, Resolve, Register, CanSend;
    ReaderKeeps(s);
    ReaderFrame(s);
  }

  lemma CloserOut(s: State, c: nat)
    requires CloserCanMove(s, c)
    ensures MoveCloser(s, c).out ==
      if s.closers[c].Sending? then Send(s.out, GoAway(s.closers[c].last, GoAwayOk)) else s.out
    ensures s.closers[c].Sending? ==> CanSend(s.out)
  {
    hide Send, CanSend;
  }

  lemma PingerOut(s: State, p: nat)
    requires PingerCanMove(s, p)
    ensures MovePinger(s, p).out ==
      if s.pingers[p].at.SendingPing? && s.out.alive then Send(s.out, Ping(s.pingers[p].id)) else s.out
    ensures s.pingers[p].at.SendingPing? ==> CanSend(s.out)
  {
    hide Send, CanSend;
  }

  lemma EnqueuedFrame(s: State, a: Action)
    requires Can(s, a)
    ensures Step(s, a).out.enqueued == s.out.enqueued + Emitted(s, a)
  {
    hide Step, Can;
    OutboxFrame(s, a);
    OutboxAfterGrows(s, a);
  }

  lemma OutboxAfterGrows(s: State, a: Action)
    requires Can(s, a)
    ensures OutboxAfter(s, a).enqueued == s.out.enqueued + Emitted(s, a)
  {
    if a.WriterTakes? || a.WriterWrites? || a.WriterFails? { assert Emitted(s, a) == []; }
  }

  /** What the steps of a close call do. */
  lemma CloserEffects(s: State, c: nat)
    requires CloserCanMove(s, c)
    ensures var t := MoveCloser(s, c);
      match s.closers[c]
      case Loading => t.closers == s.closers[c := Sending(s.lastId)] && t.closeFlag == s.closeFlag
      case Sending(_) => t.closers == s.closers[c := SettingFlag] && t.closeFlag == s.closeFlag
      case SettingFlag => t.closers == s.closers[c := Finished] && t.closeFlag
      case _ => true
  {
    hide Send;
  }

  // ---------------------------------------------------------------------------
  // A worker's steps, by what they do to what is shared
  // ---------------------------------------------------------------------------

  ghost predicate SameAtomics(s: State, t: State) {
    && t.lastId == s.lastId && t.goneAway == s.goneAway && t.closeFlag == s.closeFlag
    && t.nextPing == s.nextPing && t.pingMap == s.pingMap && t.out == s.out
  }

  lemma DataView(s: State, w: nat)
    requires Can(s, WorkerMoves(w)) && s.workers[w].Handling? && s.workers[w].msg.frame.Data?
    ensures var t := Step(s, WorkerMoves(w)); var m := s.workers[w].msg;
      && SameAtomics(s, t) && t.reader == s.reader && t.ids == s.ids && t.table == s.table && t.queues == s.queues
      && m.obj < |s.handled| && t.handled == s.handled[m.obj := s.handled[m.obj] + [m.frame]]
      && m.obj < |s.rxs| && t.rxs == s.rxs[m.obj := Push(s.rxs[m.obj], m.frame.data)]
      && t.workers == s.workers[w := if HasFin(m.frame.flags) then Connection.Worker.Closing(m.obj) else Resting]
  {
    hide Push;
  }

  lemma OtherView(s: State, w: nat)
    requires Can(s, WorkerMoves(w)) && s.workers[w].Handling?
    requires !s.workers[w].msg.frame.Data? && !s.workers[w].msg.frame.RstStream?
    ensures var t := Step(s, WorkerMoves(w)); var m := s.workers[w].msg;
      && SameAtomics(s, t) && t.reader == s.reader && t.ids == s.ids && t.table == s.table && t.queues == s.queues
      && m.obj < |s.handled| && t.handled == s.handled[m.obj := s.handled[m.obj] + [m.frame]]
      && t.rxs == s.rxs
      && t.workers == s.workers[w :=
           if (m.frame.SynReply? || m.frame.Headers?) && HasFin(m.frame.flags)
             then Connection.Worker.Closing(m.obj) else Resting]
  {
    hide HasFin, SetRx, Push, Close;
    var m := s.workers[w].msg;
    assert Step(s, WorkerMoves(w)) == Handle(s, w, m);
    hide Step, Can;
    match m.frame
    case SynStream(_, _, _, _, _) =>
    case SynReply(_, _, _) =>
    case Headers(_, _, _) =>
    case _ =>
  }

  lemma RstView(s: State, w: nat)
    requires Can(s, WorkerMoves(w)) && s.workers[w].Handling? && s.workers[w].msg.frame.RstStream?
    ensures var t := Step(s, WorkerMoves(w)); var m := s.workers[w].msg;
      && SameAtomics(s, t) && t.reader == s.reader && t.ids == s.ids && t.table == s.table && t.queues == s.queues
      && m.obj < |s.handled| && t.handled == s.handled[m.obj := s.handled[m.obj] + [m.frame]]
      && m.obj < |s.rxs| && t.rxs == s.rxs[m.obj := Close(s.rxs[m.obj])] && t.workers == s.workers[w := Removing(m.obj)]
  {
    hide Close;
  }

  lemma FinView(s: State, w: nat)
    requires Can(s, WorkerMoves(w)) && s.workers[w].Closing?
    ensures var t := Step(s, WorkerMoves(w)); var o := s.workers[w].obj;
      && SameAtomics(s, t) && t.reader == s.reader && t.ids == s.ids && t.table == s.table && t.queues == s.queues
      && t.handled == s.handled && t.workers == s.workers[w := Resting]
      && o < |s.rxs| && t.rxs == s.rxs[o := Close(s.rxs[o])]
  {
    hide Close;
  }

  lemma RemoveView(s: State, w: nat)
    requires Can(s, WorkerMoves(w)) && s.workers[w].Removing?
    ensures var t := Step(s, WorkerMoves(w)); var o := s.workers[w].obj;
      && SameAtomics(s, t) && t.reader == s.reader && t.ids == s.ids && t.rxs == s.rxs && t.queues == s.queues
      && t.handled == s.handled && t.workers == s.workers[w := Resting]
      && o < |s.ids| && t.table == s.table - {s.ids[o]}
  {
  }
}
