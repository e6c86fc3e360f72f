/**
 * Deadlock freedom: whoever waits, waits for a task that can move; and without new input the connection's own steps
 * always come to an end, in a state where nobody waits for anybody.
 */
module Progress {
  import opened Octets
  import opened Frame
  import opened Connection
  import opened Frames
  import opened Registry

  /** The write task can take or write a frame. */
  predicate WriterCanMove(s: State) {
    Can(s, WriterTakes) || Can(s, WriterWrites)
  }

  predicate WorkerActive(s: State, w: nat) {
    Can(s, WorkerTakes(w)) || Can(s, WorkerMoves(w))
  }

  /** The reader can take a step of its own, or close the next stream of its sweep. */
  ghost predicate ReaderActive(s: State) {
    Can(s, ReaderMoves) || exists o :: Can(s, SweepOne(o))
  }

  // ---------------------------------------------------------------------------
  // Who waits for whom
  // ---------------------------------------------------------------------------

  /** A send that must wait leaves the write task a step. */
  lemma BlockedSend(s: State)
    requires !CanSend(s.out)
    ensures WriterCanMove(s)
  {
  }

  /** A worker with something to do can move, unless it waits for the table while the reader sweeps. */
  lemma BusyWorker(s: State, w: nat)
    requires BaseInv(s) && w < N_WORKERS && (s.queues[w] != [] || !s.workers[w].Resting?)
    ensures WorkerActive(s, w) || (s.workers[w].Removing? && s.reader.Sweeping?)
  {
    assert WorkerOk(s.ids, w, s.workers[w]);
  }

  /** The sweeping reader, the only task that ever holds the table across steps, can always move. */
  lemma SweeperMoves(s: State)
    requires BaseInv(s) && s.reader.Sweeping?
    ensures ReaderActive(s)
  {
    if s.reader.todo != {} {
      var o :| o in s.reader.todo;
      assert Can(s, SweepOne(o));
    }
  }

  /** A reader in the middle of a frame can move, or waits for room that the write task or one worker can make. */
  lemma BusyReader(s: State)
    requires BaseInv(s) && !s.reader.AtRead? && !s.reader.Ended? && !s.reader.Booting?
    ensures ReaderActive(s)
      || (s.reader.Replying? && WriterCanMove(s))
      || (s.reader.RoutingSyn? && WorkerActive(s, WorkerOf(s.reader.syn.streamId)))
      || (s.reader.Routing? && WorkerActive(s, WorkerOf(s.reader.frame.streamId)))
  {
    hide Accepted, LastInv, TableInv, QueuesInv;
    match s.reader
    case Sweeping(_) => SweeperMoves(s);
    case Replying(_) => if !CanSend(s.out) { BlockedSend(s); }
    case RoutingSyn(syn, obj) => RouteOrWorker(s, syn, obj);
    case Routing(f, obj) => RouteOrWorker(s, f, obj);
    case _ =>
  }

  lemma RouteOrWorker(s: State, f: Frame, obj: nat)
    requires BaseInv(s) && Fits(s.ids, f, obj) && !s.reader.Sweeping?
    requires (s.reader == RoutingSyn(f, obj) && f.SynStream?) || (s.reader == Routing(f, obj) && IsRoutable(f))
    ensures Can(s, ReaderMoves) || WorkerActive(s, WorkerOf(f.streamId))
  {
    if !HasRoom(s, f.streamId) { BusyWorker(s, WorkerOf(f.streamId)); }
  }

  /**
   * Deadlock freedom, task by task, in every reachable state: no send is awaited with the table locked; a reader
   * that cannot move waits for a write task or a worker that can; a worker that cannot move waits for a reader that
   * can; a close or ping call that cannot move waits for a write task that can, or for its echo; and so does a
   * handler, or whoever else awaits a full write queue.
   */
  lemma NobodyDeadlocks(s: State)
    requires Reachable(s)
    ensures Shape(s) && !s.reader.ReplyingLocked?
    ensures !s.reader.AtRead? && !s.reader.Ended? && !s.reader.Booting? ==>
      ReaderActive(s)
      || (s.reader.Replying? && WriterCanMove(s))
      || (s.reader.RoutingSyn? && s.reader.syn.SynStream? && WorkerActive(s, WorkerOf(s.reader.syn.streamId)))
      || (s.reader.Routing? && IsRoutable(s.reader.frame) && WorkerActive(s, WorkerOf(s.reader.frame.streamId)))
    ensures forall w :: 0 <= w < N_WORKERS && (s.queues[w] != [] || !s.workers[w].Resting?) ==>
      WorkerActive(s, w) || ReaderActive(s)
    ensures forall c :: 0 <= c < |s.closers| && !s.closers[c].Lost? && !s.closers[c].Finished? ==>
      Can(s, CloserMoves(c)) || WriterCanMove(s)
    ensures forall p :: 0 <= p < |s.pingers| && (s.pingers[p].at.Registering? || s.pingers[p].at.SendingPing?) ==>
      Can(s, PingerMoves(p)) || WriterCanMove(s)
    ensures forall o, f :: o in s.starts && IsHandlerFrame(s, o, f) ==> Can(s, HandlerSends(o, f)) || WriterCanMove(s)
  {
    forall o, f | o in s.starts && IsHandlerFrame(s, o, f) ensures Can(s, HandlerSends(o, f)) || WriterCanMove(s) {
      if !CanSend(s.out) { BlockedSend(s); }
    }
    hide Can, WorkerActive, WriterCanMove, ReaderActive, Accepted, LastInv, TableInv, QueuesInv, WorkersInv;
    ReachableBase(s);
    if !s.reader.AtRead? && !s.reader.Ended? && !s.reader.Booting? { BusyReader(s); }
    forall w | 0 <= w < N_WORKERS && (s.queues[w] != [] || !s.workers[w].Resting?)
      ensures WorkerActive(s, w) || ReaderActive(s)
    {
      BusyWorker(s, w);
      if s.reader.Sweeping? { SweeperMoves(s); }
    }
    forall c | 0 <= c < |s.closers| && !s.closers[c].Lost? && !s.closers[c].Finished?
      ensures Can(s, CloserMoves(c)) || WriterCanMove(s)
    {
      BusyCloser(s, c);
    }
    forall p | 0 <= p < |s.pingers| && (s.pingers[p].at.Registering? || s.pingers[p].at.SendingPing?)
      ensures Can(s, PingerMoves(p)) || WriterCanMove(s)
    {
      BusyPinger(s, p);
    }
  }

  lemma BusyCloser(s: State, c: nat)
    requires c < |s.closers| && !s.closers[c].Lost? && !s.closers[c].Finished?
    ensures Can(s, CloserMoves(c)) || WriterCanMove(s)
  {
    if !CanSend(s.out) { BlockedSend(s); }
  }

  lemma BusyPinger(s: State, p: nat)
    requires p < |s.pingers| && (s.pingers[p].at.Registering? || s.pingers[p].at.SendingPing?)
    ensures Can(s, PingerMoves(p)) || WriterCanMove(s)
  {
    if !CanSend(s.out) { BlockedSend(s); }
  }

  // ---------------------------------------------------------------------------
  // The connection's own steps
  // ---------------------------------------------------------------------------

  /** Steps that need no new input, no new call, no failure and no timeout. */
  predicate Internal(a: Action) {
    a.Boot? || a.ReaderMoves? || a.SweepOne? || a.WorkerTakes? || a.WorkerMoves? || a.WriterTakes? || a.WriterWrites?
    || a.CloserMoves? || a.PingerMoves?
  }

  predicate CloserDone(c: Closer) {
    c.Lost? || c.Finished?
  }

  predicate PingerDone(s: State, p: nat) {
    p < |s.pingers| && (s.pingers[p].at.Left? || (s.pingers[p].at.Awaiting? && InMap(s, p)))
  }

  /** Nothing is under way: only new input, calls, failures or timeouts can change anything. */
  ghost predicate Quiescent(s: State) {
    && (s.reader.AtRead? || s.reader.Ended?)
    && (forall w :: 0 <= w < |s.queues| ==> s.queues[w] == [])
    && (forall w :: 0 <= w < |s.workers| ==> s.workers[w].Resting?)
    && (s.out.alive ==> s.out.queue == [] && s.out.hand.None?)
    && (forall c :: 0 <= c < |s.closers| ==> CloserDone(s.closers[c]))
    && (forall p :: 0 <= p < |s.pingers| ==> PingerDone(s, p))
  }

  /** In every state that is not quiescent some internal step can happen. */
  lemma NextInternal(s: State) returns (a: Action)
    requires BaseInv(s) && !Quiescent(s)
    ensures Internal(a) && Can(s, a)
  {
    hide Accepted, LastInv, TableInv, QueuesInv, WorkersInv;
    if WriterCanMove(s) {
      a := if Can(s, WriterTakes) then WriterTakes else WriterWrites;
    } else if s.reader.Booting? {
      if !CanSend(s.out) { BlockedSend(s); }
      a := Boot;
    } else if w :| 0 <= w < N_WORKERS && WorkerActive(s, w) {
      a := if Can(s, WorkerTakes(w)) then WorkerTakes(w) else WorkerMoves(w);
    } else if !s.reader.AtRead? && !s.reader.Ended? {
      BusyReader(s);
      if Can(s, ReaderMoves) {
        a := ReaderMoves;
      } else {
        var o :| Can(s, SweepOne(o));
        a := SweepOne(o);
      }
    } else if c :| 0 <= c < |s.closers| && !CloserDone(s.closers[c]) {
      BusyCloser(s, c);
      a := CloserMoves(c);
    } else if p :| 0 <= p < |s.pingers| && !PingerDone(s, p) {
      if !s.pingers[p].at.Awaiting? { BusyPinger(s, p); }
      a := PingerMoves(p);
    } else {
      QuietWorkers(s);
      assert false;
    }
  }

  lemma QuietWorkers(s: State)
    requires BaseInv(s) && !s.reader.Sweeping? && forall w :: 0 <= w < N_WORKERS ==> !WorkerActive(s, w)
    ensures forall w :: 0 <= w < |s.queues| ==> s.queues[w] == []
    ensures forall w :: 0 <= w < |s.workers| ==> s.workers[w].Resting?
  {
    hide WorkerActive;
    forall w | 0 <= w < N_WORKERS ensures s.queues[w] == [] && s.workers[w].Resting? {
      if s.queues[w] != [] || !s.workers[w].Resting? { BusyWorker(s, w); }
    }
  }

  // ---------------------------------------------------------------------------
  // The measure
  // ---------------------------------------------------------------------------

  function Total(xs: seq<nat>): nat {
    if xs == [] then 0 else Total(xs[..|xs| - 1]) + xs[|xs| - 1]
  }

  lemma {:induction false} TotalUpdate(xs: seq<nat>, i: nat, x: nat)
    requires i < |xs|
    ensures Total(xs[i := x]) + xs[i] == Total(xs) + x
    decreases |xs|
  {
    var n := |xs| - 1;
    if i == n {
      assert xs[i := x][..n] == xs[..n];
    } else {
      assert xs[i := x][..n] == xs[..n][i := x];
      TotalUpdate(xs[..n], i, x);
    }
  }

  /** A Reader's distance from its next read, heavier than what its step can add elsewhere. */
  function ReaderRank(r: Connection.Reader, streams: nat): nat {
    match r
    case Booting => 3
    case AtRead => 0
    case CheckingLast(_) => 9
    case CheckingGone(_) => 8
    case Inserting(_) => 7
    case StoringLast(_, _) => 6
    case RoutingSyn(_, _) => 5
    case Replying(_) => 3
    case ReplyingLocked(_) => 3
    case LookingUp(_) => 6
    case Routing(_, _) => 5
    case Resolving(_) => 1
    case StoringGone => streams + 5
    case FlaggingGone => streams + 4
    case SweepStarting => streams + 3
    case Sweeping(todo) => |todo| + 2
    case Flagging => 1
    case Ended => 0
  }

  function WorkerRank(w: Worker): nat {
    match w
    case Resting => 0
    case Handling(_) => 3
    case Closing(_) => 1
    case Removing(_) => 1
  }

  function CloserRank(c: Closer): nat {
    match c
    case Lost => 0
    case Loading => 5
    case Sending(_) => 4
    case SettingFlag => 1
    case Finished => 0
  }

  function PingerRank(g: Pinger): nat {
    match g.at
    case Registering => 5
    case SendingPing => 4
    case Awaiting => 1
    case Left => 0
  }

  function QueueRanks(qs: seq<seq<Msg>>): seq<nat> {
    seq(|qs|, i requires 0 <= i < |qs| => 4 * |qs[i]|)
  }

  function WorkerRanks(ws: seq<Worker>): seq<nat> {
    seq(|ws|, i requires 0 <= i < |ws| => WorkerRank(ws[i]))
  }

  function CloserRanks(cs: seq<Closer>): seq<nat> {
    seq(|cs|, i requires 0 <= i < |cs| => CloserRank(cs[i]))
  }

  function PingerRanks(ps: seq<Pinger>): seq<nat> {
    seq(|ps|, i requires 0 <= i < |ps| => PingerRank(ps[i]))
  }

  function OutRank(o: Outbox): nat {
    2 * |o.queue| + if o.hand.Some? then 1 else 0
  }

  function WorkRank(s: State): nat {
    Total(QueueRanks(s.queues)) + Total(WorkerRanks(s.workers))
  }

  /** The work under way: it bounds the number of internal steps still to come. */
  function Measure(s: State): nat {
    ReaderRank(s.reader, |s.ids|) + WorkRank(s) + OutRank(s.out)
      + Total(CloserRanks(s.closers)) + Total(PingerRanks(s.pingers))
  }

  lemma QueueRank(qs: seq<seq<Msg>>, w: nat, q: seq<Msg>)
    requires w < |qs|
    ensures Total(QueueRanks(qs[w := q])) + 4 * |qs[w]| == Total(QueueRanks(qs)) + 4 * |q|
  {
    TotalUpdate(QueueRanks(qs), w, 4 * |q|);
    assert QueueRanks(qs[w := q]) == QueueRanks(qs)[w := 4 * |q|];
  }

  lemma WorkerRankUpdate(ws: seq<Worker>, w: nat, at: Worker)
    requires w < |ws|
    ensures Total(WorkerRanks(ws[w := at])) + WorkerRank(ws[w]) == Total(WorkerRanks(ws)) + WorkerRank(at)
  {
    TotalUpdate(WorkerRanks(ws), w, WorkerRank(at));
    assert WorkerRanks(ws[w := at]) == WorkerRanks(ws)[w := WorkerRank(at)];
  }

  lemma CloserRankUpdate(cs: seq<Closer>, c: nat, at: Closer)
    requires c < |cs|
    ensures Total(CloserRanks(cs[c := at])) + CloserRank(cs[c]) == Total(CloserRanks(cs)) + CloserRank(at)
  {
    TotalUpdate(CloserRanks(cs), c, CloserRank(at));
    assert CloserRanks(cs[c := at]) == CloserRanks(cs)[c := CloserRank(at)];
  }

  lemma PingerRankUpdate(ps: seq<Pinger>, p: nat, g: Pinger)
    requires p < |ps|
    ensures Total(PingerRanks(ps[p := g])) + PingerRank(ps[p]) == Total(PingerRanks(ps)) + PingerRank(g)
  {
    TotalUpdate(PingerRanks(ps), p, PingerRank(g));
    assert PingerRanks(ps[p := g]) == PingerRanks(ps)[p := PingerRank(g)];
  }

  /** Stream numbers below n make a set of at most n. */
  lemma {:induction false} BoundedSet(todo: set<nat>, n: nat)
    requires forall o :: o in todo ==> o < n
    ensures |todo| <= n
    decreases n
  {
    if n == 0 {
      assert todo == {};
    } else {
      BoundedSet(todo - {n - 1}, n - 1);
    }
  }

  // ---------------------------------------------------------------------------
  // Every internal step lowers the measure
  // ---------------------------------------------------------------------------

  lemma OutRankAfter(s: State, a: Action)
    requires Can(s, a)
    ensures a.WriterTakes? || a.WriterWrites? ==> OutRank(Step(s, a).out) < OutRank(s.out)
    ensures !a.WriterTakes? && !a.WriterWrites? && !a.WriterFails? ==>
      OutRank(Step(s, a).out) == OutRank(s.out) + 2 * |Emitted(s, a)|
  {
    hide Step, Emitted;
    OutboxFrame(s, a);
  }

  lemma WriterLowers(s: State, a: Action)
    requires Can(s, a) && (a.WriterTakes? || a.WriterWrites?)
    ensures Measure(Step(s, a)) < Measure(s)
  {
    hide Step, Can, Total, QueueRanks, WorkerRanks, CloserRanks, PingerRanks, OutRank, ReaderRank, Emitted;
    StreamsFrame(s, a);
    TasksFrame(s, a);
    PingsFrame(s, a);
    ClosingFrame(s, a);
    OutRankAfter(s, a);
  }

  lemma CloserLowers(s: State, a: Action)
    requires Can(s, a) && a.CloserMoves?
    ensures Measure(Step(s, a)) < Measure(s)
  {
    StepIs(s, a);
    EmittedByCloser(s, a);
    hide Step, Can, MoveCloser, Total, QueueRanks, WorkerRanks, CloserRanks, PingerRanks, OutRank, ReaderRank, Emitted;
    StreamsFrame(s, a);
    TasksFrame(s, a);
    PingsFrame(s, a);
    OutRankAfter(s, a);
    CloserEffects(s, a.c);
    CloserRankUpdate(s.closers, a.c, Step(s, a).closers[a.c]);
  }

  lemma EmittedByCloser(s: State, a: Action)
    requires Can(s, a) && a.CloserMoves?
    ensures |Emitted(s, a)| <= if s.closers[a.c].Sending? then 1 else 0
  {
  }

  lemma PingerLowers(s: State, a: Action)
    requires Can(s, a) && a.PingerMoves?
    ensures Measure(Step(s, a)) < Measure(s)
  {
    StepIs(s, a);
    EmittedByPinger(s, a);
    hide Step, Can, MovePinger, Total, QueueRanks, WorkerRanks, CloserRanks, PingerRanks, OutRank, ReaderRank, Emitted;
    StreamsFrame(s, a);
    TasksFrame(s, a);
    ClosingFrame(s, a);
    OutRankAfter(s, a);
    PingerAfter(s, a.p);
    PingerRankUpdate(s.pingers, a.p, Step(s, a).pingers[a.p]);
  }

  lemma EmittedByPinger(s: State, a: Action)
    requires Can(s, a) && a.PingerMoves?
    ensures |Emitted(s, a)| <= if s.pingers[a.p].at.SendingPing? then 1 else 0
  {
  }

  lemma PingerAfter(s: State, p: nat)
    requires PingerCanMove(s, p)
    ensures var t := MovePinger(s, p); var g := s.pingers[p];
      && |t.pingers| == |s.pingers| && t.pingers == s.pingers[p := t.pingers[p]]
      && PingerRank(t.pingers[p]) + (if g.at.SendingPing? then 3 else 1) <= PingerRank(g)
  {
    hide Send;
  }

  lemma WorkerLowers(s: State, a: Action)
    requires BaseInv(s) && Can(s, a) && (a.WorkerTakes? || a.WorkerMoves?)
    ensures Measure(Step(s, a)) < Measure(s)
  {
    hide Step, Can, MoveWorker, Total, QueueRanks, WorkerRanks, CloserRanks, PingerRanks, OutRank, ReaderRank, Emitted;
    hide Accepted, LastInv, TableInv, QueuesInv, WorkersInv, ReaderInv;
    StepIs(s, a);
    StreamsFrame(s, a);
    TasksFrame(s, a);
    PingsFrame(s, a);
    ClosingFrame(s, a);
    if a.WorkerTakes? {
      TakeMessage(s, a);
      QueueRank(s.queues, a.w, s.queues[a.w][1..]);
      WorkerRankUpdate(s.workers, a.w, Handling(s.queues[a.w][0]));
    } else {
      WorkerFrame(s, a.w);
      WorkerAfter(s, a.w);
      var at :| Step(s, a).workers == s.workers[a.w := at] && NextWorker(s.workers[a.w], at);
      WorkerRankUpdate(s.workers, a.w, at);
      NextRank(s.workers[a.w], at);
    }
  }

  lemma NextRank(before: Worker, after: Worker)
    requires NextWorker(before, after) && !before.Resting?
    ensures WorkerRank(after) < WorkerRank(before)
  {
  }

  lemma SweepLowers(s: State, a: Action)
    requires Can(s, a) && a.SweepOne?
    ensures Measure(Step(s, a)) < Measure(s)
  {
    hide Step, Can, Total, QueueRanks, WorkerRanks, CloserRanks, PingerRanks, OutRank;
    StepIs(s, a);
    TasksFrame(s, a);
    PingsFrame(s, a);
    ClosingFrame(s, a);
  }

  lemma BootLowers(s: State, a: Action)
    requires Can(s, a) && a.Boot?
    ensures Measure(Step(s, a)) < Measure(s)
  {
    hide Step, Can, Total, QueueRanks, WorkerRanks, CloserRanks, PingerRanks;
    StepIs(s, a);
    StreamsFrame(s, a);
    TasksFrame(s, a);
    PingsFrame(s, a);
    ClosingFrame(s, a);
  }

  lemma ReaderLowers(s: State, a: Action)
    requires BaseInv(s) && Can(s, a) && a.ReaderMoves?
    ensures Measure(Step(s, a)) < Measure(s)
  {
    hide Step, Can, MoveReader, Total, QueueRanks, WorkerRanks, CloserRanks, PingerRanks, ReaderRank, Send, Route,
      Resolve, Register;
    hide Accepted, LastInv, TableInv, QueuesInv, WorkersInv;
    StepIs(s, a);
    ReaderKeeps(s);
    ReaderFrame(s);
    ReaderRankAfter(s);
    match s.reader
    case Replying(f) => SendRank(s.out, f);
    case RoutingSyn(syn, obj) =>
      RouteQueues(s, syn, obj);
      QueueRank(s.queues, WorkerOf(syn.streamId), s.queues[WorkerOf(syn.streamId)] + [Msg(syn, obj)]);
    case Routing(f, obj) =>
      RouteQueues(s, f, obj);
      QueueRank(s.queues, WorkerOf(f.streamId), s.queues[WorkerOf(f.streamId)] + [Msg(f, obj)]);
    case Resolving(id) => ResolveRank(s, id);
    case Inserting(syn) =>
      InsertIsNew(s);
      RegisterFrame(s, syn);
    case _ =>
  }

  lemma SendRank(o: Outbox, f: Frame)
    ensures OutRank(Send(o, f)) <= OutRank(o) + 2
  {
  }

  lemma ResolveRank(s: State, id: u32)
    ensures Total(PingerRanks(Resolve(s, id).pingers)) == Total(PingerRanks(s.pingers))
  {
    hide Total;
    if id in s.pingMap && s.pingMap[id] < |s.pingers| {
      var p := s.pingMap[id];
      PingerRankUpdate(s.pingers, p, s.pingers[p].(resolved := s.pingers[p].resolved + 1));
    }
  }

  /** The reader's own rank falls by enough to pay for what its step adds elsewhere. */
  lemma ReaderRankAfter(s: State)
    requires BaseInv(s) && ReaderCanMove(s)
    ensures var t := MoveReader(s);
      ReaderRank(t.reader, |t.ids|) +
        (if s.reader.Replying? then 3 else if s.reader.RoutingSyn? || s.reader.Routing? then 5 else 1)
      <= ReaderRank(s.reader, |s.ids|)
  {
    hide MoveReader, Accepted, LastInv, QueuesInv, WorkersInv, Shape, CanSend;
    ReaderGoesTo(s);
    if s.reader.Inserting? { InsertIsNew(s); } else { ReaderKeeps(s); }
    if s.reader.SweepStarting? {
      forall o | o in s.table.Values ensures o < |s.ids| { var id :| id in s.table && s.table[id] == o; }
      BoundedSet(s.table.Values, |s.ids|);
    }
  }

  /** Every internal step lowers the measure. */
  lemma InternalStepLowers(s: State, a: Action)
    requires BaseInv(s) && Can(s, a) && Internal(a)
    ensures Measure(Step(s, a)) < Measure(s)
  {
    hide Step, Can, Measure, BaseInv;
    if a.Boot? { BootLowers(s, a); }
    else if a.ReaderMoves? { ReaderLowers(s, a); }
    else if a.SweepOne? { SweepLowers(s, a); }
    else if a.WorkerTakes? || a.WorkerMoves? { WorkerLowers(s, a); }
    else if a.CloserMoves? { CloserLowers(s, a); }
    else if a.PingerMoves? { PingerLowers(s, a); }
    else { WriterLowers(s, a); }
  }

  // ---------------------------------------------------------------------------
  // Results
  // ---------------------------------------------------------------------------

  /** The state after some further steps. */
  function RunFrom(s: State, acts: seq<Action>): Option<State>
    decreases |acts|
  {
    if acts == [] then Some(s)
    else if Can(s, acts[0]) then RunFrom(Step(s, acts[0]), acts[1..]) else None
  }

  /** However the tasks are scheduled, a run of internal steps is no longer than the measure of its start. */
  lemma {:induction false} InternalRunsEnd(s: State, acts: seq<Action>)
    requires Reachable(s) && RunFrom(s, acts).Some? && forall i :: 0 <= i < |acts| ==> Internal(acts[i])
    ensures Reachable(RunFrom(s, acts).value) && |acts| + Measure(RunFrom(s, acts).value) <= Measure(s)
    decreases |acts|
  {
    if acts != [] {
      hide Step, Can, Measure, Reachable, BaseInv;
      ReachStep(s, acts[0]);
      ReachableBase(s);
      InternalStepLowers(s, acts[0]);
      InternalRunsEnd(Step(s, acts[0]), acts[1..]);
    }
  }

  /** A schedule of internal steps that can go no further has come to a quiescent state: nothing is stuck. */
  lemma StuckMeansQuiescent(s: State)
    requires Reachable(s)
    ensures (forall a :: Internal(a) ==> !Can(s, a)) <==> Quiescent(s)
  {
    hide Can, Reachable, BaseInv, Quiescent, Internal;
    ReachableBase(s);
    if !Quiescent(s) {
      var a := NextInternal(s);
    } else {
      forall a | Internal(a) ensures !Can(s, a) { QuietStep(s, a); }
    }
  }

  lemma QuietStep(s: State, a: Action)
    requires BaseInv(s) && Quiescent(s) && Internal(a)
    ensures !Can(s, a)
  {
    hide Accepted, LastInv, TableInv, QueuesInv, WorkersInv;
    if a.PingerMoves? && a.p < |s.pingers| { assert PingerDone(s, a.p); }
  }

  /** From every reachable state the connection can come to rest by its own steps. */
  lemma {:induction false} ComesToRest(s: State) returns (acts: seq<Action>)
    requires Reachable(s)
    ensures forall i :: 0 <= i < |acts| ==> Internal(acts[i])
    ensures RunFrom(s, acts).Some? && Quiescent(RunFrom(s, acts).value)
    decreases Measure(s)
  {
    hide Can, Step, Reachable, BaseInv, Quiescent, Measure;
    ReachableBase(s);
    if Quiescent(s) {
      acts := [];
    } else {
      var a := NextInternal(s);
      ReachStep(s, a);
      InternalStepLowers(s, a);
      var rest := ComesToRest(Step(s, a));
      acts := [a] + rest;
      assert acts[1..] == rest;
    }
  }

  // ---------------------------------------------------------------------------
  // The bounds of the queues
  // ---------------------------------------------------------------------------

  ghost predicate Bounded(s: State) {
    |s.out.queue| <= 64 && forall w :: 0 <= w < |s.queues| ==> |s.queues[w]| <= 128
  }

  lemma BoundsKept(s: State, a: Action)
    requires BaseInv(s) && Bounded(s) && Can(s, a)
    ensures Bounded(Step(s, a))
  {
    hide Step, Can, MoveReader, Emitted, BaseInv;
    var t := Step(s, a);
    OutboxFrame(s, a);
    AtMostOneFrame(s, a);
    OutboxBounded(s, a);
    StepIs(s, a);
    TasksFrame(s, a);
    if a.ReaderMoves? { RoutesOne(s); }
  }

  lemma OutboxBounded(s: State, a: Action)
    requires Can(s, a) && |s.out.queue| <= 64 && |Emitted(s, a)| <= 1
    requires Emitted(s, a) != [] ==> |s.out.queue| < WRITE_QUEUE
    ensures |OutboxAfter(s, a).queue| <= 64
  {
    hide Emitted;
    match a
    case WriterTakes =>
    case WriterWrites =>
    case WriterFails =>
    case _ =>
  }

  lemma AtMostOneFrame(s: State, a: Action)
    requires Can(s, a)
    ensures |Emitted(s, a)| <= 1
  {
  }

  lemma RoutesOne(s: State)
    requires ReaderCanMove(s) && Bounded(s)
    ensures forall w :: 0 <= w < |MoveReader(s).queues| ==> |MoveReader(s).queues[w]| <= 128
  {
    hide MoveReader;
    ReaderKeeps(s);
    ReaderFrame(s);
  }

  lemma {:induction false} RunBounded(acts: seq<Action>)
    requires Run(acts).Some?
    ensures Bounded(Run(acts).value)
    decreases |acts|
  {
    if acts != [] {
      hide Bounded, Step, Can, BaseInv;
      RunBase(acts[..|acts| - 1]);
      RunBounded(acts[..|acts| - 1]);
      BoundsKept(Run(acts[..|acts| - 1]).value, acts[|acts| - 1]);
    }
  }

  /** In every reachable state the write queue holds at most 64 frames and each worker queue at most 128 messages. */
  lemma QueuesAreBounded(s: State)
    requires Reachable(s)
    ensures |s.out.queue| <= 64
    ensures forall w :: 0 <= w < |s.queues| ==> |s.queues[w]| <= 128
  {
    var acts :| Run(acts) == Some(s);
    RunBounded(acts);
  }

  /**
   * And nobody waits before they are full: a handler's send waits exactly while the write task lives and 64 frames are
   * queued, a reply of the reader likewise, and the reader's send to a worker exactly while that one has 128 messages.
   */
  lemma WaitsExactlyWhenFull(s: State)
    requires Reachable(s)
    ensures Shape(s)
    ensures forall o, f :: o in s.starts && IsHandlerFrame(s, o, f) ==>
      (Can(s, HandlerSends(o, f)) <==> !s.out.alive || |s.out.queue| < 64)
    ensures s.reader.Replying? ==> (Can(s, ReaderMoves) <==> !s.out.alive || |s.out.queue| < 64)
    ensures s.reader.RoutingSyn? && s.reader.syn.SynStream? ==>
      (Can(s, ReaderMoves) <==> |s.queues[s.reader.syn.streamId % 5]| < 128)
    ensures s.reader.Routing? && IsRoutable(s.reader.frame) ==>
      (Can(s, ReaderMoves) <==> |s.queues[s.reader.frame.streamId % 5]| < 128)
  {
    hide Reachable, Accepted, LastInv, TableInv, QueuesInv, WorkersInv;
    ReachableBase(s);
  }
}
