/** How a connection ends: every stream is closed, and what a GOAWAY promises about streams in flight. */
module Closing {
  import opened Octets
  import opened Frame
  import opened Receive
  import opened Connection
  import opened Frames
  import opened Registry

  // ---------------------------------------------------------------------------
  // Every stream is closed in the end
  // ---------------------------------------------------------------------------

  predicate InTable(s: State, o: nat) {
    o < |s.ids| && s.ids[o] in s.table && s.table[s.ids[o]] == o
  }

  predicate IsClosed(s: State, o: nat) {
    o < |s.rxs| && s.rxs[o].closed
  }

  ghost predicate OpenInv(s: State) {
    forall o :: 0 <= o < |s.ids| ==> IsClosed(s, o) || InTable(s, o)
  }

  ghost predicate RemovalInv(s: State) {
    forall w :: 0 <= w < |s.workers| && s.workers[w].Removing? ==> IsClosed(s, s.workers[w].obj)
  }

  ghost predicate SweepInv(s: State) {
    && (s.reader.Sweeping? ==> forall o :: 0 <= o < |s.ids| ==> IsClosed(s, o) || o in s.reader.todo)
    && (s.reader.Flagging? || s.reader.Ended? ==> forall o :: 0 <= o < |s.ids| ==> IsClosed(s, o))
    && (s.reader.Ended? ==> s.closeFlag)
  }

  ghost predicate ReachInv(s: State) {
    BaseInv(s) && OpenInv(s) && RemovalInv(s) && SweepInv(s)
  }

  /** Once closed, a stream stays closed. */
  lemma ClosedStays(s: State, a: Action, o: nat)
    requires BaseInv(s) && Can(s, a) && IsClosed(s, o)
    ensures IsClosed(Step(s, a), o)
  {
    hide Step, Can, MoveReader, MoveWorker, Accepted, LastInv, TableInv, QueuesInv, Handle;
    StepIs(s, a);
    StreamsFrame(s, a);
    if a.ReaderMoves? {
      ReaderFrame(s);
      ReaderKeeps(s);
    } else if a.WorkerMoves? {
      WorkerKeepsClosed(s, a.w, o);
    } else if a.HandlerReads? {
      ReadKeepsClosed(s.rxs[a.obj], a.step);
    }
  }

  lemma ReadKeepsClosed(rx: Rx, step: ReadStep)
    requires CanRead(rx, step)
    ensures Read(rx, step).0.closed == rx.closed
  {
  }

  lemma WorkerKeepsClosed(s: State, w: nat, o: nat)
    requires WorkerCanMove(s, w) && IsClosed(s, o)
    ensures IsClosed(MoveWorker(s, w), o)
  {
    hide Handle;
    match s.workers[w]
    case Handling(m) => HandleKeepsClosed(s, w, m, o);
    case _ =>
  }

  lemma HandleKeepsClosed(s: State, w: nat, m: Msg, o: nat)
    requires w < |s.workers| && m.obj < |s.rxs| && m.obj < |s.handled| && IsClosed(s, o)
    ensures IsClosed(Handle(s, w, m), o)
  {
    match m.frame
    case Data(_, flags, data) =>
    case SynReply(_, _, flags) =>
    case Headers(_, _, flags) =>
    case _ =>
  }

  lemma OpenKept(s: State, a: Action)
    requires ReachInv(s) && Can(s, a) && Shape(Step(s, a))
    ensures OpenInv(Step(s, a))
  {
    hide Step, Can, MoveReader, MoveWorker, LastInv, TableInv, QueuesInv, SweepInv, Accepted, IsClosed, ReaderInv;
    var t := Step(s, a);
    StepIs(s, a);
    StreamsFrame(s, a);
    if a.ReaderMoves? && s.reader.Inserting? {
      RegisterOpen(s, a);
    } else {
      forall o | 0 <= o < |t.ids| ensures IsClosed(t, o) || InTable(t, o) {
        if a.ReaderMoves? { ReaderKeeps(s); }
        assert IsClosed(s, o) || InTable(s, o);
        if IsClosed(s, o) {
          ClosedStays(s, a, o);
        } else if a.WorkerMoves? && s.workers[a.w].Removing? {
          RemoveFrame(s, a.w);
          WorkerFrame(s, a.w);
          NotTheSame(s, a.w, o);
        } else if a.WorkerMoves? {
          WorkerFrame(s, a.w);
        }
      }
    }
  }

  lemma NotTheSame(s: State, w: nat, o: nat)
    requires BaseInv(s) && RemovalInv(s) && w < |s.workers| && s.workers[w].Removing? && o < |s.ids| && !IsClosed(s, o)
    ensures s.workers[w].obj < |s.ids| && s.ids[s.workers[w].obj] != s.ids[o]
  {
    hide LastInv, TableInv, QueuesInv, ReaderInv;
    assert WorkerOk(s.ids, w, s.workers[w]);
    var obj := s.workers[w].obj;
    if s.ids[obj] == s.ids[o] { SameIdSameObject(s.ids, obj, o); }
  }

  lemma RegisterOpen(s: State, a: Action)
    requires ReachInv(s) && Can(s, a) && a.ReaderMoves? && s.reader.Inserting?
    ensures OpenInv(Step(s, a))
  {
    hide Step, Can, MoveReader, LastInv, TableInv, QueuesInv, WorkersInv, SweepInv, RemovalInv, Accepted;
    StepIs(s, a);
    InsertIsNew(s);
    ReaderFrame(s);
    var t := Step(s, a);
    forall o | 0 <= o < |t.ids| ensures IsClosed(t, o) || InTable(t, o) {
      if o < |s.ids| { assert IsClosed(s, o) || InTable(s, o); }
    }
  }

  lemma RemovalKept(s: State, a: Action)
    requires ReachInv(s) && Can(s, a) && Shape(Step(s, a))
    ensures RemovalInv(Step(s, a))
  {
    hide Step, Can, MoveReader, MoveWorker, LastInv, TableInv, QueuesInv, SweepInv, OpenInv, Accepted, ReaderInv,
      IsClosed;
    var t := Step(s, a);
    StepIs(s, a);
    TasksFrame(s, a);
    forall w | 0 <= w < |t.workers| && t.workers[w].Removing? ensures IsClosed(t, t.workers[w].obj) {
      if a.WorkerMoves? && w == a.w {
        RemovalStarts(s, w);
      } else {
        if a.WorkerMoves? { WorkerAfter(s, a.w); }
        if a.WorkerTakes? { TakeMessage(s, a); }
        assert s.workers[w] == t.workers[w];
        ClosedStays(s, a, s.workers[w].obj);
      }
    }
  }

  lemma RemovalStarts(s: State, w: nat)
    requires WorkerCanMove(s, w)
    ensures var t := MoveWorker(s, w);
      w < |t.workers| && (t.workers[w].Removing? ==> IsClosed(t, t.workers[w].obj))
  {
    hide Handle, Close;
    match s.workers[w]
    case Handling(m) => HandleRemoval(s, w, m);
    case _ =>
  }

  lemma HandleRemoval(s: State, w: nat, m: Msg)
    requires w < |s.workers| && m.obj < |s.rxs| && m.obj < |s.handled|
    ensures var t := Handle(s, w, m);
      w < |t.workers| && (t.workers[w].Removing? ==> IsClosed(t, t.workers[w].obj))
  {
    hide Push;
    match m.frame
    case Data(_, flags, _) =>
    case SynReply(_, _, flags) =>
    case Headers(_, _, flags) =>
    case _ =>
  }

  lemma SweepKept(s: State, a: Action)
    requires ReachInv(s) && Can(s, a) && Shape(Step(s, a))
    ensures SweepInv(Step(s, a))
  {
    hide Step, Can, MoveReader, MoveWorker, LastInv, TableInv, QueuesInv, RemovalInv, Accepted, IsClosed, ReaderInv;
    var t := Step(s, a);
    StepIs(s, a);
    StreamsFrame(s, a);
    TasksFrame(s, a);
    ClosingFrame(s, a);
    if a.ReaderMoves? {
      ReaderFrame(s);
      ReaderKeeps(s);
      ReaderSweep(s, a);
    } else if a.SweepOne? {
      SweepOneKept(s, a);
    } else {
      if a.CloserMoves? { CloserEffects(s, a.c); }
      if ReaderActs(a) { NotSweeping(s, a); }
      forall o | 0 <= o < |t.ids| && IsClosed(s, o) ensures IsClosed(t, o) { ClosedStays(s, a, o); }
    }
  }

  lemma NotSweeping(s: State, a: Action)
    requires Can(s, a) && (a.Boot? || a.Arrives? || a.ReadFails?)
    ensures var r := Step(s, a).reader; !r.Sweeping? && !r.Flagging? && !r.Ended?
  {
    hide MoveReader, MoveWorker, MoveCloser, MovePinger, Dispatch, ReaderCanMove, WorkerCanMove, Send;
    if a.Arrives? { DispatchReader(s, a.frame); }
  }

  lemma DispatchReader(s: State, f: Frame)
    requires s.reader.AtRead?
    ensures var r := Dispatch(s, f).reader; !r.Sweeping? && !r.Flagging? && !r.Ended?
  {
    match f
    case SynStream(_, _, _, _, _) =>
    case Ping(_) =>
    case _ =>
  }

  lemma SweepOneKept(s: State, a: Action)
    requires ReachInv(s) && Can(s, a) && a.SweepOne?
    ensures SweepInv(Step(s, a))
  {
    hide Step, Can, LastInv, TableInv, QueuesInv, RemovalInv, WorkersInv, OpenInv, Accepted;
    var t := Step(s, a);
    StepIs(s, a);
    forall o | 0 <= o < |t.ids| ensures IsClosed(t, o) || o in t.reader.todo {
      assert IsClosed(s, o) || o in s.reader.todo;
    }
  }

  lemma ReaderSweep(s: State, a: Action)
    requires ReachInv(s) && Can(s, a) && a.ReaderMoves? && ReaderCanMove(s) && Step(s, a) == MoveReader(s)
    ensures SweepInv(Step(s, a))
  {
    hide Step, Can, MoveReader, LastInv, TableInv, QueuesInv, RemovalInv, WorkersInv, Accepted, IsClosed, ReaderInv,
      Send;
    ReaderFrame(s);
    ReaderKeeps(s);
    SweepNext(s);
    var t := MoveReader(s);
    forall o | 0 <= o < |s.ids| && IsClosed(s, o) ensures IsClosed(t, o) { ClosedStays(s, a, o); }
    if s.reader.SweepStarting? {
      forall o | 0 <= o < |t.ids| ensures IsClosed(t, o) || o in t.reader.todo {
        assert IsClosed(s, o) || InTable(s, o);
      }
    }
  }

  lemma SweepNext(s: State)
    requires ReaderCanMove(s)
    ensures var t := MoveReader(s);
      && (t.reader.Sweeping? ==> s.reader.SweepStarting? && t.reader.todo == s.table.Values)
      && (t.reader.Flagging? ==> s.reader.Sweeping? && s.reader.todo == {})
      && (t.reader.Ended? ==> s.reader.Flagging? && t.closeFlag)
  {
    hide MoveReader, Send, Route, Resolve;
    ReaderFrame(s);
    match s.reader
    case RoutingSyn(syn, obj) => RouteFrame(s, syn, obj);
    case Routing(f, obj) => RouteFrame(s, f, obj);
    case Resolving(id) => ResolveFrame(s, id);
    case _ =>
  }

  // ---------------------------------------------------------------------------
  // GOAWAY
  // ---------------------------------------------------------------------------

  /** A close call that won its swap. */
  predicate IsWinner(c: Closer) {
    !c.Lost?
  }

  /** It has not sent its GOAWAY yet. */
  predicate StillToSend(c: Closer) {
    c.Loading? || c.Sending?
  }

  ghost predicate HasWinner(s: State) {
    exists c :: 0 <= c < |s.closers| && IsWinner(s.closers[c])
  }

  ghost predicate OneWinner(s: State) {
    && (forall c, d :: 0 <= c < d < |s.closers| ==> !IsWinner(s.closers[c]) || !IsWinner(s.closers[d]))
    && (HasWinner(s) ==> s.goneAway)
  }

  ghost predicate OneGoAway(s: State) {
    && (forall i, j :: 0 <= i < j < |s.out.enqueued| ==> !s.out.enqueued[i].GoAway? || !s.out.enqueued[j].GoAway?)
    && (forall i :: 0 <= i < |s.out.enqueued| && s.out.enqueued[i].GoAway? ==>
          HasWinner(s) && forall c :: 0 <= c < |s.closers| ==> !StillToSend(s.closers[c]))
  }

  /** The last-good id is 0 or registered, and only the id carried past the check at the swap can exceed it. */
  ghost predicate LastGood(s: State, last: u32) {
    && (last == 0 || last in s.ids)
    && forall o :: 0 <= o < |s.ids| && s.ids[o] > last ==> s.carried == Some(s.ids[o])
  }

  ghost predicate BoundInv(s: State) {
    && (HasWinner(s) && CarriedId(s.reader).Some? ==> CarriedId(s.reader) == s.carried)
    && (HasWinner(s) ==> LastGood(s, s.lastId))
    && (forall c :: 0 <= c < |s.closers| && s.closers[c].Sending? ==> LastGood(s, s.closers[c].last))
    && (forall i :: 0 <= i < |s.out.enqueued| && s.out.enqueued[i].GoAway? ==>
          LastGood(s, s.out.enqueued[i].lastGoodStreamId))
  }

  ghost predicate GoAwayInv(s: State) {
    BaseInv(s) && OneWinner(s) && OneGoAway(s) && BoundInv(s)
  }

  lemma WinnerKept(s: State, a: Action)
    requires GoAwayInv(s) && Can(s, a)
    ensures OneWinner(Step(s, a))
    ensures !a.CallClose? ==> (HasWinner(Step(s, a)) <==> HasWinner(s))
    ensures HasWinner(s) ==> HasWinner(Step(s, a))
  {
    hide Step, Can, MoveReader, BaseInv, OneGoAway, BoundInv;
    var t := Step(s, a);
    StepIs(s, a);
    ClosingFrame(s, a);
    if a.CloserMoves? {
      CloserEffects(s, a.c);
      assert t.closers == s.closers[a.c := t.closers[a.c]];
      SameWinners(s, t);
    } else if a.CallClose? {
      CallEffects(s, a);
      if HasWinner(t) && s.goneAway {
        var c :| 0 <= c < |t.closers| && IsWinner(t.closers[c]);
        assert IsWinner(s.closers[c]);
      }
      if HasWinner(s) {
        var c :| 0 <= c < |s.closers| && IsWinner(s.closers[c]);
        assert IsWinner(t.closers[c]);
      }
    } else if a.ReaderMoves? {
      GoneStays(s);
      SameWinners(s, t);
    } else {
      SameWinners(s, t);
    }
  }

  lemma SameWinners(s: State, t: State)
    requires |t.closers| == |s.closers| &&
      forall c :: 0 <= c < |s.closers| ==> IsWinner(t.closers[c]) == IsWinner(s.closers[c])
    ensures HasWinner(t) <==> HasWinner(s)
  {
    if HasWinner(s) { var c :| 0 <= c < |s.closers| && IsWinner(s.closers[c]); assert IsWinner(t.closers[c]); }
    if HasWinner(t) { var c :| 0 <= c < |t.closers| && IsWinner(t.closers[c]); assert IsWinner(s.closers[c]); }
  }

  lemma GoneStays(s: State)
    requires ReaderCanMove(s)
    ensures s.goneAway ==> MoveReader(s).goneAway
  {
    hide MoveReader, Send;
    ReaderFrame(s);
    ReaderKeeps(s);
  }

  lemma CallEffects(s: State, a: Action)
    requires Can(s, a) && a.CallClose?
    ensures var t := Step(s, a);
      && t.goneAway
      && t.closers == s.closers + [if s.goneAway then Lost else Loading]
      && t.carried == if s.goneAway then s.carried else CarriedId(s.reader)
  {
  }

  lemma OneGoAwayKept(s: State, a: Action)
    requires GoAwayInv(s) && Can(s, a)
    ensures OneGoAway(Step(s, a))
  {
    hide Step, Can, MoveReader, BoundInv, HasWinner;
    var t := Step(s, a);
    StepIs(s, a);
    ClosingFrame(s, a);
    EnqueuedFrame(s, a);
    WinnerKept(s, a);
    EmittedKinds(s, a);
    if a.CloserMoves? {
      CloserEffects(s, a.c);
      ThisWinner(s, a.c);
    } else if a.CallClose? {
      CallEffects(s, a);
      if !s.goneAway { NoWinnerNoGoAway(s); }
    }
  }

  lemma NoWinnerNoGoAway(s: State)
    requires OneWinner(s) && OneGoAway(s) && !s.goneAway
    ensures !HasWinner(s) && forall i :: 0 <= i < |s.out.enqueued| ==> !s.out.enqueued[i].GoAway?
  {
  }

  lemma ThisWinner(s: State, c: nat)
    requires OneWinner(s) && c < |s.closers| && IsWinner(s.closers[c])
    ensures HasWinner(s) && forall d :: 0 <= d < |s.closers| && d != c ==> !IsWinner(s.closers[d])
  {
  }

  /** Only a close call emits a GOAWAY. */
  lemma EmittedKinds(s: State, a: Action)
    requires BaseInv(s) && Can(s, a)
    ensures |Emitted(s, a)| <= 1
    ensures Emitted(s, a) != [] && Emitted(s, a)[0].GoAway? ==>
      a.CloserMoves? && s.closers[a.c].Sending? && Emitted(s, a)[0].lastGoodStreamId == s.closers[a.c].last
  {
    hide Step, WorkersInv, QueuesInv, TableInv, Accepted, LastInv;
  }

  lemma BoundKept(s: State, a: Action)
    requires GoAwayInv(s) && Can(s, a)
    ensures BoundInv(Step(s, a))
  {
    hide Step, Can, MoveReader, MoveWorker, OneGoAway, HasWinner, LastGood, Emitted, WorkersInv, QueuesInv, TableInv,
      LastInv, Accepted;
    var t := Step(s, a);
    StepIs(s, a);
    StreamsFrame(s, a);
    TasksFrame(s, a);
    ClosingFrame(s, a);
    EnqueuedFrame(s, a);
    WinnerKept(s, a);
    EmittedKinds(s, a);
    if a.CallClose? {
      CallEffects(s, a);
      CallBound(s, a);
    } else {
      forall last: u32 | LastGood(s, last) && (HasWinner(s) || !a.ReaderMoves?) ensures LastGood(t, last) {
        LastGoodStays(s, a, last);
      }
      WinnersMatter(s);
      CarriedKept(s, a);
      LastIdKept(s, a);
      if a.CloserMoves? {
        CloserEffects(s, a.c);
        assert IsWinner(s.closers[a.c]);
        IsAWinner(s, a.c);
      }
    }
  }

  lemma IsAWinner(s: State, c: nat)
    requires c < |s.closers| && IsWinner(s.closers[c])
    ensures HasWinner(s)
  {
  }

  /** Everything the bound speaks of exists only once there is a winner. */
  lemma WinnersMatter(s: State)
    requires GoAwayInv(s)
    ensures forall c :: 0 <= c < |s.closers| && s.closers[c].Sending? ==> HasWinner(s)
    ensures forall i :: 0 <= i < |s.out.enqueued| && s.out.enqueued[i].GoAway? ==> HasWinner(s)
  {
    forall c | 0 <= c < |s.closers| && s.closers[c].Sending? ensures HasWinner(s) { assert IsWinner(s.closers[c]); }
  }

  lemma LastGoodStays(s: State, a: Action, last: u32)
    requires GoAwayInv(s) && Can(s, a) && LastGood(s, last) && (HasWinner(s) || !a.ReaderMoves?) && !a.CallClose?
    ensures LastGood(Step(s, a), last)
  {
    hide Step, Can, MoveReader, MoveWorker, OneGoAway, OneWinner, HasWinner, WorkersInv, QueuesInv, TableInv, LastInv,
      Accepted;
    StepIs(s, a);
    StreamsFrame(s, a);
    ClosingFrame(s, a);
    if a.ReaderMoves? {
      ReaderFrame(s);
      ReaderKeeps(s);
      if s.reader.Inserting? {
        InsertIsNew(s);
        assert s.ids + [s.reader.syn.streamId] == Step(s, a).ids;
      }
    }
  }

  /** With a winner, the reader carries past the check at most the id it carried at the swap. */
  lemma CarriedKept(s: State, a: Action)
    requires GoAwayInv(s) && Can(s, a) && !a.CallClose?
    ensures HasWinner(s) && CarriedId(Step(s, a).reader).Some? ==> CarriedId(Step(s, a).reader) == Step(s, a).carried
  {
    hide Step, Can, MoveReader, MoveWorker, OneGoAway, HasWinner, WorkersInv, QueuesInv, TableInv, LastInv, Accepted,
      LastGood;
    StepIs(s, a);
    TasksFrame(s, a);
    ClosingFrame(s, a);
    if a.ReaderMoves? {
      ReaderNext(s);
      ReaderKeeps(s);
      ReaderFrame(s);
    } else if ReaderActs(a) {
      OtherReaderSteps(s, a);
    }
  }

  lemma LastIdKept(s: State, a: Action)
    requires GoAwayInv(s) && Can(s, a) && !a.CallClose?
    ensures HasWinner(s) ==> LastGood(Step(s, a), Step(s, a).lastId)
  {
    hide Step, Can, MoveReader, MoveWorker, OneGoAway, OneWinner, HasWinner, WorkersInv, QueuesInv, TableInv;
    StepIs(s, a);
    StreamsFrame(s, a);
    if HasWinner(s) {
      if a.ReaderMoves? && s.reader.StoringLast? {
        ReaderFrame(s);
        NewestBounds(s.ids);
      } else {
        if a.ReaderMoves? { ReaderKeeps(s); }
        LastGoodStays(s, a, s.lastId);
      }
    }
  }

  /** At the moment of the swap only the carried id can exceed the last one. */
  lemma CallBound(s: State, a: Action)
    requires GoAwayInv(s) && Can(s, a) && a.CallClose?
    ensures BoundInv(Step(s, a))
  {
    hide Step, Can, OneGoAway, HasWinner, WorkersInv, QueuesInv, TableInv, Emitted, LastGood, Accepted, LastInv;
    var t := Step(s, a);
    CallEffects(s, a);
    StreamsFrame(s, a);
    TasksFrame(s, a);
    EnqueuedFrame(s, a);
    EmittedKinds(s, a);
    WinnersMatter(s);
    if !s.goneAway {
      SwapBound(s, t);
      IsAWinner(t, |s.closers|);
    } else {
      SameGood(s, t);
      LostIsNoWinner(s, t);
    }
  }

  lemma SwapBound(s: State, t: State)
    requires BaseInv(s) && t.ids == s.ids && t.lastId == s.lastId && t.carried == CarriedId(s.reader)
    ensures LastGood(t, t.lastId)
  {
    hide WorkersInv, QueuesInv, TableInv;
    var known := if s.reader.StoringLast? then s.ids[..|s.ids| - 1] else s.ids;
    NewestBounds(known);
    forall o | 0 <= o < |known| ensures s.ids[o] <= s.lastId { assert known[o] == s.ids[o]; }
    if known != [] { assert known[|known| - 1] in s.ids; }
  }

  lemma SameGood(s: State, t: State)
    requires t.ids == s.ids && t.carried == s.carried
    ensures forall last: u32 :: LastGood(s, last) ==> LastGood(t, last)
  {
  }

  lemma LostIsNoWinner(s: State, t: State)
    requires t.closers == s.closers + [Lost]
    ensures HasWinner(t) ==> HasWinner(s)
  {
    if HasWinner(t) {
      var c :| 0 <= c < |t.closers| && IsWinner(t.closers[c]);
      assert IsWinner(s.closers[c]);
    }
  }

  // ---------------------------------------------------------------------------
  // All runs
  // ---------------------------------------------------------------------------

  lemma BothKept(s: State, a: Action)
    requires ReachInv(s) && GoAwayInv(s) && Can(s, a)
    ensures ReachInv(Step(s, a)) && GoAwayInv(Step(s, a))
  {
    hide Step, Can, BaseInv, OpenInv, RemovalInv, SweepInv, OneWinner, OneGoAway, BoundInv;
    BaseKept(s, a);
    ShapeKept(s, a);
    OpenKept(s, a);
    RemovalKept(s, a);
    SweepKept(s, a);
    WinnerKept(s, a);
    OneGoAwayKept(s, a);
    BoundKept(s, a);
  }

  lemma {:induction false} RunClosing(acts: seq<Action>)
    requires Run(acts).Some?
    ensures ReachInv(Run(acts).value) && GoAwayInv(Run(acts).value)
    decreases |acts|
  {
    if acts != [] {
      hide ReachInv, GoAwayInv, Step, Can;
      RunClosing(acts[..|acts| - 1]);
      BothKept(Run(acts[..|acts| - 1]).value, acts[|acts| - 1]);
    } else {
      RunBase(acts);
    }
  }

  lemma ReachableClosing(s: State)
    requires Reachable(s)
    ensures ReachInv(s) && GoAwayInv(s)
  {
    hide ReachInv, GoAwayInv;
    var acts :| Run(acts) == Some(s);
    RunClosing(acts);
  }

  // ---------------------------------------------------------------------------
  // Results
  // ---------------------------------------------------------------------------

  /**
   * In every reachable state an accepted stream is in the table or already closed for reading; so when the reader has
   * ended, by GOAWAY or by an error, every stream ever accepted is closed and the connection's close flag is set.
   */
  lemma ClosingReachesAll(s: State)
    requires Reachable(s)
    ensures |s.rxs| == |s.ids|
    ensures forall o :: 0 <= o < |s.ids| ==> s.rxs[o].closed || (s.ids[o] in s.table && s.table[s.ids[o]] == o)
    ensures s.reader.Ended? ==> s.closeFlag && forall o :: 0 <= o < |s.ids| ==> s.rxs[o].closed
  {
    hide GoAwayInv;
    ReachableClosing(s);
    forall o | 0 <= o < |s.ids| ensures s.rxs[o].closed || (s.ids[o] in s.table && s.table[s.ids[o]] == o) {
      assert IsClosed(s, o) || InTable(s, o);
    }
    if s.reader.Ended? {
      forall o | 0 <= o < |s.ids| ensures s.rxs[o].closed { assert IsClosed(s, o); }
    }
  }

  /** And so it stays: nothing is accepted, reopened or unflagged afterwards. */
  lemma EndedForever(s: State, a: Action)
    requires Reachable(s) && s.reader.Ended? && Can(s, a)
    ensures var t := Step(s, a);
      t.reader.Ended? && t.ids == s.ids && t.closeFlag && |t.rxs| == |t.ids|
      && forall o :: 0 <= o < |t.ids| ==> t.rxs[o].closed
  {
    hide Step, Can;
    StepIs(s, a);
    StreamsFrame(s, a);
    TasksFrame(s, a);
    ReachStep(s, a);
    ClosingReachesAll(Step(s, a));
  }

  /**
   * The GOAWAY race: however close calls interleave with the reader, at most one GOAWAY is ever enqueued; its
   * last-good id is 0 or an accepted id; and an accepted id above it, now or later, is the one the reader had already
   * carried past the gone_away check when the close call swapped the flag, so there is at most one. There is one
   * exactly when that id was registered and the swap's last id was loaded before it.
   */
  lemma GoAwayRace(s: State, i: nat, j: nat)
    requires Reachable(s) && i < |s.out.enqueued| && s.out.enqueued[i].GoAway?
    ensures j < |s.out.enqueued| && s.out.enqueued[j].GoAway? ==> i == j
    ensures var last := s.out.enqueued[i].lastGoodStreamId;
      && (last == 0 || last in s.ids)
      && (forall o :: 0 <= o < |s.ids| && s.ids[o] > last ==> s.carried == Some(s.ids[o]) && o == |s.ids| - 1)
      && ((exists o :: 0 <= o < |s.ids| && s.ids[o] > last) <==>
          s.carried.Some? && s.carried.value in s.ids && s.carried.value > last)
  {
    hide ReachInv;
    ReachableClosing(s);
    var last := s.out.enqueued[i].lastGoodStreamId;
    assert LastGood(s, last);
    forall o | 0 <= o < |s.ids| - 1 ensures s.ids[o] < s.ids[|s.ids| - 1] {}
  }

  /**
   * Where the race is lost: when the winning close call is about to load the last id, the reader carries an id past
   * its going-away check exactly if it is about to insert it or has inserted it without storing it; that id is above
   * the one that will be loaded, and no other accepted id is.
   */
  lemma RaceIsLostExactly(s: State, c: nat)
    requires Reachable(s) && c < |s.closers| && s.closers[c].Loading?
    ensures CarriedId(s.reader).Some? <==> s.reader.Inserting? || exists o :: 0 <= o < |s.ids| && s.ids[o] > s.lastId
    ensures CarriedId(s.reader).Some? ==> CarriedId(s.reader).value > s.lastId
    ensures forall o :: 0 <= o < |s.ids| && s.ids[o] > s.lastId ==> CarriedId(s.reader) == Some(s.ids[o])
  {
    hide Reachable, TableInv, WorkersInv, QueuesInv;
    ReachableBase(s);
    var known := if s.reader.StoringLast? then s.ids[..|s.ids| - 1] else s.ids;
    NewestBounds(known);
    forall o | 0 <= o < |known| ensures s.ids[o] <= s.lastId { assert known[o] == s.ids[o]; }
  }
}
