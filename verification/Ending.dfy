/**
 * What ends what: which frames end the read loop, which frames close a stream, and which remove it. Each is exact: it
 * happens when it should and never otherwise.
 */
module Ending {
  import opened Octets
  import opened Frame
  import opened Receive
  import opened Connection
  import opened Frames
  import opened Registry
  import opened Closing

  // ---------------------------------------------------------------------------
  // The read loop
  // ---------------------------------------------------------------------------

  /** The read task has left its loop, or is on its way out of it after a GOAWAY. */
  predicate IsLeaving(r: Connection.Reader) {
    r.StoringGone? || r.FlaggingGone? || r.SweepStarting? || r.Sweeping? || r.Flagging? || r.Ended?
  }

  /** The loop is left exactly on a read error and on a peer's GOAWAY, and never entered again. */
  lemma LoopEndsExactly(s: State, a: Action)
    requires Can(s, a)
    ensures IsLeaving(Step(s, a).reader) <==>
      IsLeaving(s.reader) || a.ReadFails? || (a.Arrives? && a.frame.GoAway?)
  {
    hide Step, Can, MoveReader, Dispatch;
    StepIs(s, a);
    TasksFrame(s, a);
    if a.ReaderMoves? {
      ReaderGoesTo(s);
    } else if a.Arrives? {
      GoAwayLeaves(s, a.frame);
    } else if a.SweepOne? {
      assert IsLeaving(s.reader);
    }
  }

  lemma GoAwayLeaves(s: State, f: Frame)
    requires s.reader.AtRead?
    ensures IsLeaving(Dispatch(s, f).reader) <==> f.GoAway?
    ensures f.GoAway? ==> Dispatch(s, f).reader.StoringGone?
  {
  }

  /** A GOAWAY is the last frame received, and what its arm has stored by now. */
  ghost predicate GoneInv(s: State) {
    && (forall i :: 0 <= i < |s.log.inbound| && s.log.inbound[i].GoAway? ==>
          i == |s.log.inbound| - 1 && IsLeaving(s.reader) && HasStored(s))
    && (s.reader.StoringGone? || s.reader.FlaggingGone? ==>
          s.log.inbound != [] && s.log.inbound[|s.log.inbound| - 1].GoAway?)
  }

  predicate HasStored(s: State) {
    && (s.reader.StoringGone? || s.goneAway)
    && (s.reader.StoringGone? || s.reader.FlaggingGone? || s.closeFlag)
  }

  lemma StoredKept(s: State, a: Action)
    requires Can(s, a) && IsLeaving(s.reader) && HasStored(s) && GoneInv(s)
    ensures HasStored(Step(s, a)) && Step(s, a).log.inbound == s.log.inbound
    ensures Step(s, a).reader.StoringGone? || Step(s, a).reader.FlaggingGone? ==>
      s.reader.StoringGone? || s.reader.FlaggingGone?
  {
    hide Step, Can, MoveReader, MoveCloser;
    StepIs(s, a);
    TasksFrame(s, a);
    PingsFrame(s, a);
    ClosingFrame(s, a);
    if a.ReaderMoves? {
      ReaderGoesTo(s);
      ReaderKeeps(s);
      ReaderFrame(s);
    } else if a.CloserMoves? {
      CloserEffects(s, a.c);
    } else if a.CallClose? {
      CallEffects(s, a);
    }
  }

  lemma GoneKept(s: State, a: Action)
    requires GoneInv(s) && Can(s, a)
    ensures GoneInv(Step(s, a))
  {
    hide Step, Can, MoveReader, Dispatch, HasStored;
    LoopEndsExactly(s, a);
    StepIs(s, a);
    PingsFrame(s, a);
    TasksFrame(s, a);
    if IsLeaving(s.reader) {
      StoredOrNot(s, a);
    } else if a.Arrives? {
      DispatchFrame(s, a.frame);
      GoAwayLeaves(s, a.frame);
      if a.frame.GoAway? { JustArrived(Step(s, a)); }
    } else if a.ReaderMoves? {
      ReaderKeeps(s);
      ReaderGoesTo(s);
    }
  }

  lemma JustArrived(s: State)
    requires s.reader.StoringGone?
    ensures HasStored(s)
  {
  }

  lemma StoredOrNot(s: State, a: Action)
    requires GoneInv(s) && Can(s, a) && IsLeaving(s.reader) && IsLeaving(Step(s, a).reader)
    ensures GoneInv(Step(s, a))
  {
    hide Step, Can, MoveReader, HasStored;
    StepIs(s, a);
    TasksFrame(s, a);
    PingsFrame(s, a);
    if i :| 0 <= i < |s.log.inbound| && s.log.inbound[i].GoAway? {
      StoredKept(s, a);
    } else if a.ReaderMoves? {
      ReaderKeeps(s);
      ReaderGoesTo(s);
    }
  }

  lemma {:induction false} RunGone(acts: seq<Action>)
    requires Run(acts).Some?
    ensures GoneInv(Run(acts).value)
    decreases |acts|
  {
    if acts != [] {
      hide GoneInv, Step, Can;
      RunGone(acts[..|acts| - 1]);
      GoneKept(Run(acts[..|acts| - 1]).value, acts[|acts| - 1]);
    }
  }

  /**
   * A peer's GOAWAY, over every run: it is the last frame ever received, the read task is never back at its read, and
   * past the two stores of its arm the connection is going away and closed.
   */
  lemma GoAwayIsTheLast(s: State, i: nat)
    requires Reachable(s) && i < |s.log.inbound| && s.log.inbound[i].GoAway?
    ensures i == |s.log.inbound| - 1 && !s.reader.AtRead?
    ensures s.reader.StoringGone? || s.goneAway
    ensures s.reader.StoringGone? || s.reader.FlaggingGone? || s.closeFlag
    ensures s.reader.StoringGone? || s.reader.FlaggingGone? || s.reader.SweepStarting? || s.reader.Sweeping?
         || s.reader.Flagging? || s.reader.Ended?
  {
    var acts :| Run(acts) == Some(s);
    RunGone(acts);
  }

  /** SETTINGS and WINDOW_UPDATE change nothing that the model holds, and the task reads on. */
  lemma OthersAreIgnored(s: State, f: Frame)
    requires Can(s, Arrives(f)) && (f.Settings? || f.WindowUpdate?)
    ensures Step(s, Arrives(f)) == s.(log := s.log.(inbound := s.log.inbound + [f])) && Can(s, ReadFails)
  {
  }

  // ---------------------------------------------------------------------------
  // One stream
  // ---------------------------------------------------------------------------

  /** A frame on which a worker closes the stream: a RST, or a FIN on DATA, SYN_REPLY or HEADERS, but not SYN_STREAM. */
  predicate Closes(f: Frame) {
    f.RstStream? || ((f.Data? || f.SynReply? || f.Headers?) && f.flags % 2 == 1)
  }

  ghost predicate Told(fs: seq<Frame>) {
    exists f :: f in fs && Closes(f)
  }

  ghost predicate HasRst(fs: seq<Frame>) {
    exists f :: f in fs && f.RstStream?
  }

  predicate SweepBegun(r: Connection.Reader) {
    r.Sweeping? || r.Flagging? || r.Ended?
  }

  predicate HasEntry(s: State, o: nat)
    requires Shape(s) && o < |s.ids|
  {
    s.ids[o] in s.table && s.table[s.ids[o]] == o
  }

  /** What is known of one stream; `at` is what its worker is doing. */
  ghost predicate ToldInv(s: State, o: nat)
    requires Shape(s) && o < |s.ids|
  {
    var at := s.workers[WorkerOf(s.ids[o])];
    && (s.rxs[o].closed ==> Told(s.handled[o]) || SweepBegun(s.reader))
    && (Told(s.handled[o]) ==> s.rxs[o].closed || at == Connection.Worker.Closing(o))
    && (!HasEntry(s, o) ==> HasRst(s.handled[o]))
    && (HasEntry(s, o) && HasRst(s.handled[o]) ==> at == Removing(o))
    && (at == Connection.Worker.Closing(o) ==> Told(s.handled[o]))
    && (at == Removing(o) ==> HasRst(s.handled[o]))
  }

  lemma ToldAppend(fs: seq<Frame>, f: Frame)
    ensures Told(fs + [f]) <==> Told(fs) || Closes(f)
    ensures HasRst(fs + [f]) <==> HasRst(fs) || f.RstStream?
    ensures HasRst(fs) ==> Told(fs)
  {
    assert f in fs + [f];
    if Told(fs) {
      var g :| g in fs && Closes(g);
      assert g in fs + [f];
    }
    if HasRst(fs) {
      var g :| g in fs && g.RstStream?;
      assert g in fs + [f] && Closes(g);
    }
  }

  /** Worker w acts for some stream; every other stream sees nothing of it. */
  lemma WorkerTold(s: State, w: nat, o: nat)
    requires BaseInv(s) && Can(s, WorkerMoves(w)) && o < |s.ids| && ToldInv(s, o)
    requires Shape(Step(s, WorkerMoves(w))) && Step(s, WorkerMoves(w)).ids == s.ids
    ensures ToldInv(Step(s, WorkerMoves(w)), o)
  {
    hide Step, Can, Told, HasRst, QueuesInv, ReaderInv, LastInv, Closes;
    CanWork(s, w);
    assert WorkerOk(s.ids, w, s.workers[w]);
    if s.workers[w].Closing? {
      FinView(s, w);
    } else if s.workers[w].Removing? {
      RemoveView(s, w);
      OthersKeepIds(s.ids, s.workers[w].obj);
    } else {
      HandlingTold(s, w, o);
    }
  }

  lemma CanWork(s: State, w: nat)
    requires Can(s, WorkerMoves(w))
    ensures w < |s.workers| && !s.workers[w].Resting?
  {
  }

  lemma OthersKeepIds(ids: seq<u32>, p: nat)
    requires Accepted(ids) && p < |ids|
    ensures forall o :: 0 <= o < |ids| && o != p ==> ids[o] != ids[p]
  {
  }

  lemma HandlingTold(s: State, w: nat, o: nat)
    requires BaseInv(s) && Can(s, WorkerMoves(w)) && o < |s.ids| && ToldInv(s, o) && s.workers[w].Handling?
    requires Shape(Step(s, WorkerMoves(w))) && Step(s, WorkerMoves(w)).ids == s.ids
    ensures ToldInv(Step(s, WorkerMoves(w)), o)
  {
    hide Step, Can, Told, HasRst, QueuesInv, ReaderInv, LastInv, TableInv;
    CanWork(s, w);
    assert WorkerOk(s.ids, w, s.workers[w]);
    var m := s.workers[w].msg;
    ToldAppend(s.handled[o], m.frame);
    if m.frame.Data? {
      DataView(s, w);
    } else if m.frame.RstStream? {
      RstView(s, w);
    } else {
      OtherView(s, w);
    }
  }

  lemma RegisterTold(s: State, o: nat)
    requires BaseInv(s) && s.reader.Inserting? && s.reader.syn.SynStream? && s.reader.syn.streamId !in s.table
    requires o < |s.ids| ==> ToldInv(s, o)
    requires o <= |s.ids| && Shape(Register(s, s.reader.syn))
    ensures ToldInv(Register(s, s.reader.syn), o)
  {
    hide Told, HasRst, QueuesInv, TableInv;
    NewestBounds(s.ids);
    NothingTold();
    if o == |s.ids| {
      var w := WorkerOf(s.reader.syn.streamId);
      assert WorkerOk(s.ids, w, s.workers[w]);
    }
  }

  lemma NothingTold()
    ensures !Told([]) && !HasRst([])
  {
  }

  lemma ReaderTold(s: State, o: nat)
    requires BaseInv(s) && ReaderCanMove(s) && Shape(MoveReader(s)) && o < |MoveReader(s).ids|
    requires o < |s.ids| ==> ToldInv(s, o)
    ensures ToldInv(MoveReader(s), o)
  {
    hide MoveReader, Told, HasRst, WorkersInv, QueuesInv, TableInv, Accepted, LastInv, Register;
    if s.reader.Inserting? {
      InsertIsNew(s);
      InsertAppends(s);
      ReaderFrame(s);
      RegisterTold(s, o);
    } else {
      ReaderKeeps(s);
      ReaderGoesTo(s);
    }
  }

  lemma ToldKept(s: State, a: Action, o: nat)
    requires BaseInv(s) && Can(s, a) && Shape(Step(s, a)) && o < |Step(s, a).ids|
    requires o < |s.ids| ==> ToldInv(s, o)
    ensures ToldInv(Step(s, a), o)
  {
    hide Step, Can, MoveReader, MoveWorker, Told, HasRst, QueuesInv, TableInv, Accepted, LastInv;
    StepIs(s, a);
    StreamsFrame(s, a);
    TasksFrame(s, a);
    if a.ReaderMoves? {
      ReaderTold(s, o);
    } else if a.WorkerMoves? {
      WorkerTold(s, a.w, o);
    } else {
      if a.HandlerReads? { ReadKeepsClosed(s.rxs[a.obj], a.step); }
      if a.SweepOne? { CloseSets(s.rxs[a.obj]); }
      if ReaderActs(a) { SweepStays(s, a); }
    }
  }

  lemma CloseSets(rx: Rx)
    ensures Close(rx).closed
  {
  }

  lemma SweepStays(s: State, a: Action)
    requires Can(s, a) && ReaderActs(a) && !a.ReaderMoves?
    ensures SweepBegun(Step(s, a).reader) <==> SweepBegun(s.reader)
    ensures a.SweepOne? ==> SweepBegun(s.reader)
  {
    hide Step, Can, Dispatch;
    StepIs(s, a);
    if a.Arrives? { Closing.DispatchReader(s, a.frame); }
  }

  lemma {:induction false} RunTold(acts: seq<Action>, o: nat)
    requires Run(acts).Some? && o < |Run(acts).value.ids|
    ensures BaseInv(Run(acts).value) && ToldInv(Run(acts).value, o)
    decreases |acts|
  {
    RunBase(acts);
    hide BaseInv, ToldInv, Step, Can;
    if acts != [] {
      var before := acts[..|acts| - 1];
      RunBase(before);
      if o < |Run(before).value.ids| { RunTold(before, o); }
      ShapeOf(Run(acts).value);
      ToldKept(Run(before).value, acts[|acts| - 1], o);
    }
  }

  lemma ShapeOf(s: State)
    requires BaseInv(s)
    ensures Shape(s)
  {
  }

  /**
   * A stream is closed exactly when it is told to: once its worker has acted on a RST or on a FIN it is closed, or the
   * worker is just about to close it; and a stream that is closed was told so, or the final sweep has begun.
   */
  lemma ClosedExactly(s: State, o: nat)
    requires Reachable(s) && o < |s.ids|
    ensures Shape(s)
    ensures s.rxs[o].closed ==> Told(s.handled[o]) || s.reader.Sweeping? || s.reader.Flagging? || s.reader.Ended?
    ensures Told(s.handled[o]) ==> s.rxs[o].closed || s.workers[WorkerOf(s.ids[o])] == Connection.Worker.Closing(o)
  {
    hide Told, HasRst, BaseInv;
    var acts :| Run(acts) == Some(s);
    RunTold(acts, o);
    ShapeOf(s);
  }

  /** Only a RST removes a stream, and once its worker has finished acting on one the stream is gone. */
  lemma RemovedExactly(s: State, o: nat)
    requires Reachable(s) && o < |s.ids|
    ensures Shape(s)
    ensures s.workers[WorkerOf(s.ids[o])] != Removing(o) ==>
      (HasRst(s.handled[o]) <==> !(s.ids[o] in s.table && s.table[s.ids[o]] == o))
    ensures !(s.ids[o] in s.table && s.table[s.ids[o]] == o) ==> HasRst(s.handled[o])
  {
    hide Told, HasRst, BaseInv;
    var acts :| Run(acts) == Some(s);
    RunTold(acts, o);
    ShapeOf(s);
  }
}
