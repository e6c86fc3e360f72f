/** What the peer reads: the bytes on the wire are the frames that entered the write queue, in that order. */
module Wire {
  import opened Octets
  import opened Frame
  import opened Zlib
  import opened Framer
  import opened Connection
  import opened Frames
  import opened Registry
  import opened Closing

  /** The frames taken from the queue so far were written, or one of them is in the write task's hand. */
  ghost predicate QueueInv(o: Outbox) {
    if o.alive then o.enqueued == o.written + (if o.hand.Some? then [o.hand.value] else []) + o.queue
    else o.written <= o.enqueued
  }

  ghost predicate FirstInv(s: State) {
    && (s.reader.Booting? ==> s == INITIAL)
    && (!s.reader.Booting? ==> s.out.enqueued != [] && s.out.enqueued[0] == InitialSettings())
  }

  ghost predicate RangeInv(s: State) {
    forall i :: 0 <= i < |s.out.enqueued| ==> InRange(s.out.enqueued[i])
  }

  ghost predicate WireInv(s: State) {
    QueueInv(s.out) && FirstInv(s) && RangeInv(s)
  }

  lemma QueueGrows(o: Outbox, fs: seq<Frame>)
    requires QueueInv(o) && (!o.alive ==> fs == [])
    ensures QueueInv(o.(queue := o.queue + fs, enqueued := o.enqueued + fs))
  {
    if o.alive {
      ConcatAssoc(o.written + (if o.hand.Some? then [o.hand.value] else []), o.queue, fs);
    } else {
      assert o.enqueued + fs == o.enqueued;
    }
  }

  /** The frame moves from the head of the queue to the write task's hand, and from there to the wire. */
  lemma QueueTaken(o: Outbox)
    requires QueueInv(o) && o.alive && o.hand.None? && o.queue != []
    ensures QueueInv(o.(queue := o.queue[1..], hand := Some(o.queue[0])))
  {
    assert o.written + [] == o.written;
    assert [o.queue[0]] + o.queue[1..] == o.queue;
    ConcatAssoc(o.written, [o.queue[0]], o.queue[1..]);
  }

  lemma HandWritten(o: Outbox)
    requires QueueInv(o) && o.alive && o.hand.Some?
    ensures QueueInv(o.(hand := None, written := o.written + [o.hand.value]))
    ensures QueueInv(o.(hand := None, alive := false, queue := []))
  {
    assert o.written + [o.hand.value] + [] == o.written + [o.hand.value];
    assert o.written <= o.written + ([o.hand.value] + o.queue);
    ConcatAssoc(o.written, [o.hand.value], o.queue);
  }

  lemma QueueKept(s: State, a: Action)
    requires QueueInv(s.out) && Can(s, a)
    ensures QueueInv(Step(s, a).out)
  {
    hide Step, Emitted, QueueInv;
    OutboxFrame(s, a);
    match a
    case WriterTakes => QueueTaken(s.out);
    case WriterWrites => HandWritten(s.out);
    case WriterFails => HandWritten(s.out);
    case _ =>
      EmittedWhenAlive(s, a);
      QueueGrows(s.out, Emitted(s, a));
  }

  lemma EmittedWhenAlive(s: State, a: Action)
    requires Can(s, a)
    ensures !s.out.alive ==> Emitted(s, a) == []
  {
  }

  lemma FirstKept(s: State, a: Action)
    requires FirstInv(s) && Can(s, a)
    ensures FirstInv(Step(s, a))
  {
    if s.reader.Booting? {
      OnlyBoot(a);
    } else {
      hide Step, Emitted, Can;
      EnqueuedFrame(s, a);
      NeverBootsAgain(s, a);
    }
  }

  lemma OnlyBoot(a: Action)
    requires Can(INITIAL, a)
    ensures a.Boot? && Step(INITIAL, a).out.enqueued == [InitialSettings()] && Step(INITIAL, a).reader.AtRead?
  {
  }

  lemma NeverBootsAgain(s: State, a: Action)
    requires Can(s, a) && !s.reader.Booting?
    ensures !Step(s, a).reader.Booting?
  {
    hide Step, Can, MoveReader, Dispatch;
    StepIs(s, a);
    TasksFrame(s, a);
    if a.ReaderMoves? {
      NeverBoots(s);
    } else if a.Arrives? {
      DispatchNeverBoots(s, a.frame);
    }
  }

  lemma DispatchNeverBoots(s: State, f: Frame)
    requires s.reader.AtRead?
    ensures !Dispatch(s, f).reader.Booting?
  {
  }

  lemma NeverBoots(s: State)
    requires ReaderCanMove(s)
    ensures !MoveReader(s).reader.Booting?
  {
    hide MoveReader, Send, Route, Resolve;
    ReaderFrame(s);
    match s.reader
    case RoutingSyn(syn, obj) => RouteFrame(s, syn, obj);
    case Routing(f, obj) => RouteFrame(s, f, obj);
    case Resolving(id) => ResolveFrame(s, id);
    case _ =>
  }

  /** Ids on the way out are 31-bit ids: those of accepted streams, of masked inbound frames, or of a GOAWAY. */
  lemma EmittedInRange(s: State, a: Action)
    requires GoAwayInv(s) && Can(s, a)
    ensures forall i :: 0 <= i < |Emitted(s, a)| ==> InRange(Emitted(s, a)[i])
  {
    hide Step, WorkersInv, QueuesInv, TableInv, LastInv, OneWinner, OneGoAway;
    match a
    case CloserMoves(c) =>
      if s.closers[c].Sending? { assert LastGood(s, s.closers[c].last); }
    case _ =>
  }

  lemma RangeKept(s: State, a: Action)
    requires RangeInv(s) && GoAwayInv(s) && Can(s, a)
    ensures RangeInv(Step(s, a))
  {
    hide Step, Can, Emitted, GoAwayInv, InRange;
    EnqueuedFrame(s, a);
    EmittedInRange(s, a);
  }

  lemma {:induction false} RunWire(acts: seq<Action>)
    requires Run(acts).Some?
    ensures WireInv(Run(acts).value)
    decreases |acts|
  {
    if acts != [] {
      hide Step, Can, GoAwayInv, ReachInv, QueueInv, FirstInv, RangeInv;
      var before := acts[..|acts| - 1];
      RunWire(before);
      RunClosing(before);
      QueueKept(Run(before).value, acts[|acts| - 1]);
      FirstKept(Run(before).value, acts[|acts| - 1]);
      RangeKept(Run(before).value, acts[|acts| - 1]);
    }
  }

  lemma ReachableWire(s: State)
    requires Reachable(s)
    ensures WireInv(s)
  {
    hide WireInv;
    var acts :| Run(acts) == Some(s);
    RunWire(acts);
  }

  // ---------------------------------------------------------------------------
  // Results
  // ---------------------------------------------------------------------------

  lemma {:induction false} InRangeAll(fs: seq<Frame>)
    requires forall i :: 0 <= i < |fs| ==> InRange(fs[i])
    ensures MaskedAll(fs) == fs
  {
    hide Masked, InRange;
    forall i | 0 <= i < |fs| ensures Masked(fs[i]) == fs[i] { InRangeIsUnmasked(fs[i]); }
    assert MaskedAll(fs) == fs;
  }

  /**
   * The frames written are a prefix of the frames enqueued, whatever tasks enqueued them, and SETTINGS is the first.
   */
  lemma WrittenIsPrefix(s: State)
    requires Reachable(s)
    ensures s.out.written <= s.out.enqueued
    ensures s.out.written != [] ==> s.out.written[0] == Settings([Setting(4, 0, 100)], 0)
    ensures s.out.enqueued != [] ==> s.out.enqueued[0] == Settings([Setting(4, 0, 100)], 0)
    ensures s.out.alive ==> |s.out.enqueued| == |s.out.written| + (if s.out.hand.Some? then 1 else 0) + |s.out.queue|
  {
    hide RangeInv;
    ReachableWire(s);
    if s.out.alive { assert s.out.written <= s.out.enqueued; }
  }

  /**
   * Wire agrees with queue. In every run, if the written frames are of admissible size, a peer that reads what is on
   * the wire, whole frames followed by the first n bytes of the next one, gets exactly the written frames, which are a
   * prefix of the frames enqueued in enqueue order, and then an end of input, never a wrong frame.
   */
  lemma WireAgreesWithQueue(env: Env, s: State, next: Frame, n: nat)
    requires Reachable(s) && EnvLaw(env) && FramesOk(env, s.out.written) && RunOk(env, [], s.out.written)
    requires FrameOk(env, next) && |Payload(env, RunRaws(env, [], s.out.written), next)| < 0x100_0000
    requires n < |EncodeFrame(env, RunRaws(env, [], s.out.written), next)|
    ensures var raws := RunRaws(env, [], s.out.written);
      DecodeAll(env, [], EncodeAll(env, [], s.out.written) + EncodeFrame(env, raws, next)[..n]) ==
      (s.out.written, if n < 8 then ConnectionClosed else Io)
    ensures s.out.written <= s.out.enqueued
  {
    hide RunOk, EncodeAll, RunRaws, EncodeFrame, DecodeAll, Payload, FramesOk, InRange, Reachable, QueueInv, FirstInv;
    ReachableWire(s);
    WrittenIsPrefix(s);
    TornRun(env, s.out.written, next, n);
    InRangeAll(s.out.written);
  }

  /** What the read task is handed: every frame the decoder delivers, from any bytes, is one that may arrive. */
  lemma DecodedMayArrive(env: Env, chunks: seq<Bytes>, input: Bytes)
    requires DecodeFrame(env, chunks, input).result.Ok?
    ensures IsDecoded(DecodeFrame(env, chunks, input).result.value)
    ensures InRange(DecodeFrame(env, chunks, input).result.value)
  {
    hide ParseControl, ReadHead;
    var head := ReadHead(input);
    DataIdInRange(input);
    if head.ControlHead? {
      ControlInRange(env, chunks, head.frameType, head.flags, input[8..8 + head.length]);
    }
  }

  lemma DataIdInRange(h: Bytes)
    requires |h| >= 8
    ensures ReadHead(h).DataHead? ==> ReadHead(h).streamId < 0x8000_0000
  {
  }

  lemma ControlInRange(env: Env, chunks: seq<Bytes>, frameType: nat, flags: u8, p: Bytes)
    requires ParseControl(env, chunks, frameType, flags, p).0.Ok?
    ensures var f := ParseControl(env, chunks, frameType, flags, p).0.value; IsDecoded(f) && InRange(f)
  {
    hide FromBytes, Decompress;
  }

  lemma NothingWritten(env: Env)
    ensures EncodeAll(env, [], []) == [] && RunRaws(env, [], []) == []
  {
  }

  /**
   * The write task's loop, over the frames it takes from the queue in order: it stops at the first failed write, having
   * handed over the bytes of the frames before it and a strict prefix of that frame's.
   */
  method WriteTask(framer: Framer, frames: seq<Frame>) returns (done: nat, torn: nat)
    requires framer.written == [] && framer.raws == [] && FramesOk(framer.env, frames)
    modifies framer
    ensures done <= |frames| && FramesOk(framer.env, frames[..done])
    ensures done == |frames| ==> framer.written == EncodeAll(framer.env, [], frames)
    ensures done < |frames| ==>
      var bytes := EncodeFrame(framer.env, RunRaws(framer.env, [], frames[..done]), frames[done]);
      torn < |bytes| && framer.written == EncodeAll(framer.env, [], frames[..done]) + bytes[..torn]
  {
    hide EncodeFrame, FrameOk, NextRaws, EncodeAll, RunRaws, RunOk, SizeOk;
    NothingWritten(framer.env);
    done, torn := 0, 0;
    while done < |frames|
      invariant done <= |frames|
      invariant framer.raws == RunRaws(framer.env, [], frames[..done])
      invariant framer.written == EncodeAll(framer.env, [], frames[..done])
    {
      var f, room := frames[done], framer.room;
      var r := framer.WriteFrame(f);
      if r.Err? {
        torn := room.value;
        break;
      }
      RunAppend(framer.env, [], frames[..done], f);
      assert frames[..done + 1] == frames[..done] + [f];
      done := done + 1;
    }
    assert frames[..|frames|] == frames;
  }
}
