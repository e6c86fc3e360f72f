/**
 * The receive half of a stream: the bounded data buffer, the remote-close watch, and the one reader that holds the
 * receiver lock, in steps as fine as the awaits and loads of `read_data`.
 */
module Receive {
  import opened Octets

  const DATA_CAPACITY := 64

  /** Where the reader holding the receiver lock is. */
  datatype Reader =
    | Idle                      // no call in progress
    | FoundEmpty(seen: nat)     // the buffer test failed; `seen` chunks had been accepted by then
    | FoundOpen                 // the close flag was read as false
    | Waiting(version: nat)     // in the select, with the version its watch clone has seen

  /**
   * offered: every chunk given to push_data, and kept[i] whether the i-th found room.
   * accepted: those that did; taken: those returned to readers so far.
   */
  datatype Rx = Rx(
    buffer: seq<Bytes>, closed: bool, version: nat, seenVersion: nat, reader: Reader,
    offered: seq<Bytes>, kept: seq<bool>, accepted: seq<Bytes>, taken: seq<Bytes>)

  function NewRx(): Rx {
    Rx([], false, 0, 0, Idle, [], [], [], [])
  }

  /** push_data: a full buffer drops the chunk without a word. */
  function Push(rx: Rx, b: Bytes): Rx {
    if |rx.buffer| < DATA_CAPACITY then
      rx.(buffer := rx.buffer + [b], offered := rx.offered + [b],
          kept := rx.kept + [true], accepted := rx.accepted + [b])
    else rx.(offered := rx.offered + [b], kept := rx.kept + [false])
  }

  /** close_remote: `send(true)` on the watch channel, which always counts as a new version. */
  function Close(rx: Rx): Rx {
    rx.(closed := true, version := rx.version + 1)
  }

  /** The loads and awaits of read_data; a caller may also drop the call while it waits in its select. */
  datatype ReadStep = TestBuffer | TestClosed | CloneWatch | SelectData | SelectClosed | Drop

  /** What a step of read_data returns to the caller, if it returns. */
  datatype ReadResult = Continues | Chunk(data: Bytes) | EndOfStream

  predicate CanRead(rx: Rx, a: ReadStep) {
    match a
    case TestBuffer => rx.reader.Idle?
    case TestClosed => rx.reader.FoundEmpty?
    case CloneWatch => rx.reader.FoundOpen?
    case SelectData => rx.reader.Waiting? && rx.buffer != []
    case SelectClosed => rx.reader.Waiting? && rx.reader.version != rx.version
    case Drop => rx.reader.Waiting?
  }

  function TakeChunk(rx: Rx): Rx
    requires rx.buffer != []
  {
    rx.(buffer := rx.buffer[1..], taken := rx.taken + [rx.buffer[0]], reader := Idle)
  }

  function Read(rx: Rx, a: ReadStep): (Rx, ReadResult)
    requires CanRead(rx, a)
  {
    match a
    case TestBuffer =>
      if rx.buffer != [] then (TakeChunk(rx), Chunk(rx.buffer[0]))
      else (rx.(reader := FoundEmpty(|rx.accepted|)), Continues)
    case TestClosed =>
      if rx.closed then (rx.(reader := Idle), EndOfStream) else (rx.(reader := FoundOpen), Continues)
    case CloneWatch => (rx.(reader := Waiting(rx.seenVersion)), Continues)
    case SelectData => (TakeChunk(rx), Chunk(rx.buffer[0]))
    case SelectClosed =>
      if rx.buffer != [] then (TakeChunk(rx), Chunk(rx.buffer[0]))
      else (rx.(reader := Idle), EndOfStream)
    case Drop => (rx.(reader := Idle), Continues)
  }

  // ---------------------------------------------------------------------------
  // Invariant
  // ---------------------------------------------------------------------------

  /** The chunks whose flag is set, in order: a subsequence that uses no position twice. */
  function Selected(offered: seq<Bytes>, kept: seq<bool>): seq<Bytes>
    requires |offered| == |kept|
  {
    if offered == [] then []
    else
      var n := |offered| - 1;
      Selected(offered[..n], kept[..n]) + if kept[n] then [offered[n]] else []
  }

  ghost predicate RxInv(rx: Rx) {
    && rx.taken + rx.buffer == rx.accepted
    && |rx.buffer| <= DATA_CAPACITY
    && |rx.offered| == |rx.kept| && Selected(rx.offered, rx.kept) == rx.accepted
    && (rx.closed <==> rx.version > 0)
    && rx.seenVersion == 0
    && (rx.reader.FoundEmpty? ==> |rx.taken| == rx.reader.seen)
    && (rx.reader.Waiting? ==> rx.reader.version == 0)
  }

  lemma NewRxInv()
    ensures RxInv(NewRx())
  {
  }

  lemma PushInv(rx: Rx, b: Bytes)
    requires RxInv(rx)
    ensures RxInv(Push(rx, b))
    ensures Push(rx, b).closed == rx.closed && Push(rx, b).offered == rx.offered + [b]
  {
    var r := Push(rx, b);
    assert r.offered[..|rx.offered|] == rx.offered && r.kept[..|rx.offered|] == rx.kept;
    if |rx.buffer| < DATA_CAPACITY {
      assert rx.taken + (rx.buffer + [b]) == rx.taken + rx.buffer + [b];
    } else {
      assert rx.accepted + [] == rx.accepted;
    }
  }

  lemma CloseInv(rx: Rx)
    requires RxInv(rx)
    ensures RxInv(Close(rx)) && Close(rx).closed && Close(rx).offered == rx.offered
  {
  }

  lemma ReadInv(rx: Rx, a: ReadStep)
    requires RxInv(rx) && CanRead(rx, a)
    ensures RxInv(Read(rx, a).0)
    ensures Read(rx, a).0.closed == rx.closed && Read(rx, a).0.offered == rx.offered
  {
    if rx.buffer != [] {
      assert rx.taken + [rx.buffer[0]] + rx.buffer[1..] == rx.taken + rx.buffer;
    }
  }

  predicate NoneDropped(kept: seq<bool>) {
    forall i :: 0 <= i < |kept| ==> kept[i]
  }

  /** Chunks are lost exactly when some push met a full buffer, and then they are missing for good. */
  lemma {:induction false} AllKeptExactly(offered: seq<Bytes>, kept: seq<bool>)
    requires |offered| == |kept|
    ensures |Selected(offered, kept)| <= |offered|
    ensures NoneDropped(kept) ==> Selected(offered, kept) == offered
    ensures !NoneDropped(kept) ==> |Selected(offered, kept)| < |offered|
    decreases |offered|
  {
    if offered != [] {
      var n := |offered| - 1;
      AllKeptExactly(offered[..n], kept[..n]);
      assert NoneDropped(kept) <==> NoneDropped(kept[..n]) && kept[n];
    }
  }

  // ---------------------------------------------------------------------------
  // Runs of one stream, from any tasks
  // ---------------------------------------------------------------------------

  datatype RxAction = DoPush(data: Bytes) | DoClose | DoRead(step: ReadStep)

  predicate CanRx(rx: Rx, a: RxAction) {
    a.DoRead? ==> CanRead(rx, a.step)
  }

  function StepRx(rx: Rx, a: RxAction): Rx
    requires CanRx(rx, a)
  {
    match a
    case DoPush(data) => Push(rx, data)
    case DoClose => Close(rx)
    case DoRead(step) => Read(rx, step).0
  }

  /** The state after the actions, and the chunks read_data returned on the way; None if some action cannot happen. */
  function RunRx(acts: seq<RxAction>): Option<(Rx, seq<Bytes>)> {
    if acts == [] then Some((NewRx(), []))
    else match RunRx(acts[..|acts| - 1])
      case None => None
      case Some((rx, returned)) =>
        var a := acts[|acts| - 1];
        if !CanRx(rx, a) then None else Some((StepRx(rx, a), returned + Returned(rx, a)))
  }

  function Returned(rx: Rx, a: RxAction): seq<Bytes>
    requires CanRx(rx, a)
  {
    if a.DoRead? && Read(rx, a.step).1.Chunk? then [Read(rx, a.step).1.data] else []
  }

  function Pushed(acts: seq<RxAction>): seq<Bytes> {
    if acts == [] then []
    else
      var a := acts[|acts| - 1];
      Pushed(acts[..|acts| - 1]) + if a.DoPush? then [a.data] else []
  }

  lemma StepRxInv(rx: Rx, a: RxAction)
    requires RxInv(rx) && CanRx(rx, a)
    ensures RxInv(StepRx(rx, a))
    ensures StepRx(rx, a).taken == rx.taken + Returned(rx, a)
    ensures StepRx(rx, a).offered == rx.offered + if a.DoPush? then [a.data] else []
  {
    match a
    case DoPush(data) => PushInv(rx, data);
    case DoClose => CloseInv(rx);
    case DoRead(step) => ReadInv(rx, step);
  }

  lemma RunRxAppend(acts: seq<RxAction>, a: RxAction)
    ensures RunRx(acts + [a]) ==
      if RunRx(acts).None? || !CanRx(RunRx(acts).value.0, a) then None
      else Some((StepRx(RunRx(acts).value.0, a), RunRx(acts).value.1 + Returned(RunRx(acts).value.0, a)))
  {
    assert (acts + [a])[..|acts|] == acts;
  }

  /**
   * Correct reads, in every interleaving: the chunks returned, followed by those still buffered, are the pushed
   * chunks that found room, in order and each once; they are all of them exactly if no push met a full buffer.
   */
  lemma {:induction false} ReadsAreCorrect(acts: seq<RxAction>)
    requires RunRx(acts).Some?
    ensures var (rx, returned) := RunRx(acts).value;
      && RxInv(rx) && rx.offered == Pushed(acts) && rx.taken == returned
      && returned + rx.buffer == Selected(Pushed(acts), rx.kept)
      && (returned + rx.buffer == Pushed(acts) <==> NoneDropped(rx.kept))
    decreases |acts|
  {
    if acts == [] {
      NewRxInv();
    } else {
      hide StepRx, CanRx, Returned, Selected;
      var before, a := acts[..|acts| - 1], acts[|acts| - 1];
      ReadsAreCorrect(before);
      StepRxInv(RunRx(before).value.0, a);
      var after := StepRx(RunRx(before).value.0, a);
      AllKeptExactly(after.offered, after.kept);
    }
  }

  /**
   * No lost wake-up: the watch clone starts from the version the stream was created with, so a reader in the select
   * has an enabled branch exactly when a chunk is buffered or the remote side has closed, however early it closed.
   */
  lemma NeverParkedWhilePending(rx: Rx)
    requires RxInv(rx) && rx.reader.Waiting?
    ensures CanRead(rx, SelectData) || CanRead(rx, SelectClosed) <==> rx.buffer != [] || rx.closed
    ensures rx.closed ==> CanRead(rx, SelectClosed)
  {
  }

  /** A call in progress is stopped only in the select, and only while nothing is pending. */
  lemma ReaderProgress(rx: Rx) returns (a: ReadStep)
    requires RxInv(rx) && !rx.reader.Idle? && (rx.reader.Waiting? ==> rx.buffer != [] || rx.closed)
    ensures CanRead(rx, a)
  {
    match rx.reader
    case FoundEmpty(_) => a := TestClosed;
    case FoundOpen => a := CloneWatch;
    case Waiting(_) => a := if rx.buffer != [] then SelectData else SelectClosed;
  }

  // ---------------------------------------------------------------------------
  // End of stream
  // ---------------------------------------------------------------------------

  /**
   * When end of stream is honest: the return from the select always is; the return after the two tests is, exactly
   * when no chunk was accepted between them. End of stream is never returned on an open stream.
   */
  lemma EndOfStreamExactly(rx: Rx, a: ReadStep)
    requires RxInv(rx) && CanRead(rx, a) && Read(rx, a).1.EndOfStream?
    ensures rx.closed
    ensures a == SelectClosed ==> rx.taken == rx.accepted
    ensures a == TestClosed ==> (rx.taken == rx.accepted <==> |rx.accepted| == rx.reader.seen)
  {
    if a == TestClosed && |rx.accepted| == rx.reader.seen {
      assert rx.buffer == [];
    }
  }

  /** The two tests as one step, as when nothing else runs between them. */
  function TestBoth(rx: Rx): (Rx, ReadResult)
    requires rx.reader.Idle?
  {
    var (r, result) := Read(rx, TestBuffer);
    if result.Chunk? then (r, result) else Read(r, TestClosed)
  }

  lemma TestBothIsHonest(rx: Rx)
    requires RxInv(rx) && rx.reader.Idle?
    ensures RxInv(TestBoth(rx).0)
    ensures TestBoth(rx).1.EndOfStream? ==> rx.closed && rx.taken == rx.accepted
    ensures TestBoth(rx).1.Continues? ==> !rx.closed && rx.buffer == []
  {
    ReadInv(rx, TestBuffer);
    var (r, result) := Read(rx, TestBuffer);
    if !result.Chunk? { ReadInv(r, TestClosed); }
  }

  /** The early end of stream: a chunk and the FIN arrive between the two tests. */
  lemma EarlyEndOfStream(b: Bytes)
    ensures var acts := [DoRead(TestBuffer), DoPush(b), DoClose];
      RunRx(acts).Some? && var (rx, returned) := RunRx(acts).value;
      CanRead(rx, TestClosed) && Read(rx, TestClosed).1.EndOfStream? && returned == [] && rx.buffer == [b]
  {
    RunRxAppend([], DoRead(TestBuffer));
    RunRxAppend([DoRead(TestBuffer)], DoPush(b));
    RunRxAppend([DoRead(TestBuffer), DoPush(b)], DoClose);
    assert [] + [DoRead(TestBuffer)] == [DoRead(TestBuffer)];
    assert [DoRead(TestBuffer)] + [DoPush(b)] == [DoRead(TestBuffer), DoPush(b)];
    assert [DoRead(TestBuffer), DoPush(b)] + [DoClose] == [DoRead(TestBuffer), DoPush(b), DoClose];
  }

  // ---------------------------------------------------------------------------
  // A full buffer
  // ---------------------------------------------------------------------------

  function Pushes(b: Bytes, n: nat): seq<RxAction> {
    if n == 0 then [] else Pushes(b, n - 1) + [DoPush(b)]
  }

  lemma {:induction false} BufferFills(b: Bytes, n: nat)
    requires n <= DATA_CAPACITY
    ensures RunRx(Pushes(b, n)).Some? && RunRx(Pushes(b, n)).value.1 == []
    ensures var rx := RunRx(Pushes(b, n)).value.0;
      |rx.buffer| == n && |rx.kept| == n && rx.taken == [] && NoneDropped(rx.kept)
  {
    if n > 0 {
      BufferFills(b, n - 1);
      RunRxAppend(Pushes(b, n - 1), DoPush(b));
    }
  }

  /** The first 64 pushes before any read find room; the 65th is lost, although nothing tells the pusher. */
  lemma DroppedChunk(b: Bytes)
    ensures RunRx(Pushes(b, 65)).Some?
    ensures var (rx, returned) := RunRx(Pushes(b, 65)).value;
      && |rx.kept| == 65 && NoneDropped(rx.kept[..64]) && !rx.kept[64]
      && returned + rx.buffer != Pushed(Pushes(b, 65))
  {
    BufferFills(b, 64);
    RunRxAppend(Pushes(b, 64), DoPush(b));
    assert Pushes(b, 65) == Pushes(b, 64) + [DoPush(b)];
    var kept := RunRx(Pushes(b, 64)).value.0.kept;
    assert (kept + [false])[..64] == kept;
    ReadsAreCorrect(Pushes(b, 65));
  }

  /** A chunk finds room exactly if fewer than 64 are buffered, and is then the last one; else nothing is changed. */
  lemma PushExactly(rx: Rx, b: Bytes)
    ensures Push(rx, b).buffer == if |rx.buffer| < 64 then rx.buffer + [b] else rx.buffer
    ensures Push(rx, b).kept == rx.kept + [|rx.buffer| < 64] && Push(rx, b).offered == rx.offered + [b]
    ensures Push(rx, b).closed == rx.closed && Push(rx, b).reader == rx.reader && Push(rx, b).taken == rx.taken
  {
  }
}
