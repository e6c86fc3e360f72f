/** `poll_read`: chunks handed out in pieces of the caller's buffer size, the remainder kept aside. */
module PartialRead {
  import opened Octets
  import opened Receive

  datatype Pieces = Pieces(buffer: seq<Bytes>, unread: Option<Bytes>, closed: bool)

  datatype Poll = Ready(data: Bytes) | Pending

  function Min(a: nat, b: nat): nat {
    if a < b then a else b
  }

  /** `room` is what is left in the caller's buffer; it may be zero. */
  function PollRead(p: Pieces, room: nat): (Pieces, Poll) {
    if p.unread.Some? then
      var bytes := p.unread.value;
      var n := Min(|bytes|, room);
      (p.(unread := if n == |bytes| then None else Some(bytes[n..])), Ready(bytes[..n]))
    else if p.buffer != [] then
      var data := p.buffer[0];
      var n := Min(|data|, room);
      (p.(buffer := p.buffer[1..], unread := if n < |data| then Some(data[n..]) else None), Ready(data[..n]))
    else (p, if p.closed then Ready([]) else Pending)
  }

  function Concat(chunks: seq<Bytes>): Bytes {
    if chunks == [] then [] else chunks[0] + Concat(chunks[1..])
  }

  lemma {:induction false} ConcatAppend(chunks: seq<Bytes>, b: Bytes)
    ensures Concat(chunks + [b]) == Concat(chunks) + b
    decreases |chunks|
  {
    if chunks == [] {
      assert (chunks + [b])[1..] == [] && [] + b == b == b + [];
    } else {
      assert (chunks + [b])[1..] == chunks[1..] + [b];
      ConcatAppend(chunks[1..], b);
      ConcatAssoc(chunks[0], Concat(chunks[1..]), b);
    }
  }

  /** The bytes accepted and not yet handed out. */
  function Held(p: Pieces): Bytes {
    (if p.unread.Some? then p.unread.value else []) + Concat(p.buffer)
  }

  ghost predicate RemainderOk(p: Pieces) {
    p.unread.Some? ==> p.unread.value != []
  }

  lemma PollConserves(p: Pieces, room: nat)
    requires RemainderOk(p)
    ensures RemainderOk(PollRead(p, room).0)
    ensures var (q, r) := PollRead(p, room);
      Held(p) == (if r.Ready? then r.data else []) + Held(q)
  {
    var (q, r) := PollRead(p, room);
    if p.unread.Some? {
      var bytes := p.unread.value;
      var n := Min(|bytes|, room);
      assert bytes[..n] + bytes[n..] == bytes;
      assert n == |bytes| ==> bytes[n..] == [];
      ConcatAssoc(bytes[..n], bytes[n..], Concat(p.buffer));
    } else if p.buffer != [] {
      var data := p.buffer[0];
      var n := Min(|data|, room);
      assert data[..n] + data[n..] == data;
      assert n == |data| ==> data[n..] == [];
      ConcatAssoc(data[..n], data[n..], Concat(p.buffer[1..]));
      assert [] + (data + Concat(p.buffer[1..])) == data + Concat(p.buffer[1..]);
    } else {
      assert [] + Held(q) == Held(q);
    }
  }

  /** What is handed out next: the remainder, or the first chunk buffered. */
  function FirstHeld(p: Pieces): Option<Bytes> {
    if p.unread.Some? then p.unread else if p.buffer != [] then Some(p.buffer[0]) else None
  }

  /**
   * A piece never overruns the caller's buffer, and is as long as it can be: a prefix of what is handed out next,
   * either the whole of it or exactly as long as the room; and a read is pending exactly if nothing is held and the
   * stream is open.
   */
  lemma PieceIsTheLongest(p: Pieces, room: nat)
    ensures var (q, r) := PollRead(p, room);
      && (r.Pending? <==> FirstHeld(p).None? && !p.closed)
      && (r.Ready? && FirstHeld(p).None? ==> r.data == [] && q == p)
      && (FirstHeld(p).Some? ==> IsLongest(r.data, FirstHeld(p).value, room))
  {
  }

  predicate IsLongest(piece: Bytes, whole: Bytes, room: nat) {
    |piece| <= room && piece <= whole && (piece == whole || |piece| == room)
  }

  /**
   * What a ready but empty read means to a caller with room: the end of the stream, or an empty chunk. (A SPDY
   * data frame may be empty, and poll_read passes it on as if the stream had ended.)
   */
  lemma EmptyReadExactly(p: Pieces, room: nat)
    requires RemainderOk(p) && room > 0
    ensures PollRead(p, room).1 == Ready([]) <==>
      p.unread.None? && if p.buffer == [] then p.closed else p.buffer[0] == []
  {
    if p.unread.None? && p.buffer != [] {
      assert |p.buffer[0][..Min(|p.buffer[0]|, room)]| == Min(|p.buffer[0]|, room);
    }
  }

  /** On an open stream with data behind an empty chunk, a caller with room reads nothing, as at the end. */
  lemma EmptyChunkLooksLikeTheEnd(data: Bytes, room: nat)
    ensures var p := RunPieces([PushChunk([]), PushChunk(data)]).p; !p.closed && PollRead(p, room).1 == Ready([])
  {
    var first: seq<PieceAction> := [PushChunk([])];
    var acts := first + [PushChunk(data)];
    assert acts == [PushChunk([]), PushChunk(data)] && acts[..1] == first && first[..0] == [];
    assert RunPieces(first[..0]) == PieceRun(Pieces([], None, false), [], []);
    assert RunPieces(first).p == Pieces([[]], None, false);
    assert RunPieces(acts).p == Pieces([[], data], None, false);
  }

  datatype PieceAction = PushChunk(data: Bytes) | CloseChunks | PollPiece(room: nat)

  /** A run: the state, the bytes of the chunks that found room, and the bytes handed out. */
  datatype PieceRun = PieceRun(p: Pieces, accepted: Bytes, out: Bytes)

  function StepPieces(r: PieceRun, a: PieceAction): PieceRun {
    match a
    case PushChunk(data) =>
      if |r.p.buffer| < DATA_CAPACITY then r.(p := r.p.(buffer := r.p.buffer + [data]),
          accepted := r.accepted + data) else r
    case CloseChunks => r.(p := r.p.(closed := true))
    case PollPiece(room) =>
      var (q, poll) := PollRead(r.p, room);
      r.(p := q, out := r.out + if poll.Ready? then poll.data else [])
  }

  function RunPieces(acts: seq<PieceAction>): PieceRun {
    if acts == [] then PieceRun(Pieces([], None, false), [], [])
    else StepPieces(RunPieces(acts[..|acts| - 1]), acts[|acts| - 1])
  }

  /** Byte conservation over any run of pushes and reads of any sizes; the remainder is never an empty chunk. */
  lemma {:induction false} BytesConserved(acts: seq<PieceAction>)
    ensures var r := RunPieces(acts); r.out + Held(r.p) == r.accepted && RemainderOk(r.p)
    decreases |acts|
  {
    if acts != [] {
      hide PollRead, Held;
      BytesConserved(acts[..|acts| - 1]);
      StepConserves(RunPieces(acts[..|acts| - 1]), acts[|acts| - 1]);
    } else {
      assert Held(Pieces([], None, false)) == [];
    }
  }

  lemma StepConserves(r: PieceRun, a: PieceAction)
    requires r.out + Held(r.p) == r.accepted && RemainderOk(r.p)
    ensures var s := StepPieces(r, a); s.out + Held(s.p) == s.accepted && RemainderOk(s.p)
  {
    hide PollRead, Concat;
    match a
    case PushChunk(data) =>
      if |r.p.buffer| < DATA_CAPACITY {
        ConcatAppend(r.p.buffer, data);
        var front := if r.p.unread.Some? then r.p.unread.value else [];
        ConcatAssoc(front, Concat(r.p.buffer), data);
        ConcatAssoc(r.out, Held(r.p), data);
      }
    case CloseChunks =>
    case PollPiece(room) =>
      PollConserves(r.p, room);
      var (q, poll) := PollRead(r.p, room);
      ConcatAssoc(r.out, if poll.Ready? then poll.data else [], Held(q));
  }
}
