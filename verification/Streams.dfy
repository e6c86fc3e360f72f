/** The stream object: both halves, with every call as methods on its fields. */
module Streams {
  import opened Octets
  import opened Frame
  import opened Receive
  import SendHalf
  import opened PartialRead

  class Stream {
    const streamId: u32

    /** The data channel, whether a call holds its receiver, and the remote-close watch. */
    var buffer: seq<Bytes>
    var receiverHeld: bool
    var closed: bool
    var version: nat
    /** What poll_read has taken from the channel and not handed out yet. */
    var unread: Option<Bytes>
    /** The send half's flags, and how many times reply_notify has been broadcast. */
    var replied: bool
    var localFinSent: bool
    var generation: nat

    /** Where the call that holds the receiver is. */
    ghost var reader: Receive.Reader
    /** Histories: chunks pushed, which of them found room, those that did, those taken, and frames sent. */
    ghost var offered: seq<Bytes>
    ghost var kept: seq<bool>
    ghost var accepted: seq<Bytes>
    ghost var taken: seq<Bytes>
    ghost var sent: seq<Frame>

    ghost function Receiving(): Rx
      reads this
    {
      Rx(buffer, closed, version, 0, reader, offered, kept, accepted, taken)
    }

    ghost function Half(): SendHalf.Half
      reads this
    {
      SendHalf.Half(replied, localFinSent, sent)
    }

    ghost function Piecewise(): Pieces
      reads this
    {
      Pieces(buffer, unread, closed)
    }

    ghost predicate Valid()
      reads this
    {
      RxInv(Receiving()) && RemainderOk(Piecewise()) && (receiverHeld <==> !reader.Idle?)
    }

    constructor (streamId: u32)
      ensures Valid() && this.streamId == streamId
      ensures Receiving() == NewRx() && Half() == SendHalf.Half(false, false, []) &&
        Piecewise() == Pieces([], None, false)
      ensures generation == 0
    {
      this.streamId := streamId;
      buffer, receiverHeld, closed, version, reader, unread := [], false, false, 0, Idle, None;
      replied, localFinSent, generation := false, false, 0;
      offered, kept, accepted, taken, sent := [], [], [], [], [];
    }

    /** try_send on the bounded channel; a full one loses the chunk. */
    method PushData(data: Bytes)
      requires Valid()
      modifies `buffer, `offered, `kept, `accepted
      ensures Valid() && Receiving() == Push(old(Receiving()), data)
      ensures buffer == if |old(buffer)| < 64 then old(buffer) + [data] else old(buffer)
    {
      PushInv(Receiving(), data);
      offered := offered + [data];
      if |buffer| < DATA_CAPACITY {
        buffer := buffer + [data];
        kept, accepted := kept + [true], accepted + [data];
      } else {
        kept := kept + [false];
      }
    }

    method CloseRemote()
      requires Valid()
      modifies `closed, `version
      ensures Valid() && Receiving() == Close(old(Receiving()))
    {
      CloseInv(Receiving());
      closed := true;
      version := version + 1;
    }

    /** The broadcast comes after the flag, as the waiters in write_data need. */
    method SendReply(headers: HeaderMap, fin: bool, fate: SendHalf.Fate) returns (r: SendHalf.Called)
      modifies `replied, `localFinSent, `generation, `sent
      ensures (Half(), r) == SendHalf.SendReply(old(Half()), streamId, headers, fin, fate)
      ensures generation == old(generation) + if fate.HasRoom? then 1 else 0
      ensures r == SendHalf.Done(Ok(())) ==> sent == old(sent) + [SynReply(streamId, headers, if fin then 1 else 0)]
      ensures r != SendHalf.Done(Ok(())) ==> sent == old(sent) && replied == old(replied)
    {
      if fate.StaysFull? { return SendHalf.Blocked; }
      if fate.QueueClosed? { return SendHalf.Done(Err(ConnectionClosed)); }
      sent := sent + [SynReply(streamId, headers, SendHalf.FinFlag(fin))];
      replied := true;
      generation := generation + 1;
      if fin { localFinSent := true; }
      r := SendHalf.Done(Ok(()));
    }

    method WriteData(data: Bytes, fin: bool, fate: SendHalf.Fate) returns (r: SendHalf.Called)
      modifies `localFinSent, `sent
      ensures (Half(), r) == SendHalf.WriteData(old(Half()), streamId, data, fin, fate)
      ensures r == SendHalf.Done(Ok(())) ==> sent == old(sent) + [Data(streamId, if fin then 1 else 0, data)]
      ensures r != SendHalf.Done(Ok(())) ==> sent == old(sent)
    {
      if !replied { return SendHalf.Blocked; }
      if localFinSent { return SendHalf.Done(Err(StreamClosed)); }
      if fin { localFinSent := true; }
      if fate.StaysFull? { return SendHalf.Blocked; }
      if fate.QueueClosed? { return SendHalf.Done(Err(ConnectionClosed)); }
      sent := sent + [Data(streamId, SendHalf.FinFlag(fin), data)];
      r := SendHalf.Done(Ok(()));
    }

    method PollShutdown(fate: SendHalf.Fate) returns (r: SendHalf.Called)
      modifies `localFinSent, `sent
      ensures (Half(), r) == SendHalf.PollShutdown(old(Half()), streamId, fate)
      ensures sent == old(sent) + if !old(localFinSent) && fate.HasRoom? then [Data(streamId, 1, [])] else []
    {
      if localFinSent { return SendHalf.Done(Ok(())); }
      match fate
      case HasRoom =>
        sent := sent + [Data(streamId, DATA_FLAG_FIN, [])];
        localFinSent := true;
        r := SendHalf.Done(Ok(()));
      case StaysFull => r := SendHalf.Blocked;
      case QueueClosed => r := SendHalf.Done(Err(Io));
    }

    method TakeFirst() returns (data: Bytes)
      requires buffer != []
      modifies `buffer, `taken
      ensures data == old(buffer)[0] && buffer == old(buffer)[1..] && taken == old(taken) + [data]
    {
      data := buffer[0];
      buffer := buffer[1..];
      taken := taken + [data];
    }

    /** One load or await of read_data; anything may happen to the stream between two of them. */
    method ReadOnce(step: ReadStep) returns (r: ReadResult)
      requires Valid() && CanRead(Receiving(), step)
      modifies `buffer, `taken, `receiverHeld, `reader
      ensures Valid() && (Receiving(), r) == Read(old(Receiving()), step)
    {
      ReadInv(Receiving(), step);
      reader := Read(Receiving(), step).0.reader;
      if step == CloneWatch || step == Drop {
        r := Continues;
      } else if step == TestClosed {
        r := if closed then EndOfStream else Continues;
      } else if buffer != [] {
        var data := TakeFirst();
        r := Chunk(data);
      } else {
        r := if step == TestBuffer then Continues else EndOfStream;
      }
      receiverHeld := r.Continues? && step != Drop;
    }

    /** A whole call of read_data as far as it gets alone: it returns, or it is left in its select. */
    method ReadData() returns (r: ReadResult)
      requires Valid() && reader.Idle?
      modifies `buffer, `taken, `receiverHeld, `reader
      ensures Valid() && (r.Continues? <==> reader.Waiting?) && closed == old(closed)
      ensures r.Chunk? <==> old(buffer) != []
      ensures r.Chunk? ==> old(buffer) == [r.data] + buffer && taken == old(taken) + [r.data]
      ensures !r.Chunk? ==> taken == old(taken) == accepted && (r.EndOfStream? <==> closed)
    {
      r := ReadOnce(TestBuffer);
      if r.Continues? { r := ReadOnce(TestClosed); }
      if r.Continues? { r := ReadOnce(CloneWatch); }
    }

    /** The select of a waiting call, once a chunk or a close has come: a close never hides what is still buffered. */
    method Wake() returns (r: ReadResult)
      requires Valid() && reader.Waiting? && (buffer != [] || closed)
      modifies `buffer, `taken, `receiverHeld, `reader
      ensures Valid() && reader.Idle? && !r.Continues?
      ensures r.Chunk? <==> old(buffer) != []
      ensures r.Chunk? ==> old(buffer) == [r.data] + buffer && taken == old(taken) + [r.data]
      ensures r.EndOfStream? ==> closed && taken == accepted
    {
      NeverParkedWhilePending(Receiving());
      if closed {
        r := ReadOnce(SelectClosed);
      } else {
        r := ReadOnce(SelectData);
      }
    }

    /** The receiver may be held by a waiting read_data; then only the remainder can be handed out. */
    method PollRead(room: nat) returns (r: Poll)
      requires Valid()
      modifies `buffer, `unread, `taken
      ensures Valid()
      ensures if old(unread).None? && receiverHeld then r == Pending && Piecewise() == old(Piecewise())
              else (Piecewise(), r) == PartialRead.PollRead(old(Piecewise()), room)
      ensures old(Held(Piecewise())) == (if r.Ready? then r.data else []) + Held(Piecewise())
      ensures r.Ready? ==> |r.data| <= room
      ensures r.Ready? && old(FirstHeld(Piecewise())).Some? ==>
        IsLongest(r.data, old(FirstHeld(Piecewise())).value, room)
    {
      PollConserves(Piecewise(), room);
      PieceIsTheLongest(Piecewise(), room);
      if unread.Some? {
        var bytes := unread.value;
        var n := Min(|bytes|, room);
        unread := if n == |bytes| then None else Some(bytes[n..]);
        return Ready(bytes[..n]);
      }
      if receiverHeld {
        assert [] + Held(Piecewise()) == Held(Piecewise());
        return Pending;
      }
      if buffer != [] {
        assert [buffer[0]] + buffer[1..] == buffer;
        ConcatAssoc(taken, [buffer[0]], buffer[1..]);
        var data := TakeFirst();
        var n := Min(|data|, room);
        if n < |data| { unread := Some(data[n..]); }
        return Ready(data[..n]);
      }
      r := if closed then Ready([]) else Pending;
    }
  }
}
