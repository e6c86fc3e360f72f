/** From the wire to the streams: what each stream is given is an unbroken stretch of what the peer sent for it. */
module Delivery {
  import opened Octets
  import opened Frame
  import opened Receive
  import opened Connection
  import opened Frames
  import opened Registry
  import opened Routing
  import opened Conservation

  /** The frames of a history with a stream's id, its SYN_STREAM included. */
  function Addressed(fs: seq<Frame>, id: u32): seq<Frame> {
    if fs == [] then []
    else
      var n := |fs| - 1;
      Addressed(fs[..n], id) + if HasStreamId(fs[n]) && fs[n].streamId == id then [fs[n]] else []
  }

  predicate IsFor(f: Frame, id: u32) {
    IsRoutable(f) && f.streamId == id
  }

  /** Those that are looked up: data, replies, headers and resets. */
  function LookedUp(fs: seq<Frame>, id: u32): seq<Frame> {
    if fs == [] then []
    else
      var n := |fs| - 1;
      LookedUp(fs[..n], id) + if IsFor(fs[n], id) then [fs[n]] else []
  }

  lemma AddressedAppend(fs: seq<Frame>, f: Frame, id: u32)
    ensures Addressed(fs + [f], id) == Addressed(fs, id) + if HasStreamId(f) && f.streamId == id then [f] else []
  {
    assert (fs + [f])[..|fs|] == fs;
  }

  lemma LookedUpAppend(fs: seq<Frame>, f: Frame, id: u32)
    ensures LookedUp(fs + [f], id) == LookedUp(fs, id) + if IsFor(f, id) then [f] else []
  {
    assert (fs + [f])[..|fs|] == fs;
  }

  lemma {:induction false} NoneAddressed(fs: seq<Frame>, id: u32)
    requires forall f :: f in fs && HasStreamId(f) ==> f.streamId != id
    ensures Addressed(fs, id) == [] && LookedUp(fs, id) == []
    decreases |fs|
  {
    if fs != [] {
      assert fs[|fs| - 1] in fs;
      NoneAddressed(fs[..|fs| - 1], id);
    }
  }

  // ---------------------------------------------------------------------------
  // What was routed to each stream
  // ---------------------------------------------------------------------------

  ghost predicate OwnInv(s: State)
    requires Shape(s)
  {
    && (forall o :: 0 <= o < |s.ids| ==> s.routed[o] == Addressed(s.log.routed, s.ids[o]))
    && (forall f :: f in s.log.routed ==> HasStreamId(f) && f.streamId in s.ids)
  }

  lemma RouteOwn(s: State, f: Frame, obj: nat)
    requires Shape(s) && Accepted(s.ids) && OwnInv(s) && Fits(s.ids, f, obj) && HasRoom(s, f.streamId)
    ensures Shape(Route(s, f, obj)) && OwnInv(Route(s, f, obj))
  {
    hide Addressed;
    var t := Route(s, f, obj);
    forall o | 0 <= o < |t.ids| ensures t.routed[o] == Addressed(t.log.routed, t.ids[o]) {
      AddressedAppend(s.log.routed, f, s.ids[o]);
      if s.ids[o] == f.streamId { SameIdSameObject(s.ids, o, obj); }
      assert o != obj ==> s.routed[o] + [] == s.routed[o];
    }
  }

  lemma RegisterOwn(s: State)
    requires BaseInv(s) && OwnInv(s) && s.reader.Inserting?
    ensures var t := Register(s, s.reader.syn); Shape(t) && OwnInv(t)
    ensures LookedUp(s.log.routed, s.reader.syn.streamId) == []
  {
    hide Addressed, LookedUp, TableInv, WorkersInv, QueuesInv;
    var t, id := Register(s, s.reader.syn), s.reader.syn.streamId;
    NewestBounds(s.ids);
    assert id !in s.ids;
    NoneAddressed(s.log.routed, id);
    forall o | 0 <= o < |t.ids| ensures t.routed[o] == Addressed(t.log.routed, t.ids[o]) {
      if o < |s.ids| { assert t.ids[o] == s.ids[o] && t.routed[o] == s.routed[o]; }
    }
  }

  lemma OwnKept(s: State, a: Action)
    requires BaseInv(s) && OwnInv(s) && Can(s, a) && Shape(Step(s, a))
    ensures OwnInv(Step(s, a))
  {
    hide Step, Can, MoveReader, Addressed, TableInv, WorkersInv, QueuesInv, LastInv, Register, Route;
    StepIs(s, a);
    StreamsFrame(s, a);
    PingsFrame(s, a);
    if a.Arrives? {
      DispatchFrame(s, a.frame);
    } else if a.ReaderMoves? {
      ReaderFrame(s);
      if s.reader.Inserting? {
        InsertIsNew(s);
        RegisterOwn(s);
      } else if s.reader.RoutingSyn? {
        RouteOwn(s, s.reader.syn, s.reader.obj);
      } else if s.reader.Routing? {
        RouteOwn(s, s.reader.frame, s.reader.obj);
      } else {
        ReaderKeeps(s);
      }
    }
  }

  // ---------------------------------------------------------------------------
  // What was routed against what arrived
  // ---------------------------------------------------------------------------

  ghost predicate Stretch(all: seq<Frame>, part: seq<Frame>) {
    exists i :: IsAt(all, part, i)
  }

  predicate IsAt(all: seq<Frame>, part: seq<Frame>, i: int) {
    0 <= i <= i + |part| <= |all| && all[i..i + |part|] == part
  }

  /** A stretch that reaches to the end. */
  predicate Tail(all: seq<Frame>, part: seq<Frame>) {
    |part| <= |all| && all[|all| - |part|..] == part
  }

  /** The frame the reader is about to look up, and the one it has looked up and not sent to its worker yet. */
  function Looking(r: Connection.Reader, id: u32): seq<Frame> {
    if r.LookingUp? && IsFor(r.frame, id) then [r.frame] else []
  }

  function OnItsWay(r: Connection.Reader, id: u32): seq<Frame> {
    if r.Routing? && IsFor(r.frame, id) then [r.frame] else []
  }

  /** What was routed or is about to be, and what had arrived before the frame being looked up. */
  function Given(s: State, id: u32): seq<Frame> {
    LookedUp(s.log.routed, id) + OnItsWay(s.reader, id)
  }

  ghost predicate StretchInv(s: State, id: u32) {
    exists arrived :: IsStretch(s, id, arrived)
  }

  ghost predicate IsStretch(s: State, id: u32, arrived: seq<Frame>) {
    && LookedUp(s.log.inbound, id) == arrived + Looking(s.reader, id)
    && Stretch(arrived, Given(s, id))
    && (id in s.table ==> Tail(arrived, Given(s, id)))
  }

  lemma TailIsStretch(all: seq<Frame>, part: seq<Frame>)
    requires Tail(all, part)
    ensures Stretch(all, part)
  {
    assert IsAt(all, part, |all| - |part|);
  }

  lemma Growing(all: seq<Frame>, part: seq<Frame>, f: Frame)
    ensures Stretch(all, part) ==> Stretch(all + [f], part)
    ensures Tail(all, part) ==> Tail(all + [f], part + [f])
  {
    if i :| IsAt(all, part, i) { assert (all + [f])[i..i + |part|] == part; assert IsAt(all + [f], part, i); }
  }

  lemma SameStretch(s: State, t: State, id: u32)
    requires StretchInv(s, id) && LookedUp(t.log.inbound, id) == LookedUp(s.log.inbound, id)
    requires Looking(t.reader, id) == Looking(s.reader, id) && Given(t, id) == Given(s, id)
    requires id in t.table ==> id in s.table
    ensures StretchInv(t, id)
  {
    hide Looking, Given, Stretch, LookedUp;
    var arrived :| IsStretch(s, id, arrived);
    assert IsStretch(t, id, arrived);
  }

  lemma ArrivalKept(s: State, f: Frame, id: u32)
    requires StretchInv(s, id) && s.reader.AtRead?
    ensures StretchInv(Dispatch(s, f), id)
  {
    hide LookedUp, Stretch, Dispatch;
    var arrived :| IsStretch(s, id, arrived);
    var t := Dispatch(s, f);
    DispatchFrame(s, f);
    DispatchLooking(s, f, id);
    LookedUpAppend(s.log.inbound, f, id);
    assert arrived + [] == arrived && LookedUp(s.log.routed, id) + [] == LookedUp(s.log.routed, id);
    assert IsStretch(t, id, arrived);
  }

  lemma DispatchLooking(s: State, f: Frame, id: u32)
    requires s.reader.AtRead?
    ensures Looking(Dispatch(s, f).reader, id) == if IsFor(f, id) then [f] else []
    ensures OnItsWay(Dispatch(s, f).reader, id) == []
  {
  }

  /** The look-up decides: to the stream if it is in the table, so that no gap opens while it is. */
  lemma LookUpKept(s: State, id: u32)
    requires StretchInv(s, id) && s.reader.LookingUp? && ReaderCanMove(s)
    ensures StretchInv(MoveReader(s), id)
  {
    hide LookedUp, Stretch, MoveReader, Tail;
    var arrived :| IsStretch(s, id, arrived);
    var t, f := MoveReader(s), s.reader.frame;
    ReaderFrame(s);
    if IsFor(f, id) {
      Growing(arrived, Given(s, id), f);
      assert LookedUp(s.log.routed, id) + [] == LookedUp(s.log.routed, id);
      if id in s.table { TailIsStretch(arrived + [f], Given(t, id)); }
      assert arrived + [f] + [] == arrived + [f];
      assert IsStretch(t, id, arrived + [f]);
    } else {
      SameStretch(s, t, id);
    }
  }

  lemma RouteKept(s: State, f: Frame, obj: nat, id: u32)
    requires StretchInv(s, id) && HasStreamId(f) && HasRoom(s, f.streamId) && obj < |s.routed|
    requires (s.reader == RoutingSyn(f, obj) && f.SynStream?) || (s.reader == Routing(f, obj) && IsRoutable(f))
    ensures StretchInv(Route(s, f, obj), id)
  {
    hide LookedUp;
    LookedUpAppend(s.log.routed, f, id);
    RouteFrame(s, f, obj);
    var t := Route(s, f, obj);
    hide Route;
    assert Given(t, id) == Given(s, id);
    SameStretch(s, t, id);
  }

  /** A new stream has been given nothing yet, which reaches to the end of anything. */
  lemma InsertKept(s: State, id: u32)
    requires BaseInv(s) && OwnInv(s) && StretchInv(s, id) && s.reader.Inserting? && s.reader.syn.SynStream?
    ensures StretchInv(Register(s, s.reader.syn), id)
  {
    hide LookedUp, BaseInv, OwnInv, Stretch;
    var arrived :| IsStretch(s, id, arrived);
    var t := Register(s, s.reader.syn);
    RegisterOwn(s);
    assert id == s.reader.syn.streamId ==> Tail(arrived, []);
    assert IsStretch(t, id, arrived);
  }

  lemma StretchKept(s: State, a: Action, id: u32)
    requires BaseInv(s) && OwnInv(s) && StretchInv(s, id) && Can(s, a)
    ensures StretchInv(Step(s, a), id)
  {
    hide Step, Can, MoveReader, MoveWorker, Dispatch, Register, Route, OwnInv, StretchInv, LookedUp, TableInv,
      WorkersInv, QueuesInv, LastInv, Accepted;
    StepIs(s, a);
    StreamsFrame(s, a);
    TasksFrame(s, a);
    PingsFrame(s, a);
    if a.Arrives? {
      ArrivalKept(s, a.frame, id);
    } else if a.WorkerMoves? {
      WorkerFrame(s, a.w);
      TableShrinks(s, a.w);
      SameStretch(s, MoveWorker(s, a.w), id);
    } else if !a.ReaderMoves? {
      OtherReader(s, a, id);
      SameStretch(s, Step(s, a), id);
    } else if s.reader.LookingUp? {
      LookUpKept(s, id);
    } else if s.reader.Inserting? {
      ReaderFrame(s);
      InsertIsNew(s);
      InsertKept(s, id);
    } else if s.reader.RoutingSyn? {
      ReaderFrame(s);
      RouteKept(s, s.reader.syn, s.reader.obj, id);
    } else if s.reader.Routing? {
      ReaderFrame(s);
      RouteKept(s, s.reader.frame, s.reader.obj, id);
    } else {
      ReaderKeeps(s);
      ReaderGoesTo(s);
      SameStretch(s, MoveReader(s), id);
    }
  }

  lemma TableShrinks(s: State, w: nat)
    requires WorkerCanMove(s, w)
    ensures forall id :: id in MoveWorker(s, w).table ==> id in s.table
  {
    hide Handle;
    WorkerFrame(s, w);
  }

  lemma OtherReader(s: State, a: Action, id: u32)
    requires Can(s, a) && !a.ReaderMoves? && !a.Arrives?
    ensures Looking(Step(s, a).reader, id) == Looking(s.reader, id)
    ensures OnItsWay(Step(s, a).reader, id) == OnItsWay(s.reader, id)
  {
    hide Step;
    StepIs(s, a);
    TasksFrame(s, a);
  }

  // ---------------------------------------------------------------------------
  // All runs
  // ---------------------------------------------------------------------------

  ghost predicate DeliveryInv(s: State, id: u32) {
    BaseInv(s) && OwnInv(s) && StretchInv(s, id)
  }

  lemma NothingArrived(s: State, id: u32)
    requires s == INITIAL
    ensures StretchInv(s, id)
  {
    assert IsAt([], [], 0);
    assert LookedUp([], id) == [];
    assert IsStretch(s, id, []);
  }

  lemma {:induction false} RunDelivery(acts: seq<Action>, id: u32)
    requires Run(acts).Some?
    ensures DeliveryInv(Run(acts).value, id)
    decreases |acts|
  {
    hide Step, Can, StretchInv;
    RunBase(acts);
    if acts != [] {
      hide BaseInv, OwnInv;
      var s, a := Run(acts[..|acts| - 1]).value, acts[|acts| - 1];
      RunDelivery(acts[..|acts| - 1], id);
      BaseShape(Step(s, a));
      OwnKept(s, a);
      StretchKept(s, a, id);
    } else {
      NothingArrived(INITIAL, id);
    }
  }

  lemma {:induction false} SameData(fs: seq<Frame>, id: u32)
    ensures Payloads(Addressed(fs, id)) == Payloads(LookedUp(fs, id))
    decreases |fs|
  {
    if fs != [] {
      var n := |fs| - 1;
      SameData(fs[..n], id);
      PayloadsConcat(Addressed(fs[..n], id), if HasStreamId(fs[n]) && fs[n].streamId == id then [fs[n]] else []);
      PayloadsConcat(LookedUp(fs[..n], id), if IsFor(fs[n], id) then [fs[n]] else []);
      OnePayload(fs[n]);
    }
  }

  lemma OnePayload(f: Frame)
    ensures Payloads([f]) == (if f.Data? then [f.data] else []) && Payloads([]) == []
  {
    assert [f][1..] == [] && [f][..0] == [];
  }

  lemma {:induction false} DataCounted(fs: seq<Frame>, id: u32)
    ensures |Payloads(LookedUp(fs, id))| == Count(Datas, fs, Some(id))
    decreases |fs|
  {
    if fs != [] {
      var n := |fs| - 1;
      DataCounted(fs[..n], id);
      PayloadsConcat(LookedUp(fs[..n], id), if IsFor(fs[n], id) then [fs[n]] else []);
      OnePayload(fs[n]);
    }
  }

  /**
   * In every interleaving, what a stream's worker has been sent is the connection's worker traffic for its id; and
   * what of it was looked up is an unbroken stretch of what arrived for the id, reaching to the newest frame as long as
   * the stream is in the table: nothing is lost, repeated, reordered or given to another stream in between.
   */
  lemma RoutedIsAStretch(s: State, o: nat) returns (arrived: seq<Frame>)
    requires Reachable(s) && o < |s.ids|
    ensures Shape(s) && s.routed[o] == Addressed(s.log.routed, s.ids[o])
    ensures IsStretch(s, s.ids[o], arrived)
  {
    hide BaseInv, IsStretch, Addressed;
    var acts :| Run(acts) == Some(s);
    RunDelivery(acts, s.ids[o]);
    BaseShape(s);
    arrived :| IsStretch(s, s.ids[o], arrived);
  }

  /**
   * From the wire to the stream: between two frames, the data that arrived for a stream's id is some that was refused,
   * then all that was routed to the stream, then some that was refused, in that order; none after it while the stream
   * is in the table. The refused ones are exactly as many as the INVALID_STREAM replies for the id.
   */
  lemma DataArrivesWithoutGaps(s: State, o: nat) returns (early: seq<Bytes>, late: seq<Bytes>)
    requires Reachable(s) && s.reader.AtRead? && o < |s.ids|
    ensures Shape(s) && Payloads(LookedUp(s.log.inbound, s.ids[o])) == early + Payloads(s.routed[o]) + late
    ensures s.ids[o] in s.table ==> late == []
    ensures |early| + |late| == Replied(InvalidStreams, s.log, Some(s.ids[o]))
  {
    hide Addressed, LookedUp, Payloads, Count, Replied, IsStretch, Reachable;
    var id := s.ids[o];
    var arrived := RoutedIsAStretch(s, o);
    var part := LookedUp(s.log.routed, id);
    BetweenFrames(s, id, arrived);
    early, late := SplitData(arrived, part, id in s.table);
    SameData(s.log.routed, id);
    InboundConserved(s, Some(id));
    DataCounted(s.log.inbound, id);
    DataCounted(s.log.routed, id);
  }

  lemma BetweenFrames(s: State, id: u32, arrived: seq<Frame>)
    requires IsStretch(s, id, arrived) && s.reader.AtRead?
    ensures LookedUp(s.log.inbound, id) == arrived && Stretch(arrived, LookedUp(s.log.routed, id))
    ensures id in s.table ==> Tail(arrived, LookedUp(s.log.routed, id))
    ensures InFlight(Datas, s.reader) == None
  {
    hide LookedUp, Stretch, Tail;
    assert LookedUp(s.log.routed, id) + [] == LookedUp(s.log.routed, id) && arrived + [] == arrived;
  }

  lemma SplitData(all: seq<Frame>, part: seq<Frame>, toEnd: bool) returns (early: seq<Bytes>, late: seq<Bytes>)
    requires Stretch(all, part) && (toEnd ==> Tail(all, part))
    ensures Payloads(all) == early + Payloads(part) + late && (toEnd ==> late == [])
  {
    hide Payloads;
    var i: int;
    if toEnd { i := |all| - |part|; } else { i :| IsAt(all, part, i); }
    var front, back := all[..i], all[i + |part|..];
    assert all == front + part + back;
    PayloadsConcat(front + part, back);
    PayloadsConcat(front, part);
    early, late := Payloads(front), Payloads(back);
    NoPayload(back);
  }

  lemma NoPayload(fs: seq<Frame>)
    ensures fs == [] ==> Payloads(fs) == []
  {
  }

  /**
   * End to end, between two frames: the data that arrived for a stream's id is some that was refused, the chunks pushed
   * into the stream, what its worker still has, and some that was refused; and what the handler took, with what is
   * buffered for it, is the pushed chunks that found room. If none was dropped and the worker has no more, the handler
   * has taken or will find all of one unbroken stretch of the peer's data.
   */
  lemma DataReachesItsStream(s: State, o: nat) returns (early: seq<Bytes>, late: seq<Bytes>)
    requires Reachable(s) && s.reader.AtRead? && o < |s.ids|
    ensures Shape(s) && |s.rxs[o].offered| == |s.rxs[o].kept|
    ensures var rx, arrived, pending := s.rxs[o], Payloads(LookedUp(s.log.inbound, s.ids[o])), Payloads(Pending(s, o));
      && arrived == early + (rx.offered + pending) + late
      && rx.taken + rx.buffer == Selected(rx.offered, rx.kept)
      && (arrived == early + (rx.taken + rx.buffer + pending) + late <==> NoneDropped(rx.kept))
    ensures s.ids[o] in s.table ==> late == []
    ensures |early| + |late| == Replied(InvalidStreams, s.log, Some(s.ids[o]))
  {
    hide Reachable, LookedUp, Payloads, Pending, Selected, Replied, NoneDropped;
    early, late := DataArrivesWithoutGaps(s, o);
    PerStreamOrder(s, o);
    SameMiddle(early, s.rxs[o].taken + s.rxs[o].buffer + Payloads(Pending(s, o)), Payloads(s.routed[o]), late);
  }

  lemma SameMiddle(front: seq<Bytes>, a: seq<Bytes>, b: seq<Bytes>, back: seq<Bytes>)
    ensures front + a + back == front + b + back <==> a == b
  {
    if front + a + back == front + b + back {
      assert |a| == |b| by { assert |front + a + back| == |front + b + back|; }
      forall i | 0 <= i < |a| ensures a[i] == b[i] {
        assert (front + a + back)[|front| + i] == (front + b + back)[|front| + i];
      }
    }
  }
}
