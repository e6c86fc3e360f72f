/** Every inbound frame has exactly one outcome: nothing is accepted, routed, refused or echoed twice or not at all. */
module Conservation {
  import opened Octets
  import opened Frame
  import opened Connection
  import opened Frames
  import opened Registry

  /** Which frames of a history are counted, by id. */
  datatype Kind = Syns | Datas | OddPings | Refusals | InvalidStreams

  function CountedId(k: Kind, f: Frame): Option<u32> {
    match k
    case Syns => if f.SynStream? then Some(f.streamId) else None
    case Datas => if f.Data? then Some(f.streamId) else None
    case OddPings => if f.Ping? && f.id % 2 == 1 then Some(f.id) else None
    case Refusals => if f.RstStream? && f.status != InvalidStream then Some(f.streamId) else None
    case InvalidStreams => if f.RstStream? && f.status == InvalidStream then Some(f.streamId) else None
  }

  /** What is being counted: all ids, or one of them. */
  type Selection = Option<u32>

  function Hit(sel: Selection, id: Option<u32>): nat {
    if id.Some? && (sel.None? || sel == id) then 1 else 0
  }

  /** How many frames of one kind, with a selected id, a history holds. */
  function Count(k: Kind, fs: seq<Frame>, sel: Selection): nat {
    if fs == [] then 0 else Count(k, fs[..|fs| - 1], sel) + Hit(sel, CountedId(k, fs[|fs| - 1]))
  }

  lemma CountAppend(k: Kind, fs: seq<Frame>, f: Frame, sel: Selection)
    ensures Count(k, fs + [f], sel) == Count(k, fs, sel) + Hit(sel, CountedId(k, f))
  {
    assert (fs + [f])[..|fs|] == fs;
  }

  /** How many registered streams have a selected id. */
  function CountIds(ids: seq<u32>, sel: Selection): nat {
    if ids == [] then 0 else CountIds(ids[..|ids| - 1], sel) + Hit(sel, Some(ids[|ids| - 1]))
  }

  lemma CountIdsAppend(ids: seq<u32>, id: u32, sel: Selection)
    ensures CountIds(ids + [id], sel) == CountIds(ids, sel) + Hit(sel, Some(id))
  {
    assert (ids + [id])[..|ids|] == ids;
  }

  lemma {:induction false} CountIdsMeans(ids: seq<u32>, id: u32)
    requires Accepted(ids)
    ensures CountIds(ids, None) == |ids|
    ensures CountIds(ids, Some(id)) == if id in ids then 1 else 0
    decreases |ids|
  {
    if ids != [] {
      CountIdsMeans(ids[..|ids| - 1], id);
      assert ids == ids[..|ids| - 1] + [ids[|ids| - 1]];
    }
  }

  /** The frame the reader is working on and has not yet decided about, counted under the kind it arrived as. */
  function InFlight(k: Kind, r: Connection.Reader): Option<u32> {
    match k
    case Syns =>
      if (r.CheckingLast? || r.CheckingGone? || r.Inserting?) && r.syn.SynStream? then Some(r.syn.streamId)
      else if r.Replying? then CountedId(Refusals, r.reply) else None
    case Datas =>
      if (r.LookingUp? || r.Routing?) && r.frame.Data? then Some(r.frame.streamId)
      else if r.Replying? then CountedId(InvalidStreams, r.reply) else None
    case OddPings => if r.Replying? then CountedId(OddPings, r.reply) else None
    case _ => None
  }

  /** The replies of one kind: those enqueued and those lost with the write task. */
  function Replied(k: Kind, log: Log, sel: Selection): nat {
    Count(k, log.replies, sel) + Count(k, log.lost, sel)
  }

  ghost predicate SynCount(s: State, sel: Selection) {
    Count(Syns, s.log.inbound, sel) ==
      CountIds(s.ids, sel) + Replied(Refusals, s.log, sel) + Hit(sel, InFlight(Syns, s.reader))
  }

  ghost predicate DataCount(s: State, sel: Selection) {
    Count(Datas, s.log.inbound, sel) ==
      Count(Datas, s.log.routed, sel) + Replied(InvalidStreams, s.log, sel) + Hit(sel, InFlight(Datas, s.reader))
  }

  ghost predicate PingCount(s: State, sel: Selection) {
    Count(OddPings, s.log.inbound, sel) == Replied(OddPings, s.log, sel) + Hit(sel, InFlight(OddPings, s.reader))
  }

  ghost predicate LostInv(s: State, sel: Selection) {
    && (s.out.alive ==> s.log.lost == [])
    && Count(Refusals, s.log.replies, sel) <= Count(Refusals, s.out.enqueued, sel)
    && Count(InvalidStreams, s.log.replies, sel) <= Count(InvalidStreams, s.out.enqueued, sel)
    && Count(OddPings, s.log.replies, sel) <= Count(OddPings, s.out.enqueued, sel)
  }

  ghost predicate CountInv(s: State, sel: Selection) {
    SynCount(s, sel) && DataCount(s, sel) && PingCount(s, sel)
  }

  ghost predicate ConservationInv(s: State, sel: Selection) {
    BaseInv(s) && CountInv(s, sel) && LostInv(s, sel)
  }

  lemma DispatchCounts(s: State, f: Frame, sel: Selection)
    requires CountInv(s, sel) && s.reader.AtRead?
    ensures CountInv(Dispatch(s, f), sel)
  {
    hide Dispatch, InFlight, CountedId, Count, CountIds, Hit;
    var t := Dispatch(s, f);
    DispatchFrame(s, f);
    assert t.ids == s.ids && t.log == s.log.(inbound := s.log.inbound + [f]);
    DispatchFlight(s, f);
    CountAppend(Syns, s.log.inbound, f, sel);
    CountAppend(Datas, s.log.inbound, f, sel);
    CountAppend(OddPings, s.log.inbound, f, sel);
    NoHit(sel);
  }

  lemma NoHit(sel: Selection)
    ensures Hit(sel, None) == 0
  {
  }

  /** Dispatching takes the frame in flight under the kind it arrived as. */
  lemma DispatchFlight(s: State, f: Frame)
    requires s.reader.AtRead?
    ensures var r := Dispatch(s, f).reader;
      && InFlight(Syns, r) == CountedId(Syns, f)
      && InFlight(Datas, r) == CountedId(Datas, f)
      && InFlight(OddPings, r) == CountedId(OddPings, f)
    ensures InFlight(Syns, s.reader) == None && InFlight(Datas, s.reader) == None
      && InFlight(OddPings, s.reader) == None
  {
  }

  /** A reply moves its frame from in flight to replied; every reply is of exactly one kind. */
  lemma ReplyCounts(s: State, f: Frame, sel: Selection)
    requires CountInv(s, sel) && s.reader == Replying(f) && (f.RstStream? || (f.Ping? && f.id % 2 == 1))
    ensures CountInv(Reply(s, f), sel)
  {
    hide Count, CountIds, Hit, CountedId, InFlight, Send;
    var log := s.log;
    ReplyFlight(f);
    NoHit(sel);
    CountAppend(Refusals, log.replies, f, sel);
    CountAppend(InvalidStreams, log.replies, f, sel);
    CountAppend(OddPings, log.replies, f, sel);
    CountAppend(Refusals, log.lost, f, sel);
    CountAppend(InvalidStreams, log.lost, f, sel);
    CountAppend(OddPings, log.lost, f, sel);
  }

  lemma ReplyFlight(f: Frame)
    ensures var r := Connection.Reader.Replying(f);
      && InFlight(Syns, r) == CountedId(Refusals, f)
      && InFlight(Datas, r) == CountedId(InvalidStreams, f)
      && InFlight(OddPings, r) == CountedId(OddPings, f)
    ensures forall k :: InFlight(k, AtRead) == None
  {
  }

  lemma SameReplies(k: Kind, a: Log, b: Log, sel: Selection)
    requires a.replies == b.replies && a.lost == b.lost
    ensures Replied(k, a, sel) == Replied(k, b, sel)
  {
  }

  lemma RouteCounts(s: State, f: Frame, obj: nat, sel: Selection)
    requires CountInv(s, sel) && HasStreamId(f) && HasRoom(s, f.streamId) && obj < |s.routed|
    requires (s.reader == RoutingSyn(f, obj) && f.SynStream?) || (s.reader == Routing(f, obj) && IsRoutable(f))
    ensures CountInv(Route(s, f, obj), sel)
  {
    hide Route, Count, InFlight, CountIds, Replied, Hit, CountedId;
    RouteFrame(s, f, obj);
    var t := Route(s, f, obj);
    assert t.ids == s.ids && t.log == s.log.(routed := s.log.routed + [f]);
    RouteFlight(s.reader, f);
    NoHit(sel);
    CountAppend(Datas, s.log.routed, f, sel);
    SameReplies(Refusals, t.log, s.log, sel);
    SameReplies(InvalidStreams, t.log, s.log, sel);
    SameReplies(OddPings, t.log, s.log, sel);
  }

  /** Once a stream is registered its SYN_STREAM is accounted for; a Data frame is until it is routed. */
  lemma RouteFlight(r: Connection.Reader, f: Frame)
    requires (r.RoutingSyn? && r.syn == f && f.SynStream?) || (r.Routing? && r.frame == f && IsRoutable(f))
    ensures InFlight(Syns, r) == None && InFlight(Datas, r) == CountedId(Datas, f) && InFlight(OddPings, r) == None
    ensures InFlight(Syns, AtRead) == None && InFlight(Datas, AtRead) == None && InFlight(OddPings, AtRead) == None
  {
  }

  lemma RegisterCounts(s: State, syn: Frame, sel: Selection)
    requires CountInv(s, sel) && s.reader == Inserting(syn) && syn.SynStream?
    ensures CountInv(Register(s, syn), sel)
  {
    CountIdsAppend(s.ids, syn.streamId, sel);
    hide Count, CountIds;
  }

  /** A step that only moves the reader on with the same frame in flight. */
  lemma SameCounts(s: State, t: State, sel: Selection)
    requires CountInv(s, sel) && t.log == s.log && t.ids == s.ids
    requires forall k: Kind :: InFlight(k, t.reader) == InFlight(k, s.reader)
    ensures CountInv(t, sel)
  {
    hide Count, CountIds, InFlight;
    assert InFlight(Syns, t.reader) == InFlight(Syns, s.reader)
      && InFlight(Datas, t.reader) == InFlight(Datas, s.reader)
      && InFlight(OddPings, t.reader) == InFlight(OddPings, s.reader);
  }

  lemma ReaderCounts(s: State, sel: Selection)
    requires ConservationInv(s, sel) && ReaderCanMove(s)
    ensures CountInv(MoveReader(s), sel)
  {
    hide MoveReader, Reply, Route, Register, Count, CountIds, WorkersInv, QueuesInv, TableInv, Accepted, LastInv,
      LostInv,
      CountInv, InFlight, Shape;
    if s.reader.Inserting? {
      ReaderFrame(s);
      InsertIsNew(s);
      RegisterCounts(s, s.reader.syn, sel);
    } else if s.reader.RoutingSyn? {
      ReaderFrame(s);
      RouteCounts(s, s.reader.syn, s.reader.obj, sel);
    } else if s.reader.Routing? {
      ReaderFrame(s);
      RouteCounts(s, s.reader.frame, s.reader.obj, sel);
    } else if s.reader.Replying? {
      ReaderFrame(s);
      ReplyCounts(s, s.reader.reply, sel);
    } else {
      OnlyReaderMoves(s);
      SameCounts(s, MoveReader(s), sel);
    }
  }

  /** In all other moves the frame in flight stays the same one, and neither ids nor histories change. */
  lemma OnlyReaderMoves(s: State)
    requires ReaderCanMove(s) && ReaderInv(s)
    requires !s.reader.Inserting? && !s.reader.RoutingSyn? && !s.reader.Routing? && !s.reader.Replying?
    ensures MoveReader(s).ids == s.ids && MoveReader(s).log == s.log
    ensures forall k: Kind :: InFlight(k, MoveReader(s).reader) == InFlight(k, s.reader)
  {
    hide MoveReader;
    ReaderGoesTo(s);
    ReaderKeeps(s);
    ReaderKeepsLog(s);
  }

  lemma ReaderKeepsLog(s: State)
    requires ReaderCanMove(s)
    requires !s.reader.RoutingSyn? && !s.reader.Routing? && !s.reader.Replying? && !s.reader.ReplyingLocked?
    ensures MoveReader(s).log == s.log
  {
  }

  lemma CountKept(s: State, a: Action, sel: Selection)
    requires ConservationInv(s, sel) && Can(s, a)
    ensures CountInv(Step(s, a), sel)
  {
    hide Step, Can, MoveReader, Dispatch, Count, CountIds, BaseInv, LostInv, CountInv;
    StepIs(s, a);
    StreamsFrame(s, a);
    TasksFrame(s, a);
    PingsFrame(s, a);
    if a.ReaderMoves? {
      ReaderCounts(s, sel);
    } else if a.Arrives? {
      DispatchCounts(s, a.frame, sel);
    } else {
      SameCounts(s, Step(s, a), sel);
    }
  }

  lemma LostKept(s: State, a: Action, sel: Selection)
    requires ConservationInv(s, sel) && Can(s, a)
    ensures LostInv(Step(s, a), sel)
  {
    hide Step, Can, MoveReader, Dispatch, CountInv, Emitted, WorkersInv, QueuesInv, TableInv, Accepted, LastInv, Count;
    var t := Step(s, a);
    StepIs(s, a);
    PingsFrame(s, a);
    EnqueuedFrame(s, a);
    NeverRevives(s, a);
    AtMostOne(s, a);
    var e := s.out.enqueued;
    if Emitted(s, a) == [] {
      assert e + [] == e;
    } else {
      var f := Emitted(s, a)[0];
      assert Emitted(s, a) == [f];
      CountAppend(Refusals, e, f, sel);
      CountAppend(InvalidStreams, e, f, sel);
      CountAppend(OddPings, e, f, sel);
    }
    if a.ReaderMoves? {
      ReaderReplies(s, a);
      if s.reader.Replying? && s.out.alive {
        CountAppend(Refusals, s.log.replies, s.reader.reply, sel);
        CountAppend(InvalidStreams, s.log.replies, s.reader.reply, sel);
        CountAppend(OddPings, s.log.replies, s.reader.reply, sel);
      }
    } else if a.Arrives? {
      DispatchFrame(s, a.frame);
    }
  }

  lemma AtMostOne(s: State, a: Action)
    requires Can(s, a)
    ensures |Emitted(s, a)| <= 1
  {
  }

  lemma NeverRevives(s: State, a: Action)
    requires Can(s, a)
    ensures Step(s, a).out.alive ==> s.out.alive
  {
    hide Step;
    OutboxFrame(s, a);
  }

  /** The histories of replies grow only by the reply the reader was sending. */
  lemma ReaderReplies(s: State, a: Action)
    requires BaseInv(s) && Can(s, a) && a.ReaderMoves?
    ensures var t := Step(s, a);
      && (if s.reader.Replying? && s.out.alive
          then t.log.replies == s.log.replies + [s.reader.reply] && Emitted(s, a) == [s.reader.reply]
          else t.log.replies == s.log.replies)
      && (if s.reader.Replying? && !s.out.alive then t.log.lost == s.log.lost + [s.reader.reply]
          else t.log.lost == s.log.lost)
      && t.out.alive == s.out.alive
  {
    hide Step, MoveReader, WorkersInv, QueuesInv, TableInv, Accepted, LastInv, Resolve, Route, Register;
    StepIs(s, a);
    ReaderFrame(s);
    ReaderKeeps(s);
    match s.reader
    case Inserting(syn) =>
      InsertIsNew(s);
      RegisterFrame(s, syn);
    case RoutingSyn(syn, obj) => RouteFrame(s, syn, obj);
    case Routing(f, obj) => RouteFrame(s, f, obj);
    case Resolving(id) => ResolveFrame(s, id);
    case _ =>
  }

  lemma ConservationKept(s: State, a: Action, sel: Selection)
    requires ConservationInv(s, sel) && Can(s, a)
    ensures ConservationInv(Step(s, a), sel)
  {
    hide Step, Can, BaseInv, CountInv, LostInv;
    BaseKept(s, a);
    CountKept(s, a, sel);
    LostKept(s, a, sel);
  }

  lemma InitiallyConserved(s: State, sel: Selection)
    requires BaseInv(s) && s.reader.Booting? && s.ids == [] && s.log == Log([], [], [], []) && s.out.enqueued == []
    ensures ConservationInv(s, sel)
  {
    hide BaseInv, Count, CountIds, CountedId;
    NothingCounted(sel);
  }

  lemma {:induction false} RunConservation(acts: seq<Action>, sel: Selection)
    requires Run(acts).Some?
    ensures ConservationInv(Run(acts).value, sel)
    decreases |acts|
  {
    hide ConservationInv, BaseInv, Step, Can;
    if acts != [] {
      RunConservation(acts[..|acts| - 1], sel);
      ConservationKept(Run(acts[..|acts| - 1]).value, acts[|acts| - 1], sel);
    } else {
      InitialBase();
      InitiallyConserved(INITIAL, sel);
    }
  }

  /**
   * Conservation of inbound frames over every run, for each id and in total (sel == None). The SYN_STREAMs received
   * are the streams registered and the refusals sent; the Data frames are those routed and the INVALID_STREAM replies;
   * the odd pings are the echoes; counting the one frame the reader may be working on, and the replies that were lost
   * because the write task was gone. While the write task lives none is lost and all have entered the write queue.
   */
  lemma InboundConserved(s: State, sel: Selection)
    requires Reachable(s)
    ensures Count(Syns, s.log.inbound, sel) ==
      CountIds(s.ids, sel) + Replied(Refusals, s.log, sel) + Hit(sel, InFlight(Syns, s.reader))
    ensures Count(Datas, s.log.inbound, sel) ==
      Count(Datas, s.log.routed, sel) + Replied(InvalidStreams, s.log, sel) + Hit(sel, InFlight(Datas, s.reader))
    ensures Count(OddPings, s.log.inbound, sel) ==
      Replied(OddPings, s.log, sel) + Hit(sel, InFlight(OddPings, s.reader))
    ensures s.out.alive ==> s.log.lost == []
    ensures Count(Refusals, s.log.replies, sel) <= Count(Refusals, s.out.enqueued, sel)
    ensures Count(InvalidStreams, s.log.replies, sel) <= Count(InvalidStreams, s.out.enqueued, sel)
    ensures Count(OddPings, s.log.replies, sel) <= Count(OddPings, s.out.enqueued, sel)
  {
    hide BaseInv, Count, CountIds, Replied, Hit, InFlight;
    var acts :| Run(acts) == Some(s);
    RunConservation(acts, sel);
  }

  /**
   * Between two frames, with the write task alive: as many SYN_STREAMs received as streams accepted and refusals sent,
   * and of each id one stream at most; as many Data frames as routed and rejected; and one echo for each odd ping.
   */
  lemma ReceivedEqualsAnswered(s: State, id: u32)
    requires Reachable(s) && s.reader.AtRead? && s.out.alive
    ensures Count(Syns, s.log.inbound, None) == |s.ids| + Count(Refusals, s.log.replies, None)
    ensures Count(Syns, s.log.inbound, Some(id)) ==
      (if id in s.ids then 1 else 0) + Count(Refusals, s.log.replies, Some(id))
    ensures Count(Datas, s.log.inbound, Some(id)) ==
      Count(Datas, s.log.routed, Some(id)) + Count(InvalidStreams, s.log.replies, Some(id))
    ensures Count(OddPings, s.log.inbound, Some(id)) == Count(OddPings, s.log.replies, Some(id))
  {
    hide Reachable, Shape, TableInv, WorkersInv, QueuesInv, LastInv, ReaderInv, Accepted;
    ReachableBase(s);
    CountIdsMeans(s.ids, id);
    InboundConserved(s, None);
    InboundConserved(s, Some(id));
    NothingCounted(None);
    NothingCounted(Some(id));
    hide Count, CountIds;
  }

  lemma NothingCounted(sel: Selection)
    ensures CountIds([], sel) == 0 && forall k: Kind :: Count(k, [], sel) == 0
  {
  }
}
