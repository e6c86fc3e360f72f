/** Why the reader refuses: every reply it ever sends has its reason, and the reason still holds. */
module Refusals {
  import opened Octets
  import opened Frame
  import opened Receive
  import opened Connection
  import opened Frames
  import opened Registry
  import opened Closing
  import Conservation

  /** What a reply can be judged by: the last accepted id, the going-away flag, and the frames received. */
  datatype Grounds = Grounds(last: u32, gone: bool, inbound: seq<Frame>)

  function GroundsOf(s: State): Grounds {
    Grounds(s.lastId, s.goneAway, s.log.inbound)
  }

  predicate SynReceived(inbound: seq<Frame>, id: u32) {
    exists f :: f in inbound && f.SynStream? && f.streamId == id
  }

  predicate DataReceived(inbound: seq<Frame>, id: u32) {
    exists f :: f in inbound && f.Data? && f.streamId == id
  }

  /** A reply with the frame it answers and the reason it gives. */
  predicate Justified(f: Frame, g: Grounds) {
    match f
    case RstStream(id, ProtocolError) => (id % 2 == 0 || id <= g.last) && SynReceived(g.inbound, id)
    case RstStream(id, RefusedStream) => id % 2 == 1 && g.gone && SynReceived(g.inbound, id)
    case RstStream(id, InvalidStream) => DataReceived(g.inbound, id)
    case Ping(id) => id % 2 == 1 && f in g.inbound
    case _ => false
  }

  ghost predicate AllJustified(fs: seq<Frame>, g: Grounds) {
    forall i :: 0 <= i < |fs| ==> Justified(fs[i], g)
  }

  /** The frame the reader is deciding about was received. */
  ghost predicate AtHand(r: Connection.Reader, inbound: seq<Frame>) {
    && (r.CheckingLast? || r.CheckingGone? ==> r.syn.SynStream? && r.syn in inbound)
    && (r.LookingUp? ==> r.frame in inbound)
  }

  ghost predicate ReasonInv(s: State) {
    && AllJustified(s.log.replies, GroundsOf(s))
    && AllJustified(s.log.lost, GroundsOf(s))
    && (s.reader.Replying? ==> Justified(s.reader.reply, GroundsOf(s)))
    && AtHand(s.reader, s.log.inbound)
  }

  ghost predicate Grows(g: Grounds, h: Grounds) {
    g.last <= h.last && (g.gone ==> h.gone) && g.inbound <= h.inbound
  }

  /** The last id never falls, the flag is never cleared and no frame is forgotten, so a reason once given stays. */
  lemma ReasonsStay(s: State, a: Action)
    requires BaseInv(s) && Can(s, a)
    ensures Grows(GroundsOf(s), GroundsOf(Step(s, a)))
  {
    hide Step, Can, MoveReader, TableInv, WorkersInv, QueuesInv;
    StepIs(s, a);
    StreamsFrame(s, a);
    ClosingFrame(s, a);
    PingsFrame(s, a);
    if a.Arrives? { DispatchFrame(s, a.frame); }
    if a.ReaderMoves? {
      GoneStays(s);
      ReaderKeeps(s);
      if s.reader.StoringLast? { StoresNewest(s); }
    } else if a.CallClose? {
      CallEffects(s, a);
    }
  }

  lemma JustifiedStays(f: Frame, g: Grounds, h: Grounds)
    requires Justified(f, g) && Grows(g, h)
    ensures Justified(f, h)
  {
    assert forall x :: x in g.inbound ==> x in h.inbound;
  }

  lemma AllJustifiedStay(fs: seq<Frame>, g: Grounds, h: Grounds)
    requires AllJustified(fs, g) && Grows(g, h)
    ensures AllJustified(fs, h)
  {
    hide Justified, Grows;
    forall i | 0 <= i < |fs| ensures Justified(fs[i], h) { JustifiedStays(fs[i], g, h); }
  }

  /** Where a reply comes from, and the frames that are decided about. */
  lemma ReplyArises(s: State, a: Action)
    requires BaseInv(s) && AtHand(s.reader, s.log.inbound) && Can(s, a)
    ensures var t := Step(s, a);
      && AtHand(t.reader, t.log.inbound)
      && (t.reader.Replying? && s.reader != t.reader ==> Justified(t.reader.reply, GroundsOf(t)))
  {
    hide Step, Can, MoveReader, Dispatch, TableInv, WorkersInv, QueuesInv, LastInv, Accepted;
    StepIs(s, a);
    TasksFrame(s, a);
    PingsFrame(s, a);
    if a.ReaderMoves? {
      ReaderGoesTo(s);
      ReaderKeeps(s);
    } else if a.Arrives? {
      DispatchReplies(s, a.frame);
    }
  }

  lemma DispatchReplies(s: State, f: Frame)
    requires s.reader.AtRead?
    ensures var t := Dispatch(s, f);
      && AtHand(t.reader, t.log.inbound)
      && (t.reader.Replying? ==> Justified(t.reader.reply, GroundsOf(t)))
  {
    assert f in s.log.inbound + [f];
  }

  /** The histories grow only by the reply the reader was sending. */
  lemma ReplyIsLogged(s: State, a: Action)
    requires BaseInv(s) && Can(s, a)
    ensures var t := Step(s, a);
      && (t.log.replies == s.log.replies || (s.reader.Replying? && t.log.replies == s.log.replies + [s.reader.reply]))
      && (t.log.lost == s.log.lost || (s.reader.Replying? && t.log.lost == s.log.lost + [s.reader.reply]))
  {
    hide Step, Can, BaseInv, Emitted;
    PingsFrame(s, a);
    if a.ReaderMoves? {
      Conservation.ReaderReplies(s, a);
    } else if a.Arrives? {
      StepIs(s, a);
      DispatchFrame(s, a.frame);
    }
  }

  lemma ReasonKept(s: State, a: Action)
    requires BaseInv(s) && ReasonInv(s) && Can(s, a)
    ensures ReasonInv(Step(s, a))
  {
    hide Step, Can, BaseInv, Justified, AtHand, Grows;
    var t := Step(s, a);
    ReasonsStay(s, a);
    ReplyIsLogged(s, a);
    ReplyArises(s, a);
    var sent := if s.reader.Replying? then [s.reader.reply] else [];
    AllJustifiedStay(s.log.replies, GroundsOf(s), GroundsOf(t));
    AllJustifiedStay(s.log.lost, GroundsOf(s), GroundsOf(t));
    AllJustifiedStay(sent, GroundsOf(s), GroundsOf(t));
    if s.reader.Replying? { assert Justified(sent[0], GroundsOf(t)); }
  }

  lemma {:induction false} RunReasons(acts: seq<Action>)
    requires Run(acts).Some?
    ensures BaseInv(Run(acts).value) && ReasonInv(Run(acts).value)
    decreases |acts|
  {
    hide BaseInv, Step, Can;
    RunBase(acts);
    if acts != [] {
      RunReasons(acts[..|acts| - 1]);
      hide ReasonInv;
      ReasonKept(Run(acts[..|acts| - 1]).value, acts[|acts| - 1]);
    }
  }

  /**
   * In every interleaving, every reply of the reader has its reason: PROTOCOL_ERROR answers a SYN_STREAM whose id is
   * even or not above the last accepted one; REFUSED_STREAM one with an odd id on a connection going away;
   * INVALID_STREAM answers data for its id; a ping echoes an odd one received. It resets with no other status, in
   * particular never with STREAM_IN_USE.
   */
  lemma EveryRefusalHasItsReason(s: State, i: nat)
    requires Reachable(s) && i < |s.log.replies|
    ensures Justified(s.log.replies[i], GroundsOf(s))
  {
    hide BaseInv, Justified;
    var acts :| Run(acts) == Some(s);
    RunReasons(acts);
  }

  /** Data, replies, headers and resets for a stream that is still open are never refused or dropped: they go to it. */
  lemma OpenStreamGetsItsFrames(s: State, o: nat)
    requires Reachable(s) && s.reader.LookingUp? && o < |s.ids| && |s.rxs| == |s.ids| && !s.rxs[o].closed
    requires HasStreamId(s.reader.frame) && s.reader.frame.streamId == s.ids[o]
    ensures Can(s, ReaderMoves) && Step(s, ReaderMoves).reader == Connection.Reader.Routing(s.reader.frame, o)
  {
    hide Accepted, LastInv, TableInv, WorkersInv, QueuesInv, Shape, MoveReader;
    ClosingReachesAll(s);
    ReachableBase(s);
    StepIs(s, ReaderMoves);
    ReaderGoesTo(s);
  }
}
