/**
 * The reply gate of one stream with any number of concurrent `write_data` callers, `send_reply` callers and inbound
 * SYN_REPLYs, each in steps of one load, store, notification or send.
 */
module ReplyGate {
  import opened Octets
  import Frame

  /** send_reply: send, store `replied`, notify, store the FIN flag. An inbound SYN_REPLY starts at the store. */
  datatype ReplierAt = Sending | Storing | Notifying | StoringFin | Replied | SendFailed

  datatype Replier = Replier(fromPeer: bool, headers: Frame.HeaderMap, fin: bool, at: ReplierAt)

  /**
   * write_data: test the flag; make the notification, which remembers how many broadcasts there have been; test the
   * flag again; wait for a later broadcast. Then test the FIN flag, store it if this is a FIN, and send.
   */
  datatype CallerAt =
    | Testing | Making | Made(generation: nat) | Parked(generation: nat)
    | Passed | Flagging | Writing | Written | Refused | WriteFailed

  datatype Caller = Caller(data: Bytes, fin: bool, at: CallerAt)

  /** A frame of this stream as it enters the write queue. */
  datatype Sent = Reply(headers: Frame.HeaderMap, fin: bool) | DataOf(caller: nat, data: Bytes, fin: bool)

  datatype Gate = Gate(
    replied: bool, generation: nat, finSent: bool, repliers: seq<Replier>, callers: seq<Caller>, log: seq<Sent>)

  datatype Act =
    | CallReply(headers: Frame.HeaderMap, fin: bool) | PeerReply | CallWrite(data: Bytes, fin: bool)
    | ReplierMoves(r: nat, open: bool) | CallerMoves(c: nat, open: bool)

  const Fresh := Gate(false, 0, false, [], [], [])

  predicate CallerCanMove(g: Gate, c: nat) {
    c < |g.callers| &&
    match g.callers[c].at
    case Parked(generation) => generation != g.generation
    case Written => false
    case Refused => false
    case WriteFailed => false
    case _ => true
  }

  predicate Can(g: Gate, a: Act) {
    match a
    case ReplierMoves(r, _) => r < |g.repliers| && !g.repliers[r].at.Replied? && !g.repliers[r].at.SendFailed?
    case CallerMoves(c, _) => CallerCanMove(g, c)
    case _ => true
  }

  function ReplierTo(g: Gate, r: nat, at: ReplierAt): Gate
    requires r < |g.repliers|
  {
    g.(repliers := g.repliers[r := g.repliers[r].(at := at)])
  }

  function CallerTo(g: Gate, c: nat, at: CallerAt): Gate
    requires c < |g.callers|
  {
    g.(callers := g.callers[c := g.callers[c].(at := at)])
  }

  /** `open` says whether the write queue still accepts frames; only sends look at it. */
  function MoveReplier(g: Gate, r: nat, open: bool): Gate
    requires r < |g.repliers|
  {
    var me := g.repliers[r];
    match me.at
    case Sending => if open then ReplierTo(g, r, Storing).(log := g.log + [Reply(me.headers, me.fin)])
      else ReplierTo(g, r, SendFailed)
    case Storing => ReplierTo(g, r, Notifying).(replied := true)
    case Notifying => ReplierTo(g, r, if me.fromPeer then Replied else StoringFin).(generation := g.generation + 1)
    case StoringFin => ReplierTo(g, r, Replied).(finSent := g.finSent || me.fin)
    case _ => g
  }

  function MoveCaller(g: Gate, c: nat, open: bool): Gate
    requires c < |g.callers|
  {
    var me := g.callers[c];
    match me.at
    case Testing => CallerTo(g, c, if g.replied then Passed else Making)
    case Making => CallerTo(g, c, Made(g.generation))
    case Made(generation) => CallerTo(g, c, if g.replied then Passed else Parked(generation))
    case Parked(_) => CallerTo(g, c, Testing)
    case Passed => CallerTo(g, c, if g.finSent then Refused else Flagging)
    case Flagging => CallerTo(g, c, Writing).(finSent := g.finSent || me.fin)
    case Writing =>
      if open then CallerTo(g, c, Written).(log := g.log + [DataOf(c, me.data, me.fin)])
      else CallerTo(g, c, WriteFailed)
    case _ => g
  }

  function Step(g: Gate, a: Act): Gate
    requires Can(g, a)
  {
    match a
    case CallReply(headers, fin) => g.(repliers := g.repliers + [Replier(false, headers, fin, Sending)])
    case PeerReply => g.(repliers := g.repliers + [Replier(true, map[], false, Storing)])
    case CallWrite(data, fin) => g.(callers := g.callers + [Caller(data, fin, Testing)])
    case ReplierMoves(r, open) => MoveReplier(g, r, open)
    case CallerMoves(c, open) => MoveCaller(g, c, open)
  }

  function Run(acts: seq<Act>): Option<Gate> {
    if acts == [] then Some(Fresh)
    else match Run(acts[..|acts| - 1])
      case None => None
      case Some(g) => if Can(g, acts[|acts| - 1]) then Some(Step(g, acts[|acts| - 1])) else None
  }

  ghost predicate Reachable(g: Gate) {
    exists acts :: Run(acts) == Some(g)
  }

  lemma ReachStep(g: Gate, a: Act)
    requires Reachable(g) && Can(g, a)
    ensures Reachable(Step(g, a))
  {
    var acts :| Run(acts) == Some(g);
    assert (acts + [a])[..|acts|] == acts;
    assert Run(acts + [a]) == Some(Step(g, a));
  }

  // ---------------------------------------------------------------------------
  // Invariant
  // ---------------------------------------------------------------------------

  predicate HasStored(r: Replier) {
    r.at.Notifying? || r.at.StoringFin? || r.at.Replied?
  }

  predicate HasNotified(r: Replier) {
    r.at.StoringFin? || r.at.Replied?
  }

  predicate PastGate(c: Caller) {
    !c.at.Testing? && !c.at.Making? && !c.at.Made? && !c.at.Parked?
  }

  ghost predicate NoPeer(g: Gate) {
    forall r :: 0 <= r < |g.repliers| ==> !g.repliers[r].fromPeer
  }

  ghost predicate GateInv(g: Gate) {
    && (forall r :: 0 <= r < |g.repliers| && HasStored(g.repliers[r]) ==> g.replied)
    && (forall r :: 0 <= r < |g.repliers| && HasNotified(g.repliers[r]) ==> g.generation > 0)
    && (g.generation > 0 ==> g.replied)
    && (forall c :: 0 <= c < |g.callers| ==> CallerInv(g, g.callers[c]))
    && (NoPeer(g) ==> OrderInv(g))
  }

  ghost predicate CallerInv(g: Gate, c: Caller) {
    && (c.at.Made? ==> c.at.generation <= g.generation)
    && (c.at.Parked? ==> c.at.generation == 0)
    && (PastGate(c) ==> g.replied)
  }

  /** Without a peer SYN_REPLY the gate opens only after a reply has entered the queue. */
  ghost predicate OrderInv(g: Gate) {
    && (forall r :: 0 <= r < |g.repliers| ==> !g.repliers[r].at.Sending? && !g.repliers[r].at.SendFailed? ==>
          g.log != [])
    && (g.replied ==> g.log != [])
    && (g.log != [] ==> g.log[0].Reply?)
  }

  lemma ReplierKeepsInv(g: Gate, r: nat, open: bool)
    requires GateInv(g) && Can(g, ReplierMoves(r, open))
    ensures GateInv(MoveReplier(g, r, open))
  {
    var h := MoveReplier(g, r, open);
    ReplierEffects(g, r, open);
    hide MoveReplier;
    if NoPeer(h) {
      forall i | 0 <= i < |g.repliers| ensures !g.repliers[i].fromPeer { assert !h.repliers[i].fromPeer; }
    }
    forall c | 0 <= c < |h.callers| ensures CallerInv(h, h.callers[c]) { assert CallerInv(g, g.callers[c]); }
  }

  /** A replier's move, by what it does to the flag, the broadcasts, the log and the replier itself. */
  lemma ReplierEffects(g: Gate, r: nat, open: bool)
    requires Can(g, ReplierMoves(r, open))
    ensures var h, me := MoveReplier(g, r, open), g.repliers[r];
      && h.callers == g.callers && |h.repliers| == |g.repliers|
      && h.repliers == g.repliers[r := me.(at := h.repliers[r].at)]
      && h.replied == (g.replied || me.at.Storing?)
      && h.generation == g.generation + (if me.at.Notifying? then 1 else 0)
      && (HasStored(h.repliers[r]) <==> HasStored(me) || me.at.Storing?)
      && (HasNotified(h.repliers[r]) <==> HasNotified(me) || me.at.Notifying?)
      && h.log == (if me.at.Sending? && open then g.log + [Reply(me.headers, me.fin)] else g.log)
      && (me.at.Sending? && !open ==> h.repliers[r].at.SendFailed?)
      && !h.repliers[r].at.Sending? && (h.repliers[r].at.SendFailed? ==> me.at.Sending?)
  {
  }

  lemma CallerKeepsInv(g: Gate, c: nat, open: bool)
    requires GateInv(g) && CallerCanMove(g, c)
    ensures GateInv(MoveCaller(g, c, open))
  {
    var h := MoveCaller(g, c, open);
    assert CallerInv(g, g.callers[c]);
    forall i | 0 <= i < |h.callers| ensures CallerInv(h, h.callers[i]) { assert CallerInv(g, g.callers[i]); }
    assert NoPeer(h) ==> NoPeer(g);
  }

  lemma StepKeepsInv(g: Gate, a: Act)
    requires GateInv(g) && Can(g, a)
    ensures GateInv(Step(g, a))
  {
    match a
    case ReplierMoves(r, open) => ReplierKeepsInv(g, r, open);
    case CallerMoves(c, open) => CallerKeepsInv(g, c, open);
    case CallReply(_, _) => AddedKeepsInv(g, Step(g, a));
    case PeerReply => AddedKeepsInv(g, Step(g, a));
    case CallWrite(_, _) =>
      var h := Step(g, a);
      assert NoPeer(h) ==> NoPeer(g);
  }

  lemma AddedKeepsInv(g: Gate, h: Gate)
    requires GateInv(g) && h == g.(repliers := h.repliers) && |h.repliers| == |g.repliers| + 1
    requires h.repliers[..|g.repliers|] == g.repliers
    requires var r := h.repliers[|g.repliers|]; if r.fromPeer then r.at == Storing else r.at == Sending
    ensures GateInv(h)
  {
    assert forall i :: 0 <= i < |g.repliers| ==> h.repliers[i] == g.repliers[i];
    assert NoPeer(h) ==> NoPeer(g);
    forall c | 0 <= c < |h.callers| ensures CallerInv(h, h.callers[c]) { assert CallerInv(g, g.callers[c]); }
  }

  lemma {:induction false} RunInv(acts: seq<Act>)
    requires Run(acts).Some?
    ensures GateInv(Run(acts).value)
    decreases |acts|
  {
    if acts != [] {
      RunInv(acts[..|acts| - 1]);
      StepKeepsInv(Run(acts[..|acts| - 1]).value, acts[|acts| - 1]);
    }
  }

  lemma ReachableInv(g: Gate)
    requires Reachable(g)
    ensures GateInv(g)
  {
    var acts :| Run(acts) == Some(g);
    RunInv(acts);
  }

  // ---------------------------------------------------------------------------
  // Results
  // ---------------------------------------------------------------------------

  /** How many more moves of its own a caller needs to get past an open gate. */
  function ToGo(at: CallerAt): nat {
    match at
    case Making => 2
    case Made(_) => 1
    case Parked(_) => 2
    case Testing => 1
    case _ => 0
  }

  /**
   * No lost wake-up, in every interleaving of any number of callers and repliers: once some replier has stored and
   * notified, every caller still before the gate has an enabled move, each such move brings it strictly nearer, and a
   * caller at a test leaves the loop at that test.
   */
  lemma NoLostWakeUp(g: Gate, r: nat, c: nat, open: bool)
    requires Reachable(g) && r < |g.repliers| && HasNotified(g.repliers[r])
    requires c < |g.callers| && !PastGate(g.callers[c])
    ensures CallerCanMove(g, c)
    ensures ToGo(MoveCaller(g, c, open).callers[c].at) < ToGo(g.callers[c].at)
    ensures g.callers[c].at.Testing? || g.callers[c].at.Made? ==> MoveCaller(g, c, open).callers[c].at.Passed?
    ensures g.callers[c].at.Parked? ==> MoveCaller(g, c, open).callers[c].at.Testing?
  {
    ReachableInv(g);
    assert CallerInv(g, g.callers[c]);
  }

  /** Nothing that other tasks do takes a caller's progress back. */
  lemma OthersDoNotHinder(g: Gate, a: Act, c: nat)
    requires Reachable(g) && Can(g, a) && c < |g.callers| && !(a.CallerMoves? && a.c == c)
    ensures c < |Step(g, a).callers| && Step(g, a).callers[c] == g.callers[c]
    ensures forall r :: 0 <= r < |g.repliers| && HasNotified(g.repliers[r]) ==> HasNotified(Step(g, a).repliers[r])
  {
    hide MoveReplier, MoveCaller, HasNotified;
    match a
    case ReplierMoves(r, open) => ReplierGoesOn(g, r, open);
    case CallerMoves(d, open) => CallerGoesOn(g, d, open);
    case _ =>
  }

  lemma ReplierGoesOn(g: Gate, r: nat, open: bool)
    requires r < |g.repliers|
    ensures var h := MoveReplier(g, r, open);
      && h.callers == g.callers && |h.repliers| == |g.repliers|
      && forall q :: 0 <= q < |g.repliers| && HasNotified(g.repliers[q]) ==> HasNotified(h.repliers[q])
  {
  }

  lemma CallerGoesOn(g: Gate, d: nat, open: bool)
    requires d < |g.callers|
    ensures var h := MoveCaller(g, d, open);
      && h.repliers == g.repliers && |h.callers| == |g.callers|
      && forall c :: 0 <= c < |g.callers| && c != d ==> h.callers[c] == g.callers[c]
  {
  }

  /** Only an open gate lets a caller by, and without a peer SYN_REPLY no data precedes the stream's own SYN_REPLY. */
  lemma ReplyComesFirst(g: Gate)
    requires Reachable(g)
    ensures forall c :: 0 <= c < |g.callers| && PastGate(g.callers[c]) ==> g.replied
    ensures NoPeer(g) && g.log != [] ==> g.log[0].Reply?
  {
    ReachableInv(g);
    forall c | 0 <= c < |g.callers| && PastGate(g.callers[c]) ensures g.replied { assert CallerInv(g, g.callers[c]); }
  }

  // ---------------------------------------------------------------------------
  // A gate opened by the peer
  // ---------------------------------------------------------------------------

  /** A send_reply whose SYN_REPLY is in the queue. */
  predicate HasSentReply(r: Replier) {
    !r.fromPeer && !r.at.Sending? && !r.at.SendFailed?
  }

  predicate PeerHasStored(r: Replier) {
    r.fromPeer && HasStored(r)
  }

  predicate HasReply(log: seq<Sent>) {
    exists i :: 0 <= i < |log| && log[i].Reply?
  }

  ghost predicate OriginInv(g: Gate) {
    && (g.replied <==> exists r :: 0 <= r < |g.repliers| && HasStored(g.repliers[r]))
    && (HasReply(g.log) <==> exists r :: 0 <= r < |g.repliers| && HasSentReply(g.repliers[r]))
    && (forall r :: 0 <= r < |g.repliers| && g.repliers[r].fromPeer ==>
          !g.repliers[r].at.Sending? && !g.repliers[r].at.SendFailed?)
    && (g.log != [] && !g.log[0].Reply? ==> exists r :: 0 <= r < |g.repliers| && PeerHasStored(g.repliers[r]))
  }

  lemma HasReplyAfter(log: seq<Sent>, f: Sent)
    ensures HasReply(log + [f]) <==> HasReply(log) || f.Reply?
  {
    if HasReply(log) {
      var i :| 0 <= i < |log| && log[i].Reply?;
      assert (log + [f])[i].Reply?;
    }
    assert (log + [f])[|log|] == f;
  }

  /** What a replier has done stays done. */
  lemma ReplierKeepsOrigin(g: Gate, r: nat, open: bool)
    requires OriginInv(g) && Can(g, ReplierMoves(r, open))
    ensures OriginInv(MoveReplier(g, r, open))
  {
    hide HasReply;
    var h := MoveReplier(g, r, open);
    HasReplyAfter(g.log, Reply(g.repliers[r].headers, g.repliers[r].fin));
    assert h.repliers[r].fromPeer == g.repliers[r].fromPeer;
    forall q | 0 <= q < |g.repliers|
      ensures HasStored(g.repliers[q]) ==> HasStored(h.repliers[q])
      ensures HasSentReply(g.repliers[q]) ==> HasSentReply(h.repliers[q])
      ensures PeerHasStored(g.repliers[q]) ==> PeerHasStored(h.repliers[q])
      ensures q != r ==> h.repliers[q] == g.repliers[q]
    {
    }
    if g.log == [] { assert h.log == [] || h.log[0].Reply?; } else { assert h.log[0] == g.log[0]; }
    OriginAfter(g, h, r);
  }

  lemma OriginAfter(g: Gate, h: Gate, r: nat)
    requires OriginInv(g) && |h.repliers| == |g.repliers| && r < |g.repliers|
    requires forall q :: 0 <= q < |g.repliers| ==>
      && (HasStored(g.repliers[q]) ==> HasStored(h.repliers[q]))
      && (HasSentReply(g.repliers[q]) ==> HasSentReply(h.repliers[q]))
      && (PeerHasStored(g.repliers[q]) ==> PeerHasStored(h.repliers[q]))
      && (q != r ==> h.repliers[q] == g.repliers[q])
    requires h.replied <==> g.replied || HasStored(h.repliers[r])
    requires HasReply(h.log) <==> HasReply(g.log) || HasSentReply(h.repliers[r])
    requires h.repliers[r].fromPeer == g.repliers[r].fromPeer
    requires h.repliers[r].fromPeer ==> !h.repliers[r].at.Sending? && !h.repliers[r].at.SendFailed?
    requires h.log != [] && !h.log[0].Reply? ==> g.log != [] && !g.log[0].Reply?
    ensures OriginInv(h)
  {
    hide HasReply, HasStored, HasSentReply, PeerHasStored;
  }

  /** The first frame is data only if the peer has opened the gate: an open gate without a reply has no other origin. */
  lemma CallerKeepsOrigin(g: Gate, c: nat, open: bool)
    requires OriginInv(g) && GateInv(g) && CallerCanMove(g, c)
    ensures OriginInv(MoveCaller(g, c, open))
  {
    hide HasReply;
    var h := MoveCaller(g, c, open);
    assert CallerInv(g, g.callers[c]);
    HasReplyAfter(g.log, DataOf(c, g.callers[c].data, g.callers[c].fin));
    if h.log != g.log && g.log == [] {
      NoReplyIn([]);
      var r :| 0 <= r < |g.repliers| && HasStored(g.repliers[r]);
      assert !HasSentReply(g.repliers[r]) ==> PeerHasStored(g.repliers[r]);
    }
  }

  lemma NoReplyIn(log: seq<Sent>)
    ensures log == [] ==> !HasReply(log)
  {
  }

  lemma StepKeepsOrigin(g: Gate, a: Act)
    requires OriginInv(g) && GateInv(g) && Can(g, a)
    ensures OriginInv(Step(g, a))
  {
    hide HasReply, GateInv;
    var h := Step(g, a);
    match a
    case ReplierMoves(r, open) => ReplierKeepsOrigin(g, r, open);
    case CallerMoves(c, open) => CallerKeepsOrigin(g, c, open);
    case CallWrite(_, _) =>
    case _ =>
      assert forall q :: 0 <= q < |g.repliers| ==> h.repliers[q] == g.repliers[q];
      assert !HasStored(h.repliers[|g.repliers|]);
  }

  lemma {:induction false} RunOrigin(acts: seq<Act>)
    requires Run(acts).Some?
    ensures OriginInv(Run(acts).value)
    decreases |acts|
  {
    if acts != [] {
      hide OriginInv, Step, Can, GateInv;
      RunOrigin(acts[..|acts| - 1]);
      RunInv(acts[..|acts| - 1]);
      StepKeepsOrigin(Run(acts[..|acts| - 1]).value, acts[|acts| - 1]);
    }
  }

  /**
   * Exactly when a writer can pass without a reply: the gate is open with no SYN_REPLY queued if and only if a peer's
   * SYN_REPLY has stored the flag and no send_reply is past its send. And only then can data be the first frame.
   */
  lemma OpenWithoutReplyExactly(g: Gate)
    requires Reachable(g)
    ensures g.replied && !HasReply(g.log) <==>
      && (exists r :: 0 <= r < |g.repliers| && PeerHasStored(g.repliers[r]))
      && (forall r :: 0 <= r < |g.repliers| ==> !HasSentReply(g.repliers[r]))
    ensures g.log != [] && !g.log[0].Reply? ==> exists r :: 0 <= r < |g.repliers| && PeerHasStored(g.repliers[r])
  {
    hide HasReply;
    var acts :| Run(acts) == Some(g);
    RunOrigin(acts);
    if g.replied && !HasReply(g.log) {
      var r :| 0 <= r < |g.repliers| && HasStored(g.repliers[r]);
      assert !HasSentReply(g.repliers[r]);
      assert PeerHasStored(g.repliers[r]);
    }
    if r :| 0 <= r < |g.repliers| && PeerHasStored(g.repliers[r]) { assert HasStored(g.repliers[r]); }
  }

  /** Data with no reply at all: the peer's SYN_REPLY opens the gate and the write goes out. */
  lemma DataWithoutReply(data: Bytes)
    ensures exists g :: Reachable(g) && g.log == [DataOf(0, data, false)]
  {
    assert Run([]) == Some(Fresh);
    hide Reachable;
    var g := Move(Fresh, PeerReply);
    g := Move(g, ReplierMoves(0, true));
    g := Move(g, CallWrite(data, false));
    g := Move(g, CallerMoves(0, true));
    g := Move(g, CallerMoves(0, true));
    assert g.callers == [Caller(data, false, Flagging)];
    g := Move(g, CallerMoves(0, true));
    g := Move(g, CallerMoves(0, true));
    assert g.log == [DataOf(0, data, false)];
  }

  // ---------------------------------------------------------------------------
  // What the log holds
  // ---------------------------------------------------------------------------

  /** The arguments of the write_data calls, in the order in which they were made. */
  function WritesMade(acts: seq<Act>): seq<(Bytes, bool)> {
    if acts == [] then []
    else
      var a := acts[|acts| - 1];
      WritesMade(acts[..|acts| - 1]) + if a.CallWrite? then [(a.data, a.fin)] else []
  }

  ghost predicate LogInv(g: Gate, made: seq<(Bytes, bool)>) {
    && |g.callers| == |made|
    && (forall c :: 0 <= c < |made| ==> g.callers[c].data == made[c].0 && g.callers[c].fin == made[c].1)
    && (forall i :: 0 <= i < |g.log| && g.log[i].DataOf? ==> IsWriteOf(g, g.log[i]))
    && (forall c :: 0 <= c < |g.callers| && g.callers[c].at.Written? ==> WrittenAt(g.log, c))
    && (forall i, k :: 0 <= i < k < |g.log| && g.log[i].DataOf? && g.log[k].DataOf? ==>
          g.log[i].caller != g.log[k].caller)
  }

  predicate IsWriteOf(g: Gate, e: Sent)
    requires e.DataOf?
  {
    e.caller < |g.callers| && g.callers[e.caller] == Caller(e.data, e.fin, Written)
  }

  ghost predicate WrittenAt(log: seq<Sent>, c: nat) {
    exists i :: 0 <= i < |log| && log[i].DataOf? && log[i].caller == c
  }

  lemma WrittenStays(log: seq<Sent>, e: Sent, c: nat)
    ensures WrittenAt(log, c) || (e.DataOf? && e.caller == c) ==> WrittenAt(log + [e], c)
  {
    var more := log + [e];
    assert more[|log|] == e;
    if WrittenAt(log, c) {
      var i :| 0 <= i < |log| && log[i].DataOf? && log[i].caller == c;
      assert more[i] == log[i];
    }
  }

  lemma WriteLogged(g: Gate, c: nat, made: seq<(Bytes, bool)>)
    requires LogInv(g, made) && c < |g.callers| && g.callers[c].at.Writing?
    ensures LogInv(MoveCaller(g, c, true), made)
  {
    hide WrittenAt;
    var h := MoveCaller(g, c, true);
    var e := DataOf(c, g.callers[c].data, g.callers[c].fin);
    assert h.log == g.log + [e] && h.callers == g.callers[c := Caller(e.data, e.fin, Written)];
    hide MoveCaller;
    forall d | 0 <= d < |h.callers| && h.callers[d].at.Written? ensures WrittenAt(h.log, d) {
      WrittenStays(g.log, e, d);
    }
    forall i | 0 <= i < |g.log| && g.log[i].DataOf? ensures g.log[i].caller != c && IsWriteOf(h, g.log[i]) {
      assert IsWriteOf(g, g.log[i]);
    }
  }

  lemma CallerKeepsLog(g: Gate, c: nat, open: bool, made: seq<(Bytes, bool)>)
    requires LogInv(g, made) && CallerCanMove(g, c)
    ensures LogInv(MoveCaller(g, c, open), made)
  {
    hide WrittenAt;
    if g.callers[c].at.Writing? && open {
      WriteLogged(g, c, made);
    } else {
      var h := MoveCaller(g, c, open);
      QuietMove(g, c, open);
      hide MoveCaller;
      forall i | 0 <= i < |h.log| && h.log[i].DataOf? ensures IsWriteOf(h, h.log[i]) { assert IsWriteOf(g, g.log[i]); }
    }
  }

  lemma QuietMove(g: Gate, c: nat, open: bool)
    requires CallerCanMove(g, c) && !(g.callers[c].at.Writing? && open)
    ensures var h := MoveCaller(g, c, open);
      && h.log == g.log && |h.callers| == |g.callers| && !h.callers[c].at.Written? && !g.callers[c].at.Written?
      && h.callers == g.callers[c := g.callers[c].(at := h.callers[c].at)]
  {
  }

  lemma StepKeepsLog(g: Gate, a: Act, made: seq<(Bytes, bool)>)
    requires LogInv(g, made) && Can(g, a)
    ensures LogInv(Step(g, a), made + if a.CallWrite? then [(a.data, a.fin)] else [])
  {
    hide WrittenAt;
    assert made + [] == made;
    var h := Step(g, a);
    match a
    case CallerMoves(c, open) => CallerKeepsLog(g, c, open, made);
    case ReplierMoves(r, open) =>
      var e := Reply(g.repliers[r].headers, g.repliers[r].fin);
      forall c | 0 <= c < |h.callers| && h.callers[c].at.Written? ensures WrittenAt(h.log, c) {
        WrittenStays(g.log, e, c);
      }
      forall i | 0 <= i < |h.log| && h.log[i].DataOf? ensures IsWriteOf(h, h.log[i]) {
        assert IsWriteOf(g, g.log[i]);
      }
    case _ =>
      forall i | 0 <= i < |h.log| && h.log[i].DataOf? ensures IsWriteOf(h, h.log[i]) {
        assert IsWriteOf(g, g.log[i]);
      }
  }

  /**
   * In every interleaving the c-th call of write_data is the log's c-th writer: each data entry carries the payload and
   * the FIN of the call it names, that call is done, and a call that is done is in the log exactly once.
   */
  lemma {:induction false} LogIsTheWrites(acts: seq<Act>)
    requires Run(acts).Some?
    ensures LogInv(Run(acts).value, WritesMade(acts))
    decreases |acts|
  {
    if acts != [] {
      hide LogInv, Step, Can;
      LogIsTheWrites(acts[..|acts| - 1]);
      StepKeepsLog(Run(acts[..|acts| - 1]).value, acts[|acts| - 1], WritesMade(acts[..|acts| - 1]));
    }
  }

  /** The repliers in the order in which they began: a send_reply call with its arguments, or a peer's SYN_REPLY. */
  function RepliesMade(acts: seq<Act>): seq<Option<(Frame.HeaderMap, bool)>> {
    if acts == [] then []
    else
      var a := acts[|acts| - 1];
      RepliesMade(acts[..|acts| - 1]) +
        if a.CallReply? then [Some((a.headers, a.fin))] else if a.PeerReply? then [None] else []
  }

  ghost predicate RepliersInv(g: Gate, made: seq<Option<(Frame.HeaderMap, bool)>>) {
    && |g.repliers| == |made|
    && forall r :: 0 <= r < |made| ==> IsReplier(g.repliers[r], made[r])
  }

  predicate IsReplier(r: Replier, made: Option<(Frame.HeaderMap, bool)>) {
    match made
    case None => r.fromPeer
    case Some((headers, fin)) => !r.fromPeer && r.headers == headers && r.fin == fin
  }

  lemma {:induction false} RepliersAreTheCalls(acts: seq<Act>)
    requires Run(acts).Some?
    ensures RepliersInv(Run(acts).value, RepliesMade(acts))
    decreases |acts|
  {
    if acts != [] {
      hide RepliersInv, Step, Can;
      RepliersAreTheCalls(acts[..|acts| - 1]);
      StepKeepsRepliers(Run(acts[..|acts| - 1]).value, acts[|acts| - 1], RepliesMade(acts[..|acts| - 1]));
    } else {
      assert RepliersInv(Fresh, []);
    }
  }

  lemma StepKeepsRepliers(g: Gate, a: Act, made: seq<Option<(Frame.HeaderMap, bool)>>)
    requires RepliersInv(g, made) && Can(g, a)
    ensures RepliersInv(Step(g, a),
              made + if a.CallReply? then [Some((a.headers, a.fin))] else if a.PeerReply? then [None] else [])
  {
    assert made + [] == made;
    var h := Step(g, a);
    if a.ReplierMoves? {
      assert h.repliers[a.r].(at := g.repliers[a.r].at) == g.repliers[a.r];
    }
    forall r | 0 <= r < |g.repliers| ensures IsReplier(h.repliers[r], made[r]) {
      assert IsReplier(g.repliers[r], made[r]);
    }
  }

  lemma Move(g: Gate, a: Act) returns (h: Gate)
    requires Reachable(g) && Can(g, a)
    ensures Reachable(h) && h == Step(g, a)
  {
    ReachStep(g, a);
    h := Step(g, a);
  }
}
