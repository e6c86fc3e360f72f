/** The send half of a stream when one task makes the calls: `send_reply`, `write_data`, `poll_shutdown`. */
module SendHalf {
  import opened Octets
  import opened Frame

  /** The two flags, and the frames these calls have put into the connection's write queue. */
  datatype Half = Half(replied: bool, finSent: bool, sent: seq<Frame>)

  /** What becomes of a send: there is room, the queue stays full (the call is pending or given up), or it is closed. */
  datatype Fate = HasRoom | StaysFull | QueueClosed

  datatype Called = Done(result: Result<()>) | Blocked

  function FinFlag(fin: bool): u8 {
    if fin then FLAG_FIN else 0
  }

  function SendReply(h: Half, id: u32, headers: HeaderMap, fin: bool, fate: Fate): (Half, Called) {
    match fate
    case HasRoom =>
      (Half(true, h.finSent || fin, h.sent + [SynReply(id, headers, FinFlag(fin))]), Done(Ok(())))
    case StaysFull => (h, Blocked)
    case QueueClosed => (h, Done(Err(ConnectionClosed)))
  }

  /** The FIN flag is stored before the send is awaited. */
  function WriteData(h: Half, id: u32, data: Bytes, fin: bool, fate: Fate): (Half, Called) {
    if !h.replied then (h, Blocked)
    else if h.finSent then (h, Done(Err(StreamClosed)))
    else
      var flagged := h.(finSent := fin);
      match fate
      case HasRoom => (flagged.(sent := h.sent + [Data(id, FinFlag(fin), data)]), Done(Ok(())))
      case StaysFull => (flagged, Blocked)
      case QueueClosed => (flagged, Done(Err(ConnectionClosed)))
  }

  function PollShutdown(h: Half, id: u32, fate: Fate): (Half, Called) {
    if h.finSent then (h, Done(Ok(())))
    else match fate
      case HasRoom => (h.(finSent := true, sent := h.sent + [Data(id, DATA_FLAG_FIN, [])]), Done(Ok(())))
      case StaysFull => (h, Blocked)
      case QueueClosed => (h, Done(Err(Io)))
  }

  /** The calls a task may make after its reply; a peer SYN_REPLY may open the gate in between. */
  datatype Call = Write(data: Bytes, fin: bool, fate: Fate) | Shutdown(fate: Fate) | PeerReply

  function Make(h: Half, id: u32, c: Call): (Half, Called) {
    match c
    case Write(data, fin, fate) => WriteData(h, id, data, fin, fate)
    case Shutdown(fate) => PollShutdown(h, id, fate)
    case PeerReply => (h.(replied := true), Done(Ok(())))
  }

  function MakeAll(h: Half, id: u32, calls: seq<Call>): Half {
    if calls == [] then h else Make(MakeAll(h, id, calls[..|calls| - 1]), id, calls[|calls| - 1]).0
  }

  predicate IsFin(f: Frame) {
    (f.SynReply? || f.Data?) && HasFin(f.flags)
  }

  /** A FIN, if there is one, is the last frame, and then the flag is set. */
  ghost predicate Disciplined(h: Half) {
    forall i :: 0 <= i < |h.sent| && IsFin(h.sent[i]) ==> i == |h.sent| - 1 && h.finSent
  }

  lemma MakeKeepsDiscipline(h: Half, id: u32, c: Call)
    requires Disciplined(h)
    ensures Disciplined(Make(h, id, c).0)
    ensures h.finSent ==> Make(h, id, c).0.finSent && Make(h, id, c).0.sent == h.sent
  {
  }

  /**
   * Local half-close: in any sequence of calls by one task after its send_reply, however each send fares, at most one
   * FIN is enqueued (the reply's own included) and nothing follows it; writes after it are refused and shutdowns are
   * no-ops.
   */
  lemma {:induction false} AtMostOneFin(id: u32, headers: HeaderMap, fin: bool, calls: seq<Call>)
    ensures var h := MakeAll(SendReply(Half(false, false, []), id, headers, fin, HasRoom).0, id, calls);
      Disciplined(h) && h.sent != [] && h.replied
      && h.sent[0] == SynReply(id, headers, if fin then 1 else 0)
    decreases |calls|
  {
    if calls != [] {
      AtMostOneFin(id, headers, fin, calls[..|calls| - 1]);
      var h := MakeAll(SendReply(Half(false, false, []), id, headers, fin, HasRoom).0, id, calls[..|calls| - 1]);
      MakeKeepsDiscipline(h, id, calls[|calls| - 1]);
    }
  }

  /** A FIN write that did not get into the queue. */
  predicate LostFin(c: Call) {
    c.Write? && c.fin && !c.fate.HasRoom?
  }

  /**
   * What the flag is worth: it says that the FIN is in the queue exactly when no FIN write was given up or refused
   * while it was the first to reach the flag. After such a write the half counts as closed and no FIN is ever sent.
   */
  lemma {:induction false} FinFlagExactly(id: u32, h: Half, calls: seq<Call>)
    requires h.replied && !h.finSent && Disciplined(h)
    ensures var r := MakeAll(h, id, calls);
      (r.finSent && !(r.sent != [] && IsFin(r.sent[|r.sent| - 1])))
      <==> exists k :: 0 <= k < |calls| && LostFin(calls[k]) && !MakeAll(h, id, calls[..k]).finSent
    decreases |calls|
  {
    if calls != [] {
      var n := |calls| - 1;
      FinFlagExactly(id, h, calls[..n]);
      RunKeeps(id, h, calls[..n]);
      forall k | 0 <= k < n ensures calls[..n][..k] == calls[..k] {}
      MakeKeepsDiscipline(MakeAll(h, id, calls[..n]), id, calls[n]);
    }
  }

  /** A FIN write given up while the queue is full: the half counts as closed and no later call ever sends the FIN. */
  lemma {:induction false} GivenUpFin(id: u32, data: Bytes, later: seq<Call>)
    ensures var h := MakeAll(Half(true, false, []), id, [Write(data, true, StaysFull)] + later);
      h.finSent && h.sent == []
    decreases |later|
  {
    var calls := [Write(data, true, StaysFull)] + later;
    if later == [] {
      assert calls == [Write(data, true, StaysFull)] && calls[..0] == [];
      assert MakeAll(Half(true, false, []), id, calls[..0]) == Half(true, false, []);
    } else {
      var n := |later| - 1;
      GivenUpFin(id, data, later[..n]);
      assert calls[..|calls| - 1] == [Write(data, true, StaysFull)] + later[..n];
    }
  }

  lemma {:induction false} RunKeeps(id: u32, h: Half, calls: seq<Call>)
    requires h.replied && Disciplined(h)
    ensures MakeAll(h, id, calls).replied && Disciplined(MakeAll(h, id, calls))
    decreases |calls|
  {
    if calls != [] {
      RunKeeps(id, h, calls[..|calls| - 1]);
      MakeKeepsDiscipline(MakeAll(h, id, calls[..|calls| - 1]), id, calls[|calls| - 1]);
    }
  }

  // ---------------------------------------------------------------------------
  // What is sent, and what the callers are told
  // ---------------------------------------------------------------------------

  /** What a call that was answered so has sent; `flagged` says that the FIN flag was set before. */
  function Asked(id: u32, c: Call, flagged: bool, answer: Called): seq<Frame> {
    match c
    case Write(data, fin, _) => if answer == Done(Ok(())) then [Data(id, if fin then 1 else 0, data)] else []
    case Shutdown(_) => if answer == Done(Ok(())) && !flagged then [Data(id, 1, [])] else []
    case PeerReply => []
  }

  function AskedInAll(h: Half, id: u32, calls: seq<Call>): seq<Frame> {
    if calls == [] then []
    else
      var before, c := MakeAll(h, id, calls[..|calls| - 1]), calls[|calls| - 1];
      AskedInAll(h, id, calls[..|calls| - 1]) + Asked(id, c, before.finSent, Make(before, id, c).1)
  }

  /**
   * Over any calls, the frames sent are, in order: for each write answered Ok, one with the stream's id, that write's
   * payload, and FIN exactly if asked; and one empty FIN frame for each shutdown answered Ok with the flag unset.
   */
  lemma {:induction false} SentIsWhatWasAsked(h: Half, id: u32, calls: seq<Call>)
    ensures MakeAll(h, id, calls).sent == h.sent + AskedInAll(h, id, calls)
    decreases |calls|
  {
    if calls == [] {
      assert h.sent + [] == h.sent;
    } else {
      var before, c := MakeAll(h, id, calls[..|calls| - 1]), calls[|calls| - 1];
      SentIsWhatWasAsked(h, id, calls[..|calls| - 1]);
      OneIsWhatWasAsked(before, id, c);
      ConcatAssoc(h.sent, AskedInAll(h, id, calls[..|calls| - 1]), Asked(id, c, before.finSent, Make(before, id, c).1));
    }
  }

  lemma OneIsWhatWasAsked(h: Half, id: u32, c: Call)
    ensures Make(h, id, c).0.sent == h.sent + Asked(id, c, h.finSent, Make(h, id, c).1)
  {
    assert h.sent + [] == h.sent;
  }

  /** How a write is answered, each answer exactly when; and one refused because of the flag changes nothing. */
  lemma WriteAnswers(h: Half, id: u32, data: Bytes, fin: bool, fate: Fate)
    ensures var (after, answer) := WriteData(h, id, data, fin, fate);
      && (answer == Done(Ok(())) <==> h.replied && !h.finSent && fate.HasRoom?)
      && (answer == Done(Err(StreamClosed)) <==> h.replied && h.finSent)
      && (answer == Done(Err(ConnectionClosed)) <==> h.replied && !h.finSent && fate.QueueClosed?)
      && (answer == Blocked <==> !h.replied || (!h.finSent && fate.StaysFull?))
      && (h.finSent || !h.replied ==> after == h)
      && (h.replied ==> (after.finSent <==> h.finSent || fin))
  {
  }

  /** How a reply is answered; it opens the gate exactly if it was sent, and sets the flag only if it carries FIN. */
  lemma ReplyAnswers(h: Half, id: u32, headers: HeaderMap, fin: bool, fate: Fate)
    ensures var (after, answer) := SendReply(h, id, headers, fin, fate);
      && (answer == Done(Ok(())) <==> fate.HasRoom?)
      && (answer == Done(Err(ConnectionClosed)) <==> fate.QueueClosed?)
      && (answer == Blocked <==> fate.StaysFull?)
      && (!fate.HasRoom? ==> after == h)
      && (fate.HasRoom? ==>
            after == Half(true, h.finSent || fin, h.sent + [SynReply(id, headers, if fin then 1 else 0)]))
  {
  }

  /** How a shutdown is answered; after the flag it is a no-op, and it sets the flag only together with its frame. */
  lemma ShutdownAnswers(h: Half, id: u32, fate: Fate)
    ensures var (after, answer) := PollShutdown(h, id, fate);
      && (answer == Done(Ok(())) <==> h.finSent || fate.HasRoom?)
      && (answer == Blocked <==> !h.finSent && fate.StaysFull?)
      && (answer == Done(Err(Io)) <==> !h.finSent && fate.QueueClosed?)
      && (after != h <==> !h.finSent && fate.HasRoom?)
      && (after.finSent <==> h.finSent || fate.HasRoom?)
  {
  }
}
