/**
 * When several tasks write to one stream: exactly which overlaps of `send_reply` and `write_data` can put a frame
 * behind a FIN.
 */
module FinDiscipline {
  import opened Octets
  import Frame
  import opened ReplyGate

  predicate IsFin(f: Sent) {
    f.fin
  }

  predicate HasFin(log: seq<Sent>) {
    exists i :: 0 <= i < |log| && IsFin(log[i])
  }

  /** At most one FIN has been sent, and nothing after it. */
  predicate FinIsLast(log: seq<Sent>) {
    forall i :: 0 <= i < |log| && IsFin(log[i]) ==> i == |log| - 1
  }

  /** A caller that has passed the FIN test and not yet sent its frame. */
  predicate InWindow(c: Caller) {
    c.at.Flagging? || c.at.Writing?
  }

  predicate Inside(g: Gate, c: int) {
    0 <= c < |g.callers| && InWindow(g.callers[c])
  }

  /** No frame can still land behind a FIN: none has, and no FIN shares its way to the queue with another frame. */
  ghost predicate Safe(g: Gate) {
    && FinIsLast(g.log)
    && (HasFin(g.log) ==> forall c :: !Inside(g, c))
    && (forall c, d :: Inside(g, c) && Inside(g, d) && c != d ==> !g.callers[c].fin && !g.callers[d].fin)
  }

  /**
   * A step that starts an overlap involving a FIN: a write passes the FIN test behind a FIN that is already queued, or
   * together with another write when one of the two carries a FIN; or a reply is sent behind a queued FIN, or with a
   * FIN of its own while a write is under way.
   */
  ghost predicate Clashes(g: Gate, a: Act) {
    match a
    case CallerMoves(c, _) =>
      && c < |g.callers| && g.callers[c].at.Passed? && !g.finSent
      && (HasFin(g.log) || exists d :: Inside(g, d) && (g.callers[c].fin || g.callers[d].fin))
    case ReplierMoves(r, open) =>
      && r < |g.repliers| && g.repliers[r].at.Sending? && open
      && (HasFin(g.log) || (g.repliers[r].fin && exists d :: Inside(g, d)))
    case _ => false
  }

  // ---------------------------------------------------------------------------
  // One step
  // ---------------------------------------------------------------------------

  lemma SentLast(log: seq<Sent>, f: Sent)
    requires FinIsLast(log)
    ensures FinIsLast(log + [f]) <==> !HasFin(log)
    ensures HasFin(log + [f]) <==> HasFin(log) || IsFin(f)
  {
    var more := log + [f];
    forall i | 0 <= i < |log| ensures more[i] == log[i] {}
    if HasFin(log) {
      var i :| 0 <= i < |log| && IsFin(log[i]);
      assert IsFin(more[i]);
    }
    assert more[|log|] == f;
  }

  lemma SameWindow(g: Gate, h: Gate)
    requires g.log == h.log && |g.callers| <= |h.callers|
    requires forall c :: 0 <= c < |g.callers| ==>
      h.callers[c].fin == g.callers[c].fin && (InWindow(h.callers[c]) <==> InWindow(g.callers[c]))
    requires forall c :: |g.callers| <= c < |h.callers| ==> !InWindow(h.callers[c])
    ensures Safe(g) <==> Safe(h)
  {
    forall c: int ensures Inside(g, c) <==> Inside(h, c) {}
  }

  lemma ReplySent(g: Gate, r: nat)
    requires Safe(g) && r < |g.repliers| && g.repliers[r].at.Sending?
    ensures Safe(MoveReplier(g, r, true)) <==> !Clashes(g, ReplierMoves(r, true))
  {
    var h := MoveReplier(g, r, true);
    SentLast(g.log, Reply(g.repliers[r].headers, g.repliers[r].fin));
    assert forall c :: Inside(h, c) <==> Inside(g, c);
  }

  lemma TestPassed(g: Gate, c: nat, open: bool)
    requires Safe(g) && c < |g.callers| && g.callers[c].at.Passed? && !g.finSent
    ensures Safe(MoveCaller(g, c, open)) <==> !Clashes(g, CallerMoves(c, open))
  {
    var h := MoveCaller(g, c, open);
    assert h.callers[c] == Caller(g.callers[c].data, g.callers[c].fin, Flagging);
    forall d: int ensures Inside(h, d) <==> Inside(g, d) || d == c {}
    assert Inside(h, c);
    if Clashes(g, CallerMoves(c, open)) && !HasFin(g.log) {
      var d :| Inside(g, d) && (g.callers[c].fin || g.callers[d].fin);
      assert Inside(h, d) && h.callers[d] == g.callers[d];
    }
  }

  lemma FrameSent(g: Gate, c: nat, open: bool)
    requires Safe(g) && c < |g.callers| && g.callers[c].at.Writing?
    ensures Safe(MoveCaller(g, c, open))
  {
    var h := MoveCaller(g, c, open);
    assert Inside(g, c);
    forall d: int ensures Inside(h, d) <==> Inside(g, d) && d != c {}
    if open { SentLast(g.log, DataOf(c, g.callers[c].data, g.callers[c].fin)); }
  }

  /** A step leaves a safe state exactly when it starts a clash, which its task could have checked before. */
  lemma StepIsSafeExactly(g: Gate, a: Act)
    requires Safe(g) && Can(g, a)
    ensures Safe(Step(g, a)) <==> !Clashes(g, a)
  {
    hide Safe;
    var h := Step(g, a);
    match a
    case CallerMoves(c, open) =>
      if g.callers[c].at.Passed? && !g.finSent {
        TestPassed(g, c, open);
      } else if g.callers[c].at.Writing? {
        FrameSent(g, c, open);
      } else {
        SameWindow(g, h);
      }
    case ReplierMoves(r, open) =>
      if g.repliers[r].at.Sending? && open { ReplySent(g, r); } else { SameWindow(g, h); }
    case _ => SameWindow(g, h);
  }

  // ---------------------------------------------------------------------------
  // Runs
  // ---------------------------------------------------------------------------

  /** Some step of the run starts a clash. */
  ghost predicate RunClashes(acts: seq<Act>)
    requires Run(acts).Some?
    decreases |acts|
  {
    acts != [] &&
    var before := acts[..|acts| - 1];
    (RunClashes(before) || Clashes(Run(before).value, acts[|acts| - 1]))
  }

  /** Every state along the run is safe. */
  ghost predicate RunIsSafe(acts: seq<Act>)
    requires Run(acts).Some?
    decreases |acts|
  {
    Safe(Run(acts).value) && (acts != [] ==> RunIsSafe(acts[..|acts| - 1]))
  }

  /**
   * The discipline of several tasks, over every run: all its states are safe if and only if no step of it starts a
   * clash; and then at most one FIN has been sent and nothing after it.
   */
  lemma {:induction false} DisciplineExactly(acts: seq<Act>)
    requires Run(acts).Some?
    ensures RunIsSafe(acts) <==> !RunClashes(acts)
    ensures !RunClashes(acts) ==> FinIsLast(Run(acts).value.log)
    decreases |acts|
  {
    if acts != [] {
      hide Safe, Clashes, Step, Can;
      var before, a := acts[..|acts| - 1], acts[|acts| - 1];
      DisciplineExactly(before);
      if !RunClashes(before) { StepIsSafeExactly(Run(before).value, a); }
      SafeMeans(Run(acts).value);
    }
  }

  lemma SafeMeans(g: Gate)
    ensures Safe(g) ==> FinIsLast(g.log)
  {
  }

  // ---------------------------------------------------------------------------
  // What safety is worth
  // ---------------------------------------------------------------------------

  function RunFrom(g: Gate, acts: seq<Act>): Option<Gate>
    decreases |acts|
  {
    if acts == [] then Some(g) else if Can(g, acts[0]) then RunFrom(Step(g, acts[0]), acts[1..]) else None
  }

  /** Only writes that have passed the FIN test move on: nobody starts anything, nobody passes a test. */
  ghost predicate OnlyFinishes(g: Gate, acts: seq<Act>)
    decreases |acts|
  {
    acts != [] ==>
      && acts[0].CallerMoves? && Inside(g, acts[0].c)
      && Can(g, acts[0]) && OnlyFinishes(Step(g, acts[0]), acts[1..])
  }

  /** Finishing what is under way puts a frame behind a FIN. */
  ghost predicate Breaks(g: Gate, acts: seq<Act>) {
    OnlyFinishes(g, acts) && RunFrom(g, acts).Some? && !FinIsLast(RunFrom(g, acts).value.log)
  }

  lemma {:induction false} FinishingStaysSafe(g: Gate, acts: seq<Act>)
    requires Safe(g) && OnlyFinishes(g, acts)
    ensures RunFrom(g, acts).Some? && Safe(RunFrom(g, acts).value)
    decreases |acts|
  {
    if acts != [] {
      StepIsSafeExactly(g, acts[0]);
      FinishingStaysSafe(Step(g, acts[0]), acts[1..]);
    }
  }

  /** A write that has passed the test can finish. */
  lemma Finish(g: Gate, c: nat) returns (acts: seq<Act>, h: Gate)
    requires Inside(g, c)
    ensures OnlyFinishes(g, acts) && RunFrom(g, acts) == Some(h)
    ensures h.log == g.log + [DataOf(c, g.callers[c].data, g.callers[c].fin)] && |h.callers| == |g.callers|
    ensures forall d :: 0 <= d < |g.callers| && d != c ==> h.callers[d] == g.callers[d]
  {
    var move := CallerMoves(c, true);
    if g.callers[c].at.Writing? {
      acts := [move];
      h := Step(g, move);
      assert acts[1..] == [];
    } else {
      acts := [move, move];
      var mid := Step(g, move);
      h := Step(mid, move);
      assert acts[1..] == [move] && [move][1..] == [];
      assert RunFrom(mid, [move]) == Some(h) && OnlyFinishes(mid, [move]);
    }
  }

  lemma {:induction false} FinishBoth(g: Gate, first: seq<Act>, second: seq<Act>)
    requires OnlyFinishes(g, first) && RunFrom(g, first).Some? && OnlyFinishes(RunFrom(g, first).value, second)
    ensures OnlyFinishes(g, first + second)
    ensures RunFrom(g, first + second) == RunFrom(RunFrom(g, first).value, second)
    decreases |first|
  {
    if first == [] {
      assert first + second == second;
    } else {
      assert (first + second)[1..] == first[1..] + second;
      FinishBoth(Step(g, first[0]), first[1..], second);
    }
  }

  lemma BehindFin(log: seq<Sent>, f: Sent)
    requires HasFin(log)
    ensures !FinIsLast(log + [f])
  {
    var i :| 0 <= i < |log| && IsFin(log[i]);
    assert IsFin((log + [f])[i]);
  }

  /**
   * Safety is exactly what the discipline needs: a state is unsafe if and only if the writes already past the FIN
   * test, by finishing in some order and with nothing else happening, put a frame behind a FIN.
   */
  lemma SafeExactly(g: Gate)
    ensures !Safe(g) <==> exists acts :: Breaks(g, acts)
  {
    if Safe(g) {
      forall acts | Breaks(g, acts) ensures false { FinishingStaysSafe(g, acts); }
    } else if !FinIsLast(g.log) {
      assert Breaks(g, []);
    } else if HasFin(g.log) {
      var c :| Inside(g, c);
      var acts, h := Finish(g, c);
      BehindFin(g.log, DataOf(c, g.callers[c].data, g.callers[c].fin));
      assert Breaks(g, acts);
    } else {
      var c, d :| Inside(g, c) && Inside(g, d) && c != d && g.callers[c].fin;
      var first, mid := Finish(g, c);
      assert Inside(mid, d);
      var second, h := Finish(mid, d);
      FinishBoth(g, first, second);
      assert IsFin(mid.log[|g.log|]);
      BehindFin(mid.log, DataOf(d, mid.callers[d].data, mid.callers[d].fin));
      assert Breaks(g, first + second);
    }
  }

  /** So each clash is fatal: from a safe state, exactly the steps that clash can be followed by such an end. */
  lemma ClashIsFatal(g: Gate, a: Act)
    requires Safe(g) && Can(g, a)
    ensures Clashes(g, a) <==> exists acts :: Breaks(Step(g, a), acts)
  {
    hide Safe, Clashes, Step, Breaks;
    StepIsSafeExactly(g, a);
    SafeExactly(Step(g, a));
  }

  // ---------------------------------------------------------------------------
  // Where a queued FIN shows before its flag
  // ---------------------------------------------------------------------------

  /** A send_reply that has sent its FIN and not yet stored the flag. */
  predicate FinUnflagged(r: Replier) {
    !r.fromPeer && r.fin && (r.at.Storing? || r.at.Notifying? || r.at.StoringFin?)
  }

  ghost predicate FlagInv(g: Gate) {
    && (HasFin(g.log) ==> g.finSent || exists r :: 0 <= r < |g.repliers| && FinUnflagged(g.repliers[r]))
    && (forall r :: 0 <= r < |g.repliers| && FinUnflagged(g.repliers[r]) ==> HasFin(g.log))
    && (forall r :: 0 <= r < |g.repliers| && g.repliers[r].fromPeer ==> !g.repliers[r].at.Sending?)
    && (forall c :: 0 <= c < |g.callers| && g.callers[c].at.Writing? && g.callers[c].fin ==> g.finSent)
  }

  lemma HasFinAfter(log: seq<Sent>, f: Sent)
    ensures HasFin(log + [f]) <==> HasFin(log) || IsFin(f)
  {
    if HasFin(log) { BehindFin(log, f); }
    assert (log + [f])[|log|] == f;
  }

  lemma ReplierKeepsFlagInv(g: Gate, r: nat, open: bool)
    requires FlagInv(g) && Can(g, ReplierMoves(r, open))
    ensures FlagInv(MoveReplier(g, r, open))
  {
    hide HasFin;
    var h := MoveReplier(g, r, open);
    HasFinAfter(g.log, Reply(g.repliers[r].headers, g.repliers[r].fin));
    if HasFin(g.log) && !g.finSent {
      var q :| 0 <= q < |g.repliers| && FinUnflagged(g.repliers[q]);
      assert q != r ==> FinUnflagged(h.repliers[q]);
    }
    assert h.repliers[r].fin == g.repliers[r].fin && h.repliers[r].fromPeer == g.repliers[r].fromPeer;
    assert FinUnflagged(g.repliers[r]) ==> FinUnflagged(h.repliers[r]) || h.finSent;
    assert g.repliers[r].at.Sending? && open && g.repliers[r].fin ==> FinUnflagged(h.repliers[r]);
  }

  lemma StepKeepsFlagInv(g: Gate, a: Act)
    requires FlagInv(g) && Can(g, a)
    ensures FlagInv(Step(g, a))
  {
    var h := Step(g, a);
    match a
    case ReplierMoves(r, open) => ReplierKeepsFlagInv(g, r, open);
    case CallerMoves(c, open) => HasFinAfter(g.log, DataOf(c, g.callers[c].data, g.callers[c].fin));
    case CallWrite(_, _) =>
    case _ =>
      assert forall r :: 0 <= r < |g.repliers| ==> h.repliers[r] == g.repliers[r];
  }

  lemma {:induction false} RunFlagInv(acts: seq<Act>)
    requires Run(acts).Some?
    ensures FlagInv(Run(acts).value)
    decreases |acts|
  {
    if acts != [] {
      hide FlagInv, Step, Can;
      RunFlagInv(acts[..|acts| - 1]);
      StepKeepsFlagInv(Run(acts[..|acts| - 1]).value, acts[|acts| - 1]);
    }
  }

  /**
   * The flag lags behind the queue in one place only: a FIN is queued while the flag is unset exactly when a
   * send_reply has sent its FIN and is still on its way to the flag.
   */
  lemma FlagLagsExactly(g: Gate)
    requires Reachable(g)
    ensures HasFin(g.log) && !g.finSent <==>
      !g.finSent && exists r :: 0 <= r < |g.repliers| && FinUnflagged(g.repliers[r])
  {
    var acts :| Run(acts) == Some(g);
    RunFlagInv(acts);
  }

  // ---------------------------------------------------------------------------
  // Two clashes
  // ---------------------------------------------------------------------------

  /** The FIN flag is tested and stored in two steps: two concurrent writers can both send a FIN. */
  lemma TwoConcurrentFins(headers: Frame.HeaderMap, a: Bytes, b: Bytes)
    ensures exists g :: Reachable(g) && g.log == [Reply(headers, false), DataOf(0, a, true), DataOf(1, b, true)]
  {
    hide Reachable;
    var g := ReplySentOnly(headers, false);
    g := Move(g, CallWrite(a, true));
    g := Move(g, CallWrite(b, true));
    g := Move(g, CallerMoves(0, true));
    g := Move(g, CallerMoves(1, true));
    assert g.callers == [Caller(a, true, Passed), Caller(b, true, Passed)] && !g.finSent;
    g := Move(g, CallerMoves(0, true));
    g := Move(g, CallerMoves(1, true));
    assert g.callers == [Caller(a, true, Flagging), Caller(b, true, Flagging)];
    g := Move(g, CallerMoves(0, true));
    g := Move(g, CallerMoves(1, true));
    assert g.callers == [Caller(a, true, Writing), Caller(b, true, Writing)];
    g := Move(g, CallerMoves(0, true));
    g := Move(g, CallerMoves(1, true));
    assert g.log == [Reply(headers, false), DataOf(0, a, true), DataOf(1, b, true)];
  }

  /** The reply stores the FIN flag last: a plain write that was waiting for it can send data behind the reply's FIN. */
  lemma DataBehindReplyFin(headers: Frame.HeaderMap, data: Bytes)
    ensures exists g :: Reachable(g) && g.log == [Reply(headers, true), DataOf(0, data, false)]
  {
    hide Reachable;
    var g := ReplySentOnly(headers, true);
    g := Move(g, CallWrite(data, false));
    g := Move(g, CallerMoves(0, true));
    g := Move(g, CallerMoves(0, true));
    assert g.callers == [Caller(data, false, Flagging)];
    g := Move(g, CallerMoves(0, true));
    g := Move(g, CallerMoves(0, true));
    assert g.log == [Reply(headers, true), DataOf(0, data, false)];
  }

  /** A run to the point where the reply is out, the gate is open and no write has started. */
  lemma ReplySentOnly(headers: Frame.HeaderMap, fin: bool) returns (g: Gate)
    ensures Reachable(g)
    ensures g == Fresh.(replied := true, repliers := [Replier(false, headers, fin, Notifying)],
                          log := [Reply(headers, fin)])
  {
    assert Run([]) == Some(Fresh);
    g := Move(Fresh, CallReply(headers, fin));
    g := Move(g, ReplierMoves(0, true));
    g := Move(g, ReplierMoves(0, true));
  }
}
