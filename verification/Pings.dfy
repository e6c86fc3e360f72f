/** Server pings: their ids, the waiters in the map, and which echo resolves which waiter. */
module Pings {
  import opened Octets
  import opened Frame
  import opened Connection
  import opened Frames
  import opened Registry

  /** The id of the p-th ping: even, starting at 2, modulo 2^32. */
  function PingId(p: nat): u32 {
    (2 + 2 * p) % 0x1_0000_0000
  }

  const DISTINCT: nat := 0x8000_0000

  lemma PingIdsDistinct(p: nat, q: nat)
    requires p < q < p + DISTINCT
    ensures PingId(p) != PingId(q)
  {
    ShortOfARound(2 + 2 * p, 2 * (q - p));
    assert 2 + 2 * p + 2 * (q - p) == 2 + 2 * q;
  }

  lemma ShortOfARound(a: nat, d: nat)
    requires 0 < d < 0x1_0000_0000
    ensures (a + d) % 0x1_0000_0000 != a % 0x1_0000_0000
  {
    var r := a % 0x1_0000_0000;
    assert (a + d) % 0x1_0000_0000 == if r + d < 0x1_0000_0000 then r + d else r + d - 0x1_0000_0000;
  }

  lemma PingIdEven(p: nat)
    ensures PingId(p) % 2 == 0
    ensures PingId(p + 1) == (PingId(p) + 2) % 0x1_0000_0000
  {
  }

  ghost predicate IdsInv(s: State) {
    && s.nextPing == PingId(|s.pingers|)
    && forall p :: 0 <= p < |s.pingers| ==> s.pingers[p].id == PingId(p)
  }

  /** A map entry is the unresolved waiter of a ping with that id. */
  predicate EntryOk(pingers: seq<Pinger>, id: u32, p: nat) {
    p < |pingers| && pingers[p].id == id && pingers[p].resolved == 0 && !pingers[p].at.Registering?
  }

  ghost predicate MapInv(s: State) {
    forall id :: id in s.pingMap ==> EntryOk(s.pingers, id, s.pingMap[id])
  }

  predicate PingerOk(g: Pinger) {
    g.resolved <= 1 && (g.at.Registering? ==> g.resolved == 0)
  }

  ghost predicate OnceInv(s: State) {
    forall p :: 0 <= p < |s.pingers| ==> PingerOk(s.pingers[p])
  }

  predicate IsWaiting(s: State, p: nat) {
    p < |s.pingers| && !s.pingers[p].at.Registering? && s.pingers[p].resolved == 0
  }

  /** Another ping with the same id has entered its waiter. */
  predicate HasRival(pingers: seq<Pinger>, p: nat) {
    p < |pingers| && exists q :: 0 <= q < |pingers| && IsRival(pingers, p, q)
  }

  predicate IsRival(pingers: seq<Pinger>, p: nat, q: nat) {
    p < |pingers| && q < |pingers| && q != p && pingers[q].id == pingers[p].id && !pingers[q].at.Registering?
  }

  ghost predicate FoundInv(s: State) {
    forall p :: IsWaiting(s, p) ==> InMap(s, p) || HasRival(s.pingers, p)
  }

  predicate HasSent(g: Pinger) {
    g.at.Awaiting? || g.at.Left?
  }

  ghost predicate SentBy(pingers: seq<Pinger>, id: u32) {
    exists p :: 0 <= p < |pingers| && pingers[p].id == id && HasSent(pingers[p])
  }

  ghost predicate SentInv(s: State) {
    forall i :: 0 <= i < |s.out.enqueued| && s.out.enqueued[i].Ping? && s.out.enqueued[i].id % 2 == 0 ==>
      SentBy(s.pingers, s.out.enqueued[i].id)
  }

  ghost predicate PingInv(s: State) {
    BaseInv(s) && IdsInv(s) && MapInv(s) && OnceInv(s) && FoundInv(s) && SentInv(s)
  }

  // ---------------------------------------------------------------------------
  // Preservation, by the four kinds of step that touch pings
  // ---------------------------------------------------------------------------

  /** What the other invariants need to know of a step's effect on the pingers. */
  ghost predicate Advances(before: seq<Pinger>, after: seq<Pinger>) {
    |before| <= |after| &&
    forall p :: 0 <= p < |before| ==> after[p].id == before[p].id && (HasSent(before[p]) ==> HasSent(after[p]))
  }

  lemma ResolveEffects(s: State, id: u32)
    requires PingInv(s)
    ensures var t := Resolve(s, id);
      if id in s.pingMap then
        var p := s.pingMap[id];
        p < |s.pingers| && t.pingMap == s.pingMap - {id}
        && t.pingers == s.pingers[p := s.pingers[p].(resolved := s.pingers[p].resolved + 1)]
      else t.pingMap == s.pingMap && t.pingers == s.pingers
  {
    assert id in s.pingMap ==> EntryOk(s.pingers, id, s.pingMap[id]);
  }

  lemma MoveEffects(s: State, p: nat)
    requires PingerCanMove(s, p)
    ensures var t := MovePinger(s, p); var g := s.pingers[p];
      && (g.at.Registering? ==> t.pingMap == s.pingMap[g.id := p] && t.pingers == s.pingers[p := g.(at := SendingPing)])
      && (!g.at.Registering? ==> t.pingMap == s.pingMap)
      && (g.at.SendingPing? ==> t.pingers == s.pingers[p := g.(at := if s.out.alive then Awaiting else Left)])
      && (g.at.Awaiting? ==> t.pingers == s.pingers[p := g.(at := Left)])
  {
  }

  lemma CallEffects(s: State, a: Action)
    requires Can(s, a) && a.CallPing?
    ensures var t := Step(s, a);
      && t.nextPing == (s.nextPing + 2) % 0x1_0000_0000 && t.pingMap == s.pingMap
      && t.pingers == s.pingers + [Pinger(s.nextPing, Registering, 0)]
  {
  }

  lemma TimeoutEffects(s: State, a: Action)
    requires Can(s, a) && a.PingerTimesOut?
    ensures a.p < |s.pingers| && s.pingers[a.p].at.Awaiting?
    ensures Step(s, a).pingers == s.pingers[a.p := s.pingers[a.p].(at := Left)]
  {
  }

  lemma PingsKept(s: State, a: Action)
    requires PingInv(s) && Can(s, a)
    ensures var t := Step(s, a); IdsInv(t) && MapInv(t) && OnceInv(t) && FoundInv(t) && Advances(s.pingers, t.pingers)
  {
    hide Step, Can, MoveReader, MovePinger, SentInv, BaseInv, PingId;
    StepIs(s, a);
    PingsFrame(s, a);
    if a.CallPing? {
      CallEffects(s, a);
      CallKept(s, Step(s, a));
    } else if a.PingerMoves? {
      MoveEffects(s, a.p);
      MoveKept(s, a.p, Step(s, a));
    } else if a.PingerTimesOut? {
      TimeoutEffects(s, a);
      LeaveKept(s, a.p, Step(s, a));
    } else if a.ReaderMoves? {
      ReaderFrame(s);
      ReaderKeeps(s);
      if s.reader.Resolving? {
        ResolveEffects(s, s.reader.id);
        ResolveKept(s, s.reader.id, Step(s, a));
      } else {
        SamePings(s, Step(s, a));
      }
    } else {
      SamePings(s, Step(s, a));
    }
  }

  lemma RivalStays(before: seq<Pinger>, after: seq<Pinger>, p: nat)
    requires HasRival(before, p) && |before| <= |after|
    requires forall q :: 0 <= q < |before| ==>
      after[q].id == before[q].id && (!before[q].at.Registering? ==> !after[q].at.Registering?)
    ensures HasRival(after, p)
  {
    var q :| 0 <= q < |before| && IsRival(before, p, q);
    assert IsRival(after, p, q);
  }

  lemma SamePings(s: State, t: State)
    requires PingInv(s) && t.pingers == s.pingers && t.pingMap == s.pingMap && t.nextPing == s.nextPing
    ensures IdsInv(t) && MapInv(t) && OnceInv(t) && FoundInv(t) && Advances(s.pingers, t.pingers)
  {
    hide BaseInv, PingId, SentInv;
    forall p: nat | IsWaiting(t, p) ensures InMap(t, p) || HasRival(t.pingers, p) { assert IsWaiting(s, p); }
  }

  lemma CallKept(s: State, t: State)
    requires PingInv(s) && t.nextPing == (s.nextPing + 2) % 0x1_0000_0000 && t.pingMap == s.pingMap
    requires t.pingers == s.pingers + [Pinger(s.nextPing, Registering, 0)]
    ensures IdsInv(t) && MapInv(t) && OnceInv(t) && FoundInv(t) && Advances(s.pingers, t.pingers)
  {
    hide BaseInv, PingId, SentInv;
    PingIdEven(|s.pingers|);
    forall id | id in t.pingMap ensures EntryOk(t.pingers, id, t.pingMap[id])
    { assert EntryOk(s.pingers, id, s.pingMap[id]); }
    forall p: nat | IsWaiting(t, p) ensures InMap(t, p) || HasRival(t.pingers, p) {
      assert p < |s.pingers|;
      assert IsWaiting(s, p);
      if HasRival(s.pingers, p) { RivalStays(s.pingers, t.pingers, p); }
    }
  }

  lemma MoveKept(s: State, p: nat, t: State)
    requires PingInv(s) && p < |s.pingers| && t.nextPing == s.nextPing
    requires var g := s.pingers[p];
      if g.at.Registering? then
        t.pingMap == s.pingMap[g.id := p] && t.pingers == s.pingers[p := g.(at := SendingPing)]
      else
        && t.pingMap == s.pingMap
        && exists at :: (at == Awaiting || at == Left) && t.pingers == s.pingers[p := g.(at := at)]
    ensures IdsInv(t) && MapInv(t) && OnceInv(t) && FoundInv(t) && Advances(s.pingers, t.pingers)
  {
    hide BaseInv, PingId, SentInv;
    assert PingerOk(s.pingers[p]);
    forall id | id in t.pingMap ensures EntryOk(t.pingers, id, t.pingMap[id]) {
      if id in s.pingMap { assert EntryOk(s.pingers, id, s.pingMap[id]); }
    }
    forall q: nat | IsWaiting(t, q) ensures InMap(t, q) || HasRival(t.pingers, q) {
      if q != p {
        assert IsWaiting(s, q);
        if HasRival(s.pingers, q) {
          RivalStays(s.pingers, t.pingers, q);
        } else if s.pingers[q].id == s.pingers[p].id {
          assert IsRival(t.pingers, q, p);
        }
      } else if !s.pingers[p].at.Registering? {
        assert IsWaiting(s, q);
        if HasRival(s.pingers, q) { RivalStays(s.pingers, t.pingers, q); }
      }
    }
  }

  lemma LeaveKept(s: State, p: nat, t: State)
    requires PingInv(s) && p < |s.pingers| && s.pingers[p].at.Awaiting? && t.nextPing == s.nextPing
    requires t.pingMap == s.pingMap
    requires t.pingers == s.pingers[p := s.pingers[p].(at := Left)]
    ensures IdsInv(t) && MapInv(t) && OnceInv(t) && FoundInv(t) && Advances(s.pingers, t.pingers)
  {
    hide BaseInv, PingId, SentInv;
    MoveKept(s, p, t);
  }

  lemma ResolveKept(s: State, id: u32, t: State)
    requires PingInv(s) && t.nextPing == s.nextPing
    requires if id in s.pingMap then
        var p := s.pingMap[id];
        p < |s.pingers| && t.pingMap == s.pingMap - {id}
        && t.pingers == s.pingers[p := s.pingers[p].(resolved := s.pingers[p].resolved + 1)]
      else t.pingMap == s.pingMap && t.pingers == s.pingers
    ensures IdsInv(t) && MapInv(t) && OnceInv(t) && FoundInv(t) && Advances(s.pingers, t.pingers)
  {
    hide BaseInv, PingId, SentInv;
    if id in s.pingMap {
      assert EntryOk(s.pingers, id, s.pingMap[id]);
      forall k | k in t.pingMap ensures EntryOk(t.pingers, k, t.pingMap[k])
      { assert EntryOk(s.pingers, k, s.pingMap[k]); }
      forall q: nat | IsWaiting(t, q) ensures InMap(t, q) || HasRival(t.pingers, q) {
        assert IsWaiting(s, q);
        if HasRival(s.pingers, q) { RivalStays(s.pingers, t.pingers, q); }
      }
    } else {
      SamePings(s, t);
    }
  }

  lemma SentKept(s: State, a: Action)
    requires PingInv(s) && Can(s, a) && Advances(s.pingers, Step(s, a).pingers)
    ensures SentInv(Step(s, a))
  {
    hide Step, Can, IdsInv, MapInv, OnceInv, FoundInv, Emitted, SentBy;
    var t := Step(s, a);
    EnqueuedFrame(s, a);
    EmittedPings(s, a);
    forall i | 0 <= i < |t.out.enqueued| && t.out.enqueued[i].Ping? && t.out.enqueued[i].id % 2 == 0
      ensures SentBy(t.pingers, t.out.enqueued[i].id)
    {
      if i < |s.out.enqueued| {
        StillSent(s.pingers, t.pingers, s.out.enqueued[i].id);
      }
    }
  }

  lemma StillSent(before: seq<Pinger>, after: seq<Pinger>, id: u32)
    requires Advances(before, after) && SentBy(before, id)
    ensures SentBy(after, id)
  {
    var p :| 0 <= p < |before| && before[p].id == id && HasSent(before[p]);
    assert after[p].id == id && HasSent(after[p]);
  }

  /** An even ping enters the queue only when its pinger, already in the map, moves on to await the echo. */
  lemma EmittedPings(s: State, a: Action)
    requires BaseInv(s) && Can(s, a)
    ensures |Emitted(s, a)| <= 1
    ensures Emitted(s, a) != [] && Emitted(s, a)[0].Ping? && Emitted(s, a)[0].id % 2 == 0 ==>
      SentBy(Step(s, a).pingers, Emitted(s, a)[0].id)
  {
    hide Step, WorkersInv, QueuesInv, TableInv, Accepted, LastInv;
    if a.PingerMoves? && s.pingers[a.p].at.SendingPing? && s.out.alive {
      StepIs(s, a);
      hide Can, MovePinger;
      MoveEffects(s, a.p);
      assert HasSent(Step(s, a).pingers[a.p]);
    }
  }

  lemma PingInvKept(s: State, a: Action)
    requires PingInv(s) && Can(s, a)
    ensures PingInv(Step(s, a))
  {
    hide Step, Can, BaseInv, IdsInv, MapInv, OnceInv, FoundInv, SentInv;
    BaseKept(s, a);
    PingsKept(s, a);
    SentKept(s, a);
  }

  lemma {:induction false} RunPings(acts: seq<Action>)
    requires Run(acts).Some?
    ensures PingInv(Run(acts).value)
    decreases |acts|
  {
    if acts != [] {
      hide PingInv, Step, Can;
      RunPings(acts[..|acts| - 1]);
      PingInvKept(Run(acts[..|acts| - 1]).value, acts[|acts| - 1]);
    } else {
      RunBase(acts);
    }
  }

  lemma ReachablePings(s: State)
    requires Reachable(s)
    ensures PingInv(s)
  {
    hide PingInv;
    var acts :| Run(acts) == Some(s);
    RunPings(acts);
  }

  // ---------------------------------------------------------------------------
  // Results
  // ---------------------------------------------------------------------------

  /** Server ping ids are even, also across the wrap-around, and any 2^31 consecutive ones are distinct. */
  lemma PingIds(s: State, p: nat, q: nat)
    requires Reachable(s) && p < q < |s.pingers|
    ensures s.pingers[p].id % 2 == 0 && s.nextPing % 2 == 0
    ensures s.pingers[p].id == (2 + 2 * p) % 0x1_0000_0000
    ensures q < p + DISTINCT ==> s.pingers[p].id != s.pingers[q].id
    ensures q == p + DISTINCT ==> s.pingers[p].id == s.pingers[q].id
  {
    hide BaseInv, MapInv, OnceInv, FoundInv, SentInv, PingId;
    ReachablePings(s);
    PingIdEven(p);
    PingIdEven(|s.pingers|);
    if q < p + DISTINCT { PingIdsDistinct(p, q); }
    PingIdRepeats(p);
    PingIdIs(p);
  }

  lemma PingIdIs(p: nat)
    ensures PingId(p) == (2 + 2 * p) % 0x1_0000_0000
  {
  }

  lemma PingIdRepeats(p: nat)
    ensures PingId(p) == PingId(p + DISTINCT)
  {
  }

  /** A waiter is resolved at most once over a whole run, and only by an echo of its own id. */
  lemma ResolvedOnceByItsOwn(s: State, a: Action, p: nat)
    requires Reachable(s) && Can(s, a) && p < |s.pingers|
    ensures p < |Step(s, a).pingers| && s.pingers[p].resolved <= 1
    ensures Step(s, a).pingers[p].resolved != s.pingers[p].resolved ==>
      && a.ReaderMoves? && s.reader == Resolving(s.pingers[p].id)
      && s.pingers[p].resolved == 0 && Step(s, a).pingers[p].resolved == 1
  {
    hide Step, Can, FoundInv, SentInv, BaseInv, IdsInv;
    ReachablePings(s);
    PingersEffects(s, a);
    assert PingerOk(s.pingers[p]);
    assert forall id :: id in s.pingMap ==> EntryOk(s.pingers, id, s.pingMap[id]);
  }

  /**
   * The first echo always finds its waiter, on a connection of any age: a waiter that is entered and unresolved is in
   * the map, and an echo of its id resolves it and no other, unless another ping with the same id, one of those 2^31
   * calls apart, has entered its waiter too.
   */
  lemma FirstEchoFindsItsWaiter(s: State, p: nat)
    requires Reachable(s) && IsWaiting(s, p) && !HasRival(s.pingers, p)
    ensures InMap(s, p)
    ensures s.reader == Resolving(s.pingers[p].id) ==>
      Can(s, ReaderMoves) && Step(s, ReaderMoves).pingers == s.pingers[p := s.pingers[p].(resolved := 1)]
  {
    hide BaseInv, IdsInv, OnceInv, SentInv;
    ReachablePings(s);
    if s.reader == Resolving(s.pingers[p].id) { ResolveEffects(s, s.pingers[p].id); }
  }

  /** Rivals are whole rounds of 2^31 calls apart, so the first 2^31 pings have none. */
  lemma RivalsAreRoundsApart(s: State, p: nat, q: nat)
    requires Reachable(s) && IsRival(s.pingers, p, q)
    ensures q >= p + DISTINCT || p >= q + DISTINCT
  {
    hide BaseInv, MapInv, OnceInv, FoundInv, SentInv, PingId;
    ReachablePings(s);
    if p < q < p + DISTINCT { PingIdsDistinct(p, q); }
    if q < p < q + DISTINCT { PingIdsDistinct(q, p); }
  }

  /** A step takes a waiter out of the map exactly by resolving it or by entering another one with the same id. */
  lemma WaiterLeavesExactly(s: State, a: Action, p: nat)
    requires Reachable(s) && Can(s, a) && InMap(s, p)
    ensures p < |Step(s, a).pingers|
    ensures !InMap(Step(s, a), p) <==>
      || (a.ReaderMoves? && s.reader == Resolving(s.pingers[p].id))
      || (a.PingerMoves? && a.p != p && s.pingers[a.p].at.Registering? && s.pingers[a.p].id == s.pingers[p].id)
    ensures a.ReaderMoves? && s.reader == Resolving(s.pingers[p].id) ==> Step(s, a).pingers[p].resolved == 1
  {
    hide Step, Can, MoveReader, MovePinger, FoundInv, SentInv, BaseInv, IdsInv;
    ReachablePings(s);
    StepIs(s, a);
    PingsFrame(s, a);
    PingersEffects(s, a);
    assert EntryOk(s.pingers, s.pingers[p].id, p);
  }

  /** Every kind of step, by what it does to pings. */
  lemma PingersEffects(s: State, a: Action)
    requires PingInv(s) && Can(s, a)
    ensures var t := Step(s, a);
      if a.ReaderMoves? && s.reader.Resolving? && s.reader.id in s.pingMap then
        var q := s.pingMap[s.reader.id];
        q < |s.pingers| && t.pingMap == s.pingMap - {s.reader.id}
        && t.pingers == s.pingers[q := s.pingers[q].(resolved := s.pingers[q].resolved + 1)]
      else if a.PingerMoves? then
        && a.p < |s.pingers|
        && t.pingMap == (if s.pingers[a.p].at.Registering? then s.pingMap[s.pingers[a.p].id := a.p] else s.pingMap)
        && |t.pingers| == |s.pingers| && !t.pingers[a.p].at.Registering?
        && t.pingers == s.pingers[a.p := s.pingers[a.p].(at := t.pingers[a.p].at)]
      else
        && t.pingMap == s.pingMap && |t.pingers| >= |s.pingers|
        && forall q :: 0 <= q < |s.pingers| ==> SameWaiter(t.pingers[q], s.pingers[q])
  {
    hide Step, Can, MoveReader, MovePinger, FoundInv, SentInv, BaseInv, IdsInv;
    StepIs(s, a);
    PingsFrame(s, a);
    if a.CallPing? {
      CallEffects(s, a);
    } else if a.PingerMoves? {
      MoveEffects(s, a.p);
    } else if a.PingerTimesOut? {
      TimeoutEffects(s, a);
    } else if a.ReaderMoves? {
      ReaderFrame(s);
      ReaderKeeps(s);
      if s.reader.Resolving? { ResolveEffects(s, s.reader.id); }
    }
  }

  predicate SameWaiter(after: Pinger, before: Pinger) {
    after.id == before.id && after.resolved == before.resolved && (!before.at.Registering? ==> !after.at.Registering?)
  }

  /**
   * The wrap-around: once a rival has taken its place, a waiter is never resolved, whatever echoes come; and its call,
   * if it still waits, can return at once, to report a closed connection.
   */
  lemma OverwrittenIsLost(s: State, a: Action, p: nat)
    requires Reachable(s) && Can(s, a) && IsWaiting(s, p) && !InMap(s, p)
    ensures IsWaiting(Step(s, a), p) && !InMap(Step(s, a), p)
    ensures s.pingers[p].at.Awaiting? ==> Can(s, PingerMoves(p))
  {
    hide Step, MoveReader, MovePinger, FoundInv, SentInv, BaseInv, IdsInv;
    ReachablePings(s);
    StepIs(s, a);
    PingersEffects(s, a);
    assert forall id :: id in s.pingMap ==> EntryOk(s.pingers, id, s.pingMap[id]);
  }

  /** The call has sent its ping; its waiter is in the map, or was until it was resolved or overwritten. */
  predicate HasEntered(s: State, p: nat) {
    p < |s.pingers| && HasSent(s.pingers[p]) &&
    (InMap(s, p) || s.pingers[p].resolved == 1 || HasRival(s.pingers, p))
  }

  /** A ping frame is in the write queue only if its caller has entered its waiter in the map before. */
  lemma SentMeansRegistered(s: State, i: nat)
    requires Reachable(s) && i < |s.out.enqueued| && s.out.enqueued[i].Ping? && s.out.enqueued[i].id % 2 == 0
    ensures exists p :: 0 <= p < |s.pingers| && s.pingers[p].id == s.out.enqueued[i].id && HasEntered(s, p)
  {
    hide BaseInv, IdsInv, MapInv;
    ReachablePings(s);
    var p :| 0 <= p < |s.pingers| && s.pingers[p].id == s.out.enqueued[i].id && HasSent(s.pingers[p]);
    assert PingerOk(s.pingers[p]);
    assert s.pingers[p].resolved == 0 ==> IsWaiting(s, p);
    assert HasEntered(s, p);
  }

  /** Echoing a client's ping leaves the map and every waiter alone. */
  lemma OddPingsLeaveTheMap(s: State)
    requires Reachable(s) && s.reader.Replying? && Can(s, ReaderMoves)
    ensures Step(s, ReaderMoves).pingMap == s.pingMap && Step(s, ReaderMoves).pingers == s.pingers
    ensures forall id :: id in s.pingMap ==> id % 2 == 0
  {
    hide MoveReader, BaseInv;
    ReachablePings(s);
    StepIs(s, ReaderMoves);
    ReaderKeeps(s);
    forall id | id in s.pingMap ensures id % 2 == 0 {
      assert EntryOk(s.pingers, id, s.pingMap[id]);
      PingIdEven(s.pingMap[id]);
    }
  }

  /**
   * An echo is heard: received between two frames, it resolves its waiter, if that is in the map, in the very next
   * step of the reader, and no other.
   */
  lemma EchoResolves(s: State, p: nat)
    requires Reachable(s) && s.reader.AtRead? && InMap(s, p)
    ensures Can(s, Arrives(Ping(s.pingers[p].id)))
    ensures var t := Step(s, Arrives(Ping(s.pingers[p].id)));
      && Can(t, ReaderMoves) && s.pingers[p].resolved == 0
      && Step(t, ReaderMoves).pingers == s.pingers[p := s.pingers[p].(resolved := 1)]
      && Step(t, ReaderMoves).pingMap == s.pingMap - {s.pingers[p].id} && Step(t, ReaderMoves).reader.AtRead?
  {
    hide BaseInv, OnceInv, FoundInv, SentInv, PingId, Reachable, Step, Can, IdsInv;
    ReachablePings(s);
    assert EntryOk(s.pingers, s.pingers[p].id, p);
    EvenId(s, p);
    EvenPingArrives(s, s.pingers[p].id);
  }

  lemma EvenId(s: State, p: nat)
    requires IdsInv(s) && p < |s.pingers|
    ensures s.pingers[p].id % 2 == 0
  {
    hide PingId;
    PingIdEven(p);
  }

  lemma EvenPingArrives(s: State, id: u32)
    requires s.reader.AtRead? && id % 2 == 0
    ensures Can(s, Arrives(Ping(id)))
    ensures var t := Step(s, Arrives(Ping(id)));
      && t.pingers == s.pingers && t.pingMap == s.pingMap
      && Can(t, ReaderMoves)
      && Step(t, ReaderMoves).reader.AtRead?
      && (id in s.pingMap && s.pingMap[id] < |s.pingers| ==>
            var p := s.pingMap[id];
            && Step(t, ReaderMoves).pingMap == s.pingMap - {id}
            && Step(t, ReaderMoves).pingers == s.pingers[p := s.pingers[p].(resolved := s.pingers[p].resolved + 1)])
  {
    var t := Step(s, Arrives(Ping(id)));
    assert t.reader == Resolving(id) && t.pingers == s.pingers && t.pingMap == s.pingMap;
    assert Step(t, ReaderMoves) == Resolve(t, id);
  }

  /** An odd ping received between two frames is what the reader sends next. */
  lemma PingIsEchoed(s: State, id: u32)
    requires s.reader.AtRead? && id % 2 == 1 && CanSend(s.out) && s.out.alive
    ensures Can(s, Arrives(Ping(id)))
    ensures var t := Step(s, Arrives(Ping(id)));
      Can(t, ReaderMoves) && Step(t, ReaderMoves).out.enqueued == s.out.enqueued + [Ping(id)]
      && Step(t, ReaderMoves).reader.AtRead?
  {
  }
}
