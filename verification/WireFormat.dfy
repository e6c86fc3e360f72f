/**
 * Frames byte by byte, in numbers and positions of their own: what every kind of frame is on the wire, and what the
 * reader makes of any bytes, errors included.
 */
module WireFormat {
  import opened Octets
  import opened Frame
  import opened HeaderBlock
  import opened Framer
  import BlockFormat

  // ---------------------------------------------------------------------------
  // Numbers
  // ---------------------------------------------------------------------------

  /** Four bytes as a number, most significant first. */
  function WordAt(b: Bytes, i: nat): int
    requires i + 4 <= |b|
  {
    (b[i] as int) * 0x100_0000 + (b[i + 1] as int) * 0x1_0000 + (b[i + 2] as int) * 0x100 + b[i + 3]
  }

  function TripleAt(b: Bytes, i: nat): int
    requires i + 3 <= |b|
  {
    (b[i] as int) * 0x1_0000 + (b[i + 1] as int) * 0x100 + b[i + 2]
  }

  function PairAt(b: Bytes, i: nat): nat
    requires i + 2 <= |b|
  {
    (b[i] as int) * 0x100 + b[i + 1]
  }

  function TypeNumber(f: Frame): u8
    requires !f.Data?
  {
    match f
    case SynStream(_, _, _, _, _) => 1
    case SynReply(_, _, _) => 2
    case RstStream(_, _) => 3
    case Settings(_, _) => 4
    case Ping(_) => 6
    case GoAway(_, _) => 7
    case Headers(_, _, _) => 8
    case WindowUpdate(_, _) => 9
  }

  function FlagsByte(f: Frame): u8 {
    if f.RstStream? || f.Ping? || f.GoAway? || f.WindowUpdate? then 0 else f.flags
  }

  function RstNumber(s: RstStatus): int {
    match s
    case ProtocolError => 1
    case InvalidStream => 2
    case RefusedStream => 3
    case UnsupportedVersion => 4
    case Cancel => 5
    case InternalError => 6
    case FlowControlError => 7
    case StreamInUse => 8
    case StreamAlreadyClosed => 9
    case InvalidCredentials => 10
    case FrameTooLarge => 11
  }

  function GoAwayNumber(s: GoAwayStatus): int {
    match s
    case GoAwayOk => 0
    case GoAwayProtocolError => 1
    case GoAwayInternalError => 2
  }

  lemma WordsAgree(b: Bytes, i: nat)
    requires i + 4 <= |b|
    ensures FromBytes(b[i..]) == WordAt(b, i)
  {
  }

  lemma WordWritten(front: Bytes, n: u32, back: Bytes)
    ensures WordAt(front + ToBytes(n) + back, |front|) == n
  {
    var b := front + ToBytes(n) + back;
    assert b[|front|..] == ToBytes(n) + back;
    FromToBytes(n, back);
    WordsAgree(b, |front|);
  }

  // ---------------------------------------------------------------------------
  // What is written
  // ---------------------------------------------------------------------------

  /** The first eight bytes: of a control frame the control bit, version 3, the type, the flags and the length. */
  lemma HeaderWritten(env: Env, raws: seq<Bytes>, f: Frame)
    requires FrameOk(env, f)
    ensures var b := EncodeFrame(env, raws, f); var n := |b| - 8;
      && n >= 0
      && (!f.Data? ==> b[..5] == [0x80, 3, 0, TypeNumber(f), FlagsByte(f)])
      && (f.Data? ==> WordAt(b, 0) == f.streamId % 0x8000_0000 && b[4] == f.flags)
      && b[5..8] == [n / 0x1_0000 % 0x100, n / 0x100 % 0x100, n % 0x100]
  {
    hide Payload;
    var payload := Payload(env, raws, f);
    LowLength(|payload|);
    if f.Data? {
      DataHeaderWritten(f.streamId, f.flags, payload);
    }
  }

  lemma LowLength(n: nat)
    ensures Length24(AsU32(n)) == [n / 0x1_0000 % 0x100, n / 0x100 % 0x100, n % 0x100]
  {
    var m, q := AsU32(n), n / 0x1_0000_0000;
    LowDigit(n, q, m);
    MiddleDigit(n, q, m);
    HighDigit(n, q, m);
  }

  /** What is above 32 bits leaves the digits below alone. */
  lemma LowDigit(n: nat, q: nat, m: nat)
    requires n == q * 0x1_0000_0000 + m
    ensures n % 0x100 == m % 0x100
  {
  }

  lemma MiddleDigit(n: nat, q: nat, m: nat)
    requires n == q * 0x1_0000_0000 + m
    ensures n / 0x100 % 0x100 == m / 0x100 % 0x100
  {
    assert n / 0x100 == q * 0x100_0000 + m / 0x100;
  }

  lemma HighDigit(n: nat, q: nat, m: nat)
    requires n == q * 0x1_0000_0000 + m
    ensures n / 0x1_0000 % 0x100 == m / 0x1_0000 % 0x100
  {
    assert n / 0x1_0000 == q * 0x1_0000 + m / 0x1_0000;
  }

  lemma DataHeaderWritten(id: u32, flags: u8, payload: Bytes)
    ensures var b := DataHeader(id, flags, |payload|) + payload;
      WordAt(b, 0) == id % 0x8000_0000 && b[4] == flags && b[5..8] == Length24(AsU32(|payload|))
  {
    var b := DataHeader(id, flags, |payload|) + payload;
    assert b == [] + ToBytes(Low31(id)) + ([flags] + Length24(AsU32(|payload|)) + payload);
    WordWritten([], Low31(id), [flags] + Length24(AsU32(|payload|)) + payload);
  }

  /** The payload p of each kind, field by field. */
  ghost predicate FieldsWritten(env: Env, raws: seq<Bytes>, f: Frame, p: Bytes)
    requires FrameOk(env, f)
  {
    match f
    case SynStream(id, assoc, priority, headers, _) =>
      && |p| >= 10 && WordAt(p, 0) == id % 0x8000_0000 && WordAt(p, 4) == assoc % 0x8000_0000
      && p[8] == priority % 8 * 32 && p[9] == 0 && p[10..] == env.zlib.deflate(raws, EncodeBlock(headers))
    case SynReply(id, headers, _) =>
      |p| >= 4 && WordAt(p, 0) == id % 0x8000_0000 && p[4..] == env.zlib.deflate(raws, EncodeBlock(headers))
    case RstStream(id, status) =>
      |p| == 8 && WordAt(p, 0) == id % 0x8000_0000 && WordAt(p, 4) == RstNumber(status)
    case Settings(settings, _) =>
      && |p| == 4 + 8 * |settings| && WordAt(p, 0) == |settings| % 0x1_0000_0000
      && forall i :: 0 <= i < |settings| ==> SettingWritten(settings[i], p, 4 + 8 * i)
    case Ping(id) => |p| == 4 && WordAt(p, 0) == id
    case GoAway(id, status) =>
      |p| == 8 && WordAt(p, 0) == id % 0x8000_0000 && WordAt(p, 4) == GoAwayNumber(status)
    case Headers(id, headers, _) =>
      |p| >= 4 && WordAt(p, 0) == id % 0x8000_0000 && p[4..] == env.zlib.deflate(raws, EncodeBlock(headers))
    case WindowUpdate(id, delta) =>
      |p| == 8 && WordAt(p, 0) == id % 0x8000_0000 && WordAt(p, 4) == delta % 0x8000_0000
    case Data(_, _, data) => p == data
  }

  predicate SettingWritten(s: Setting, p: Bytes, i: nat)
    requires i + 8 <= |p|
  {
    p[i] == s.flags && TripleAt(p, i + 1) == s.id % 0x100_0000 && WordAt(p, i + 4) == s.value
  }

  lemma TwoWordsWritten(a: u32, b: u32, back: Bytes)
    ensures var p := ToBytes(a) + (ToBytes(b) + back);
      WordAt(p, 0) == a && WordAt(p, 4) == b && p[8..] == back && |p| == 8 + |back|
  {
    var p := ToBytes(a) + (ToBytes(b) + back);
    assert p == [] + ToBytes(a) + (ToBytes(b) + back) && p == ToBytes(a) + ToBytes(b) + back;
    WordWritten([], a, ToBytes(b) + back);
    WordWritten(ToBytes(a), b, back);
  }

  lemma OneWordWritten(a: u32, back: Bytes)
    ensures var p := ToBytes(a) + back; WordAt(p, 0) == a && p[4..] == back && |p| == 4 + |back|
  {
    assert ToBytes(a) + back == [] + ToBytes(a) + back;
    WordWritten([], a, back);
  }

  lemma {:induction false} SettingsWritten(front: Bytes, ss: seq<Setting>, i: nat)
    requires i < |ss|
    ensures SettingWritten(ss[i], front + SettingsBytes(ss), |front| + 8 * i)
    decreases |ss|
  {
    hide SettingWritten;
    var before, last := front + SettingsBytes(Init(ss)), SettingBytes(Last(ss));
    ConcatAssoc(front, SettingsBytes(Init(ss)), last);
    if i == |ss| - 1 {
      LastSettingWritten(before, Last(ss));
    } else {
      SettingsWritten(front, Init(ss), i);
      WrittenBefore(Init(ss)[i], before, |front| + 8 * i, last);
    }
  }

  lemma WrittenBefore(s: Setting, p: Bytes, i: nat, more: Bytes)
    requires i + 8 <= |p| && SettingWritten(s, p, i)
    ensures SettingWritten(s, p + more, i)
  {
  }

  lemma LastSettingWritten(front: Bytes, s: Setting)
    ensures SettingWritten(s, front + SettingBytes(s), |front|)
  {
    var p, word := front + SettingBytes(s), SettingWord(s);
    assert p == front + ToBytes(word) + ToBytes(s.value);
    assert p == front + ToBytes(word) + ToBytes(s.value) + [];
    WordWritten(front, word, ToBytes(s.value));
    WordWritten(front + ToBytes(word), s.value, []);
    HighByte(p[|front|], TripleAt(p, |front| + 1), s.flags, s.id % 0x100_0000);
  }

  lemma HighByte(a: int, b: int, c: int, d: int)
    requires 0 <= b < 0x100_0000 && 0 <= d < 0x100_0000 && a * 0x100_0000 + b == c * 0x100_0000 + d
    ensures a == c && b == d
  {
  }

  /** Every kind of frame, every field, at its place. */
  lemma FrameWritten(env: Env, raws: seq<Bytes>, f: Frame)
    requires FrameOk(env, f)
    ensures |EncodeFrame(env, raws, f)| >= 8 && FieldsWritten(env, raws, f, EncodeFrame(env, raws, f)[8..])
  {
    hide ToBytes, WordAt, SettingWritten;
    var p := Payload(env, raws, f);
    assert EncodeFrame(env, raws, f)[8..] == p;
    assert p + [] == p;
    match f
    case SynStream(id, assoc, priority, headers, _) =>
      var back := [priority % 8 * 32, 0] + Chunk(env, raws, headers);
      TwoWordsWritten(Low31(id), Low31(assoc), back);
      assert p[8] == back[0] && p[9] == back[1] && p[10..] == p[8..][2..];
    case SynReply(id, headers, _) => OneWordWritten(Low31(id), Chunk(env, raws, headers));
    case RstStream(id, status) =>
      assert ToBytes(RstCode(status)) + [] == ToBytes(RstCode(status));
      TwoWordsWritten(Low31(id), RstCode(status), []);
    case Settings(settings, _) =>
      OneWordWritten(AsU32(|settings|), SettingsBytes(settings));
      forall i | 0 <= i < |settings| ensures SettingWritten(settings[i], p, 4 + 8 * i) {
        SettingsWritten(ToBytes(AsU32(|settings|)), settings, i);
      }
    case Ping(id) => OneWordWritten(id, []);
    case GoAway(id, status) =>
      assert ToBytes(GoAwayCode(status)) + [] == ToBytes(GoAwayCode(status));
      TwoWordsWritten(Low31(id), GoAwayCode(status), []);
    case Headers(id, headers, _) => OneWordWritten(Low31(id), Chunk(env, raws, headers));
    case WindowUpdate(id, delta) =>
      assert ToBytes(Low31(delta)) + [] == ToBytes(Low31(delta));
      TwoWordsWritten(Low31(id), Low31(delta), []);
    case Data(_, _, _) =>
  }

  // ---------------------------------------------------------------------------
  // What is read
  // ---------------------------------------------------------------------------

  predicate IsControl(h: Bytes)
    requires |h| >= 8
  {
    h[0] >= 128
  }

  /** A control frame of another version. */
  predicate IsForeign(h: Bytes)
    requires |h| >= 8
  {
    IsControl(h) && PairAt(h, 0) != 0x8003
  }

  predicate IsComplete(b: Bytes) {
    |b| >= 8 && !IsForeign(b) && |b| >= 8 + TripleAt(b, 5)
  }

  function PayloadOf(b: Bytes): Bytes
    requires IsComplete(b)
  {
    b[8..8 + TripleAt(b, 5)]
  }

  predicate IsKnown(t: int) {
    t == 1 || t == 2 || t == 3 || t == 4 || t == 6 || t == 7 || t == 8 || t == 9
  }

  lemma HeadAgrees(h: Bytes)
    requires |h| >= 8
    ensures ReadHead(h) ==
      if IsControl(h) then ControlHead(PairAt(h, 0) - 0x8000, PairAt(h, 2), h[4], TripleAt(h, 5))
      else DataHead(WordAt(h, 0), h[4], TripleAt(h, 5))
  {
  }

  /** The reader's first decisions, on any input. */
  lemma HeaderRead(env: Env, chunks: seq<Bytes>, b: Bytes)
    ensures var d := DecodeFrame(env, chunks, b);
      && (|b| < 8 ==> d == Decoded(Err(ConnectionClosed), chunks, []))
      && (|b| >= 8 && IsForeign(b) ==> d == Decoded(Err(Protocol), chunks, b[8..]))
      && (|b| >= 8 && !IsForeign(b) && !IsComplete(b) ==> d == Decoded(Err(Io), chunks, []))
      && (IsComplete(b) ==> d.rest == b[8 + TripleAt(b, 5)..])
      && (IsComplete(b) && !IsControl(b) ==>
            d.chunks == chunks && d.result == Ok(Data(WordAt(b, 0), b[4], PayloadOf(b))))
      && (IsComplete(b) && IsControl(b) ==>
            (d.result, d.chunks) == ParseControl(env, chunks, PairAt(b, 2), b[4], PayloadOf(b)))
  {
    hide ParseControl, ReadHead, WordAt, TripleAt;
    if |b| >= 8 { HeadAgrees(b); }
  }

  /** What becomes of a compressed block: the decompressor moves on in each case. */
  ghost predicate BlockRead(
    env: Env, chunks: seq<Bytes>, chunk: Bytes, answer: (Result<Frame>, seq<Bytes>), make: HeaderMap -> Frame)
  {
    && answer.1 == chunks + [chunk]
    && match env.zlib.inflate(chunks, chunk)
       case None => answer.0 == Err(Compression)
       case Some(raw) =>
         match ParseBlock(env.http, raw)
         case Err(_) => answer.0 == Err(Protocol)
         case Ok(headers) => answer.0 == Ok(make(headers))
  }

  /** The three kinds with headers: too short is a protocol error and leaves the decompressor alone. */
  lemma HeadersRead(env: Env, chunks: seq<Bytes>, t: nat, flags: u8, p: Bytes)
    ensures var answer := ParseControl(env, chunks, t, flags, p);
      && (t == 1 ==>
            if |p| < 10 then answer == (Err(Protocol), chunks)
            else BlockRead(env, chunks, p[10..], answer,
                   h => SynStream(WordAt(p, 0) % 0x8000_0000, WordAt(p, 4) % 0x8000_0000, p[8] / 32, h, flags)))
      && (t == 2 ==>
            if |p| < 4 then answer == (Err(Protocol), chunks)
            else BlockRead(env, chunks, p[4..], answer, h => SynReply(WordAt(p, 0) % 0x8000_0000, h, flags)))
      && (t == 8 ==>
            if |p| < 4 then answer == (Err(Protocol), chunks)
            else BlockRead(env, chunks, p[4..], answer, h => Headers(WordAt(p, 0) % 0x8000_0000, h, flags)))
  {
    hide WordAt, FromBytes, ParseBlock;
    if |p| >= 4 {
      assert p[0..] == p;
      WordsAgree(p, 0);
    }
    if |p| >= 10 { WordsAgree(p, 4); }
    forall raw ensures ParseBlock(env.http, raw).Err? ==> ParseBlock(env.http, raw) == Err(Protocol) {
      BlockFormat.OnlyProtocol(env.http, raw);
    }
  }

  /** The kinds without: the field values exactly when there are bytes enough and the code is known. */
  lemma FieldsRead(env: Env, chunks: seq<Bytes>, t: nat, flags: u8, p: Bytes)
    ensures var (r, after) := ParseControl(env, chunks, t, flags, p);
      && (t != 1 && t != 2 && t != 8 ==> after == chunks)
      && (t == 3 ==>
            if |p| >= 8 && 1 <= WordAt(p, 4) <= 11
            then
              && r.Ok? && r.value.RstStream? && r.value.streamId == WordAt(p, 0) % 0x8000_0000
              && RstNumber(r.value.status) == WordAt(p, 4)
            else r == Err(Protocol))
      && (t == 6 ==> r == if |p| < 4 then Err(Protocol) else Ok(Ping(WordAt(p, 0))))
      && (t == 7 ==>
            if |p| < 8 then r == Err(Protocol)
            else
              && r.Ok? && r.value.GoAway? && r.value.lastGoodStreamId == WordAt(p, 0) % 0x8000_0000
              && GoAwayNumber(r.value.goAwayStatus) == if WordAt(p, 4) <= 2 then WordAt(p, 4) else 0)
      && (t == 9 ==>
            r == if |p| < 8 then Err(Protocol)
                 else Ok(WindowUpdate(WordAt(p, 0) % 0x8000_0000, WordAt(p, 4) % 0x8000_0000)))
      && (!IsKnown(t) ==> r == Err(UnknownFrameType(t)))
  {
    hide WordAt, FromBytes, ParseHeaderFrame, ParseSettings;
    if |p| >= 4 {
      assert p[0..] == p;
      WordsAgree(p, 0);
    }
    if |p| >= 8 { WordsAgree(p, 4); }
  }

  lemma SettingsRead(env: Env, chunks: seq<Bytes>, flags: u8, p: Bytes)
    ensures var (r, after) := ParseControl(env, chunks, 4, flags, p);
      && after == chunks
      && if |p| < 4 || |p| < 4 + 8 * WordAt(p, 0) then r == Err(Protocol)
         else
           && r.Ok? && r.value.Settings? && r.value.flags == flags && |r.value.settings| == WordAt(p, 0)
           && forall i :: 0 <= i < WordAt(p, 0) ==> IsSettingAt(r.value.settings[i], p, 4 + 8 * i)
  {
    hide WordAt, FromBytes, SettingAt, IsSettingAt;
    if |p| >= 4 {
      assert p[0..] == p;
      WordsAgree(p, 0);
      if |p| >= 4 + 8 * WordAt(p, 0) {
        forall i | 0 <= i < WordAt(p, 0) ensures IsSettingAt(SettingAt(p, 4 + i * 8), p, 4 + 8 * i) {
          SettingIsAt(p, 4 + 8 * i);
        }
      }
    }
  }

  predicate IsSettingAt(s: Setting, p: Bytes, i: nat) {
    i + 8 <= |p| && s.flags == p[i] && s.id == TripleAt(p, i + 1) && s.value == WordAt(p, i + 4)
  }

  lemma SettingIsAt(p: Bytes, i: nat)
    requires i + 8 <= |p|
    ensures IsSettingAt(SettingAt(p, i), p, i)
  {
    WordsAgree(p, i);
    WordsAgree(p, i + 4);
    HighByte(WordAt(p, i) / 0x100_0000, WordAt(p, i) % 0x100_0000, p[i], TripleAt(p, i + 1));
  }

  /**
   * Exactly when a read fails for want of bytes or for an unknown type, on any input: closed before a whole header; an
   * I/O error in the payload of a frame it would read; an unknown type in a complete control frame of version 3.
   */
  lemma ReadErrorsExactly(env: Env, chunks: seq<Bytes>, b: Bytes)
    ensures var r := DecodeFrame(env, chunks, b).result;
      && (r == Err(ConnectionClosed) <==> |b| < 8)
      && (r == Err(Io) <==> |b| >= 8 && !IsForeign(b) && |b| < 8 + TripleAt(b, 5))
      && (forall t: nat :: r == Err(UnknownFrameType(t)) <==>
            IsComplete(b) && IsControl(b) && t == PairAt(b, 2) && !IsKnown(t))
      && (|b| >= 8 && IsForeign(b) ==> r == Err(Protocol))
      && (r.Ok? ==> IsComplete(b))
  {
    HeaderRead(env, chunks, b);
    if IsComplete(b) && IsControl(b) {
      var t, p := PairAt(b, 2), PayloadOf(b);
      HeadersRead(env, chunks, t, b[4], p);
      FieldsRead(env, chunks, t, b[4], p);
      if t == 4 { SettingsRead(env, chunks, b[4], p); }
    }
  }
}
