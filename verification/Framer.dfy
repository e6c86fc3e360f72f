/** Frames on the wire: the 8-byte headers, the payloads, and the reader and writer that share the header coders. */
module Framer {
  import opened Octets
  import opened Frame
  import opened HeaderBlock
  import opened Zlib

  const SPDY_VERSION := 3
  const TYPE_SYN_STREAM: nat := 1
  const TYPE_SYN_REPLY: nat := 2
  const TYPE_RST_STREAM: nat := 3
  const TYPE_SETTINGS: nat := 4
  const TYPE_PING: nat := 6
  const TYPE_GOAWAY: nat := 7
  const TYPE_HEADERS: nat := 8
  const TYPE_WINDOW_UPDATE: nat := 9

  /** The two sides' environment: the coder and the header tables. */
  datatype Env = Env(zlib: Zlib, http: Http)

  ghost predicate EnvLaw(env: Env) {
    ZlibLaw(env.zlib) && HttpLaw(env.http)
  }

  predicate HasHeaders(f: Frame) {
    f.SynStream? || f.SynReply? || f.Headers?
  }

  /** The header maps the library can hold. */
  ghost predicate FrameOk(env: Env, f: Frame) {
    HasHeaders(f) ==> HeadersOk(env.http, f.headers)
  }

  // ---------------------------------------------------------------------------
  // Encoding
  // ---------------------------------------------------------------------------

  /** The compressor's history after the frame. */
  ghost function NextRaws(env: Env, raws: seq<Bytes>, f: Frame): seq<Bytes>
    requires FrameOk(env, f)
  {
    if HasHeaders(f) then raws + [EncodeBlock(f.headers)] else raws
  }

  ghost function Chunk(env: Env, raws: seq<Bytes>, h: HeaderMap): Bytes
    requires HeadersOk(env.http, h)
  {
    env.zlib.deflate(raws, EncodeBlock(h))
  }

  function SettingWord(s: Setting): u32 {
    s.flags * 0x100_0000 + Low24(s.id)
  }

  function SettingBytes(s: Setting): (b: Bytes)
    ensures |b| == 8
  {
    ToBytes(SettingWord(s)) + ToBytes(s.value)
  }

  function SettingsBytes(ss: seq<Setting>): (b: Bytes)
    ensures |b| == 8 * |ss|
  {
    if ss == [] then [] else SettingsBytes(Init(ss)) + SettingBytes(Last(ss))
  }

  function FrameType(f: Frame): nat
    requires !f.Data?
  {
    match f
    case SynStream(_, _, _, _, _) => TYPE_SYN_STREAM
    case SynReply(_, _, _) => TYPE_SYN_REPLY
    case RstStream(_, _) => TYPE_RST_STREAM
    case Settings(_, _) => TYPE_SETTINGS
    case Ping(_) => TYPE_PING
    case GoAway(_, _) => TYPE_GOAWAY
    case Headers(_, _, _) => TYPE_HEADERS
    case WindowUpdate(_, _) => TYPE_WINDOW_UPDATE
  }

  function FrameFlags(f: Frame): u8 {
    match f
    case SynStream(_, _, _, _, flags) => flags
    case SynReply(_, _, flags) => flags
    case Settings(_, flags) => flags
    case Headers(_, _, flags) => flags
    case Data(_, flags, _) => flags
    case _ => 0
  }

  ghost function Payload(env: Env, raws: seq<Bytes>, f: Frame): Bytes
    requires FrameOk(env, f)
  {
    match f
    case SynStream(id, assoc, priority, headers, _) =>
      ToBytes(Low31(id)) + (ToBytes(Low31(assoc)) + ([priority % 8 * 32, 0] + Chunk(env, raws, headers)))
    case SynReply(id, headers, _) => ToBytes(Low31(id)) + Chunk(env, raws, headers)
    case RstStream(id, status) => ToBytes(Low31(id)) + ToBytes(RstCode(status))
    case Settings(settings, _) => ToBytes(AsU32(|settings|)) + SettingsBytes(settings)
    case Ping(id) => ToBytes(id)
    case GoAway(id, status) => ToBytes(Low31(id)) + ToBytes(GoAwayCode(status))
    case Headers(id, headers, _) => ToBytes(Low31(id)) + Chunk(env, raws, headers)
    case WindowUpdate(id, delta) => ToBytes(Low31(id)) + ToBytes(Low31(delta))
    case Data(_, _, data) => data
  }

  /** The low 24 bits of a length. */
  function Length24(n: nat): (b: Bytes)
    ensures |b| == 3
  {
    [n / 0x1_0000 % 0x100, n / 0x100 % 0x100, n % 0x100]
  }

  function ControlHeader(frameType: nat, flags: u8, length: nat): (b: Bytes)
    requires frameType < 0x1_0000
    ensures |b| == 8
  {
    [0x80, SPDY_VERSION, frameType / 0x100, frameType % 0x100, flags] + Length24(AsU32(length))
  }

  function DataHeader(streamId: u32, flags: u8, length: nat): (b: Bytes)
    ensures |b| == 8
  {
    ToBytes(Low31(streamId)) + [flags] + Length24(AsU32(length))
  }

  ghost function EncodeFrame(env: Env, raws: seq<Bytes>, f: Frame): Bytes
    requires FrameOk(env, f)
  {
    var payload := Payload(env, raws, f);
    (if f.Data? then DataHeader(f.streamId, f.flags, |payload|)
     else ControlHeader(FrameType(f), FrameFlags(f), |payload|)) + payload
  }

  // ---------------------------------------------------------------------------
  // Decoding
  // ---------------------------------------------------------------------------

  /** What one read leaves behind: its result, the decompressor's history and the input not yet consumed. */
  datatype Decoded = Decoded(result: Result<Frame>, chunks: seq<Bytes>, rest: Bytes)

  datatype Head = ControlHead(version: nat, frameType: nat, flags: u8, length: nat)
                | DataHead(streamId: u32, flags: u8, length: nat)

  function ReadHead(h: Bytes): Head
    requires |h| >= 8
  {
    var length := (h[5] as int) * 0x1_0000 + (h[6] as int) * 0x100 + h[7];
    if h[0] >= 0x80 then ControlHead((h[0] as int - 0x80) * 0x100 + h[1], (h[2] as int) * 0x100 + h[3], h[4], length)
    else DataHead(FromBytes(h), h[4], length)
  }

  function ParseRstStream(p: Bytes): Result<Frame> {
    if |p| < 8 then Err(Protocol)
    else match RstFromCode(FromBytes(p[4..]))
      case None => Err(Protocol)
      case Some(status) => Ok(RstStream(Low31(FromBytes(p)), status))
  }

  function SettingAt(p: Bytes, offset: nat): Setting
    requires offset + 8 <= |p|
  {
    var word := FromBytes(p[offset..]);
    Setting(Low24(word), word / 0x100_0000, FromBytes(p[offset + 4..]))
  }

  function ParseSettings(flags: u8, p: Bytes): Result<Frame> {
    if |p| < 4 then Err(Protocol)
    else if |p| < 4 + FromBytes(p) * 8 then Err(Protocol)
    else Ok(Settings(seq(FromBytes(p), i requires 0 <= i < FromBytes(p) => SettingAt(p, 4 + i * 8)), flags))
  }

  function ParsePing(p: Bytes): Result<Frame> {
    if |p| < 4 then Err(Protocol) else Ok(Ping(FromBytes(p)))
  }

  function ParseGoAway(p: Bytes): Result<Frame> {
    if |p| < 8 then Err(Protocol) else Ok(GoAway(Low31(FromBytes(p)), GoAwayFromCode(FromBytes(p[4..]))))
  }

  function ParseWindowUpdate(p: Bytes): Result<Frame> {
    if |p| < 8 then Err(Protocol) else Ok(WindowUpdate(Low31(FromBytes(p)), Low31(FromBytes(p[4..]))))
  }

  function Decompress(env: Env, chunks: seq<Bytes>, chunk: Bytes): Result<HeaderMap> {
    match env.zlib.inflate(chunks, chunk)
    case None => Err(Compression)
    case Some(raw) => ParseBlock(env.http, raw)
  }

  /** Everything in front of a header frame's chunk; the chunk starts at ChunkStart. */
  function ChunkStart(frameType: nat): nat {
    if frameType == TYPE_SYN_STREAM then 10 else 4
  }

  predicate IsHeaderType(frameType: nat) {
    frameType == TYPE_SYN_STREAM || frameType == TYPE_SYN_REPLY || frameType == TYPE_HEADERS
  }

  function HeaderFrame(frameType: nat, flags: u8, p: Bytes, headers: HeaderMap): Frame
    requires IsHeaderType(frameType) && |p| >= ChunkStart(frameType)
  {
    if frameType == TYPE_SYN_STREAM then
      SynStream(Low31(FromBytes(p)), Low31(FromBytes(p[4..])), p[8] / 32, headers, flags)
    else if frameType == TYPE_SYN_REPLY then SynReply(Low31(FromBytes(p)), headers, flags)
    else Headers(Low31(FromBytes(p)), headers, flags)
  }

  function ParseHeaderFrame(env: Env, chunks: seq<Bytes>, frameType: nat, flags: u8, p: Bytes):
    (Result<Frame>, seq<Bytes>)
    requires IsHeaderType(frameType)
  {
    var start := ChunkStart(frameType);
    if |p| < start then (Err(Protocol), chunks)
    else match Decompress(env, chunks, p[start..])
      case Err(e) => (Err(e), chunks + [p[start..]])
      case Ok(headers) => (Ok(HeaderFrame(frameType, flags, p, headers)), chunks + [p[start..]])
  }

  function ParseControl(env: Env, chunks: seq<Bytes>, frameType: nat, flags: u8, p: Bytes):
    (Result<Frame>, seq<Bytes>) {
    if IsHeaderType(frameType) then ParseHeaderFrame(env, chunks, frameType, flags, p)
    else if frameType == TYPE_RST_STREAM then (ParseRstStream(p), chunks)
    else if frameType == TYPE_SETTINGS then (ParseSettings(flags, p), chunks)
    else if frameType == TYPE_PING then (ParsePing(p), chunks)
    else if frameType == TYPE_GOAWAY then (ParseGoAway(p), chunks)
    else if frameType == TYPE_WINDOW_UPDATE then (ParseWindowUpdate(p), chunks)
    else (Err(UnknownFrameType(frameType)), chunks)
  }

  function DecodeFrame(env: Env, chunks: seq<Bytes>, input: Bytes): Decoded {
    if |input| < 8 then Decoded(Err(ConnectionClosed), chunks, [])
    else
      var head := ReadHead(input);
      if head.ControlHead? && head.version != SPDY_VERSION then Decoded(Err(Protocol), chunks, input[8..])
      else if |input| - 8 < head.length then Decoded(Err(Io), chunks, [])
      else DecodePayload(env, chunks, head, input[8..8 + head.length], input[8 + head.length..])
  }

  function DecodePayload(env: Env, chunks: seq<Bytes>, head: Head, payload: Bytes, rest: Bytes): Decoded {
    match head
    case DataHead(streamId, flags, _) => Decoded(Ok(Data(streamId, flags, payload)), chunks, rest)
    case ControlHead(_, frameType, flags, _) =>
      var (result, chunks') := ParseControl(env, chunks, frameType, flags, payload);
      Decoded(result, chunks', rest)
  }

  // ---------------------------------------------------------------------------
  // One frame: when it comes back
  // ---------------------------------------------------------------------------

  /** The payload fits its 24-bit length, and a header block fits the reader's output vector. */
  ghost predicate SizeOk(env: Env, raws: seq<Bytes>, f: Frame)
    requires FrameOk(env, f)
  {
    |Payload(env, raws, f)| < 0x100_0000 && (HasHeaders(f) ==> Fits(env.zlib, raws, EncodeBlock(f.headers)))
  }

  lemma ReadControlHead(frameType: nat, flags: u8, length: nat, rest: Bytes)
    requires frameType < 0x1_0000
    ensures ReadHead(ControlHeader(frameType, flags, length) + rest) ==
      ControlHead(SPDY_VERSION, frameType, flags, length % 0x100_0000)
  {
    Length24Value(length);
  }

  lemma ReadDataHead(streamId: u32, flags: u8, length: nat, rest: Bytes)
    ensures ReadHead(DataHeader(streamId, flags, length) + rest) ==
      DataHead(Low31(streamId), flags, length % 0x100_0000)
  {
    Length24Value(length);
    var h := DataHeader(streamId, flags, length) + rest;
    FromToBytes(Low31(streamId), h[4..]);
    assert h == ToBytes(Low31(streamId)) + h[4..];
  }

  lemma Length24Value(length: nat)
    ensures var b := Length24(AsU32(length));
      (b[0] as int) * 0x1_0000 + (b[1] as int) * 0x100 + b[2] == length % 0x100_0000
  {
    var n := AsU32(length);
    assert n % 0x100_0000 == length % 0x100_0000;
    assert n == n / 0x100 * 0x100 + n % 0x100;
    assert n / 0x100 == n / 0x1_0000 * 0x100 + n / 0x100 % 0x100;
  }

  lemma TwoWords(a: u32, b: u32, tail: Bytes)
    ensures var p := ToBytes(a) + (ToBytes(b) + tail);
      FromBytes(p) == a && p[4..] == ToBytes(b) + tail && FromBytes(p[4..]) == b
  {
    hide ToBytes, FromBytes;
    FromToBytes(a, ToBytes(b) + tail);
    FromToBytes(b, tail);
    assert (ToBytes(a) + (ToBytes(b) + tail))[4..] == ToBytes(b) + tail;
  }

  lemma JustTwoWords(a: u32, b: u32)
    ensures var p := ToBytes(a) + ToBytes(b); FromBytes(p) == a && FromBytes(p[4..]) == b
  {
    hide ToBytes, FromBytes;
    TwoWords(a, b, []);
    assert ToBytes(b) + [] == ToBytes(b);
  }

  lemma JustOneWord(a: u32)
    ensures FromBytes(ToBytes(a)) == a
  {
    hide ToBytes, FromBytes;
    FromToBytes(a, []);
    assert ToBytes(a) + [] == ToBytes(a);
  }

  lemma {:induction false} SettingsBytesAt(ss: seq<Setting>, i: nat)
    requires i < |ss|
    ensures SettingsBytes(ss)[8 * i..8 * i + 8] == SettingBytes(ss[i])
    decreases |ss|
  {
    hide SettingBytes;
    if i < |ss| - 1 {
      SettingsBytesAt(Init(ss), i);
    }
  }

  lemma SettingParses(s: Setting, p: Bytes, offset: nat)
    requires offset + 8 <= |p| && p[offset..offset + 8] == SettingBytes(s)
    ensures SettingAt(p, offset) == s.(id := Low24(s.id))
  {
    hide ToBytes, FromBytes;
    var tail := p[offset + 8..];
    assert p[offset..] == SettingBytes(s) + tail;
    ConcatAssoc(ToBytes(SettingWord(s)), ToBytes(s.value), tail);
    TwoWords(SettingWord(s), s.value, tail);
    assert p[offset..][4..] == p[offset + 4..];
  }

  lemma SettingsParse(ss: seq<Setting>, flags: u8)
    requires |ss| < 0x1_0000_0000
    ensures ParseSettings(flags, ToBytes(|ss|) + SettingsBytes(ss)) == Ok(Settings(MaskedSettings(ss), flags))
  {
    hide ToBytes, FromBytes, SettingAt, SettingsBytes;
    var p := ToBytes(|ss|) + SettingsBytes(ss);
    FromToBytes(|ss|, SettingsBytes(ss));
    forall i | 0 <= i < |ss| ensures SettingAt(p, 4 + i * 8) == MaskedSettings(ss)[i] {
      SettingsBytesAt(ss, i);
      assert p[4 + i * 8..4 + i * 8 + 8] == SettingsBytes(ss)[8 * i..8 * i + 8];
      SettingParses(ss[i], p, 4 + i * 8);
    }
    assert seq(FromBytes(p), i requires 0 <= i < FromBytes(p) => SettingAt(p, 4 + i * 8)) == MaskedSettings(ss);
  }

  lemma PlainPayloadParses(env: Env, raws: seq<Bytes>, f: Frame, chunks: seq<Bytes>)
    requires FrameOk(env, f) && !f.Data? && !HasHeaders(f) && SizeOk(env, raws, f)
    ensures ParseControl(env, chunks, FrameType(f), FrameFlags(f), Payload(env, raws, f)) == (Ok(Masked(f)), chunks)
  {
    hide ToBytes, FromBytes, SettingsBytes, ParseSettings;
    match f
    case RstStream(id, status) =>
      JustTwoWords(Low31(id), RstCode(status));
      StatusCodesInvert(status, GoAwayOk, 0);
    case Settings(settings, flags) => SettingsParse(settings, flags);
    case Ping(id) => JustOneWord(id);
    case GoAway(id, status) =>
      JustTwoWords(Low31(id), GoAwayCode(status));
      StatusCodesInvert(ProtocolError, status, 0);
    case WindowUpdate(id, delta) => JustTwoWords(Low31(id), Low31(delta));
  }

  /** A header frame's payload splits into its fixed part and its chunk. */
  lemma HeaderPayloadSplits(env: Env, raws: seq<Bytes>, f: Frame)
    requires FrameOk(env, f) && HasHeaders(f)
    ensures var p, start := Payload(env, raws, f), ChunkStart(FrameType(f));
      && |p| >= start && p[start..] == Chunk(env, raws, f.headers)
      && HeaderFrame(FrameType(f), FrameFlags(f), p, f.headers) == Masked(f)
  {
    hide ToBytes, FromBytes, Chunk;
    var chunk := Chunk(env, raws, f.headers);
    if f.SynStream? {
      var fixed: Bytes := [f.priority % 8 * 32, 0];
      TwoWords(Low31(f.streamId), Low31(f.associatedStreamId), fixed + chunk);
      var p := Payload(env, raws, f);
      assert p[10..] == (fixed + chunk)[2..] == chunk;
      assert p[8] == (fixed + chunk)[0];
    } else {
      FromToBytes(Low31(f.streamId), chunk);
    }
  }

  /**
   * The block of a header frame that fits comes back; one that does not is cut and never parses to the same map: it is
   * refused, if its own lengths were not cut already.
   */
  lemma ChunkDecompresses(env: Env, raws: seq<Bytes>, h: HeaderMap)
    requires EnvLaw(env) && HeadersOk(env.http, h) && AllFit(env.zlib, raws)
    requires |Chunk(env, raws, h)| < 0x100_0000
    ensures var result := Decompress(env, Chunks(env.zlib, raws), Chunk(env, raws, h));
      && (result == Ok(h) <==> Fits(env.zlib, raws, EncodeBlock(h)))
      && (Encodable(h) && !Fits(env.zlib, raws, EncodeBlock(h)) ==> result == Err(Protocol))
  {
    hide Encodable, EncodeBlock, ParseBlock;
    var raw := EncodeBlock(h);
    var capacity := Capacity(env.zlib.deflate(raws, raw));
    assert env.zlib.inflate(Chunks(env.zlib, raws), env.zlib.deflate(raws, raw)) == Some(Cut(raw, capacity));
    if |raw| <= capacity {
      ShortBlockIsEncodable(h);
      BlockRoundTrip(env.http, h, []);
      assert raw + [] == raw;
    } else if Encodable(h) {
      CutBlockIsRefused(env.http, h, capacity);
    } else if ParseBlock(env.http, raw[..capacity]) == Ok(h) {
      ParsedIsWellFormed(env.http, raw[..capacity]);
    }
  }

  lemma HeaderFrameHeaders(frameType: nat, flags: u8, p: Bytes, h: HeaderMap)
    requires IsHeaderType(frameType) && |p| >= ChunkStart(frameType)
    ensures HasHeaders(HeaderFrame(frameType, flags, p, h)) && HeaderFrame(frameType, flags, p, h).headers == h
  {
  }

  lemma PayloadParses(env: Env, raws: seq<Bytes>, f: Frame)
    requires EnvLaw(env) && FrameOk(env, f) && AllFit(env.zlib, raws) && !f.Data?
    requires |Payload(env, raws, f)| < 0x100_0000
    ensures ParseControl(env, Chunks(env.zlib, raws), FrameType(f), FrameFlags(f), Payload(env, raws, f)) ==
        (Ok(Masked(f)), Chunks(env.zlib, NextRaws(env, raws, f)))
      <==> SizeOk(env, raws, f)
  {
    hide ToBytes, FromBytes, Masked, Payload, FrameFlags, HeaderFrame, Decompress, EncodeBlock, Chunks, ParseSettings;
    if HasHeaders(f) {
      HeaderPayloadSplits(env, raws, f);
      ChunkDecompresses(env, raws, f.headers);
      ChunksAppend(env.zlib, raws, EncodeBlock(f.headers));
      var p, start := Payload(env, raws, f), ChunkStart(FrameType(f));
      var d := Decompress(env, Chunks(env.zlib, raws), p[start..]);
      HeaderFrameHeaders(FrameType(f), FrameFlags(f), p, f.headers);
      if d.Ok? { HeaderFrameHeaders(FrameType(f), FrameFlags(f), p, d.value); }
    } else {
      PlainPayloadParses(env, raws, f, Chunks(env.zlib, raws));
    }
  }

  ghost function FrameHeader(env: Env, raws: seq<Bytes>, f: Frame): (h: Bytes)
    requires FrameOk(env, f)
    ensures |h| == 8
  {
    if f.Data? then DataHeader(f.streamId, f.flags, |Payload(env, raws, f)|)
    else ControlHeader(FrameType(f), FrameFlags(f), |Payload(env, raws, f)|)
  }

  lemma HeaderReads(env: Env, raws: seq<Bytes>, f: Frame, rest: Bytes)
    requires FrameOk(env, f)
    ensures var head := ReadHead(FrameHeader(env, raws, f) + rest);
      && head.length == |Payload(env, raws, f)| % 0x100_0000
      && head == if f.Data? then DataHead(Low31(f.streamId), f.flags, head.length)
                 else ControlHead(SPDY_VERSION, FrameType(f), FrameFlags(f), head.length)
  {
    hide ReadHead, DataHeader, ControlHeader, Payload;
    var n := |Payload(env, raws, f)|;
    if f.Data? {
      ReadDataHead(f.streamId, f.flags, n, rest);
    } else {
      ReadControlHead(FrameType(f), FrameFlags(f), n, rest);
    }
  }

  /** The payload as far as its 24-bit length reaches, and what lies beyond. */
  function Reached(p: Bytes): Bytes {
    p[..|p| % 0x100_0000]
  }

  function Beyond(p: Bytes): Bytes {
    p[|p| % 0x100_0000..]
  }

  /** What a reader does with a frame's bytes followed by anything: it takes the length modulo 2^24. */
  lemma DecodeOfEncode(env: Env, raws: seq<Bytes>, f: Frame, chunks: seq<Bytes>, tail: Bytes)
    requires FrameOk(env, f)
    ensures var payload := Payload(env, raws, f);
      DecodeFrame(env, chunks, EncodeFrame(env, raws, f) + tail) ==
      DecodePayload(env, chunks, ReadHead(FrameHeader(env, raws, f)), Reached(payload), Beyond(payload) + tail)
  {
    hide Payload, ReadHead, DecodePayload, EncodeFrame, FrameHeader;
    var header, payload := FrameHeader(env, raws, f), Payload(env, raws, f);
    HeaderThenPayload(env, raws, f);
    var input, n := EncodeFrame(env, raws, f) + tail, |payload| % 0x100_0000;
    HeaderReads(env, raws, f, payload + tail);
    HeaderReads(env, raws, f, []);
    assert header + [] == header;
    ConcatAssoc(header, payload, tail);
    Slices(header, payload, tail, n);
  }

  lemma Slices(header: Bytes, payload: Bytes, tail: Bytes, n: nat)
    requires |header| == 8 && n <= |payload|
    ensures var input := header + (payload + tail);
      input[8..8 + n] == payload[..n] && input[8 + n..] == payload[n..] + tail
  {
  }

  ghost function HeadOf(env: Env, raws: seq<Bytes>, f: Frame): Head
    requires FrameOk(env, f)
  {
    if f.Data? then DataHead(Low31(f.streamId), f.flags, |f.data|)
    else ControlHead(SPDY_VERSION, FrameType(f), FrameFlags(f), |Payload(env, raws, f)|)
  }

  lemma DecodeShort(env: Env, raws: seq<Bytes>, f: Frame, chunks: seq<Bytes>, tail: Bytes)
    requires FrameOk(env, f) && |Payload(env, raws, f)| < 0x100_0000
    ensures DecodeFrame(env, chunks, EncodeFrame(env, raws, f) + tail) ==
      DecodePayload(env, chunks, HeadOf(env, raws, f), Payload(env, raws, f), tail)
  {
    hide DecodeFrame, EncodeFrame, ReadHead, DecodePayload, FrameHeader, FrameFlags, FrameType;
    var payload := Payload(env, raws, f);
    DecodeOfEncode(env, raws, f, chunks, tail);
    assert payload[..|payload|] == payload && payload[|payload|..] + tail == tail;
    HeaderReads(env, raws, f, []);
    assert FrameHeader(env, raws, f) + [] == FrameHeader(env, raws, f);
  }

  lemma DecodedPayload(env: Env, raws: seq<Bytes>, f: Frame, tail: Bytes)
    requires EnvLaw(env) && FrameOk(env, f) && AllFit(env.zlib, raws) && |Payload(env, raws, f)| < 0x100_0000
    ensures DecodePayload(env, Chunks(env.zlib, raws), HeadOf(env, raws, f), Payload(env, raws, f), tail) ==
        Decoded(Ok(Masked(f)), Chunks(env.zlib, NextRaws(env, raws, f)), tail)
      <==> SizeOk(env, raws, f)
  {
    hide Payload, ParseControl, Chunks, FrameFlags, FrameType;
    if f.Data? {
      DataPayload(env, raws, f);
    } else {
      PayloadParses(env, raws, f);
    }
  }

  /** A frame of admissible size comes back, masked, and leaves exactly what followed it. */
  lemma FrameRoundTrip(env: Env, raws: seq<Bytes>, f: Frame, tail: Bytes)
    requires EnvLaw(env) && FrameOk(env, f) && AllFit(env.zlib, raws) && SizeOk(env, raws, f)
    ensures DecodeFrame(env, Chunks(env.zlib, raws), EncodeFrame(env, raws, f) + tail) ==
      Decoded(Ok(Masked(f)), Chunks(env.zlib, NextRaws(env, raws, f)), tail)
  {
    hide DecodeFrame, EncodeFrame, Payload, DecodePayload, HeadOf, Chunks, Masked, NextRaws;
    DecodeShort(env, raws, f, Chunks(env.zlib, raws), tail);
    DecodedPayload(env, raws, f, tail);
  }

  lemma DataPayload(env: Env, raws: seq<Bytes>, f: Frame)
    requires FrameOk(env, f) && f.Data?
    ensures Payload(env, raws, f) == f.data && NextRaws(env, raws, f) == raws
    ensures Masked(f) == Data(Low31(f.streamId), f.flags, f.data)
  {
  }

  /**
   * Exactly when one frame survives the wire: decoding its bytes, whatever follows them, returns it, masked, with the
   * coders in step and just those bytes left, if and only if its payload is shorter than 2^24 bytes and its header
   * block fits.
   */
  lemma FrameRoundTripExactly(env: Env, raws: seq<Bytes>, f: Frame, tail: Bytes)
    requires EnvLaw(env) && FrameOk(env, f) && AllFit(env.zlib, raws)
    ensures DecodeFrame(env, Chunks(env.zlib, raws), EncodeFrame(env, raws, f) + tail) ==
        Decoded(Ok(Masked(f)), Chunks(env.zlib, NextRaws(env, raws, f)), tail)
      <==> SizeOk(env, raws, f)
  {
    hide DecodeFrame, EncodeFrame, Payload, DecodePayload, HeadOf, Chunks, Masked, NextRaws, FrameHeader, ReadHead;
    var payload, chunks := Payload(env, raws, f), Chunks(env.zlib, raws);
    if |payload| < 0x100_0000 {
      DecodeShort(env, raws, f, chunks, tail);
      DecodedPayload(env, raws, f, tail);
    } else {
      DecodeOfEncode(env, raws, f, chunks, tail);
      var rest := Beyond(payload) + tail;
      assert |rest| > |tail|;
      RestIsKept(env, chunks, ReadHead(FrameHeader(env, raws, f)), Reached(payload), rest);
    }
  }

  /**
   * A header block that does not fit is refused, not misread: the result is a protocol error, just the frame's bytes
   * are consumed, and the decompressor has moved on with the compressor.
   */
  lemma LongBlockIsRefused(env: Env, raws: seq<Bytes>, f: Frame, tail: Bytes)
    requires EnvLaw(env) && FrameOk(env, f) && AllFit(env.zlib, raws) && |Payload(env, raws, f)| < 0x100_0000
    requires HasHeaders(f) && Encodable(f.headers) && !Fits(env.zlib, raws, EncodeBlock(f.headers))
    ensures DecodeFrame(env, Chunks(env.zlib, raws), EncodeFrame(env, raws, f) + tail) ==
      Decoded(Err(Protocol), Chunks(env.zlib, NextRaws(env, raws, f)), tail)
  {
    hide DecodeFrame, EncodeFrame, Payload, Chunks, Masked, HeaderFrame, Decompress, EncodeBlock, Encodable;
    DecodeShort(env, raws, f, Chunks(env.zlib, raws), tail);
    HeaderPayloadSplits(env, raws, f);
    ChunkDecompresses(env, raws, f.headers);
    ChunksAppend(env.zlib, raws, EncodeBlock(f.headers));
  }

  function LongData(): Frame {
    Data(1, 0, seq(0x100_0000, i => 0))
  }

  /** A data frame of 2^24 bytes is written with length zero and read as an empty one. */
  lemma LongDataIsLost(env: Env, tail: Bytes)
    requires EnvLaw(env)
    ensures DecodeFrame(env, [], EncodeFrame(env, [], LongData()) + tail) ==
      Decoded(Ok(Data(1, 0, [])), [], LongData().data + tail)
  {
    hide DecodeFrame, EncodeFrame, FrameHeader, ReadHead;
    var data := LongData().data;
    DataPayload(env, [], LongData());
    DecodeOfEncode(env, [], LongData(), [], tail);
    assert |data| % 0x100_0000 == 0 && data[..0] == [] && data[0..] == data;
    LongDataHead(env);
  }

  lemma LongDataHead(env: Env)
    requires EnvLaw(env)
    ensures ReadHead(FrameHeader(env, [], LongData())) == DataHead(1, 0, 0)
  {
    hide ReadHead;
    HeaderReads(env, [], LongData(), []);
    assert FrameHeader(env, [], LongData()) + [] == FrameHeader(env, [], LongData());
  }

  lemma RestIsKept(env: Env, chunks: seq<Bytes>, head: Head, payload: Bytes, rest: Bytes)
    ensures DecodePayload(env, chunks, head, payload, rest).rest == rest
  {
  }

  // ---------------------------------------------------------------------------
  // Whole runs
  // ---------------------------------------------------------------------------

  ghost predicate FramesOk(env: Env, fs: seq<Frame>) {
    forall i :: 0 <= i < |fs| ==> FrameOk(env, fs[i])
  }

  /** Every frame of the run is of admissible size in the compressor state it meets. */
  ghost predicate RunOk(env: Env, raws: seq<Bytes>, fs: seq<Frame>)
    requires FramesOk(env, fs)
    decreases |fs|
  {
    fs == [] || (SizeOk(env, raws, fs[0]) && RunOk(env, NextRaws(env, raws, fs[0]), fs[1..]))
  }

  ghost function EncodeAll(env: Env, raws: seq<Bytes>, fs: seq<Frame>): Bytes
    requires FramesOk(env, fs)
    decreases |fs|
  {
    if fs == [] then [] else EncodeFrame(env, raws, fs[0]) + EncodeAll(env, NextRaws(env, raws, fs[0]), fs[1..])
  }

  ghost function RunRaws(env: Env, raws: seq<Bytes>, fs: seq<Frame>): seq<Bytes>
    requires FramesOk(env, fs)
    decreases |fs|
  {
    if fs == [] then raws else RunRaws(env, NextRaws(env, raws, fs[0]), fs[1..])
  }

  /** The read loop: frames until the first error. */
  function DecodeAll(env: Env, chunks: seq<Bytes>, input: Bytes): (seq<Frame>, Error)
    decreases |input|
  {
    var d := DecodeFrame(env, chunks, input);
    match d.result
    case Err(e) => ([], e)
    case Ok(f) =>
      assert |d.rest| < |input|;
      var (fs, e) := DecodeAll(env, d.chunks, d.rest);
      ([f] + fs, e)
  }

  function MaskedAll(fs: seq<Frame>): seq<Frame> {
    seq(|fs|, i requires 0 <= i < |fs| => Masked(fs[i]))
  }

  lemma NextRawsFit(env: Env, raws: seq<Bytes>, f: Frame)
    requires FrameOk(env, f) && AllFit(env.zlib, raws) && SizeOk(env, raws, f)
    ensures AllFit(env.zlib, NextRaws(env, raws, f))
  {
    if HasHeaders(f) { ChunksAppend(env.zlib, raws, EncodeBlock(f.headers)); }
  }

  /**
   * Whole-run round trip: the concatenated bytes of any run of admissible frames, followed by anything, decode to
   * exactly those frames, and what follows is then read with the decompressor in step with the compressor.
   */
  lemma {:induction false} RunRoundTrip(env: Env, raws: seq<Bytes>, fs: seq<Frame>, tail: Bytes)
    requires EnvLaw(env) && AllFit(env.zlib, raws) && FramesOk(env, fs) && RunOk(env, raws, fs)
    ensures AllFit(env.zlib, RunRaws(env, raws, fs))
    ensures var (more, e) := DecodeAll(env, Chunks(env.zlib, RunRaws(env, raws, fs)), tail);
      DecodeAll(env, Chunks(env.zlib, raws), EncodeAll(env, raws, fs) + tail) == (MaskedAll(fs) + more, e)
    decreases |fs|
  {
    hide DecodeFrame, EncodeFrame, SizeOk, Chunks, Masked, NextRaws, AllFit;
    if fs == [] {
      assert EncodeAll(env, raws, fs) + tail == tail;
      var (more, e) := DecodeAll(env, Chunks(env.zlib, raws), tail);
      assert MaskedAll(fs) + more == more;
    } else {
      var f, after := fs[0], NextRaws(env, raws, fs[0]);
      var rest := EncodeAll(env, after, fs[1..]);
      FrameRoundTrip(env, raws, f, rest + tail);
      ConcatAssoc(EncodeFrame(env, raws, f), rest, tail);
      NextRawsFit(env, raws, f);
      RunRoundTrip(env, after, fs[1..], tail);
      var (more, e) := DecodeAll(env, Chunks(env.zlib, RunRaws(env, raws, fs)), tail);
      MaskedAllHead(fs);
      assert [Masked(f)] + (MaskedAll(fs[1..]) + more) == MaskedAll(fs) + more;
    }
  }

  /** Runs grow at the end, as the write task makes them. */
  lemma {:induction false} RunAppend(env: Env, raws: seq<Bytes>, fs: seq<Frame>, f: Frame)
    requires FramesOk(env, fs) && FrameOk(env, f)
    ensures FramesOk(env, fs + [f])
    ensures RunOk(env, raws, fs + [f]) <==> RunOk(env, raws, fs) && SizeOk(env, RunRaws(env, raws, fs), f)
    ensures EncodeAll(env, raws, fs + [f]) == EncodeAll(env, raws, fs) + EncodeFrame(env, RunRaws(env, raws, fs), f)
    ensures RunRaws(env, raws, fs + [f]) == NextRaws(env, RunRaws(env, raws, fs), f)
    decreases |fs|
  {
    hide EncodeFrame, SizeOk, FrameOk, NextRaws;
    if fs == [] {
      assert fs + [f] == [f] && [f][1..] == [];
      assert EncodeFrame(env, raws, f) + [] == EncodeFrame(env, raws, f);
    } else {
      var after := NextRaws(env, raws, fs[0]);
      assert (fs + [f])[1..] == fs[1..] + [f];
      RunAppend(env, after, fs[1..], f);
      ConcatAssoc(EncodeFrame(env, raws, fs[0]), EncodeAll(env, after, fs[1..]),
                  EncodeFrame(env, RunRaws(env, after, fs[1..]), f));
    }
  }

  lemma MaskedAllHead(fs: seq<Frame>)
    requires fs != []
    ensures MaskedAll(fs) == [Masked(fs[0])] + MaskedAll(fs[1..])
  {
  }

  /** A frame whose bytes stop short is never mistaken for a frame. */
  lemma TornFrame(env: Env, raws: seq<Bytes>, f: Frame, chunks: seq<Bytes>, n: nat)
    requires FrameOk(env, f) && |Payload(env, raws, f)| < 0x100_0000 && n < |EncodeFrame(env, raws, f)|
    ensures DecodeFrame(env, chunks, EncodeFrame(env, raws, f)[..n]).result ==
      Err(if n < 8 then ConnectionClosed else Io)
  {
    hide Payload, ReadHead, FrameHeader, DecodePayload;
    var header, payload := FrameHeader(env, raws, f), Payload(env, raws, f);
    HeaderThenPayload(env, raws, f);
    if n >= 8 {
      HeaderReads(env, raws, f, payload[..n - 8]);
      assert (header + payload)[..n] == header + payload[..n - 8];
    }
  }

  lemma HeaderThenPayload(env: Env, raws: seq<Bytes>, f: Frame)
    requires FrameOk(env, f)
    ensures EncodeFrame(env, raws, f) == FrameHeader(env, raws, f) + Payload(env, raws, f)
  {
  }

  /** A writer that fails in the middle of a frame has delivered exactly the frames before it. */
  lemma TornRun(env: Env, fs: seq<Frame>, f: Frame, n: nat)
    requires EnvLaw(env) && FramesOk(env, fs) && RunOk(env, [], fs) && FrameOk(env, f)
    requires |Payload(env, RunRaws(env, [], fs), f)| < 0x100_0000
    requires n < |EncodeFrame(env, RunRaws(env, [], fs), f)|
    ensures DecodeAll(env, [], EncodeAll(env, [], fs) + EncodeFrame(env, RunRaws(env, [], fs), f)[..n]) ==
      (MaskedAll(fs), if n < 8 then ConnectionClosed else Io)
  {
    hide DecodeFrame, EncodeFrame, Payload, RunOk, EncodeAll, RunRaws;
    var raws := RunRaws(env, [], fs);
    var torn := EncodeFrame(env, raws, f)[..n];
    RunRoundTrip(env, [], fs, torn);
    TornFrame(env, raws, f, Chunks(env.zlib, raws), n);
    assert MaskedAll(fs) + [] == MaskedAll(fs);
  }

  // ---------------------------------------------------------------------------
  // A frame the library cannot read back although it is small
  // ---------------------------------------------------------------------------

  function PlainHttp(): Http {
    Http((raw: Bytes) => Some(raw), (v: Bytes) => NulFree(v))
  }

  function LongValue(): Value {
    seq(600, i => 97)
  }

  function LongReply(): Frame {
    SynReply(1, map[[120] := [LongValue()]], 0)
  }

  /**
   * The same reply sent twice, with one header of 600 bytes. A coder with a memory refers back to the first block, as
   * deflate does; the second chunk, 16 bytes with its sync-flush marker, gives the reader a vector of 576 bytes, which
   * cuts the block. Both are written without error; the first is read and the second is refused.
   */
  lemma RepeatedHeadersAreLost()
    ensures exists env: Env ::
      && EnvLaw(env) && FrameOk(env, LongReply()) && InRange(LongReply())
      && FirstIsRead(env) && SecondIsRefused(env)
  {
    hide DecodeFrame, EncodeFrame, NulFree, EncodeBlock, FrameOk, InRange, FirstIsRead, SecondIsRefused, Chunks;
    var env := Env(Repeating(), PlainHttp());
    LongReplyIsFine(env);
    OneEntryBlock([120], LongValue());
    RepeatingObeysTheLaw();
    FirstReply(env);
    SecondReply(env);
    assert EnvLaw(env);
  }

  ghost predicate FirstIsRead(env: Env)
    requires FrameOk(env, LongReply())
  {
    forall tail :: DecodeFrame(env, [], EncodeFrame(env, [], LongReply()) + tail) ==
      Decoded(Ok(LongReply()), Chunks(env.zlib, [EncodeBlock(LongReply().headers)]), tail)
  }

  ghost predicate SecondIsRefused(env: Env)
    requires FrameOk(env, LongReply())
  {
    var raws := [EncodeBlock(LongReply().headers)];
    && |Payload(env, raws, LongReply())| == 20
    && forall tail :: DecodeFrame(env, Chunks(env.zlib, raws), EncodeFrame(env, raws, LongReply()) + tail) ==
         Decoded(Err(Protocol), Chunks(env.zlib, NextRaws(env, raws, LongReply())), tail)
  }

  lemma FirstReply(env: Env)
    requires env == Env(Repeating(), PlainHttp()) && EnvLaw(env) && FrameOk(env, LongReply()) && InRange(LongReply())
    requires |EncodeBlock(LongReply().headers)| < 0x1000
    ensures FirstIsRead(env)
  {
    hide DecodeFrame, EncodeFrame, EncodeBlock, InRange;
    var block := EncodeBlock(LongReply().headers);
    assert [] + [block] == [block];
    InRangeIsUnmasked(LongReply());
    forall tail
      ensures DecodeFrame(env, [], EncodeFrame(env, [], LongReply()) + tail) ==
        Decoded(Ok(LongReply()), Chunks(env.zlib, [block]), tail)
    {
      FrameRoundTrip(env, [], LongReply(), tail);
    }
  }

  lemma SecondReply(env: Env)
    requires env == Env(Repeating(), PlainHttp()) && EnvLaw(env) && FrameOk(env, LongReply()) && InRange(LongReply())
    requires 600 <= |EncodeBlock(LongReply().headers)| < 0x1000
    ensures SecondIsRefused(env)
  {
    hide DecodeFrame, EncodeFrame, EncodeBlock, InRange, Encodable;
    var block := EncodeBlock(LongReply().headers);
    ShortBlockIsEncodable(LongReply().headers);
    assert Init([block]) == [] && Last([block]) == block;
    forall tail
      ensures DecodeFrame(env, Chunks(env.zlib, [block]), EncodeFrame(env, [block], LongReply()) + tail) ==
        Decoded(Err(Protocol), Chunks(env.zlib, NextRaws(env, [block], LongReply())), tail)
    {
      LongBlockIsRefused(env, [block], LongReply(), tail);
    }
  }

  lemma LongReplyIsFine(env: Env)
    requires env.http == PlainHttp()
    ensures FrameOk(env, LongReply()) && InRange(LongReply())
  {
    hide NulFree;
    var v := LongValue();
    assert NulFree(v) by { assert forall i :: 0 <= i < |v| ==> v[i] == 97; HasNoNul(v); }
    assert HeadersOk(env.http, LongReply().headers);
  }

  lemma HasNoNul(v: Value)
    requires forall i :: 0 <= i < |v| ==> v[i] == 97
    ensures NulFree(v)
  {
  }

  /** A block with one name and one value is these two and twelve bytes of counts. */
  lemma OneEntryBlock(n: Name, v: Value)
    ensures |EncodeBlock(map[n := [v]])| == |n| + |v| + 12
  {
    var items := [Item(n, v)];
    assert Init(items) == [] && Last(items) == Item(n, v);
    MultimapAppend([], n, v);
    MultimapNothing();
    assert [] + items == items && [] + [v] == [v];
    CollectIsCanonical(items);
    assert Multimap(items) == map[n := [v]];
    assert Collect(items) == [Entry(n, v)] && Entries([]) == [];
    assert [Entry(n, v)][1..] == [];
    assert Entries([Entry(n, v)]) == Field(n) + Field(v) + [];
  }

  // ---------------------------------------------------------------------------
  // The framer object
  // ---------------------------------------------------------------------------

  /** What a transport with that much room left takes of some bytes before it fails; None never fails. */
  function Taken(room: Option<nat>, b: Bytes): Bytes {
    if room.None? || |b| <= room.value then b else b[..room.value]
  }

  function RoomAfter(room: Option<nat>, b: Bytes): Option<nat> {
    if room.None? then None else Some(room.value - |Taken(room, b)|)
  }

  function Outcome(room: Option<nat>, b: Bytes): Result<()> {
    if Taken(room, b) == b then Ok(()) else Err(Io)
  }

  lemma TakenInTwo(room: Option<nat>, a: Bytes, b: Bytes)
    requires Taken(room, a) == a
    ensures Taken(room, a + b) == a + Taken(RoomAfter(room, a), b)
    ensures RoomAfter(room, a + b) == RoomAfter(RoomAfter(room, a), b)
    ensures Outcome(room, a + b) == Outcome(RoomAfter(room, a), b)
  {
    var all := Taken(room, a + b);
    assert all == a + Taken(RoomAfter(room, a), b);
    if all == a + b {
      assert all[|a|..] == b;
    }
  }

  lemma TakenFirstPart(room: Option<nat>, a: Bytes, b: Bytes)
    requires Taken(room, a) != a
    ensures Taken(room, a + b) == Taken(room, a) && Outcome(room, a + b) == Err(Io)
    ensures RoomAfter(room, a + b) == RoomAfter(room, a)
  {
    assert (a + b)[..room.value] == a[..room.value];
  }

  class Framer {
    const env: Env
    /** The transport's outgoing bytes, and how many more it takes. */
    var written: Bytes
    var room: Option<nat>
    /** The incoming bytes not yet consumed. */
    var input: Bytes
    /** The coders' histories. */
    var raws: seq<Bytes>
    var chunks: seq<Bytes>

    constructor (env: Env, room: Option<nat>, input: Bytes)
      ensures this.env == env && this.room == room && this.input == input
      ensures written == [] && raws == [] && chunks == []
    {
      this.env, this.room, this.input := env, room, input;
      written, raws, chunks := [], [], [];
    }

    /** The transport was handed exactly these bytes. */
    twostate predicate Wrote(b: Bytes, new r: Result<()>)
      reads this
    {
      && written == old(written) + Taken(old(room), b)
      && room == RoomAfter(old(room), b)
      && r == Outcome(old(room), b)
    }

    method WriteAll(b: Bytes) returns (r: Result<()>)
      modifies `written, `room
      ensures Wrote(b, r)
    {
      var part := Taken(room, b);
      written := written + part;
      r := if |part| == |b| then Ok(()) else Err(Io);
      room := RoomAfter(room, b);
    }

    method WriteControlFrame(frameType: nat, flags: u8, payload: Bytes) returns (r: Result<()>)
      requires frameType < 0x1_0000
      modifies `written, `room
      ensures Wrote(ControlHeader(frameType, flags, |payload|) + payload, r)
    {
      r := WriteBoth(ControlHeader(frameType, flags, |payload|), payload);
    }

    method WriteDataFrame(streamId: u32, flags: u8, data: Bytes) returns (r: Result<()>)
      modifies `written, `room
      ensures Wrote(DataHeader(streamId, flags, |data|) + data, r)
    {
      r := WriteBoth(DataHeader(streamId, flags, |data|), data);
    }

    /** The header, and the payload unless the header failed. */
    method WriteBoth(header: Bytes, payload: Bytes) returns (r: Result<()>)
      modifies `written, `room
      ensures Wrote(header + payload, r)
    {
      hide Taken, RoomAfter;
      r := WriteAll(header);
      if r.Err? {
        TakenFirstPart(old(room), header, payload);
        return;
      }
      TakenInTwo(old(room), header, payload);
      label half:
      r := WriteAll(payload);
      ConcatAssoc(old(written), header, Taken(old@half(room), payload));
    }

    /** The names of the header map in some order, each with all its values. */
    method Iterate(h: HeaderMap) returns (items: seq<Item>)
      requires HeadersOk(env.http, h)
      ensures Multimap(items) == h
    {
      hide CoversAllBut;
      items := [];
      var todo := h.Keys;
      NothingCovered(h);
      while todo != {}
        invariant todo <= h.Keys && CoversAllBut(h, items, todo)
        decreases |todo|
      {
        var n :| n in todo;
        OneMoreCovered(h, items, todo, n);
        items := items + Tag(n, h[n]);
        todo := todo - {n};
      }
      AllCovered(h, items);
    }

    method CompressHeaders(h: HeaderMap) returns (chunk: Bytes)
      requires HeadersOk(env.http, h)
      modifies `raws
      ensures chunk == Chunk(env, old(raws), h) && raws == old(raws) + [EncodeBlock(h)]
    {
      var items := Iterate(h);
      var raw := EncodeHeaders(items);
      chunk := env.zlib.deflate(raws, raw);
      raws := raws + [raw];
    }

    method DecompressHeaders(chunk: Bytes) returns (r: Result<HeaderMap>)
      modifies `chunks
      ensures r == Decompress(env, old(chunks), chunk) && chunks == old(chunks) + [chunk]
    {
      var output := env.zlib.inflate(chunks, chunk);
      chunks := chunks + [chunk];
      if output.None? { return Err(Compression); }
      r := ParseHeaderBlock(env.http, output.value);
    }

    method WriteSynStream(id: u32, assoc: u32, priority: u8, headers: HeaderMap, flags: u8) returns (r: Result<()>)
      requires HeadersOk(env.http, headers)
      modifies `written, `room, `raws
      ensures Wrote(EncodeFrame(env, old(raws), SynStream(id, assoc, priority, headers, flags)), r)
      ensures raws == old(raws) + [EncodeBlock(headers)]
    {
      hide Taken, RoomAfter, ToBytes, ControlHeader;
      var chunk := CompressHeaders(headers);
      var payload := ToBytes(Low31(id)) + (ToBytes(Low31(assoc)) + ([priority % 8 * 32, 0] + chunk));
      r := WriteControlFrame(TYPE_SYN_STREAM, flags, payload);
    }

    method WriteSynReply(id: u32, headers: HeaderMap, flags: u8) returns (r: Result<()>)
      requires HeadersOk(env.http, headers)
      modifies `written, `room, `raws
      ensures Wrote(EncodeFrame(env, old(raws), SynReply(id, headers, flags)), r)
      ensures raws == old(raws) + [EncodeBlock(headers)]
    {
      hide Taken, RoomAfter, ToBytes, ControlHeader;
      var chunk := CompressHeaders(headers);
      r := WriteControlFrame(TYPE_SYN_REPLY, flags, ToBytes(Low31(id)) + chunk);
    }

    method WriteHeaders(id: u32, headers: HeaderMap, flags: u8) returns (r: Result<()>)
      requires HeadersOk(env.http, headers)
      modifies `written, `room, `raws
      ensures Wrote(EncodeFrame(env, old(raws), Headers(id, headers, flags)), r)
      ensures raws == old(raws) + [EncodeBlock(headers)]
    {
      hide Taken, RoomAfter, ToBytes, ControlHeader;
      var chunk := CompressHeaders(headers);
      r := WriteControlFrame(TYPE_HEADERS, flags, ToBytes(Low31(id)) + chunk);
    }

    method WriteSettings(settings: seq<Setting>, flags: u8) returns (r: Result<()>)
      modifies `written, `room
      ensures Wrote(EncodeFrame(env, raws, Settings(settings, flags)), r)
    {
      hide Taken, RoomAfter, ToBytes, ControlHeader, SettingBytes;
      var payload := ToBytes(AsU32(|settings|));
      assert payload + SettingsBytes(settings[..0]) == payload;
      for i := 0 to |settings|
        invariant payload == ToBytes(AsU32(|settings|)) + SettingsBytes(settings[..i])
      {
        assert Init(settings[..i + 1]) == settings[..i];
        payload := payload + SettingBytes(settings[i]);
      }
      assert settings[..|settings|] == settings;
      r := WriteControlFrame(TYPE_SETTINGS, flags, payload);
    }

    /** Hands the frame's bytes to the transport; a failing transport has taken a strict prefix of them. */
    method WriteFrame(f: Frame) returns (r: Result<()>)
      requires FrameOk(env, f)
      modifies `written, `room, `raws
      ensures Wrote(EncodeFrame(env, old(raws), f), r)
      ensures raws == NextRaws(env, old(raws), f)
    {
      hide Taken, RoomAfter, ToBytes, ControlHeader, DataHeader;
      match f
      case SynStream(id, assoc, priority, headers, flags) => r := WriteSynStream(id, assoc, priority, headers, flags);
      case SynReply(id, headers, flags) => r := WriteSynReply(id, headers, flags);
      case RstStream(id, status) =>
        r := WriteControlFrame(TYPE_RST_STREAM, 0, ToBytes(Low31(id)) + ToBytes(RstCode(status)));
      case Settings(settings, flags) => r := WriteSettings(settings, flags);
      case Ping(id) => r := WriteControlFrame(TYPE_PING, 0, ToBytes(id));
      case GoAway(id, status) =>
        r := WriteControlFrame(TYPE_GOAWAY, 0, ToBytes(Low31(id)) + ToBytes(GoAwayCode(status)));
      case Headers(id, headers, flags) => r := WriteHeaders(id, headers, flags);
      case WindowUpdate(id, delta) =>
        r := WriteControlFrame(TYPE_WINDOW_UPDATE, 0, ToBytes(Low31(id)) + ToBytes(Low31(delta)));
      case Data(id, flags, data) => r := WriteDataFrame(id, flags, data);
    }

    method ReadFrame() returns (r: Result<Frame>)
      modifies `input, `chunks
      ensures Decoded(r, chunks, input) == DecodeFrame(env, old(chunks), old(input))
    {
      hide ParseControl, ReadHead;
      if |input| < 8 {
        input := [];
        return Err(ConnectionClosed);
      }
      var head := ReadHead(input);
      input := input[8..];
      if head.ControlHead? && head.version != SPDY_VERSION { return Err(Protocol); }
      if |input| < head.length {
        input := [];
        return Err(Io);
      }
      var payload := input[..head.length];
      assert payload == old(input)[8..8 + head.length];
      input := input[head.length..];
      assert input == old(input)[8 + head.length..];
      match head
      case DataHead(streamId, flags, _) => r := Ok(Data(streamId, flags, payload));
      case ControlHead(_, frameType, flags, _) => r := ParseControlFrame(frameType, flags, payload);
    }

    method ParseControlFrame(frameType: nat, flags: u8, p: Bytes) returns (r: Result<Frame>)
      modifies `chunks
      ensures (r, chunks) == ParseControl(env, old(chunks), frameType, flags, p)
    {
      hide FromBytes, HeaderFrame, Decompress;
      if IsHeaderType(frameType) {
        r := ParseCompressed(frameType, flags, p);
      } else if frameType == TYPE_RST_STREAM {
        r := ParseRstStream(p);
      } else if frameType == TYPE_SETTINGS {
        r := ReadSettings(flags, p);
      } else if frameType == TYPE_PING {
        r := ParsePing(p);
      } else if frameType == TYPE_GOAWAY {
        r := ParseGoAway(p);
      } else if frameType == TYPE_WINDOW_UPDATE {
        r := ParseWindowUpdate(p);
      } else {
        r := Err(UnknownFrameType(frameType));
      }
    }

    /** SYN_STREAM, SYN_REPLY and HEADERS: the fixed part, then the compressed block. */
    method ParseCompressed(frameType: nat, flags: u8, p: Bytes) returns (r: Result<Frame>)
      requires IsHeaderType(frameType)
      modifies `chunks
      ensures (r, chunks) == ParseHeaderFrame(env, old(chunks), frameType, flags, p)
    {
      hide FromBytes, HeaderFrame, Decompress;
      var start := ChunkStart(frameType);
      if |p| < start { return Err(Protocol); }
      var headers := DecompressHeaders(p[start..]);
      if headers.Err? { return Err(headers.error); }
      r := Ok(HeaderFrame(frameType, flags, p, headers.value));
    }

    method ReadSettings(flags: u8, p: Bytes) returns (r: Result<Frame>)
      ensures r == ParseSettings(flags, p)
    {
      hide FromBytes, SettingAt;
      if |p| < 4 { return Err(Protocol); }
      var count: nat := FromBytes(p);
      if |p| < 4 + count * 8 { return Err(Protocol); }
      var settings: seq<Setting> := [];
      for i := 0 to count
        invariant |settings| == i
        invariant forall j :: 0 <= j < i ==> settings[j] == SettingAt(p, 4 + j * 8)
      {
        settings := settings + [SettingAt(p, 4 + i * 8)];
      }
      assert settings == ParseSettings(flags, p).value.settings;
      r := Ok(Settings(settings, flags));
    }
  }

  /** The items have the values of all names of the map but these. */
  ghost predicate CoversAllBut(h: HeaderMap, items: seq<Item>, todo: set<Name>) {
    forall n :: ValuesFor(items, n) == if n in todo then [] else ValuesIn(h, n)
  }

  lemma NothingCovered(h: HeaderMap)
    ensures CoversAllBut(h, [], h.Keys)
  {
  }

  lemma OneMoreCovered(h: HeaderMap, items: seq<Item>, todo: set<Name>, n: Name)
    requires CoversAllBut(h, items, todo) && n in todo && n in h
    ensures CoversAllBut(h, items + Tag(n, h[n]), todo - {n})
  {
    hide ValuesFor, Tag;
    forall m ensures ValuesFor(items + Tag(n, h[n]), m) == if m in todo - {n} then [] else ValuesIn(h, m) {
      ValuesForConcat(items, Tag(n, h[n]), m);
      ValuesForTag(n, h[n], m);
      assert [] + h[n] == h[n] && ValuesFor(items, m) + [] == ValuesFor(items, m);
    }
  }

  lemma AllCovered(h: HeaderMap, items: seq<Item>)
    requires CoversAllBut(h, items, {}) && forall n :: n in h ==> |h[n]| > 0
    ensures Multimap(items) == h
  {
    hide ValuesFor;
    assert forall n :: ValuesFor(items, n) == ValuesIn(h, n);
    MultimapIs(items, h);
  }
}
