/** The frames of SPDY/3.1 as the library represents them. */
module Frame {
  import opened Octets

  const FLAG_FIN: u8 := 1
  const DATA_FLAG_FIN: u8 := 1

  type Name = Bytes
  type Value = Bytes

  /** A header multimap up to the library's equality: iteration order of the names is not part of the value. */
  type HeaderMap = map<Name, seq<Value>>

  datatype RstStatus =
    | ProtocolError | InvalidStream | RefusedStream | UnsupportedVersion | Cancel | InternalError
    | FlowControlError | StreamInUse | StreamAlreadyClosed | InvalidCredentials | FrameTooLarge

  datatype GoAwayStatus = GoAwayOk | GoAwayProtocolError | GoAwayInternalError

  datatype Setting = Setting(id: u32, flags: u8, value: u32)

  datatype Frame =
    | SynStream(streamId: u32, associatedStreamId: u32, priority: u8, headers: HeaderMap, flags: u8)
    | SynReply(streamId: u32, headers: HeaderMap, flags: u8)
    | RstStream(streamId: u32, status: RstStatus)
    | Settings(settings: seq<Setting>, flags: u8)
    | Ping(id: u32)
    | GoAway(lastGoodStreamId: u32, goAwayStatus: GoAwayStatus)
    | Headers(streamId: u32, headers: HeaderMap, flags: u8)
    | WindowUpdate(streamId: u32, delta: u32)
    | Data(streamId: u32, flags: u8, data: Bytes)

  /** `flags & FIN != 0`; the bit has the same value in control and data frames. */
  predicate HasFin(flags: u8) {
    flags % 2 == 1
  }

  /** FIN is the lowest bit, whatever other flags are set. */
  lemma FinIsTheLowestBit(flags: u8)
    ensures HasFin(flags) <==> (flags as bv8) & 1 == 1
  {
  }

  function RstCode(s: RstStatus): u32 {
    match s
    case ProtocolError => 1
    case InvalidStream => 2
    case RefusedStream => 3
    case UnsupportedVersion => 4
    case Cancel => 5
    case InternalError => 6
    case FlowControlError => 7
    case StreamInUse => 8
    case StreamAlreadyClosed => 9
    case InvalidCredentials => 10
    case FrameTooLarge => 11
  }

  function RstFromCode(v: u32): Option<RstStatus> {
    match v
    case 1 => Some(ProtocolError)
    case 2 => Some(InvalidStream)
    case 3 => Some(RefusedStream)
    case 4 => Some(UnsupportedVersion)
    case 5 => Some(Cancel)
    case 6 => Some(InternalError)
    case 7 => Some(FlowControlError)
    case 8 => Some(StreamInUse)
    case 9 => Some(StreamAlreadyClosed)
    case 10 => Some(InvalidCredentials)
    case 11 => Some(FrameTooLarge)
    case _ => None
  }

  function GoAwayCode(s: GoAwayStatus): u32 {
    match s
    case GoAwayOk => 0
    case GoAwayProtocolError => 1
    case GoAwayInternalError => 2
  }

  /** Never fails: an unknown code is taken for Ok. */
  function GoAwayFromCode(v: u32): GoAwayStatus {
    match v
    case 1 => GoAwayProtocolError
    case 2 => GoAwayInternalError
    case _ => GoAwayOk
  }

  /**
   * Both conversions invert the enum's numeric representation; RST codes outside 1..11 are refused, and all unknown
   * GOAWAY codes become Ok, so exactly 1 and 2 are heard as errors.
   */
  lemma StatusCodesInvert(r: RstStatus, g: GoAwayStatus, v: u32)
    ensures RstFromCode(RstCode(r)) == Some(r)
    ensures GoAwayFromCode(GoAwayCode(g)) == g
    ensures RstFromCode(v).Some? <==> 1 <= v <= 11
    ensures RstFromCode(v).Some? ==> RstCode(RstFromCode(v).value) == v
    ensures GoAwayFromCode(v) == GoAwayOk <==> v == 0 || v > 2
    ensures v <= 2 ==> GoAwayCode(GoAwayFromCode(v)) == v
  {
  }

  /** What the reader makes of the id, priority and delta fields: their reserved bits are dropped. */
  function Masked(f: Frame): Frame {
    match f
    case SynStream(id, assoc, priority, headers, flags) =>
      SynStream(Low31(id), Low31(assoc), priority % 8, headers, flags)
    case SynReply(id, headers, flags) => SynReply(Low31(id), headers, flags)
    case RstStream(id, status) => RstStream(Low31(id), status)
    case Settings(settings, flags) => Settings(MaskedSettings(settings), flags)
    case Ping(id) => f
    case GoAway(id, status) => GoAway(Low31(id), status)
    case Headers(id, headers, flags) => Headers(Low31(id), headers, flags)
    case WindowUpdate(id, delta) => WindowUpdate(Low31(id), Low31(delta))
    case Data(id, flags, data) => Data(Low31(id), flags, data)
  }

  function MaskedSettings(ss: seq<Setting>): seq<Setting> {
    seq(|ss|, i requires 0 <= i < |ss| => ss[i].(id := Low24(ss[i].id)))
  }

  /** 31-bit ids and deltas, 3-bit priorities, 24-bit setting ids. */
  ghost predicate InRange(f: Frame) {
    match f
    case SynStream(id, assoc, priority, _, _) => id < 0x8000_0000 && assoc < 0x8000_0000 && priority < 8
    case SynReply(id, _, _) => id < 0x8000_0000
    case RstStream(id, _) => id < 0x8000_0000
    case Settings(settings, _) => forall s :: s in settings ==> s.id < 0x100_0000
    case Ping(_) => true
    case GoAway(id, _) => id < 0x8000_0000
    case Headers(id, _, _) => id < 0x8000_0000
    case WindowUpdate(id, delta) => id < 0x8000_0000 && delta < 0x8000_0000
    case Data(id, _, _) => id < 0x8000_0000
  }

  lemma InRangeIsUnmasked(f: Frame)
    ensures InRange(f) <==> Masked(f) == f
  {
    if f.Settings? {
      forall i | 0 <= i < |f.settings| && f.settings[i].id >= 0x100_0000
        ensures MaskedSettings(f.settings)[i] != f.settings[i]
      {
      }
      if InRange(f) {
        forall i | 0 <= i < |f.settings| ensures MaskedSettings(f.settings)[i] == f.settings[i] {
          assert f.settings[i] in f.settings;
        }
        assert MaskedSettings(f.settings) == f.settings;
      }
    }
  }
}
