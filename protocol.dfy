/**
 * The network (UDP) wire format shared by the PSP plugin and the desktop
 * companion: a 5-byte header ("PSPR" and a type byte) followed by a packed
 * little-endian payload.  The decoders are those of the companion; the
 * encoders give the packed layouts the plugin sends, so that each decoder
 * can be checked against the bytes it is meant to read.
 */
module Protocol {
  import opened Common

  /** "PSPR", the first four bytes of every packet. */
  const MAGIC: seq<Byte> := [0x50, 0x53, 0x50, 0x52]
  const HEADER_SIZE: nat := 5

  /** "1.0.0", the companion's protocol version. */
  const VERSION: seq<Byte> := [0x31, 0x2E, 0x30, 0x2E, 0x30]

  datatype MessageType =
    | Heartbeat | GameInfo | IconChunk | IconEnd | DiscoveryResponse   // PSP -> desktop
    | Ack | DiscoveryRequest                                            // desktop -> PSP

  function TypeCode(t: MessageType): (r: Byte)
    ensures MessageTypeOf(r) == Some(t)
  {
    match t
    case Heartbeat => 0x01
    case GameInfo => 0x02
    case IconChunk => 0x03
    case IconEnd => 0x04
    case Ack => 0x10
    case DiscoveryRequest => 0x20
    case DiscoveryResponse => 0x21
  }

  /** `MessageType::try_from`: the seven known codes, anything else fails. */
  function MessageTypeOf(b: Byte): (r: Option<MessageType>)
    ensures r.Some? <==> b in {0x01, 0x02, 0x03, 0x04, 0x10, 0x20, 0x21}
  {
    match b
    case 0x01 => Some(Heartbeat)
    case 0x02 => Some(GameInfo)
    case 0x03 => Some(IconChunk)
    case 0x04 => Some(IconEnd)
    case 0x10 => Some(Ack)
    case 0x20 => Some(DiscoveryRequest)
    case 0x21 => Some(DiscoveryResponse)
    case _ => None
  }

  /** Distinct message types have distinct codes, so decoding a code is exact. */
  lemma TypeCodeInjective(t: MessageType, u: MessageType)
    ensures TypeCode(t) == TypeCode(u) ==> t == u
  {
  }

  datatype PspState = Xmb | Game | Homebrew | Video | Music

  function StateCode(s: PspState): (r: Byte)
    ensures r <= 4 && StateOf(r) == Some(s)
  {
    match s
    case Xmb => 0
    case Game => 1
    case Homebrew => 2
    case Video => 3
    case Music => 4
  }

  /** `PspState::try_from`: codes 0 to 4. */
  function StateOf(b: Byte): (r: Option<PspState>)
    ensures r.Some? <==> b <= 4
  {
    match b
    case 0 => Some(Xmb)
    case 1 => Some(Game)
    case 2 => Some(Homebrew)
    case 3 => Some(Video)
    case 4 => Some(Music)
    case _ => None
  }

  /** `PspState::try_from(b).unwrap_or_default()`: unknown codes read as Xmb. */
  function StateOrXmb(b: Byte): (r: PspState)
    ensures b > 4 ==> r == Xmb
    ensures b <= 4 ==> StateCode(r) == b
  {
    match StateOf(b)
    case Some(s) => s
    case None => Xmb
  }

  // ---------------------------------------------------------------------
  // Framing
  // ---------------------------------------------------------------------

  /** The header `send_packet` writes in front of every payload. */
  function Frame(t: MessageType, payload: seq<Byte>): (r: seq<Byte>)
    ensures |r| == HEADER_SIZE + |payload| && r[HEADER_SIZE..] == payload
  {
    MAGIC + [TypeCode(t)] + payload
  }

  /**
   * `parse_packet`: a packet of at least five bytes that starts with the
   * magic and carries a known type gives that type and everything after the
   * header; anything else is an error.  No index outside `data` is read.
   */
  function ParsePacket(data: seq<Byte>): (r: Result<(MessageType, seq<Byte>)>)
    ensures r.Ok? <==> |data| >= HEADER_SIZE && data[..4] == MAGIC && MessageTypeOf(data[4]).Some?
    ensures r.Ok? ==> TypeCode(r.value.0) == data[4] && r.value.1 == data[HEADER_SIZE..]
  {
    if |data| < HEADER_SIZE then Err("Packet too short")
    else if data[..4] != MAGIC then Err("Invalid magic bytes")
    else match MessageTypeOf(data[4])
      case None => Err("Unknown message type")
      case Some(t) => Ok((t, data[HEADER_SIZE..]))
  }

  /** A framed payload parses back to its type and payload. */
  lemma FrameRoundTrip(t: MessageType, payload: seq<Byte>)
    ensures ParsePacket(Frame(t, payload)) == Ok((t, payload))
  {
    assert Frame(t, payload)[..4] == MAGIC;
  }

  // ---------------------------------------------------------------------
  // Heartbeat: u32 uptime, u8 wifi strength (5 bytes)
  // ---------------------------------------------------------------------

  datatype HeartbeatMsg = HeartbeatMsg(uptimeSeconds: nat, wifiStrength: Byte)

  function EncodeHeartbeat(m: HeartbeatMsg): (r: seq<Byte>)
    requires m.uptimeSeconds < U32_LIMIT
    ensures |r| == 5
  {
    U32Bytes(m.uptimeSeconds) + [m.wifiStrength]
  }

  /** `Heartbeat::decode`: needs 5 bytes; re-encoding gives back those 5. */
  function DecodeHeartbeat(data: seq<Byte>): (r: Result<HeartbeatMsg>)
    ensures r.Ok? <==> |data| >= 5
    ensures r.Ok? ==> r.value.uptimeSeconds < U32_LIMIT && EncodeHeartbeat(r.value) == data[..5]
  {
    if |data| < 5 then Err("Heartbeat too short")
    else
      var m := HeartbeatMsg(U32At(data, 0), data[4]);
      assert EncodeHeartbeat(m) == data[..5] by { U32BytesOfRead(data, 0); }
      Ok(m)
  }

  /** Reading four bytes as a u32 and writing the value back gives the same bytes. */
  lemma U32BytesOfRead(s: seq<Byte>, i: nat)
    requires i + 4 <= |s|
    ensures U32Bytes(U32At(s, i)) == s[i..i + 4]
  {
    var lo, hi := U16At(s, i), U16At(s, i + 2);
    assert (lo + U16_LIMIT * hi) % U16_LIMIT == lo;
    assert (lo + U16_LIMIT * hi) / U16_LIMIT == hi;
    assert U16Bytes(lo) == s[i..i + 2];
    assert U16Bytes(hi) == s[i + 2..i + 4];
  }

  lemma HeartbeatRoundTrip(m: HeartbeatMsg, trailer: seq<Byte>)
    requires m.uptimeSeconds < U32_LIMIT
    ensures DecodeHeartbeat(EncodeHeartbeat(m) + trailer) == Ok(m)
  {
    var data := EncodeHeartbeat(m) + trailer;
    U32RoundTrip(data, 0, m.uptimeSeconds);
  }

  // ---------------------------------------------------------------------
  // Game info: id[10], title[128], u32 start, state, has_icon, persistent,
  // psp_name[32] (177 bytes; older senders stop after has_icon at 144)
  // ---------------------------------------------------------------------

  datatype GameInfoMsg = GameInfoMsg(
    gameId: seq<Byte>, title: seq<Byte>, startTime: nat, state: PspState,
    hasIcon: bool, persistent: bool, pspName: seq<Byte>)

  /** Text a C plugin can put in a field of `size` bytes. */
  predicate FitsField(s: seq<Byte>, size: nat)
  {
    0 !in s && |s| < size
  }

  predicate ValidGameInfo(m: GameInfoMsg)
  {
    FitsField(m.gameId, 10) && FitsField(m.title, 128) && FitsField(m.pspName, 32)
    && m.startTime < U32_LIMIT
  }

  function Flag(b: bool): Byte { if b then 1 else 0 }

  /** The packed `GameInfoPacket` of the plugin. */
  function EncodeGameInfo(m: GameInfoMsg): (r: seq<Byte>)
    requires m.startTime < U32_LIMIT
    ensures |r| == 177
  {
    Field(m.gameId, 10) + Field(m.title, 128) + U32Bytes(m.startTime)
    + [StateCode(m.state), Flag(m.hasIcon), Flag(m.persistent)] + Field(m.pspName, 32)
  }

  /**
   * `GameInfo::decode`: at least 144 bytes are needed.  `persistent` is read
   * only when byte 144 is present and `psp_name` only when the whole
   * 177-byte packet is; an unknown state byte reads as Xmb.
   */
  function DecodeGameInfo(data: seq<Byte>): (r: Result<GameInfoMsg>)
    ensures r.Ok? <==> |data| >= 144
    ensures r.Ok? ==> r.value.persistent == (|data| > 144 && data[144] != 0)
    ensures r.Ok? && |data| < 177 ==> r.value.pspName == []
    ensures r.Ok? && data[142] > 4 ==> r.value.state == Xmb
    ensures r.Ok? ==> r.value.hasIcon == (data[143] != 0)
  {
    if |data| < 144 then Err("GameInfo too short")
    else
      Ok(GameInfoMsg(
        gameId := ReadString(data[0..10]),
        title := ReadString(data[10..138]),
        startTime := U32At(data, 138),
        state := StateOrXmb(data[142]),
        hasIcon := data[143] != 0,
        persistent := if |data| > 144 then data[144] != 0 else false,
        pspName := if |data| >= 177 then ReadString(data[145..177]) else []))
  }

  lemma {:induction false} GameInfoRoundTrip(m: GameInfoMsg)
    requires ValidGameInfo(m)
    ensures DecodeGameInfo(EncodeGameInfo(m)) == Ok(m)
  {
    var d := EncodeGameInfo(m);
    assert d[0..10] == Field(m.gameId, 10);
    assert d[10..138] == Field(m.title, 128);
    assert d[138..142] == U32Bytes(m.startTime);
    assert d[145..177] == Field(m.pspName, 32);
    FieldRoundTrip(m.gameId, 10);
    FieldRoundTrip(m.title, 128);
    FieldRoundTrip(m.pspName, 32);
    U32RoundTrip(d, 138, m.startTime);
  }

  // ---------------------------------------------------------------------
  // Icon chunk: id[10], u16 index, u16 total, u16 length, data
  // ---------------------------------------------------------------------

  datatype IconChunkMsg = IconChunkMsg(gameId: seq<Byte>, chunkIndex: nat, totalChunks: nat, data: seq<Byte>)

  predicate ValidIconChunk(m: IconChunkMsg)
  {
    FitsField(m.gameId, 10) && m.chunkIndex < U16_LIMIT && m.totalChunks < U16_LIMIT
    && |m.data| < U16_LIMIT
  }

  /** The plugin sends the header fields and only `data_length` data bytes. */
  function EncodeIconChunk(m: IconChunkMsg): (r: seq<Byte>)
    requires ValidIconChunk(m)
    ensures |r| == 16 + |m.data|
  {
    Field(m.gameId, 10) + U16Bytes(m.chunkIndex) + U16Bytes(m.totalChunks)
    + U16Bytes(|m.data|) + m.data
  }

  /**
   * `IconChunk::decode`: 16 header bytes are needed, then `data_length`
   * more; the chunk's data is exactly those `data_length` bytes.
   */
  function DecodeIconChunk(data: seq<Byte>): (r: Result<IconChunkMsg>)
    ensures r.Ok? <==> |data| >= 16 && |data| >= 16 + U16At(data, 14)
    ensures r.Ok? ==> |r.value.data| == U16At(data, 14) && r.value.data == data[16..16 + |r.value.data|]
    ensures r.Ok? ==> r.value.chunkIndex == U16At(data, 10) && r.value.totalChunks == U16At(data, 12)
  {
    if |data| < 16 then Err("IconChunk too short")
    else
      var len := U16At(data, 14);
      if |data| < 16 + len then Err("IconChunk data incomplete")
      else Ok(IconChunkMsg(ReadString(data[0..10]), U16At(data, 10), U16At(data, 12), data[16..16 + len]))
  }

  lemma IconChunkRoundTrip(m: IconChunkMsg)
    requires ValidIconChunk(m)
    ensures DecodeIconChunk(EncodeIconChunk(m)) == Ok(m)
  {
    var d := EncodeIconChunk(m);
    assert d[0..10] == Field(m.gameId, 10);
    FieldRoundTrip(m.gameId, 10);
    assert d[10..12] == U16Bytes(m.chunkIndex);
    assert d[12..14] == U16Bytes(m.totalChunks);
    assert d[14..16] == U16Bytes(|m.data|);
    U16RoundTrip(d, 10, m.chunkIndex);
    U16RoundTrip(d, 12, m.totalChunks);
    U16RoundTrip(d, 14, |m.data|);
    assert d[16..16 + |m.data|] == m.data;
    assert ReadString(d[0..10]) == m.gameId;
  }

  // ---------------------------------------------------------------------
  // Icon end: id[10], u32 total size, u32 crc32 (18 bytes)
  // ---------------------------------------------------------------------

  datatype IconEndMsg = IconEndMsg(gameId: seq<Byte>, totalSize: nat, crc32: nat)

  predicate ValidIconEnd(m: IconEndMsg)
  {
    FitsField(m.gameId, 10) && m.totalSize < U32_LIMIT && m.crc32 < U32_LIMIT
  }

  function EncodeIconEnd(m: IconEndMsg): (r: seq<Byte>)
    requires m.totalSize < U32_LIMIT && m.crc32 < U32_LIMIT
    ensures |r| == 18
  {
    Field(m.gameId, 10) + U32Bytes(m.totalSize) + U32Bytes(m.crc32)
  }

  /** `IconEnd::decode`: needs 18 bytes. */
  function DecodeIconEnd(data: seq<Byte>): (r: Result<IconEndMsg>)
    ensures r.Ok? <==> |data| >= 18
    ensures r.Ok? ==> r.value.totalSize < U32_LIMIT && r.value.crc32 < U32_LIMIT
  {
    if |data| < 18 then Err("IconEnd too short")
    else Ok(IconEndMsg(ReadString(data[0..10]), U32At(data, 10), U32At(data, 14)))
  }

  lemma IconEndRoundTrip(m: IconEndMsg)
    requires ValidIconEnd(m)
    ensures DecodeIconEnd(EncodeIconEnd(m)) == Ok(m)
  {
    var d := EncodeIconEnd(m);
    assert d[0..10] == Field(m.gameId, 10);
    FieldRoundTrip(m.gameId, 10);
    U32RoundTrip(d, 10, m.totalSize);
    U32RoundTrip(d, 14, m.crc32);
  }

  // ---------------------------------------------------------------------
  // Discovery
  // ---------------------------------------------------------------------

  datatype DiscoveryResponseMsg = DiscoveryResponseMsg(pspName: seq<Byte>, version: seq<Byte>, batteryPercent: Byte)

  /** The plugin's `DiscoveryResponsePacket`: name[32], version[8], battery. */
  function EncodeDiscoveryResponse(m: DiscoveryResponseMsg): (r: seq<Byte>)
    ensures |r| == 41
  {
    Field(m.pspName, 32) + Field(m.version, 8) + [m.batteryPercent]
  }

  /** `DiscoveryResponse::decode`: needs 41 bytes. */
  function DecodeDiscoveryResponse(data: seq<Byte>): (r: Result<DiscoveryResponseMsg>)
    ensures r.Ok? <==> |data| >= 41
    ensures r.Ok? ==> r.value.batteryPercent == data[40]
  {
    if |data| < 41 then Err("DiscoveryResponse too short")
    else Ok(DiscoveryResponseMsg(ReadString(data[0..32]), ReadString(data[32..40]), data[40]))
  }

  lemma DiscoveryResponseRoundTrip(m: DiscoveryResponseMsg)
    requires FitsField(m.pspName, 32) && FitsField(m.version, 8)
    ensures DecodeDiscoveryResponse(EncodeDiscoveryResponse(m)) == Ok(m)
  {
    var d := EncodeDiscoveryResponse(m);
    assert d[0..32] == Field(m.pspName, 32);
    assert d[32..40] == Field(m.version, 8);
    FieldRoundTrip(m.pspName, 32);
    FieldRoundTrip(m.version, 8);
  }

  /**
   * `DiscoveryRequest::encode`: the whole framed packet, 15 bytes for any
   * version string: header, little-endian listen port, then at most seven
   * version bytes padded with NULs to eight.  The plugin reads the port back
   * from offset 5, and the version field always keeps a terminator.
   */
  function EncodeDiscoveryRequest(listenPort: nat, version: seq<Byte>): (r: seq<Byte>)
    requires listenPort < U16_LIMIT
    ensures |r| == 15
    ensures ParsePacket(r) == Ok((DiscoveryRequest, r[HEADER_SIZE..]))
    ensures U16At(r, HEADER_SIZE) == listenPort
    ensures 0 !in version ==> ReadString(r[7..15]) == version[..Min(|version|, 7)]
  {
    var v := version[..Min(|version|, 7)];
    var r := Frame(DiscoveryRequest, U16Bytes(listenPort) + v + Zeros(8 - |v|));
    assert ParsePacket(r) == Ok((DiscoveryRequest, r[HEADER_SIZE..])) by {
      FrameRoundTrip(DiscoveryRequest, r[HEADER_SIZE..]);
    }
    assert U16At(r, HEADER_SIZE) == listenPort by {
      U16RoundTrip(r, HEADER_SIZE, listenPort);
    }
    assert 0 !in version ==> ReadString(r[7..15]) == v by {
      assert r[7..15] == v + Zeros(8 - |v|);
      if 0 !in version {
        assert 0 !in v;
        ReadStringPadded(v, Zeros(8 - |v|));
      }
    }
    r
  }
}
