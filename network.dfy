/**
 * The network plugin's UDP link: CRC-32, packet framing and sending,
 * the chunked icon upload, the receive poll and the discovery handshake
 * with its configuration write-back.  Sockets are replaced by explicit
 * inputs (the datagram received, the sender's address, the result the
 * stack reports for each send) and a log of the datagrams sent.
 */
module Network {
  import opened Common
  import opened Protocol
  import NetConfig

  // ---------------------------------------------------------------------
  // CRC-32
  // ---------------------------------------------------------------------

  const CRC_POLY: bv32 := 0xEDB88320

  /** One shift of the reflected CRC-32 register. */
  function CrcBit(c: bv32): bv32
  {
    if c & 1 == 1 then (c >> 1) ^ CRC_POLY else c >> 1
  }

  function CrcBits(c: bv32, n: nat): bv32
  {
    if n == 0 then c else CrcBit(CrcBits(c, n - 1))
  }

  /** `crc ^= data[i]`: the byte xored into the low bits of the register. */
  function Mix(c: bv32, b: Byte): bv32
  {
    c ^ (b as bv32)
  }

  /** The register after one more byte. */
  function CrcByte(c: bv32, b: Byte): bv32
  {
    CrcBits(Mix(c, b), 8)
  }

  /** The register after all of `data`, starting from `init`. */
  function CrcRegister(init: bv32, data: seq<Byte>): bv32
  {
    if data == [] then init else CrcByte(CrcRegister(init, data[..|data| - 1]), data[|data| - 1])
  }

  /** The CRC-32 of IEEE 802.3: initial register and final xor all ones. */
  function Crc32(data: seq<Byte>): (r: bv32)
    ensures data == [] ==> r == 0
  {
    CrcRegister(0xFFFF_FFFF, data) ^ 0xFFFF_FFFF
  }

  /** `crc32_calc`; `None` stands for a NULL pointer. */
  method Crc32Calc(data: Option<seq<Byte>>) returns (crc: bv32)
    ensures data.None? ==> crc == 0
    ensures data.Some? ==> crc == Crc32(data.value)
  {
    if data.None? {
      return 0;
    }
    var d := data.value;
    crc := 0xFFFF_FFFF;
    var i := 0;
    while i < |d|
      invariant 0 <= i <= |d|
      invariant crc == CrcRegister(0xFFFF_FFFF, d[..i])
    {
      crc := CrcShift(Mix(crc, d[i]));
      assert d[..i + 1][..i] == d[..i];
      i := i + 1;
    }
    assert d[..|d|] == d;
    crc := crc ^ 0xFFFF_FFFF;
  }

  /** Eight shifts spelled out. */
  lemma CrcByteUnfold(c: bv32, b: Byte)
    ensures var x := Mix(c, b);
      CrcByte(c, b) == CrcBit(CrcBit(CrcBit(CrcBit(CrcBit(CrcBit(CrcBit(CrcBit(x))))))))
  {
    var x := Mix(c, b);
    assert CrcBits(x, 1) == CrcBit(x);
    assert CrcBits(x, 2) == CrcBit(CrcBits(x, 1));
    assert CrcBits(x, 3) == CrcBit(CrcBits(x, 2));
    assert CrcBits(x, 4) == CrcBit(CrcBits(x, 3));
    assert CrcBits(x, 5) == CrcBit(CrcBits(x, 4));
    assert CrcBits(x, 6) == CrcBit(CrcBits(x, 5));
    assert CrcBits(x, 7) == CrcBit(CrcBits(x, 6));
    assert CrcBits(x, 8) == CrcBit(CrcBits(x, 7));
  }

  /** The inner loop of `crc32_calc`: eight shifts of the register. */
  method CrcShift(c: bv32) returns (crc: bv32)
    ensures crc == CrcBits(c, 8)
  {
    crc := c;
    var j := 0;
    while j < 8
      invariant 0 <= j <= 8
      invariant crc == CrcBits(c, j)
    {
      if crc & 1 == 1 {
        crc := (crc >> 1) ^ CRC_POLY;
      } else {
        crc := crc >> 1;
      }
      j := j + 1;
    }
  }

  /** The CRC of no bytes is zero. */
  lemma Crc32Empty()
    ensures Crc32([]) == 0
  {
  }

  /** One byte of `d` processed, with its eight shifts given. */
  lemma RegisterStep(d: seq<Byte>, k: nat, before: bv32, mixed: bv32, after: bv32)
    requires k < |d| && CrcRegister(0xFFFF_FFFF, d[..k]) == before
    requires Mix(before, d[k]) == mixed
    requires CrcBit(CrcBit(CrcBit(CrcBit(CrcBit(CrcBit(CrcBit(CrcBit(mixed)))))))) == after
    ensures CrcRegister(0xFFFF_FFFF, d[..k + 1]) == after
  {
    assert d[..k + 1][..k] == d[..k];
    CrcByteUnfold(before, d[k]);
  }

  const CHECK_INPUT: seq<Byte> := [0x31, 0x32, 0x33, 0x34, 0x35, 0x36, 0x37, 0x38, 0x39]

  /** The register after the first three bytes of the check input. */
  lemma CheckPrefix3()
    ensures CrcRegister(0xFFFF_FFFF, CHECK_INPUT[..3]) == 0x77b7_9c2d
  {
    assert CHECK_INPUT[..0] == [];
    RegisterStep(CHECK_INPUT, 0, 0xffff_ffff, 0xffff_ffce, 0x7c23_1048);
    RegisterStep(CHECK_INPUT, 1, 0x7c23_1048, 0x7c23_107a, 0xb0ac_bb32);
    RegisterStep(CHECK_INPUT, 2, 0xb0ac_bb32, 0xb0ac_bb01, 0x77b7_9c2d);
  }

  lemma CheckPrefix5()
    requires CrcRegister(0xFFFF_FFFF, CHECK_INPUT[..3]) == 0x77b7_9c2d
    ensures CrcRegister(0xFFFF_FFFF, CHECK_INPUT[..5]) == 0x340a_c5e3
  {
    RegisterStep(CHECK_INPUT, 3, 0x77b7_9c2d, 0x77b7_9c19, 0x641c_1f5c);
    RegisterStep(CHECK_INPUT, 4, 0x641c_1f5c, 0x641c_1f69, 0x340a_c5e3);
  }

  lemma CheckPrefix7()
    requires CrcRegister(0xFFFF_FFFF, CHECK_INPUT[..5]) == 0x340a_c5e3
    ensures CrcRegister(0xFFFF_FFFF, CHECK_INPUT[..7]) == 0xaffc_9660
  {
    RegisterStep(CHECK_INPUT, 5, 0x340a_c5e3, 0x340a_c5d5, 0xf68d_2c9e);
    RegisterStep(CHECK_INPUT, 6, 0xf68d_2c9e, 0xf68d_2ca9, 0xaffc_9660);
  }

  lemma CheckPrefix9()
    requires CrcRegister(0xFFFF_FFFF, CHECK_INPUT[..7]) == 0xaffc_9660
    ensures CrcRegister(0xFFFF_FFFF, CHECK_INPUT[..9]) == 0x340b_c6d9
  {
    RegisterStep(CHECK_INPUT, 7, 0xaffc_9660, 0xaffc_9658, 0x651f_2550);
    RegisterStep(CHECK_INPUT, 8, 0x651f_2550, 0x651f_2569, 0x340b_c6d9);
  }

  /** The standard check value: the CRC-32 of "123456789" is 0xCBF43926. */
  lemma Crc32CheckValue()
    ensures Crc32(CHECK_INPUT) == 0xCBF4_3926
  {
    CheckPrefix3();
    CheckPrefix5();
    CheckPrefix7();
    CheckPrefix9();
    assert CHECK_INPUT[..9] == CHECK_INPUT;
  }

  // ---------------------------------------------------------------------
  // Addresses
  // ---------------------------------------------------------------------

  /** An IPv4 address as a 32-bit value, first octet most significant. */
  function Octet(ip: nat, k: nat): (r: nat)
    requires k < 4
    ensures r < 256
  {
    if k == 0 then ip / 0x100_0000 % 256
    else if k == 1 then ip / 0x1_0000 % 256
    else if k == 2 then ip / 0x100 % 256
    else ip % 256
  }

  /** `ipv4_to_str`: "%u.%u.%u.%u". */
  function FormatIpv4(ip: nat): (r: seq<CChar>)
    ensures 7 <= |r| <= 15
  {
    Decimal(Octet(ip, 0)) + "." + Decimal(Octet(ip, 1)) + "." + Decimal(Octet(ip, 2)) + "."
    + Decimal(Octet(ip, 3))
  }

  datatype Addr = Addr(ip: nat, port: nat)

  // ---------------------------------------------------------------------
  // Sending
  // ---------------------------------------------------------------------

  const MAX_PACKET_SIZE: nat := 2048
  const ICON_CHUNK_SIZE: nat := 1024
  const MSG_ACK: Byte := 0x10
  const MSG_ICON_REQUEST: Byte := 0x11
  const MSG_DISCOVERY_REQUEST: Byte := 0x20
  /** The plugin's protocol version string, "0.2.0". */
  const PLUGIN_VERSION: seq<Byte> := [0x30, 0x2E, 0x32, 0x2E, 0x30]

  /** The game-id field of the icon packets: `copy_str(field, 10, game_id)`. */
  function IdField(gameId: seq<Byte>): (r: seq<Byte>)
    ensures FitsField(r, 10)
  {
    CopyStr(CString(gameId), 10)
  }

  /** `total_chunks`, computed in 16 bits. */
  function IconChunkCount(size: nat): (r: nat)
    ensures r < U16_LIMIT && r <= CeilDiv(size, ICON_CHUNK_SIZE)
    ensures size <= 0xFFFF * ICON_CHUNK_SIZE ==> r == CeilDiv(size, ICON_CHUNK_SIZE)
  {
    CeilDiv(size, ICON_CHUNK_SIZE) % U16_LIMIT
  }

  /** Chunk `k` of `total` as the plugin frames it. */
  function ChunkFrame(id: seq<Byte>, icon: seq<Byte>, k: nat, total: nat): (r: seq<Byte>)
    requires FitsField(id, 10) && k < total < U16_LIMIT && total <= CeilDiv(|icon|, ICON_CHUNK_SIZE)
  {
    Frame(IconChunk, EncodeIconChunk(IconChunkMsg(id, k, total, Piece(icon, ICON_CHUNK_SIZE, k))))
  }

  /** The end marker's payload: id, total size and CRC. */
  function EndPayload(id: seq<Byte>, size: nat, crc: bv32): (r: seq<Byte>)
    requires size < U32_LIMIT
  {
    EncodeIconEnd(IconEndMsg(id, size, crc as nat))
  }

  /** The end marker: the icon's size and CRC-32. */
  function EndFrame(id: seq<Byte>, icon: seq<Byte>): (r: seq<Byte>)
    requires |icon| < U32_LIMIT
  {
    Frame(IconEnd, EndPayload(id, |icon|, Crc32(icon)))
  }

  /** The frames `network_send_icon` sends for a non-empty icon: the chunks in order, then the end marker. */
  function IconFrames(gameId: seq<Byte>, icon: seq<Byte>): (r: seq<seq<Byte>>)
    requires |icon| < U32_LIMIT
    ensures |r| == IconChunkCount(|icon|) + 1
  {
    var total := IconChunkCount(|icon|);
    var id := IdField(gameId);
    seq(total, k requires 0 <= k < total => ChunkFrame(id, icon, k, total)) + [EndFrame(id, icon)]
  }

  /** Frame `k` of an icon upload: a chunk, or the end marker after the last chunk. */
  lemma IconFrameAt(gameId: seq<Byte>, icon: seq<Byte>, k: nat)
    requires |icon| < U32_LIMIT && k <= IconChunkCount(|icon|)
    ensures var total := IconChunkCount(|icon|);
      IconFrames(gameId, icon)[k]
      == if k < total then ChunkFrame(IdField(gameId), icon, k, total) else EndFrame(IdField(gameId), icon)
  {
  }

  /**
   * Sending `frames` one after another, stopping at the first failure
   * before the last: the result of the failing send, or of the last one,
   * and the frames that went out.
   */
  function Deliver(up: bool, frames: seq<seq<Byte>>, failures: seq<int>, k: nat): (r: (int, seq<seq<Byte>>))
    requires k < |frames|
    ensures |r.1| <= |frames| - k && r.1 == frames[k..k + |r.1|]
    ensures !up ==> r == (-1, [])
    decreases |frames| - k
  {
    var ret := if up then SendResult(failures, k, |frames[k]|) else -1;
    var out := if ret >= 0 then [frames[k]] else [];
    if k == |frames| - 1 || ret < 0 then (ret, out)
    else
      var rest := Deliver(up, frames, failures, k + 1);
      (rest.0, out + rest.1)
  }

  /** A sequence of sends that does not fail reports the length of the last frame. */
  lemma {:induction false} DeliverResult(frames: seq<seq<Byte>>, failures: seq<int>, k: nat)
    requires k < |frames|
    ensures var r := Deliver(true, frames, failures, k).0;
      r < 0 || r == |frames[|frames| - 1]|
    decreases |frames| - k
  {
    var ret := SendResult(failures, k, |frames[k]|);
    if k < |frames| - 1 && ret >= 0 {
      DeliverResult(frames, failures, k + 1);
    }
  }

  /**
   * The result of a whole icon upload: an error code, or the 23 bytes of
   * the end marker's frame. It is never 0.
   */
  lemma IconUploadResult(gameId: seq<Byte>, icon: seq<Byte>, failures: seq<int>)
    requires |icon| < U32_LIMIT
    ensures var r := Deliver(true, IconFrames(gameId, icon), failures, 0).0;
      (r < 0 || r == HEADER_SIZE + 18) && r != 0
  {
    var frames := IconFrames(gameId, icon);
    DeliverResult(frames, failures, 0);
    IconFrameAt(gameId, icon, IconChunkCount(|icon|));
  }

  /**
   * When every send before the last goes through, all those frames go out
   * and the result is that of the last send.
   */
  lemma {:induction false} DeliverLast(frames: seq<seq<Byte>>, failures: seq<int>, k: nat)
    requires k < |frames|
    requires forall j :: k <= j < |frames| - 1 && j < |failures| ==> failures[j] >= 0
    ensures var last := |frames| - 1;
      var r := SendResult(failures, last, |frames[last]|);
      Deliver(true, frames, failures, k) == (r, frames[k..last] + (if r >= 0 then [frames[last]] else []))
    decreases |frames| - k
  {
    var last := |frames| - 1;
    if k < last {
      assert SendResult(failures, k, |frames[k]|) >= 0;
      DeliverLast(frames, failures, k + 1);
      var r := SendResult(failures, last, |frames[last]|);
      var tail: seq<seq<Byte>> := if r >= 0 then [frames[last]] else [];
      assert [frames[k]] + (frames[k + 1..last] + tail) == frames[k..last] + tail;
    } else {
      var r := SendResult(failures, last, |frames[last]|);
      var tail: seq<seq<Byte>> := if r >= 0 then [frames[last]] else [];
      assert frames[k..last] + tail == tail;
    }
  }

  /**
   * Every chunk went through and then the end marker was sent: the
   * transfer's outcome is the end marker's, and it has sent all the chunks
   * and the end marker when that went through.
   */
  lemma EndAfterChunks(frames: seq<seq<Byte>>, failures: seq<int>, total: nat, failure: int,
                       start: seq<seq<Byte>>, ret: int, after: seq<seq<Byte>>)
    requires |frames| == total + 1
    requires forall j :: 0 <= j < total && j < |failures| ==> failures[j] >= 0
    requires failure == (if total < |failures| then failures[total] else 0)
    requires ret == SendResult([failure], 0, |frames[total]|)
    requires after == start + frames[..total] + (if ret >= 0 then [frames[total]] else [])
    ensures ret == Deliver(true, frames, failures, 0).0
    ensures after == start + Deliver(true, frames, failures, 0).1
  {
    DeliverLast(frames, failures, 0);
    assert frames[0..total] == frames[..total];
    ConcatAssoc(start, frames[..total], if ret >= 0 then [frames[total]] else []);
  }

  /** The first failing send before the last one ends the transfer with its error. */
  lemma {:induction false} DeliverStops(frames: seq<seq<Byte>>, failures: seq<int>, k: nat, j: nat)
    requires k <= j < |frames| && j < |failures| && failures[j] < 0
    requires forall i :: k <= i < j && i < |failures| ==> failures[i] >= 0
    ensures Deliver(true, frames, failures, k) == (failures[j], frames[k..j])
    decreases j - k
  {
    if k < j {
      DeliverStops(frames, failures, k + 1, j);
      assert [frames[k]] + frames[k + 1..j] == frames[k..j];
    }
  }

  /** None of the first `n` sends reports an error. */
  predicate NoneFailed(failures: seq<int>, n: nat)
  {
    forall j :: 0 <= j < n && j < |failures| ==> failures[j] >= 0
  }

  lemma NoneFailedStep(failures: seq<int>, n: nat)
    requires NoneFailed(failures, n) && (n < |failures| ==> failures[n] >= 0)
    ensures NoneFailed(failures, n + 1)
  {
  }

  /** A chunk whose send fails ends the transfer with that error, after the chunks before it. */
  lemma ChunkStopped(up: bool, frames: seq<seq<Byte>>, failures: seq<int>, index: nat, ret: int)
    requires index < |frames| && ret < 0
    requires up ==> index < |failures| && failures[index] == ret
    requires up ==> forall j :: 0 <= j < index && j < |failures| ==> failures[j] >= 0
    requires !up ==> index == 0 && ret == -1
    ensures Deliver(up, frames, failures, 0) == (ret, frames[..index])
  {
    if up {
      DeliverStops(frames, failures, 0, index);
      assert frames[0..index] == frames[..index];
    }
  }

  /** The heartbeat's uptime: whole seconds of the 64-bit microsecond clock since start, in 32 bits. */
  function Uptime(start: nat, now: nat): (r: nat)
    ensures r < U32_LIMIT
    ensures start <= now < U64_LIMIT && now - start < 1_000_000 * U32_LIMIT ==> r == (now - start) / 1_000_000
  {
    (now - start) % U64_LIMIT / 1_000_000 % U32_LIMIT
  }

  /** The fields of a game-info packet: the texts as `copy_str` leaves them in their fields. */
  function GameInfoFields(info: GameInfoMsg): (r: GameInfoMsg)
    requires info.startTime < U32_LIMIT
    ensures ValidGameInfo(r)
    ensures r.gameId == CopyStr(CString(info.gameId), 10) && r.title == CopyStr(CString(info.title), 128)
    ensures r.pspName == CopyStr(CString(info.pspName), 32)
    ensures r.startTime == info.startTime && r.state == info.state
    ensures r.hasIcon == info.hasIcon && r.persistent == info.persistent
  {
    info.(gameId := CopyStr(CString(info.gameId), 10), title := CopyStr(CString(info.title), 128),
          pspName := CopyStr(CString(info.pspName), 32))
  }

  /** What the companion reads from a game-info packet the plugin sends: the same fields. */
  lemma GameInfoDelivered(info: GameInfoMsg)
    requires info.startTime < U32_LIMIT
    ensures var frame := Frame(GameInfo, EncodeGameInfo(GameInfoFields(info)));
      ParsePacket(frame) == Ok((GameInfo, frame[HEADER_SIZE..]))
      && DecodeGameInfo(frame[HEADER_SIZE..]) == Ok(GameInfoFields(info))
  {
    var m := GameInfoFields(info);
    FrameRoundTrip(GameInfo, EncodeGameInfo(m));
    GameInfoRoundTrip(m);
  }

  /** `copy_str(out, size, s)` of a C string reads only the first `size - 1` bytes. */
  lemma CopyStrCString(s: seq<Byte>, size: nat)
    requires 0 < size <= |s| + 1
    ensures CopyStr(CString(s), size) == ReadString(s[..size - 1])
  {
    BeforePrefix(s, size - 1, 0);
  }

  lemma {:induction false} BeforePrefix<T>(s: seq<T>, n: nat, stop: T)
    requires n <= |s|
    ensures CopyStr(Before(s, stop), n + 1) == Before(s[..n], stop)
  {
    if n == 0 {
      assert s[..n] == [];
    } else if s[0] == stop {
      assert s[..n][0] == stop;
    } else {
      var rest := Before(s[1..], stop);
      assert Before(s, stop) == [s[0]] + rest;
      BeforePrefix(s[1..], n - 1, stop);
      assert s[..n][1..] == s[1..][..n - 1];
      assert Before(s[..n], stop) == [s[0]] + Before(s[1..][..n - 1], stop);
      assert CopyStr([s[0]] + rest, n + 1) == [s[0]] + CopyStr(rest, n);
    }
  }

  /**
   * The configuration write-back of discovery: when the address, the port
   * or the auto-discovery flag differ from the discovered desktop, the
   * address and port are stored, auto-discovery is turned off and the
   * configuration is saved (the flag says so).
   */
  function WriteBack(config: NetConfig.Config, ip: seq<CChar>, port: nat): (r: (NetConfig.Config, bool))
    ensures !r.0.autoDiscovery
    ensures r.1 <==> config.desktopIp != ip || config.port != port || config.autoDiscovery
    ensures r.1 ==> r.0 == config.(desktopIp := CopyStr(ip, 16), port := port, autoDiscovery := false)
    ensures !r.1 ==> r.0 == config
  {
    if config.desktopIp != ip || config.port != port || config.autoDiscovery then
      (config.(desktopIp := CopyStr(ip, 16), port := port, autoDiscovery := false), true)
    else (config, false)
  }

  /**
   * A write-back saves exactly when something changed, always leaves
   * auto-discovery off, and a second discovery of the same desktop saves
   * nothing.
   */
  lemma WriteBackSettles(config: NetConfig.Config, ip: nat, port: nat)
    ensures var wb := WriteBack(config, FormatIpv4(ip), port);
      && (wb.1 <==> config.desktopIp != FormatIpv4(ip) || config.port != port || config.autoDiscovery)
      && !wb.0.autoDiscovery
      && wb.0.desktopIp == FormatIpv4(ip) && wb.0.port == port
      && WriteBack(wb.0, FormatIpv4(ip), port) == (wb.0, false)
      && (!wb.1 ==> wb.0 == config)
  {
  }

  /**
   * The name a discovery response carries: the configured name, else the
   * system nickname, else "PSP", each cut to the 32-byte field.
   */
  function ResponseName(pspName: seq<CChar>, nickname: Option<seq<CChar>>): (r: seq<CChar>)
    ensures |r| < 32
    ensures pspName != [] ==> r <= pspName && (|pspName| < 32 ==> r == pspName) && (|pspName| >= 32 ==> |r| == 31)
    ensures pspName == [] && nickname.Some? ==>
      r <= nickname.value && (|nickname.value| < 32 ==> r == nickname.value)
    ensures pspName == [] && nickname.None? ==> r == "PSP"
  {
    if pspName != [] then CopyStr(pspName, 32)
    else if nickname.Some? then CopyStr(CopyStr(nickname.value, 32), 32)
    else "PSP"
  }

  /** The response frame to a discovery request: the name, the plugin's version and the battery level in one byte. */
  function DiscoveryResponseFrame(pspName: seq<CChar>, nickname: Option<seq<CChar>>, battery: int): (r: seq<Byte>)
    ensures |r| == HEADER_SIZE + 41
  {
    Frame(DiscoveryResponse,
          EncodeDiscoveryResponse(DiscoveryResponseMsg(ToBytes(ResponseName(pspName, nickname)), PLUGIN_VERSION, battery % 256)))
  }

  /** The companion reads a discovery response back as the name, version and battery level the plugin put in it. */
  lemma DiscoveryResponseDelivered(pspName: seq<CChar>, nickname: Option<seq<CChar>>, battery: int)
    requires '\0' !in pspName && (nickname.Some? ==> '\0' !in nickname.value)
    ensures var frame := DiscoveryResponseFrame(pspName, nickname, battery);
      ParsePacket(frame) == Ok((DiscoveryResponse, frame[HEADER_SIZE..]))
      && DecodeDiscoveryResponse(frame[HEADER_SIZE..])
         == Ok(DiscoveryResponseMsg(ToBytes(ResponseName(pspName, nickname)), PLUGIN_VERSION, battery % 256))
  {
    var name := ResponseName(pspName, nickname);
    assert '\0' !in name by {
      if pspName == [] && nickname.None? {
        assert name == "PSP";
      } else {
        assert forall i :: 0 <= i < |name| ==> name[i] != '\0' by {
          forall i | 0 <= i < |name| ensures name[i] != '\0' {
            if pspName != [] {
              assert name[i] == pspName[i];
            } else {
              assert name[i] == nickname.value[i];
            }
          }
        }
      }
    }
    var m := DiscoveryResponseMsg(ToBytes(name), PLUGIN_VERSION, battery % 256);
    assert 0 !in ToBytes(name);
    FrameRoundTrip(DiscoveryResponse, EncodeDiscoveryResponse(m));
    DiscoveryResponseRoundTrip(m);
  }

  class NetLink {
    /** `g_socket`; negative when the link is not open. */
    var socket: int
    var discoverySocket: int
    /** `g_desktop_addr`; address 0 means no desktop is known. */
    var desktop: Addr
    /** The plugin configuration (`g_config`), which discovery writes back. */
    var config: NetConfig.Config
    /** Every datagram sent, in order. */
    var sent: seq<seq<Byte>>
    /** How many times the configuration was saved. */
    var configSaves: nat
    /** `g_start_time`, in microseconds. */
    var startTime: nat

    constructor (config: NetConfig.Config, socket: int, discoverySocket: int, startTime: nat)
      ensures this.config == config && this.socket == socket && this.discoverySocket == discoverySocket
      ensures this.startTime == startTime && desktop == Addr(0, 0) && sent == [] && configSaves == 0
    {
      this.config := config;
      this.socket := socket;
      this.discoverySocket := discoverySocket;
      this.startTime := startTime;
      desktop := Addr(0, 0);
      sent := [];
      configSaves := 0;
    }

    predicate LinkUp()
      reads this`socket, this`desktop
    {
      socket >= 0 && desktop.ip != 0
    }

    /**
     * `send_packet`: -1 without a socket or a desktop address, -2 for a
     * payload over 2043 bytes, otherwise what the stack reports (the frame
     * length when it goes out, and only then is it sent).
     */
    method SendPacket(t: MessageType, payload: seq<Byte>, failure: int) returns (ret: int)
      modifies this`sent
      ensures !old(LinkUp()) ==> ret == -1 && sent == old(sent)
      ensures old(LinkUp()) && |payload| > MAX_PACKET_SIZE - HEADER_SIZE ==> ret == -2 && sent == old(sent)
      ensures old(LinkUp()) && |payload| <= MAX_PACKET_SIZE - HEADER_SIZE ==>
        ret == SendResult([failure], 0, |Frame(t, payload)|)
        && sent == old(sent) + (if ret >= 0 then [Frame(t, payload)] else [])
      ensures ret >= 0 ==> ret == HEADER_SIZE + |payload|
    {
      if socket < 0 || desktop.ip == 0 {
        return -1;
      }
      if |payload| > 0 && |payload| > MAX_PACKET_SIZE - HEADER_SIZE {
        return -2;
      }
      var frame := Frame(t, payload);
      ret := SendResult([failure], 0, |frame|);
      if ret >= 0 {
        sent := sent + [frame];
      }
    }

    /**
     * `network_send_icon`: an empty icon gives -1; otherwise the chunks go
     * out in order and then the end marker with the size and CRC-32, the
     * first failing chunk aborts with its error, and the result is that of
     * the end marker's send.
     */
    method SendIcon(gameId: seq<Byte>, icon: seq<Byte>, failures: seq<int>) returns (ret: int)
      requires |icon| < U32_LIMIT
      modifies this`sent
      ensures icon == [] ==> ret == -1 && sent == old(sent)
      ensures icon != [] ==>
        var d := Deliver(old(LinkUp()), IconFrames(gameId, icon), failures, 0);
        ret == d.0 && sent == old(sent) + d.1
    {
      if |icon| == 0 {
        return -1;
      }
      var total := IconChunkCount(|icon|);
      var crc := Crc32Calc(Some(icon));
      var id := IdField(gameId);
      ghost var frames := IconFrames(gameId, icon);
      var stopped;
      ret, stopped := SendChunks(id, icon, total, failures, frames, gameId);
      if stopped {
        return ret;
      }
      var failure := if total < |failures| then failures[total] else 0;
      IconFrameAt(gameId, icon, total);
      ret := SendPacket(IconEnd, EndPayload(id, |icon|, crc), failure);
      if LinkUp() {
        EndAfterChunks(frames, failures, total, failure, old(sent), ret, sent);
      }
    }

    /**
     * The chunk loop of `network_send_icon`: chunk k carries the bytes from
     * k * 1024 on, at most 1024 of them; a failed send stops the loop.
     */
    method SendChunks(id: seq<Byte>, icon: seq<Byte>, total: nat, failures: seq<int>,
                      ghost frames: seq<seq<Byte>>, ghost gameId: seq<Byte>)
      returns (ret: int, stopped: bool)
      requires |icon| < U32_LIMIT && id == IdField(gameId)
      requires total == IconChunkCount(|icon|) && frames == IconFrames(gameId, icon)
      modifies this`sent
      ensures stopped ==> ret < 0 && (ret, sent) == (Deliver(LinkUp(), frames, failures, 0).0, old(sent) + Deliver(LinkUp(), frames, failures, 0).1)
      ensures !stopped ==> (total == 0 || LinkUp()) && sent == old(sent) + frames[..total]
      ensures !stopped ==> forall j :: 0 <= j < total && j < |failures| ==> failures[j] >= 0
    {
      ghost var up := LinkUp();
      var offset := 0;
      var index := 0;
      while index < total
        invariant 0 <= index <= total && |frames| == total + 1
        invariant offset == index * ICON_CHUNK_SIZE
        invariant index > 0 ==> up
        invariant LinkUp() == up
        invariant NoneFailed(failures, index)
        invariant sent == old(sent) + frames[..index]
      {
        ret := ChunkPass(id, icon, index, offset, total, failures, frames, gameId);
        if ret < 0 {
          ChunkStopped(up, frames, failures, index, ret);
          return ret, true;
        }
        NoneFailedStep(failures, index);
        PrefixSnoc(frames, index);
        offset := offset + ICON_CHUNK_SIZE;
        index := index + 1;
      }
      return 0, false;
    }

    /** A pass of the chunk loop in terms of the frames of the transfer: frame `index` goes out or the pass fails. */
    method ChunkPass(id: seq<Byte>, icon: seq<Byte>, index: nat, offset: nat, total: nat, failures: seq<int>,
                     ghost frames: seq<seq<Byte>>, ghost gameId: seq<Byte>)
      returns (ret: int)
      requires |icon| < U32_LIMIT && id == IdField(gameId)
      requires total == IconChunkCount(|icon|) && frames == IconFrames(gameId, icon)
      requires index < total && offset == index * ICON_CHUNK_SIZE
      modifies this`sent
      ensures ret >= 0 ==> LinkUp() && sent == old(sent) + [frames[index]]
      ensures ret < 0 ==> sent == old(sent)
      ensures ret < 0 && LinkUp() ==> index < |failures| && failures[index] == ret
      ensures ret >= 0 && index < |failures| ==> failures[index] >= 0
      ensures !LinkUp() ==> ret == -1
    {
      IconFrameAt(gameId, icon, index);
      ret := SendChunk(id, icon, index, offset, total, if index < |failures| then failures[index] else 0);
    }

    /** One pass of the chunk loop: the piece at `offset`, at most 1024 bytes, framed and sent. */
    method SendChunk(id: seq<Byte>, icon: seq<Byte>, index: nat, offset: nat, total: nat, failure: int)
      returns (ret: int)
      requires FitsField(id, 10) && index < total < U16_LIMIT && total <= CeilDiv(|icon|, ICON_CHUNK_SIZE)
      requires offset == index * ICON_CHUNK_SIZE
      modifies this`sent
      ensures !LinkUp() ==> ret == -1 && sent == old(sent)
      ensures LinkUp() ==>
        ret == SendResult([failure], 0, |ChunkFrame(id, icon, index, total)|)
        && sent == old(sent) + (if ret >= 0 then [ChunkFrame(id, icon, index, total)] else [])
      ensures ret >= 0 ==> LinkUp() && sent == old(sent) + [ChunkFrame(id, icon, index, total)]
      ensures ret < 0 ==> sent == old(sent) && (LinkUp() ==> ret == failure)
    {
      var remaining := |icon| - offset;
      var length := if remaining > ICON_CHUNK_SIZE then ICON_CHUNK_SIZE else remaining;
      var piece := icon[offset..offset + length];
      assert piece == Piece(icon, ICON_CHUNK_SIZE, index);
      ret := SendPacket(IconChunk, EncodeIconChunk(IconChunkMsg(id, index, total, piece)), failure);
    }

    /**
     * `network_send_heartbeat`: the uptime in whole seconds since the
     * plugin started (64-bit microsecond clock, cut to 32 bits) and a fixed
     * signal strength of 100.
     */
    method SendHeartbeat(now: nat, failure: int) returns (ret: int)
      modifies this`sent
      ensures !LinkUp() ==> ret == -1 && sent == old(sent)
      ensures LinkUp() ==>
        var frame := Frame(Heartbeat, EncodeHeartbeat(HeartbeatMsg(Uptime(startTime, now), 100)));
        ret == SendResult([failure], 0, |frame|) && sent == old(sent) + (if ret >= 0 then [frame] else [])
    {
      var uptime := (now - startTime) % U64_LIMIT / 1_000_000 % U32_LIMIT;
      ret := SendPacket(Heartbeat, EncodeHeartbeat(HeartbeatMsg(uptime, 100)), failure);
    }

    /**
     * `network_send_game_info`: each text is cut to its field (keeping a
     * terminator) in an otherwise zeroed packet.
     */
    method SendGameInfo(info: GameInfoMsg, failure: int) returns (ret: int)
      requires info.startTime < U32_LIMIT
      modifies this`sent
      ensures !LinkUp() ==> ret == -1 && sent == old(sent)
      ensures LinkUp() ==>
        var frame := Frame(GameInfo, EncodeGameInfo(GameInfoFields(info)));
        ret == SendResult([failure], 0, |frame|) && sent == old(sent) + (if ret >= 0 then [frame] else [])
    {
      ret := SendPacket(GameInfo, EncodeGameInfo(GameInfoFields(info)), failure);
    }

    /**
     * `network_poll_message`: 0 without a socket, without a datagram, for
     * one shorter than the header or with the wrong magic; 1 for an ACK,
     * whose sender becomes the desktop address; 2 for an icon request long
     * enough to hold the game id, which is returned; 0 for anything else.
     * At most 32 bytes of a datagram are read.
     */
    method Poll(datagram: Option<seq<Byte>>, from: Addr) returns (code: int, gameId: seq<Byte>)
      modifies this`desktop
      ensures var data := if datagram.Some? then Truncate(datagram.value, 32) else [];
        var valid := socket >= 0 && |data| >= HEADER_SIZE && data[..4] == MAGIC;
        && (code == 1 <==> valid && data[4] == MSG_ACK)
        && (code == 2 <==> valid && data[4] == MSG_ICON_REQUEST && |data| >= HEADER_SIZE + 10)
        && (code == 1 || code == 2 || code == 0)
        && (code == 1 ==> desktop == from)
        && (code != 1 ==> desktop == old(desktop))
        && (code == 2 ==> gameId == ReadString(data[HEADER_SIZE..HEADER_SIZE + 9]))
    {
      gameId := [];
      if socket < 0 || datagram.None? || |datagram.value| == 0 {
        return 0, gameId;
      }
      var data := Truncate(datagram.value, 32);
      if |data| < HEADER_SIZE || data[..4] != MAGIC {
        return 0, gameId;
      }
      if data[4] == MSG_ACK {
        desktop := from;
        return 1, gameId;
      }
      if data[4] == MSG_ICON_REQUEST && |data| >= HEADER_SIZE + 10 {
        gameId := CopyStr(CString(data[HEADER_SIZE..]), 10);
        CopyStrCString(data[HEADER_SIZE..], 10);
        assert data[HEADER_SIZE..][..9] == data[HEADER_SIZE..HEADER_SIZE + 9];
        return 2, gameId;
      }
      return 0, gameId;
    }

    /**
     * `network_handle_discovery`: 0 without a socket or datagram, -1 for a
     * datagram that is not a discovery request; otherwise the sender becomes
     * the desktop (at the port the request names), the configuration is
     * written back, and a response carrying the PSP's name, the version and
     * the battery level is sent on the main socket: 1 when it goes out, -1
     * when it does not.  The port is read from a 256-byte local buffer that
     * the receive does not clear, so for a datagram too short to hold it the
     * port comes from whatever that buffer held; `leftover` stands for those
     * indeterminate bytes.
     */
    method HandleDiscovery(datagram: Option<seq<Byte>>, leftover: seq<Byte>, from: Addr,
                           nickname: Option<seq<CChar>>, battery: int, failure: int)
      returns (ret: int)
      requires |leftover| == 256
      modifies this`desktop, this`config, this`configSaves, this`sent
      ensures var data := if datagram.Some? then Truncate(datagram.value, 256) else [];
        var request := discoverySocket >= 0 && |data| >= HEADER_SIZE && data[..4] == MAGIC
          && data[4] == MSG_DISCOVERY_REQUEST;
        && (discoverySocket < 0 || data == [] ==> ret == 0)
        && (discoverySocket >= 0 && data != [] && !request ==> ret == -1)
        && (!request ==> desktop == old(desktop) && config == old(config)
                         && configSaves == old(configSaves) && sent == old(sent))
        && (request ==>
              var port := U16At(data + leftover[|data|..], HEADER_SIZE);
              var wb := WriteBack(old(config), FormatIpv4(from.ip), port);
              var frame := DiscoveryResponseFrame(old(config).pspName, nickname, battery);
              var out := if socket >= 0 && from.ip != 0 then SendResult([failure], 0, |frame|) else -1;
              && desktop == Addr(from.ip, port)
              && config == wb.0
              && configSaves == old(configSaves) + (if wb.1 then 1 else 0)
              && (ret == 1 <==> out >= 0) && (ret == -1 <==> out < 0)
              && sent == old(sent) + (if out >= 0 then [frame] else []))
    {
      if discoverySocket < 0 || datagram.None? || |datagram.value| == 0 {
        return 0;
      }
      var data := Truncate(datagram.value, 256);
      if |data| < HEADER_SIZE || data[..4] != MAGIC || data[4] != MSG_DISCOVERY_REQUEST {
        return -1;
      }
      var buffer := data + leftover[|data|..];
      var port := U16At(buffer, HEADER_SIZE);
      var response := DiscoveryResponseMsg(ToBytes(ResponseName(config.pspName, nickname)), PLUGIN_VERSION, battery % 256);
      desktop := Addr(from.ip, port);
      var wb := WriteBack(config, FormatIpv4(from.ip), port);
      config := wb.0;
      if wb.1 {
        configSaves := configSaves + 1;
      }
      var sendRet := SendPacket(DiscoveryResponse, EncodeDiscoveryResponse(response), failure);
      if sendRet < 0 {
        return -1;
      }
      return 1;
    }
  }
}
