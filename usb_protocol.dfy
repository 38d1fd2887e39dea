// The USB plugin's side of the "PSPD" protocol: the fixed-size packets it
// sends, the icon and statistics senders that cut a blob into chunks, and
// the receiver that streams the companion's statistics response into the
// usage log, checking the byte count at the end.

module UsbProtocol {
  import opened Common

  /** "PSPD" read as a little-endian 32-bit word. */
  const USB_MAGIC: nat := 0x5053_5044
  const USB_HEADER_SIZE: nat := 8
  const USB_MAX_PACKET: nat := 512

  const PKT_HEARTBEAT: Byte := 0x01
  const PKT_GAME_INFO: Byte := 0x02
  const PKT_ICON_CHUNK: Byte := 0x03
  const PKT_STATS_REQUEST: Byte := 0x05
  const PKT_STATS_UPLOAD: Byte := 0x06
  const PKT_ACK: Byte := 0x10
  const PKT_ICON_REQUEST: Byte := 0x11
  const PKT_STATS_RESPONSE: Byte := 0x12

  const USB_ICON_CHUNK_SIZE: nat := 450
  const USB_STATS_CHUNK_SIZE: nat := 480

  /** Sizes of the packed structures, header included. */
  const ICON_REQUEST_SIZE: nat := 24
  const STATS_RESPONSE_SIZE: nat := 506

  // ---------------------------------------------------------------------
  // Packets
  // ---------------------------------------------------------------------

  /** A packet: magic, type, a reserved zero byte, the payload length, the payload. */
  function UsbPacket(t: Byte, payload: seq<Byte>): (r: seq<Byte>)
    requires |payload| < U16_LIMIT
    ensures |r| == USB_HEADER_SIZE + |payload| && r[USB_HEADER_SIZE..] == payload
    ensures U32At(r, 0) == USB_MAGIC && r[4] == t && U16At(r, 6) == |payload|
  {
    var header := U32Bytes(USB_MAGIC) + [t, 0] + U16Bytes(|payload|);
    U32RoundTrip(header + payload, 0, USB_MAGIC);
    assert (header + payload)[6..8] == U16Bytes(|payload|);
    U16RoundTrip(header + payload, 6, |payload|);
    header + payload
  }

  /** A text field filled by `strncpy(field, s, size - 1)` over a zeroed field. */
  function TextField(s: seq<Byte>, size: nat): (r: seq<Byte>)
    requires size > 0
    ensures |r| == size && ReadString(r) == CopyStr(CString(s), size)
  {
    FieldRoundTrip(CopyStr(CString(s), size), size);
    Field(CopyStr(CString(s), size), size)
  }

  /** The game-info packet (128 bytes): id, title, state, flags, start time, name. */
  function GameInfoPacket(gameId: seq<Byte>, title: seq<Byte>, state: int, hasIcon: bool,
                          startTime: nat, persistent: bool, pspName: seq<Byte>): (r: seq<Byte>)
    requires startTime < U32_LIMIT
    ensures |r| == 128
  {
    UsbPacket(PKT_GAME_INFO, GameInfoPayload(gameId, title, state, hasIcon, startTime, persistent, pspName))
  }

  function GameInfoPayload(gameId: seq<Byte>, title: seq<Byte>, state: int, hasIcon: bool,
                           startTime: nat, persistent: bool, pspName: seq<Byte>): (r: seq<Byte>)
    requires startTime < U32_LIMIT
    ensures |r| == 120
  {
    var flags: seq<Byte> := [state % 256, if hasIcon then 1 else 0];
    var keep: seq<Byte> := [if persistent then 1 else 0];
    TextField(gameId, 10) + (TextField(title, 64) + (flags + (U32Bytes(startTime) + (keep
    + (TextField(pspName, 32) + Zeros(7))))))
  }

  /** The heartbeat packet (16 bytes): uptime in seconds and battery percentage. */
  function HeartbeatPacket(uptime: nat, battery: Byte): (r: seq<Byte>)
    requires uptime < U32_LIMIT
    ensures |r| == 16
  {
    UsbPacket(PKT_HEARTBEAT, U32Bytes(uptime) + [battery] + Zeros(3))
  }

  /** The statistics request (16 bytes): the local usage log's timestamp. */
  function StatsRequestPacket(localTimestamp: nat): (r: seq<Byte>)
    requires localTimestamp < U64_LIMIT
    ensures |r| == 16
  {
    UsbPacket(PKT_STATS_REQUEST, U64Bytes(localTimestamp))
  }

  /** The acknowledgement sent for every statistics-response chunk: a bare header. */
  function AckPacket(): (r: seq<Byte>)
    ensures |r| == USB_HEADER_SIZE && r[4] == PKT_ACK
  {
    UsbPacket(PKT_ACK, [])
  }

  // ---------------------------------------------------------------------
  // Icon chunks
  // ---------------------------------------------------------------------

  /** `total_chunks` of an icon upload. */
  function IconChunkCount(size: nat): nat
  {
    CeilDiv(size, USB_ICON_CHUNK_SIZE)
  }

  /** A 16-bit icon never needs more than 146 chunks, so the "too many chunks" error cannot occur. */
  lemma IconChunksFit(size: nat)
    requires size <= 0xFFFF
    ensures IconChunkCount(size) <= 146 < 256
  {
    CeilDivBelow(size, USB_ICON_CHUNK_SIZE, 146);
  }

  /**
   * Chunk `k` of `total` (476 bytes): id, icon size, offset, piece length,
   * chunk number and count, then the piece padded to 450 bytes.
   */
  function IconChunkPacket(gameId: seq<Byte>, icon: seq<Byte>, k: nat, total: nat): (r: seq<Byte>)
    requires 0 < |icon| <= 0xFFFF && k < total == IconChunkCount(|icon|)
    ensures |r| == 476
  {
    IconChunksFit(|icon|);
    var piece := Piece(icon, USB_ICON_CHUNK_SIZE, k);
    UsbPacket(PKT_ICON_CHUNK,
      TextField(gameId, 10) + U16Bytes(|icon|) + U16Bytes(k * USB_ICON_CHUNK_SIZE) + U16Bytes(|piece|)
      + [k, total] + Field(piece, USB_ICON_CHUNK_SIZE))
  }

  /** Everything `usb_send_icon` sends for an icon it accepts. */
  function IconPackets(gameId: seq<Byte>, icon: seq<Byte>): (r: seq<seq<Byte>>)
    requires 0 < |icon| <= 0xFFFF
    ensures |r| == IconChunkCount(|icon|)
    ensures forall k :: 0 <= k < |r| ==> r[k] == IconChunkPacket(gameId, icon, k, |r|)
  {
    var total := IconChunkCount(|icon|);
    seq(total, k requires 0 <= k < total => IconChunkPacket(gameId, icon, k, total))
  }

  // ---------------------------------------------------------------------
  // Statistics upload chunks
  // ---------------------------------------------------------------------

  function StatsChunkCount(size: nat): nat
  {
    CeilDiv(size, USB_STATS_CHUNK_SIZE)
  }

  /**
   * Upload chunk `k` of `total` (502 bytes): timestamp, chunk index and
   * count, piece length, then the piece padded to 480 bytes.
   */
  function StatsUploadPacket(json: seq<Byte>, lastUpdated: nat, k: nat, total: nat): (r: seq<Byte>)
    requires lastUpdated < U64_LIMIT && k < total == StatsChunkCount(|json|) < U16_LIMIT
    ensures |r| == 502
  {
    var piece := Piece(json, USB_STATS_CHUNK_SIZE, k);
    UsbPacket(PKT_STATS_UPLOAD,
      U64Bytes(lastUpdated) + U16Bytes(k) + U16Bytes(total) + U16Bytes(|piece|)
      + Field(piece, USB_STATS_CHUNK_SIZE))
  }

  /** Everything `usb_send_stats_upload` sends for a log it accepts. */
  function StatsUploadPackets(json: seq<Byte>, lastUpdated: nat): (r: seq<seq<Byte>>)
    requires lastUpdated < U64_LIMIT && StatsChunkCount(|json|) < U16_LIMIT
    ensures |r| == StatsChunkCount(|json|)
    ensures forall k :: 0 <= k < |r| ==> r[k] == StatsUploadPacket(json, lastUpdated, k, |r|)
  {
    var total := StatsChunkCount(|json|);
    seq(total, k requires 0 <= k < total => StatsUploadPacket(json, lastUpdated, k, total))
  }

  // ---------------------------------------------------------------------
  // The statistics-response stream
  // ---------------------------------------------------------------------

  /**
   * The receiver's record: whether the log file is open, the totals the
   * first chunk announced, what has arrived, whether the stream is active
   * and whether it ended verified; `deleted` records that the log was
   * removed because its byte count came out wrong.
   */
  datatype Stream = Stream(open: bool, totalBytes: nat, bytesWritten: nat, totalChunks: nat,
                           receivedChunks: nat, lastUpdated: nat, active: bool, verified: bool,
                           deleted: bool)

  /** The record before any response has arrived. */
  const IDLE: Stream := Stream(false, 0, 0, 0, 0, 0, false, false, false)

  /** The fields of a statistics-response chunk. */
  datatype ResponseChunk = ResponseChunk(lastUpdated: nat, totalBytes: nat, chunkIndex: nat,
                                         totalChunks: nat, dataLength: nat)

  function DecodeResponseChunk(p: seq<Byte>): (r: ResponseChunk)
    requires |p| >= STATS_RESPONSE_SIZE
    ensures r.totalBytes < U32_LIMIT && r.totalChunks < U16_LIMIT && r.dataLength < U16_LIMIT
  {
    ResponseChunk(U64At(p, 8), U32At(p, 16), U16At(p, 20), U16At(p, 22), U16At(p, 24))
  }

  /**
   * One chunk arriving. Chunk 0, or any chunk while no stream is active,
   * (re)opens the log (`openOk` says whether that worked) and takes the
   * totals from the chunk; a chunk with data, while the log is open, is
   * written (the write reports `written` bytes) and counted; once the
   * count reaches the total the log is closed, and kept only when the
   * bytes written match the announced total.
   */
  function Receive(s: Stream, c: ResponseChunk, openOk: bool, written: int): (r: Stream)
    requires s.bytesWritten < U32_LIMIT && s.receivedChunks < U16_LIMIT
    ensures r.bytesWritten < U32_LIMIT && r.receivedChunks < U16_LIMIT
    ensures var restart := c.chunkIndex == 0 || !s.active;
      var base := if restart then 0 else s.receivedChunks;
      var counted := (if restart then openOk else s.open) && c.dataLength > 0;
      && (restart ==> r.totalBytes == c.totalBytes && r.totalChunks == c.totalChunks
                      && r.lastUpdated == c.lastUpdated && r.active == openOk)
      && (!restart ==> r.totalBytes == s.totalBytes && r.totalChunks == s.totalChunks
                       && r.lastUpdated == s.lastUpdated && r.active == s.active)
      && r.receivedChunks == (if counted then (base + 1) % U16_LIMIT else base)
    ensures r.open ==> s.open || c.chunkIndex == 0 || !s.active
    ensures s.open && !r.open && s.active && c.chunkIndex != 0 ==>
      r.receivedChunks >= r.totalChunks && (r.verified <==> r.bytesWritten == r.totalBytes)
      && (r.deleted <==> !r.verified)
  {
    var s1 := if c.chunkIndex == 0 || !s.active then
        Stream(openOk, c.totalBytes, 0, c.totalChunks, 0, c.lastUpdated, openOk, false,
               if openOk then false else s.deleted)
      else s;
    var s2 := if s1.open && c.dataLength > 0 then
        s1.(bytesWritten := if written > 0 then (s1.bytesWritten + written) % U32_LIMIT else s1.bytesWritten,
            receivedChunks := (s1.receivedChunks + 1) % U16_LIMIT)
      else s1;
    if s2.receivedChunks >= s2.totalChunks && s2.open then
      s2.(open := false, verified := s2.bytesWritten == s2.totalBytes,
          deleted := s2.bytesWritten != s2.totalBytes)
    else s2
  }

  /** What `usb_poll_stats_response` reports: -1 with no stream, 0 while chunks are missing, 1 verified, -2 not. */
  function StreamStatus(s: Stream): (r: int)
    ensures r == 1 ==> s.active && s.verified
    ensures r == -2 ==> s.active && !s.verified
    ensures r == 0 <==> s.active && s.receivedChunks < s.totalChunks
  {
    if !s.active then -1
    else if s.receivedChunks >= s.totalChunks then (if s.verified then 1 else -2)
    else 0
  }

  // ---------------------------------------------------------------------
  // The USB link
  // ---------------------------------------------------------------------

  /**
   * The plugin's USB side: whether the host has claimed the interface,
   * the packets that went out, and the statistics stream record.
   */
  class UsbLink {
    var connected: bool
    var sent: seq<seq<Byte>>
    var stream: Stream

    constructor (connected: bool)
      ensures this.connected == connected && sent == [] && stream == IDLE
    {
      this.connected := connected;
      sent := [];
      stream := IDLE;
    }

    predicate StreamBounded()
      reads this`stream
    {
      stream.bytesWritten < U32_LIMIT && stream.receivedChunks < U16_LIMIT
    }

    /**
     * `usb_driver_send`: -1 when the host has not claimed the interface,
     * otherwise what the transfer reports (`failure` when negative, the
     * length otherwise); the packet goes out when the result is not negative.
     */
    method Send(packet: seq<Byte>, failure: int) returns (ret: int)
      modifies this`sent
      ensures !connected ==> ret == -1
      ensures connected ==> ret == SendResult([failure], 0, |packet|)
      ensures sent == old(sent) + (if ret >= 0 then [packet] else [])
    {
      if !connected {
        return -1;
      }
      ret := if failure < 0 then failure else |packet|;
      if ret >= 0 {
        sent := sent + [packet];
      }
    }

    /**
     * `usb_poll_message`: 0 when disconnected, for nothing received, a
     * packet shorter than the header, a wrong magic or an unknown type;
     * otherwise the packet's type. An icon request long enough carries the
     * game id (at most 9 bytes); a statistics response long enough is fed
     * to the stream and acknowledged. At most 512 bytes are read.
     */
    method Poll(packet: Option<seq<Byte>>, openOk: bool, written: int)
      returns (code: int, gameId: Option<seq<Byte>>)
      requires StreamBounded()
      modifies this`stream, this`sent
      ensures StreamBounded()
      ensures var data := if packet.Some? then Truncate(packet.value, USB_MAX_PACKET) else [];
        var valid := connected && |data| >= USB_HEADER_SIZE && U32At(data, 0) == USB_MAGIC;
        var response := valid && data[4] == PKT_STATS_RESPONSE && |data| >= STATS_RESPONSE_SIZE;
        && (code != 0 <==> valid && data[4] in {PKT_ACK, PKT_ICON_REQUEST, PKT_STATS_RESPONSE})
        && (code != 0 ==> code == data[4] as int)
        && (gameId.Some? <==> valid && data[4] == PKT_ICON_REQUEST && |data| >= ICON_REQUEST_SIZE)
        && (gameId.Some? ==> gameId.value == ReadString(data[USB_HEADER_SIZE..USB_HEADER_SIZE + 9]))
        && stream == (if response then Receive(old(stream), DecodeResponseChunk(data), openOk, written)
                      else old(stream))
        && (response ==> sent == old(sent) + [AckPacket()])
        && (!response ==> sent == old(sent))
    {
      gameId := None;
      if !connected || packet.None? || |packet.value| == 0 {
        return 0, gameId;
      }
      var data := Truncate(packet.value, USB_MAX_PACKET);
      if |data| < USB_HEADER_SIZE || U32At(data, 0) != USB_MAGIC {
        return 0, gameId;
      }
      if data[4] == PKT_ACK {
        return PKT_ACK as int, gameId;
      } else if data[4] == PKT_ICON_REQUEST {
        if |data| >= ICON_REQUEST_SIZE {
          gameId := Some(Before(data[USB_HEADER_SIZE..USB_HEADER_SIZE + 9], 0));
        }
        return PKT_ICON_REQUEST as int, gameId;
      } else if data[4] == PKT_STATS_RESPONSE {
        if |data| >= STATS_RESPONSE_SIZE {
          stream := Receive(stream, DecodeResponseChunk(data), openOk, written);
          var _ := Send(AckPacket(), 0);
        }
        return PKT_STATS_RESPONSE as int, gameId;
      }
      return 0, gameId;
    }

    /**
     * `usb_poll_stats_response`: -1 when disconnected or with no stream;
     * once every chunk has arrived, the stream's timestamp and byte count,
     * 1 when verified and -2 when not, and the stream is no longer active;
     * 0 while chunks are missing.
     */
    method PollStatsResponse() returns (code: int, remoteLastUpdated: Option<nat>, jsonLen: Option<nat>)
      modifies this`stream
      ensures code == (if connected then StreamStatus(old(stream)) else -1)
      ensures code == 1 || code == -2 ==>
        remoteLastUpdated == Some(old(stream).lastUpdated) && jsonLen == Some(old(stream).bytesWritten)
        && stream == old(stream).(active := false)
      ensures code != 1 && code != -2 ==> remoteLastUpdated.None? && jsonLen.None? && stream == old(stream)
    {
      remoteLastUpdated, jsonLen := None, None;
      if !connected || !stream.active {
        return -1, remoteLastUpdated, jsonLen;
      }
      if stream.receivedChunks >= stream.totalChunks {
        remoteLastUpdated, jsonLen := Some(stream.lastUpdated), Some(stream.bytesWritten);
        var verified := stream.verified;
        stream := stream.(active := false);
        if verified {
          return 1, remoteLastUpdated, jsonLen;
        }
        return -2, remoteLastUpdated, jsonLen;
      }
      return 0, remoteLastUpdated, jsonLen;
    }

    /** `usb_send_game_info`: -1 when disconnected, otherwise the transfer's result. */
    method SendGameInfo(gameId: seq<Byte>, title: seq<Byte>, state: int, hasIcon: bool,
                        startTime: nat, persistent: bool, pspName: seq<Byte>, failure: int)
      returns (ret: int)
      requires startTime < U32_LIMIT
      modifies this`sent
      ensures var p := GameInfoPacket(gameId, title, state, hasIcon, startTime, persistent, pspName);
        ret == (if connected then SendResult([failure], 0, |p|) else -1)
        && sent == old(sent) + (if ret >= 0 then [p] else [])
    {
      ret := Send(GameInfoPacket(gameId, title, state, hasIcon, startTime, persistent, pspName), failure);
    }

    /** `usb_send_heartbeat`. */
    method SendHeartbeat(uptime: nat, battery: Byte, failure: int) returns (ret: int)
      requires uptime < U32_LIMIT
      modifies this`sent
      ensures ret == (if connected then SendResult([failure], 0, 16) else -1)
      ensures sent == old(sent) + (if ret >= 0 then [HeartbeatPacket(uptime, battery)] else [])
    {
      ret := Send(HeartbeatPacket(uptime, battery), failure);
    }

    /** `usb_send_stats_request`. */
    method SendStatsRequest(localTimestamp: nat, failure: int) returns (ret: int)
      requires localTimestamp < U64_LIMIT
      modifies this`sent
      ensures ret == (if connected then SendResult([failure], 0, 16) else -1)
      ensures sent == old(sent) + (if ret >= 0 then [StatsRequestPacket(localTimestamp)] else [])
    {
      ret := Send(StatsRequestPacket(localTimestamp), failure);
    }

    /**
     * `usb_send_icon`: -1 when disconnected, -2 for an empty icon or one
     * over 65535 bytes; otherwise the chunks go out in order of offset and
     * the first failed send ends the upload with its error; 0 when all went.
     * `failures[k]` is what the k-th transfer reports.
     */
    method SendIcon(gameId: seq<Byte>, icon: seq<Byte>, failures: seq<int>) returns (ret: int)
      modifies this`sent
      ensures !connected ==> ret == -1 && sent == old(sent)
      ensures connected && (|icon| == 0 || |icon| > 0xFFFF) ==> ret == -2 && sent == old(sent)
      ensures connected && 0 < |icon| <= 0xFFFF ==>
        var packets := IconPackets(gameId, icon);
        var n := Succeeded(failures, |packets|);
        ret == (if n < |packets| then failures[n] else 0) && sent == old(sent) + packets[..n]
    {
      if !connected {
        return -1;
      }
      if |icon| == 0 || |icon| > 0xFFFF {
        return -2;
      }
      var total := IconChunkCount(|icon|);
      IconChunksFit(|icon|);
      ghost var packets := IconPackets(gameId, icon);
      CeilDivBelow(|icon|, USB_ICON_CHUNK_SIZE, 0);
      var offset := 0;
      var index := 0;
      while offset < |icon|
        invariant 0 <= index <= total && offset == (if index < total then index * USB_ICON_CHUNK_SIZE else |icon|)
        invariant Succeeded(failures, index) == index
        invariant sent == old(sent) + packets[..index]
      {
        var length;
        ret, length := IconPass(gameId, icon, offset, index, total, failures, packets);
        if ret < 0 {
          SucceededStops(failures, index, total);
          return ret;
        }
        PrefixSnoc(packets, index);
        offset := offset + length;
        index := index + 1;
        CeilDivBelow(|icon|, USB_ICON_CHUNK_SIZE, index);
      }
      return 0;
    }

    /**
     * `usb_send_stats_upload`: -1 when disconnected, -2 for an empty log,
     * -3 when it needs more than 65535 chunks; otherwise the 480-byte
     * chunks go out in order and the first failed send ends the upload.
     */
    method SendStatsUpload(json: seq<Byte>, lastUpdated: nat, failures: seq<int>) returns (ret: int)
      requires lastUpdated < U64_LIMIT
      modifies this`sent
      ensures !connected ==> ret == -1 && sent == old(sent)
      ensures connected && |json| == 0 ==> ret == -2 && sent == old(sent)
      ensures connected && StatsChunkCount(|json|) >= U16_LIMIT ==> ret == -3 && sent == old(sent)
      ensures connected && 0 < |json| && StatsChunkCount(|json|) < U16_LIMIT ==>
        var packets := StatsUploadPackets(json, lastUpdated);
        var n := Succeeded(failures, |packets|);
        ret == (if n < |packets| then failures[n] else 0) && sent == old(sent) + packets[..n]
    {
      if !connected {
        return -1;
      }
      if |json| == 0 {
        return -2;
      }
      var total := StatsChunkCount(|json|);
      if total > 0xFFFF {
        return -3;
      }
      ghost var packets := StatsUploadPackets(json, lastUpdated);
      CeilDivBelow(|json|, USB_STATS_CHUNK_SIZE, 0);
      var offset := 0;
      var index := 0;
      while offset < |json|
        invariant 0 <= index <= total && offset == (if index < total then index * USB_STATS_CHUNK_SIZE else |json|)
        invariant Succeeded(failures, index) == index
        invariant sent == old(sent) + packets[..index]
      {
        var length;
        ret, length := StatsPass(json, lastUpdated, offset, index, total, failures, packets);
        if ret < 0 {
          SucceededStops(failures, index, total);
          return ret;
        }
        PrefixSnoc(packets, index);
        offset := offset + length;
        index := index + 1;
        CeilDivBelow(|json|, USB_STATS_CHUNK_SIZE, index);
      }
      return 0;
    }

    /** A pass of the icon loop in terms of the upload's packets: packet `index` goes out or the pass fails. */
    method IconPass(gameId: seq<Byte>, icon: seq<Byte>, offset: nat, index: nat, total: nat, failures: seq<int>,
                    ghost packets: seq<seq<Byte>>)
      returns (ret: int, length: nat)
      requires connected && 0 < |icon| <= 0xFFFF && index < total == IconChunkCount(|icon|)
      requires offset == index * USB_ICON_CHUNK_SIZE && packets == IconPackets(gameId, icon)
      modifies this`sent
      ensures length == Min(USB_ICON_CHUNK_SIZE, |icon| - offset) && offset + length <= |icon|
      ensures ret < 0 ==> index < |failures| && failures[index] == ret && sent == old(sent)
      ensures ret >= 0 ==> (index < |failures| ==> failures[index] >= 0) && sent == old(sent) + [packets[index]]
    {
      var packet;
      packet, length := IconChunkAt(gameId, icon, offset, index, total);
      ret := Send(packet, if index < |failures| then failures[index] else 0);
    }

    /** A pass of the upload loop in terms of the upload's packets: packet `index` goes out or the pass fails. */
    method StatsPass(json: seq<Byte>, lastUpdated: nat, offset: nat, index: nat, total: nat, failures: seq<int>,
                     ghost packets: seq<seq<Byte>>)
      returns (ret: int, length: nat)
      requires connected && lastUpdated < U64_LIMIT && index < total == StatsChunkCount(|json|) < U16_LIMIT
      requires offset == index * USB_STATS_CHUNK_SIZE && packets == StatsUploadPackets(json, lastUpdated)
      modifies this`sent
      ensures length == Min(USB_STATS_CHUNK_SIZE, |json| - offset) && offset + length <= |json|
      ensures ret < 0 ==> index < |failures| && failures[index] == ret && sent == old(sent)
      ensures ret >= 0 ==> (index < |failures| ==> failures[index] >= 0) && sent == old(sent) + [packets[index]]
    {
      var packet;
      packet, length := StatsChunkAt(json, lastUpdated, offset, index, total);
      ret := Send(packet, if index < |failures| then failures[index] else 0);
    }

    /** One pass of the icon loop: the piece at `offset`, at most 450 bytes, in a zeroed packet. */
    static method IconChunkAt(gameId: seq<Byte>, icon: seq<Byte>, offset: nat, index: nat, total: nat)
      returns (packet: seq<Byte>, length: nat)
      requires 0 < |icon| <= 0xFFFF && index < total == IconChunkCount(|icon|)
      requires offset == index * USB_ICON_CHUNK_SIZE
      ensures packet == IconChunkPacket(gameId, icon, index, total)
      ensures length == Min(USB_ICON_CHUNK_SIZE, |icon| - offset) && offset + length <= |icon|
    {
      var piece := Piece(icon, USB_ICON_CHUNK_SIZE, index);
      length := if |icon| - offset > USB_ICON_CHUNK_SIZE then USB_ICON_CHUNK_SIZE else |icon| - offset;
      assert icon[offset..offset + length] == piece;
      IconChunksFit(|icon|);
      packet := UsbPacket(PKT_ICON_CHUNK,
        TextField(gameId, 10) + U16Bytes(|icon|) + U16Bytes(offset) + U16Bytes(length)
        + [index, total] + Field(icon[offset..offset + length], USB_ICON_CHUNK_SIZE));
    }

    /** One pass of the upload loop: the piece at `offset`, at most 480 bytes, in a zeroed packet. */
    static method StatsChunkAt(json: seq<Byte>, lastUpdated: nat, offset: nat, index: nat, total: nat)
      returns (packet: seq<Byte>, length: nat)
      requires lastUpdated < U64_LIMIT && index < total == StatsChunkCount(|json|) < U16_LIMIT
      requires offset == index * USB_STATS_CHUNK_SIZE
      ensures packet == StatsUploadPacket(json, lastUpdated, index, total)
      ensures length == Min(USB_STATS_CHUNK_SIZE, |json| - offset) && offset + length <= |json|
    {
      var piece := Piece(json, USB_STATS_CHUNK_SIZE, index);
      length := if |json| - offset > USB_STATS_CHUNK_SIZE then USB_STATS_CHUNK_SIZE else |json| - offset;
      assert json[offset..offset + length] == piece;
      packet := UsbPacket(PKT_STATS_UPLOAD,
        U64Bytes(lastUpdated) + U16Bytes(index) + U16Bytes(total) + U16Bytes(length)
        + Field(json[offset..offset + length], USB_STATS_CHUNK_SIZE));
    }
  }
}
