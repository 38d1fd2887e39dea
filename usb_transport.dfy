// The companion's side of the USB link: the packet parser, the icon-chunk
// parser and accumulator, and the packets it sends to the PSP (ACK, icon
// request, the chunked statistics response). The lemmas at the end connect
// both ends: what the plugin sends, the companion reads back, and what the
// companion sends, the plugin's stream receiver accepts as verified.

module UsbTransport {
  import opened Common
  import opened UsbProtocol

  const STATS_RESPONSE_CHUNK: nat := 480

  /** Game information as the companion reads it from a game-info packet. */
  datatype GameInfo = GameInfo(gameId: seq<Byte>, title: seq<Byte>, state: Byte, hasIcon: bool,
                               startTime: nat, persistent: bool, pspName: seq<Byte>)

  /** The events `parse_packet` can produce. */
  datatype UsbEvent =
    | GameInfoEvent(info: GameInfo)
    | IconData(gameId: seq<Byte>, data: seq<Byte>)
    | StatsRequested(pspName: seq<Byte>, localTimestamp: nat)
    | StatsUploaded(lastUpdated: nat, json: seq<Byte>)

  /** One icon chunk as `try_parse_icon_chunk` returns it. */
  datatype IconChunk = IconChunk(gameId: seq<Byte>, totalSize: nat, chunkOffset: nat,
                                 chunkData: seq<Byte>, chunkNum: Byte, totalChunks: Byte)

  /** A packet with the magic, for a parser that needs `n` bytes at least. */
  predicate Framed(data: seq<Byte>, n: nat)
  {
    n >= USB_HEADER_SIZE && |data| >= n && U32At(data, 0) == USB_MAGIC
  }

  /**
   * `parse_packet`: nothing for fewer than 8 bytes or a wrong magic;
   * game info from a packet of 128 bytes or more, read at fixed offsets;
   * a single-chunk icon or a single-chunk statistics upload whose data is
   * all there; a statistics request with its timestamp; nothing for a
   * heartbeat, a multi-chunk piece or an unknown type.
   */
  function ParsePacket(data: seq<Byte>): (r: Option<UsbEvent>)
    ensures r.Some? ==> Framed(data, USB_HEADER_SIZE)
    ensures r.Some? && r.value.GameInfoEvent? ==> data[4] == PKT_GAME_INFO && |data| >= 128
    ensures r.Some? && r.value.StatsRequested? ==> data[4] == PKT_STATS_REQUEST && |data| >= 16
  {
    if |data| < USB_HEADER_SIZE || U32At(data, 0) != USB_MAGIC then None
    else if data[4] == PKT_GAME_INFO then
      if |data| < 128 then None
      else Some(GameInfoEvent(GameInfo(ReadString(data[8..18]), ReadString(data[18..82]), data[82],
                                       data[83] != 0, U32At(data, 84), data[88] != 0,
                                       ReadString(data[89..121]))))
    else if data[4] == PKT_ICON_CHUNK then
      if |data| < 26 then None
      else
        var size := U16At(data, 22);
        if |data| >= 26 + size && data[25] == 1
        then Some(IconData(ReadString(data[8..18]), data[26..26 + size]))
        else None
    else if data[4] == PKT_STATS_REQUEST then
      if |data| < 16 then None else Some(StatsRequested([], U64At(data, 8)))
    else if data[4] == PKT_STATS_UPLOAD then
      if |data| < 24 then None
      else
        var length := U16At(data, 20);
        if U16At(data, 18) == 1 && |data| >= 22 + length
        then Some(StatsUploaded(U64At(data, 8), data[22..22 + length]))
        else None
    else None
  }

  /**
   * `try_parse_icon_chunk`: a chunk only from an icon-chunk packet of at
   * least 26 bytes that holds all the data its header announces.
   */
  function TryParseIconChunk(data: seq<Byte>): (r: Option<IconChunk>)
    ensures r.Some? <==> Framed(data, 26) && data[4] == PKT_ICON_CHUNK && |data| >= 26 + U16At(data, 22)
    ensures r.Some? ==> |r.value.chunkData| == U16At(data, 22) && r.value.chunkData == data[26..26 + U16At(data, 22)]
    ensures r.Some? ==> 0 !in r.value.gameId && |r.value.gameId| <= 10
  {
    if |data| < 26 || U32At(data, 0) != USB_MAGIC || data[4] != PKT_ICON_CHUNK then None
    else
      var size := U16At(data, 22);
      if |data| < 26 + size then None
      else Some(IconChunk(ReadString(data[8..18]), U16At(data, 18), U16At(data, 20),
                          data[26..26 + size], data[24], data[25]))
  }

  // ---------------------------------------------------------------------
  // Packets the companion sends
  // ---------------------------------------------------------------------

  /** `send_ack`: the magic, the ACK type and zeros. */
  function AckBytes(): (r: seq<Byte>)
    ensures |r| == 8
  {
    U32Bytes(USB_MAGIC) + [PKT_ACK] + Zeros(3)
  }

  /** The companion's ACK is the very packet the plugin builds for one. */
  lemma AckAgrees()
    ensures AckBytes() == AckPacket()
  {
    assert U16Bytes(0) == [0, 0];
  }

  /** `request_icon` (24 bytes): the magic, the type, zeros, then up to 10 bytes of the id. */
  function IconRequestBytes(gameId: seq<Byte>): (r: seq<Byte>)
    ensures |r| == ICON_REQUEST_SIZE
  {
    var id := Truncate(gameId, 10);
    U32Bytes(USB_MAGIC) + [PKT_ICON_REQUEST] + Zeros(3) + id + Zeros(16 - |id|)
  }

  /**
   * The plugin reads an icon request back as the id it names, as long as
   * the id has no NUL and at most 9 bytes (the plugin keeps 9).
   */
  lemma IconRequestDelivered(gameId: seq<Byte>)
    requires 0 !in gameId && |gameId| <= 9
    ensures var p := IconRequestBytes(gameId);
      Framed(p, ICON_REQUEST_SIZE) && p[4] == PKT_ICON_REQUEST
      && ReadString(p[USB_HEADER_SIZE..USB_HEADER_SIZE + 9]) == gameId
  {
    var p := IconRequestBytes(gameId);
    U32RoundTrip(p, 0, USB_MAGIC);
    var field := p[USB_HEADER_SIZE..USB_HEADER_SIZE + 9];
    assert field == gameId + Zeros(9 - |gameId|);
    ReadStringPadded(gameId, Zeros(9 - |gameId|));
  }

  /**
   * Statistics-response chunk `k` of `total` (512 bytes): timestamp,
   * total size in 32 bits, index and count in 16 bits, piece length, piece,
   * zeros. The header announces 504 payload bytes.
   */
  function StatsResponseBytes(json: seq<Byte>, lastUpdated: nat, k: nat, total: nat): (r: seq<Byte>)
    requires lastUpdated < U64_LIMIT && k < total == CeilDiv(|json|, STATS_RESPONSE_CHUNK)
    ensures |r| == USB_MAX_PACKET
  {
    var piece := Piece(json, STATS_RESPONSE_CHUNK, k);
    var head := U32Bytes(USB_MAGIC) + [PKT_STATS_RESPONSE, 0] + U16Bytes(504) + U64Bytes(lastUpdated)
      + U32Bytes(|json| % U32_LIMIT) + U16Bytes(k % U16_LIMIT) + U16Bytes(total % U16_LIMIT)
      + U16Bytes(|piece|);
    head + piece + Zeros(USB_MAX_PACKET - 26 - |piece|)
  }

  /** Everything `send_stats_response` sends when no transfer fails. */
  function StatsResponsePackets(json: seq<Byte>, lastUpdated: nat): (r: seq<seq<Byte>>)
    requires lastUpdated < U64_LIMIT
    ensures |r| == CeilDiv(|json|, STATS_RESPONSE_CHUNK)
    ensures forall k :: 0 <= k < |r| ==> r[k] == StatsResponseBytes(json, lastUpdated, k, |r|)
  {
    var total := CeilDiv(|json|, STATS_RESPONSE_CHUNK);
    seq(total, k requires 0 <= k < total => StatsResponseBytes(json, lastUpdated, k, total))
  }

  // ---------------------------------------------------------------------
  // The icon accumulator
  // ---------------------------------------------------------------------

  /** An icon being assembled: its announced size, the chunks counted so far, the buffer. */
  datatype Entry = Entry(totalSize: nat, count: nat, buffer: seq<Byte>)

  /** `buffer` with `data` written over it from `offset` on. */
  function Splice(buffer: seq<Byte>, offset: nat, data: seq<Byte>): (r: seq<Byte>)
    requires offset + |data| <= |buffer|
    ensures |r| == |buffer| && r[offset..offset + |data|] == data
    ensures r[..offset] == buffer[..offset] && r[offset + |data|..] == buffer[offset + |data|..]
  {
    buffer[..offset] + data + buffer[offset + |data|..]
  }

  /**
   * One chunk through the accumulator: an entry for its id is created on
   * the first chunk, sized from that chunk's total; a chunk that fits is
   * written at its offset and counted; once the count reaches the chunk's
   * total the icon is emitted and its entry removed.
   */
  function Accept(entries: map<seq<Byte>, Entry>, c: IconChunk): (r: (map<seq<Byte>, Entry>, Option<(seq<Byte>, seq<Byte>)>))
    ensures r.1.Some? ==> r.1.value.0 == c.gameId && c.gameId !in r.0
    ensures r.1.None? ==> c.gameId in r.0
    ensures forall id :: id != c.gameId ==> (id in r.0 <==> id in entries) && (id in entries ==> r.0[id] == entries[id])
  {
    var e := if c.gameId in entries then entries[c.gameId] else Entry(c.totalSize, 0, Zeros(c.totalSize));
    if c.chunkOffset + |c.chunkData| <= |e.buffer| then
      var e2 := Entry(e.totalSize, e.count + 1, Splice(e.buffer, c.chunkOffset, c.chunkData));
      if e2.count >= c.totalChunks as nat then (entries - {c.gameId}, Some((c.gameId, e2.buffer)))
      else (entries[c.gameId := e2], None)
    else (entries[c.gameId := e], None)
  }

  /** Every count kept stays below 255, so the 8-bit counter never overflows. */
  predicate CountsFit(entries: map<seq<Byte>, Entry>)
  {
    forall id :: id in entries ==> entries[id].count < 255
  }

  lemma AcceptKeepsCountsFit(entries: map<seq<Byte>, Entry>, c: IconChunk)
    requires CountsFit(entries)
    ensures CountsFit(Accept(entries, c).0)
  {
  }

  /**
   * The receive loop of the USB task: the accumulator, keyed by game id.
   */
  class IconAccumulator {
    var entries: map<seq<Byte>, Entry>

    constructor ()
      ensures entries == map[]
    {
      entries := map[];
    }

    /** A chunk from `try_parse_icon_chunk`, accumulated; a completed icon is returned. */
    method Add(c: IconChunk) returns (emitted: Option<(seq<Byte>, seq<Byte>)>)
      modifies this
      ensures (entries, emitted) == Accept(old(entries), c)
    {
      var e := if c.gameId in entries then entries[c.gameId] else Entry(c.totalSize, 0, Zeros(c.totalSize));
      emitted := None;
      if c.chunkOffset + |c.chunkData| <= |e.buffer| {
        var buffer := e.buffer[..c.chunkOffset] + c.chunkData + e.buffer[c.chunkOffset + |c.chunkData|..];
        e := Entry(e.totalSize, e.count + 1, buffer);
        if e.count >= c.totalChunks as nat {
          emitted := Some((c.gameId, e.buffer));
          entries := entries - {c.gameId};
          return;
        }
      }
      entries := entries[c.gameId := e];
    }
  }

  /** Chunks fed one after another; the emissions in order. */
  function AcceptAll(entries: map<seq<Byte>, Entry>, chunks: seq<IconChunk>): (r: (map<seq<Byte>, Entry>, seq<(seq<Byte>, seq<Byte>)>))
    decreases |chunks|
  {
    if chunks == [] then (entries, [])
    else
      var prev := AcceptAll(entries, chunks[..|chunks| - 1]);
      var step := Accept(prev.0, chunks[|chunks| - 1]);
      (step.0, prev.1 + (if step.1.Some? then [step.1.value] else []))
  }

  // ---------------------------------------------------------------------
  // The companion's transport object
  // ---------------------------------------------------------------------

  /** The bulk-OUT side of the companion's link: what went to the PSP. */
  class Transport {
    var sent: seq<seq<Byte>>

    constructor ()
      ensures sent == []
    {
      sent := [];
    }

    /**
     * `send_stats_response`: the log cut into 480-byte chunks, sent in
     * order; a failed transfer (`failures[k]` negative for the k-th) ends
     * it with an error. Waiting for the plugin's ACK between chunks is a
     * matter of time and goes on after two seconds either way.
     */
    method SendStatsResponse(lastUpdated: nat, json: seq<Byte>, failures: seq<int>) returns (ok: bool)
      requires lastUpdated < U64_LIMIT
      modifies this
      ensures var packets := StatsResponsePackets(json, lastUpdated);
        var n := Succeeded(failures, |packets|);
        (ok <==> n == |packets|) && sent == old(sent) + packets[..n]
    {
      var total := CeilDiv(|json|, STATS_RESPONSE_CHUNK);
      ghost var packets := StatsResponsePackets(json, lastUpdated);
      var k := 0;
      while k < total
        invariant 0 <= k <= total
        invariant Succeeded(failures, k) == k
        invariant sent == old(sent) + packets[..k]
      {
        var packet := StatsResponseBytes(json, lastUpdated, k, total);
        if k < |failures| && failures[k] < 0 {
          SucceededStops(failures, k, total);
          return false;
        }
        sent := sent + [packet];
        assert packets[..k + 1] == packets[..k] + [packets[k]];
        k := k + 1;
      }
      return true;
    }
  }

  // ---------------------------------------------------------------------
  // Both ends together
  // ---------------------------------------------------------------------

  /** The companion reads the plugin's game-info packet back field by field, texts as the plugin cut them. */
  lemma GameInfoDelivered(gameId: seq<Byte>, title: seq<Byte>, state: int, hasIcon: bool,
                          startTime: nat, persistent: bool, pspName: seq<Byte>)
    requires startTime < U32_LIMIT
    ensures ParsePacket(GameInfoPacket(gameId, title, state, hasIcon, startTime, persistent, pspName))
      == Some(GameInfoEvent(GameInfo(CopyStr(CString(gameId), 10), CopyStr(CString(title), 64), state % 256,
                                     hasIcon, startTime, persistent, CopyStr(CString(pspName), 32))))
  {
    var p := GameInfoPacket(gameId, title, state, hasIcon, startTime, persistent, pspName);
    GameInfoLayout(gameId, title, state, hasIcon, startTime, persistent, pspName);
    ParseGameInfo(p);
  }

  /** Where each field sits in the game-info packet. */
  lemma GameInfoLayout(gameId: seq<Byte>, title: seq<Byte>, state: int, hasIcon: bool,
                       startTime: nat, persistent: bool, pspName: seq<Byte>)
    requires startTime < U32_LIMIT
    ensures var p := GameInfoPacket(gameId, title, state, hasIcon, startTime, persistent, pspName);
      && p[8..18] == TextField(gameId, 10) && p[18..82] == TextField(title, 64)
      && p[82] == state % 256 && (p[83] != 0 <==> hasIcon)
      && U32At(p, 84) == startTime && (p[88] != 0 <==> persistent)
      && p[89..121] == TextField(pspName, 32)
  {
    var p := GameInfoPacket(gameId, title, state, hasIcon, startTime, persistent, pspName);
    var flags: seq<Byte> := [state % 256, if hasIcon then 1 else 0];
    var keep: seq<Byte> := [if persistent then 1 else 0];
    var z := Zeros(7);
    FieldsAt(p, TextField(gameId, 10), TextField(title, 64), flags, U32Bytes(startTime), keep, TextField(pspName, 32), z);
    U32RoundTrip(p, 84, startTime);
  }

  /** The game-info payload's seven parts, each at its offset after the 8-byte header. */
  lemma FieldsAt(p: seq<Byte>, id: seq<Byte>, title: seq<Byte>, flags: seq<Byte>, start: seq<Byte>,
                 keep: seq<Byte>, name: seq<Byte>, pad: seq<Byte>)
    requires |id| == 10 && |title| == 64 && |flags| == 2 && |start| == 4 && |keep| == 1 && |name| == 32
    requires 8 <= |p| && p[8..] == id + (title + (flags + (start + (keep + (name + pad)))))
    ensures p[8..18] == id && p[18..82] == title && p[82] == flags[0] && p[83] == flags[1]
    ensures p[84..88] == start && p[88] == keep[0] && p[89..121] == name
  {
    var r4 := keep + (name + pad);
    var r2 := flags + (start + r4);
    Peel(p, 8, id, title + r2);
    Peel(p, 18, title, r2);
    Peel(p, 82, flags, start + r4);
    Peel(p, 84, start, r4);
    Peel(p, 88, keep, name + pad);
    Peel(p, 89, name, pad);
  }

  /** A long enough packet with the magic and the game-info type reads as its fields. */
  lemma ParseGameInfo(data: seq<Byte>)
    requires |data| >= 128 && U32At(data, 0) == USB_MAGIC && data[4] == PKT_GAME_INFO
    ensures ParsePacket(data) == Some(GameInfoEvent(GameInfo(ReadString(data[8..18]), ReadString(data[18..82]), data[82],
                                                           data[83] != 0, U32At(data, 84), data[88] != 0,
                                                           ReadString(data[89..121]))))
  {
  }

  /** The companion reads the plugin's statistics request as a request with its timestamp. */
  lemma StatsRequestDelivered(localTimestamp: nat)
    requires localTimestamp < U64_LIMIT
    ensures ParsePacket(StatsRequestPacket(localTimestamp)) == Some(StatsRequested([], localTimestamp))
  {
    var p := StatsRequestPacket(localTimestamp);
    assert p[8..16] == U64Bytes(localTimestamp);
    U64RoundTrip(p, 8, localTimestamp);
  }

  /** A heartbeat produces no event. */
  lemma HeartbeatIgnored(uptime: nat, battery: Byte)
    requires uptime < U32_LIMIT
    ensures ParsePacket(HeartbeatPacket(uptime, battery)) == None
  {
  }

  /** A log that fits in one upload chunk reaches the companion whole. */
  lemma SingleStatsUploadDelivered(json: seq<Byte>, lastUpdated: nat)
    requires 0 < |json| <= USB_STATS_CHUNK_SIZE && lastUpdated < U64_LIMIT
    ensures StatsChunkCount(|json|) == 1
    ensures ParsePacket(StatsUploadPackets(json, lastUpdated)[0]) == Some(StatsUploaded(lastUpdated, json))
  {
    CeilDivSmall(|json|, USB_STATS_CHUNK_SIZE);
    var p := StatsUploadPackets(json, lastUpdated)[0];
    var piece := Piece(json, USB_STATS_CHUNK_SIZE, 0);
    assert piece == json;
    var payload := U64Bytes(lastUpdated) + U16Bytes(0) + U16Bytes(1) + U16Bytes(|json|)
      + Field(json, USB_STATS_CHUNK_SIZE);
    assert p[8..] == payload;
    assert p[8..16] == U64Bytes(lastUpdated);
    U64RoundTrip(p, 8, lastUpdated);
    assert p[18..20] == U16Bytes(1);
    U16RoundTrip(p, 18, 1);
    assert p[20..22] == U16Bytes(|json|);
    U16RoundTrip(p, 20, |json|);
    assert p[22..22 + |json|] == json;
  }

  /** What the companion's parser reads from the plugin's icon chunk `k`. */
  function ChunkAsRead(gameId: seq<Byte>, icon: seq<Byte>, k: nat): (r: IconChunk)
    requires 0 < |icon| <= 0xFFFF && k < IconChunkCount(|icon|)
  {
    IconChunksFit(|icon|);
    IconChunk(CopyStr(CString(gameId), 10), |icon|, k * USB_ICON_CHUNK_SIZE,
              Piece(icon, USB_ICON_CHUNK_SIZE, k), k, IconChunkCount(|icon|))
  }

  /** The companion parses each of the plugin's icon chunks back to its id, sizes, offset and piece. */
  lemma IconChunkDelivered(gameId: seq<Byte>, icon: seq<Byte>, k: nat)
    requires 0 < |icon| <= 0xFFFF && k < IconChunkCount(|icon|)
    ensures TryParseIconChunk(IconChunkPacket(gameId, icon, k, IconChunkCount(|icon|))) == Some(ChunkAsRead(gameId, icon, k))
  {
    var total := IconChunkCount(|icon|);
    IconChunksFit(|icon|);
    var p := IconChunkPacket(gameId, icon, k, total);
    var piece := Piece(icon, USB_ICON_CHUNK_SIZE, k);
    ChunkFields(p, TextField(gameId, 10), |icon|, k * USB_ICON_CHUNK_SIZE, |piece|, [k, total],
                Field(piece, USB_ICON_CHUNK_SIZE));
    assert Field(piece, USB_ICON_CHUNK_SIZE)[..|piece|] == piece;
    assert p[26..26 + |piece|] == p[26..][..|piece|];
  }

  /** Where the fields of an icon chunk's payload sit in the packet. */
  lemma ChunkFields(p: seq<Byte>, id: seq<Byte>, size: nat, offset: nat, length: nat, counts: seq<Byte>, data: seq<Byte>)
    requires |id| == 10 && size < U16_LIMIT && offset < U16_LIMIT && length < U16_LIMIT && |counts| == 2
    requires |p| >= 8 && p[8..] == id + U16Bytes(size) + U16Bytes(offset) + U16Bytes(length) + counts + data
    ensures |p| == 26 + |data| && p[8..18] == id && p[24] == counts[0] && p[25] == counts[1] && p[26..] == data
    ensures U16At(p, 18) == size && U16At(p, 20) == offset && U16At(p, 22) == length
  {
    assert p[18..20] == U16Bytes(size);
    U16RoundTrip(p, 18, size);
    assert p[20..22] == U16Bytes(offset);
    U16RoundTrip(p, 20, offset);
    assert p[22..24] == U16Bytes(length);
    U16RoundTrip(p, 22, length);
  }

  /** Every icon chunk of the plugin parses back, as `IconChunkDelivered` says. */
  lemma IconChunksDelivered(gameId: seq<Byte>, icon: seq<Byte>)
    requires 0 < |icon| <= 0xFFFF
    ensures var packets := IconPackets(gameId, icon);
      && (forall k :: 0 <= k < |packets| ==> TryParseIconChunk(packets[k]) == Some(ChunkAsRead(gameId, icon, k)))
      && seq(|packets|, k requires 0 <= k < |packets| => TryParseIconChunk(packets[k]).value)
         == ChunksRead(gameId, icon, |packets|)
  {
    var packets := IconPackets(gameId, icon);
    forall k | 0 <= k < |packets|
      ensures TryParseIconChunk(packets[k]) == Some(ChunkAsRead(gameId, icon, k))
    {
      IconChunkDelivered(gameId, icon, k);
    }
  }

  /** The length of piece `k`: full up to the last one, which takes the rest. */
  lemma PieceLength(data: seq<Byte>, size: nat, k: nat)
    requires size > 0 && k < CeilDiv(|data|, size)
    ensures k + 1 < CeilDiv(|data|, size) ==> |Piece(data, size, k)| == size
    ensures k + 1 == CeilDiv(|data|, size) ==> |Piece(data, size, k)| == |data| - k * size
  {
    CeilDivBelow(|data|, size, k + 1);
  }

  /** The accumulator's buffer after the first `m` pieces of an icon. */
  function Partial(icon: seq<Byte>, m: nat): (r: seq<Byte>)
    requires m * USB_ICON_CHUNK_SIZE <= |icon|
    ensures |r| == |icon|
  {
    icon[..m * USB_ICON_CHUNK_SIZE] + Zeros(|icon| - m * USB_ICON_CHUNK_SIZE)
  }

  /** The piece after the first `j` lands in the buffer: the next prefix, or the icon itself after the last. */
  lemma AcceptNextPiece(pending: map<seq<Byte>, Entry>, gameId: seq<Byte>, icon: seq<Byte>, j: nat)
    requires 0 < |icon| <= 0xFFFF && j < IconChunkCount(|icon|)
    requires j * USB_ICON_CHUNK_SIZE <= |icon|
    requires var id := CopyStr(CString(gameId), 10);
      (j == 0 && id !in pending) || (j > 0 && id in pending && pending[id] == Entry(|icon|, j, Partial(icon, j)))
    ensures var id := CopyStr(CString(gameId), 10);
      var total := IconChunkCount(|icon|);
      && (j + 1 < total ==>
            (j + 1) * USB_ICON_CHUNK_SIZE <= |icon|
            && Accept(pending, ChunkAsRead(gameId, icon, j)) == (pending[id := Entry(|icon|, j + 1, Partial(icon, j + 1))], None))
      && (j + 1 == total ==> Accept(pending, ChunkAsRead(gameId, icon, j)) == (pending - {id}, Some((id, icon))))
  {
    var id := CopyStr(CString(gameId), 10);
    var total := IconChunkCount(|icon|);
    IconChunksFit(|icon|);
    PieceLength(icon, USB_ICON_CHUNK_SIZE, j);
    var piece := Piece(icon, USB_ICON_CHUNK_SIZE, j);
    var start := j * USB_ICON_CHUNK_SIZE;
    var before := Partial(icon, j);
    if j == 0 {
      assert before == Zeros(|icon|);
    }
    var after := Splice(before, start, piece);
    assert after == icon[..start + |piece|] + Zeros(|icon| - start - |piece|);
    if j + 1 == total {
      assert after == icon;
    } else {
      assert start + |piece| == (j + 1) * USB_ICON_CHUNK_SIZE;
    }
  }

  /** The first `m` chunks of an icon, as the companion reads them. */
  function ChunksRead(gameId: seq<Byte>, icon: seq<Byte>, m: nat): (r: seq<IconChunk>)
    requires 0 < |icon| <= 0xFFFF && m <= IconChunkCount(|icon|)
    ensures |r| == m && forall k :: 0 <= k < m ==> r[k] == ChunkAsRead(gameId, icon, k)
  {
    if m == 0 then [] else ChunksRead(gameId, icon, m - 1) + [ChunkAsRead(gameId, icon, m - 1)]
  }

  lemma AcceptAllSnoc(entries: map<seq<Byte>, Entry>, chunks: seq<IconChunk>, c: IconChunk)
    ensures var prev := AcceptAll(entries, chunks);
      var step := Accept(prev.0, c);
      AcceptAll(entries, chunks + [c]) == (step.0, prev.1 + (if step.1.Some? then [step.1.value] else []))
  {
    assert (chunks + [c])[..|chunks|] == chunks;
  }

  /** What the accumulator holds after the first `m` chunks of an icon. */
  function AfterChunks(entries: map<seq<Byte>, Entry>, gameId: seq<Byte>, icon: seq<Byte>, m: nat)
    : (r: (map<seq<Byte>, Entry>, seq<(seq<Byte>, seq<Byte>)>))
    requires 0 < |icon| <= 0xFFFF && 0 < m <= IconChunkCount(|icon|)
  {
    var id := CopyStr(CString(gameId), 10);
    if m < IconChunkCount(|icon|) then
      CeilDivBelow(|icon|, USB_ICON_CHUNK_SIZE, m);
      (entries[id := Entry(|icon|, m, Partial(icon, m))], [])
    else (entries, [(id, icon)])
  }

  lemma IconFirstChunk(entries: map<seq<Byte>, Entry>, gameId: seq<Byte>, icon: seq<Byte>)
    requires 0 < |icon| <= 0xFFFF && CopyStr(CString(gameId), 10) !in entries
    ensures 0 < IconChunkCount(|icon|)
    ensures AcceptAll(entries, ChunksRead(gameId, icon, 1)) == AfterChunks(entries, gameId, icon, 1)
  {
    CeilDivBelow(|icon|, USB_ICON_CHUNK_SIZE, 0);
    var c := ChunkAsRead(gameId, icon, 0);
    var chunks := ChunksRead(gameId, icon, 1);
    assert chunks == [c];
    var step := Accept(entries, c);
    AcceptAllSingle(entries, c);
    AcceptNextPiece(entries, gameId, icon, 0);
    IconFirstStep(entries, gameId, icon, step);
  }

  lemma AcceptAllSingle(entries: map<seq<Byte>, Entry>, c: IconChunk)
    ensures var step := Accept(entries, c);
      AcceptAll(entries, [c]) == (step.0, if step.1.Some? then [step.1.value] else [])
  {
    AcceptAfterQuiet(entries, [], c, entries);
    assert [] + [c] == [c];
  }

  lemma IconFirstStep(entries: map<seq<Byte>, Entry>, gameId: seq<Byte>, icon: seq<Byte>,
                      step: (map<seq<Byte>, Entry>, Option<(seq<Byte>, seq<Byte>)>))
    requires 0 < |icon| <= 0xFFFF && 0 < IconChunkCount(|icon|)
    requires var id := CopyStr(CString(gameId), 10);
      && id !in entries
      && (1 < IconChunkCount(|icon|) ==>
            USB_ICON_CHUNK_SIZE <= |icon| && step == (entries[id := Entry(|icon|, 1, Partial(icon, 1))], None))
      && (1 == IconChunkCount(|icon|) ==> step == (entries - {id}, Some((id, icon))))
    ensures (step.0, if step.1.Some? then [step.1.value] else []) == AfterChunks(entries, gameId, icon, 1)
  {
    var id := CopyStr(CString(gameId), 10);
    if 1 == IconChunkCount(|icon|) {
      assert entries - {id} == entries;
    }
  }

  lemma Overwrite<K, V>(m: map<K, V>, k: K, a: V, b: V)
    ensures m[k := a][k := b] == m[k := b]
  {
  }

  lemma Withdraw<K, V>(m: map<K, V>, k: K, a: V)
    requires k !in m
    ensures m[k := a] - {k} == m
  {
  }

  /** One more chunk after a run of chunks that emitted nothing. */
  lemma AcceptAfterQuiet(entries: map<seq<Byte>, Entry>, chunks: seq<IconChunk>, c: IconChunk, pending: map<seq<Byte>, Entry>)
    requires AcceptAll(entries, chunks) == (pending, [])
    ensures var step := Accept(pending, c);
      AcceptAll(entries, chunks + [c]) == (step.0, if step.1.Some? then [step.1.value] else [])
  {
    AcceptAllSnoc(entries, chunks, c);
    var step := Accept(pending, c);
    var out: seq<(seq<Byte>, seq<Byte>)> := if step.1.Some? then [step.1.value] else [];
    assert [] + out == out;
  }

  lemma IconNextChunk(entries: map<seq<Byte>, Entry>, gameId: seq<Byte>, icon: seq<Byte>, m: nat)
    requires 0 < |icon| <= 0xFFFF && 1 < m <= IconChunkCount(|icon|)
    requires CopyStr(CString(gameId), 10) !in entries
    requires AcceptAll(entries, ChunksRead(gameId, icon, m - 1)) == AfterChunks(entries, gameId, icon, m - 1)
    ensures AcceptAll(entries, ChunksRead(gameId, icon, m)) == AfterChunks(entries, gameId, icon, m)
  {
    var id := CopyStr(CString(gameId), 10);
    var c := ChunkAsRead(gameId, icon, m - 1);
    var chunks := ChunksRead(gameId, icon, m - 1);
    CeilDivBelow(|icon|, USB_ICON_CHUNK_SIZE, m - 1);
    var pending := entries[id := Entry(|icon|, m - 1, Partial(icon, m - 1))];
    assert ChunksRead(gameId, icon, m) == chunks + [c];
    AcceptAfterQuiet(entries, chunks, c, pending);
    AcceptNextPiece(pending, gameId, icon, m - 1);
    if m < IconChunkCount(|icon|) {
      CeilDivBelow(|icon|, USB_ICON_CHUNK_SIZE, m);
      Overwrite(entries, id, Entry(|icon|, m - 1, Partial(icon, m - 1)), Entry(|icon|, m, Partial(icon, m)));
    } else {
      Withdraw(entries, id, Entry(|icon|, m - 1, Partial(icon, m - 1)));
    }
  }

  /**
   * The accumulator, fed the plugin's chunks of one icon in order (no
   * entry for that id pending), holds the prefix received so far, and
   * after the last chunk has emitted the icon.
   */
  lemma {:induction false} IconPrefix(entries: map<seq<Byte>, Entry>, gameId: seq<Byte>, icon: seq<Byte>, m: nat)
    requires 0 < |icon| <= 0xFFFF && 0 < m <= IconChunkCount(|icon|)
    requires CopyStr(CString(gameId), 10) !in entries
    ensures AcceptAll(entries, ChunksRead(gameId, icon, m)) == AfterChunks(entries, gameId, icon, m)
  {
    if m == 1 {
      IconFirstChunk(entries, gameId, icon);
    } else {
      IconPrefix(entries, gameId, icon, m - 1);
      IconNextChunk(entries, gameId, icon, m);
    }
  }

  /**
   * Every chunk the plugin sends for an icon, parsed and accumulated in
   * order, yields exactly one icon: the plugin's, under the id the plugin
   * wrote; the accumulator ends as it began.
   */
  lemma IconDelivered(entries: map<seq<Byte>, Entry>, gameId: seq<Byte>, icon: seq<Byte>)
    requires 0 < |icon| <= 0xFFFF
    requires CopyStr(CString(gameId), 10) !in entries
    ensures var packets := IconPackets(gameId, icon);
      && (forall k :: 0 <= k < |packets| ==> TryParseIconChunk(packets[k]).Some?)
      && AcceptAll(entries, seq(|packets|, k requires 0 <= k < |packets| => TryParseIconChunk(packets[k]).value))
         == (entries, [(CopyStr(CString(gameId), 10), icon)])
  {
    var packets := IconPackets(gameId, icon);
    var total := |packets|;
    IconChunksDelivered(gameId, icon);
    CeilDivBelow(|icon|, USB_ICON_CHUNK_SIZE, 0);
    IconPrefix(entries, gameId, icon, total);
  }

  /** What the plugin's receiver reads from the companion's statistics-response chunk `k`. */
  lemma StatsResponseDecoded(json: seq<Byte>, lastUpdated: nat, k: nat)
    requires lastUpdated < U64_LIMIT && k < CeilDiv(|json|, STATS_RESPONSE_CHUNK)
    ensures var total := CeilDiv(|json|, STATS_RESPONSE_CHUNK);
      var p := StatsResponseBytes(json, lastUpdated, k, total);
      && U32At(p, 0) == USB_MAGIC && p[4] == PKT_STATS_RESPONSE && |p| >= STATS_RESPONSE_SIZE
      && DecodeResponseChunk(p) == ResponseChunk(lastUpdated, |json| % U32_LIMIT, k % U16_LIMIT,
                                                 total % U16_LIMIT, |Piece(json, STATS_RESPONSE_CHUNK, k)|)
  {
    var total := CeilDiv(|json|, STATS_RESPONSE_CHUNK);
    var p := StatsResponseBytes(json, lastUpdated, k, total);
    var piece := Piece(json, STATS_RESPONSE_CHUNK, k);
    var kind: seq<Byte> := [PKT_STATS_RESPONSE, 0];
    var head := U32Bytes(USB_MAGIC) + kind + U16Bytes(504) + U64Bytes(lastUpdated)
      + U32Bytes(|json| % U32_LIMIT) + U16Bytes(k % U16_LIMIT) + U16Bytes(total % U16_LIMIT)
      + U16Bytes(|piece|);
    assert p[..26] == head;
    assert p[0..4] == U32Bytes(USB_MAGIC);
    U32RoundTrip(p, 0, USB_MAGIC);
    assert p[8..16] == U64Bytes(lastUpdated);
    U64RoundTrip(p, 8, lastUpdated);
    assert p[16..20] == U32Bytes(|json| % U32_LIMIT);
    U32RoundTrip(p, 16, |json| % U32_LIMIT);
    assert p[20..22] == U16Bytes(k % U16_LIMIT);
    U16RoundTrip(p, 20, k % U16_LIMIT);
    assert p[22..24] == U16Bytes(total % U16_LIMIT);
    U16RoundTrip(p, 22, total % U16_LIMIT);
    assert p[24..26] == U16Bytes(|piece|);
    U16RoundTrip(p, 24, |piece|);
  }

  /** The chunks of a response, as the receiver reads them. */
  function ResponseChunks(json: seq<Byte>, lastUpdated: nat): (r: seq<ResponseChunk>)
  {
    var total := CeilDiv(|json|, STATS_RESPONSE_CHUNK);
    seq(total, k requires 0 <= k < total =>
      ResponseChunk(lastUpdated, |json| % U32_LIMIT, k % U16_LIMIT, total % U16_LIMIT,
                    |Piece(json, STATS_RESPONSE_CHUNK, k)|))
  }

  /** Chunks received one after another, every log write complete. */
  function ReceiveInFull(s: Stream, chunks: seq<ResponseChunk>): (r: Stream)
    requires s.bytesWritten < U32_LIMIT && s.receivedChunks < U16_LIMIT
    ensures r.bytesWritten < U32_LIMIT && r.receivedChunks < U16_LIMIT
    decreases |chunks|
  {
    if chunks == [] then s
    else
      var c := chunks[|chunks| - 1];
      Receive(ReceiveInFull(s, chunks[..|chunks| - 1]), c, true, c.dataLength)
  }

  /** A response's first chunk, received with the write complete, starts a fresh stream. */
  lemma ReceiveFirst(s: Stream, c: ResponseChunk)
    requires s.bytesWritten < U32_LIMIT && s.receivedChunks < U16_LIMIT
    requires c.chunkIndex == 0 && 0 < c.dataLength < U32_LIMIT && 0 < c.totalChunks < U16_LIMIT
    ensures Receive(s, c, true, c.dataLength)
      == if 1 < c.totalChunks then Stream(true, c.totalBytes, c.dataLength, c.totalChunks, 1, c.lastUpdated, true, false, false)
         else Stream(false, c.totalBytes, c.dataLength, c.totalChunks, 1, c.lastUpdated, true,
                     c.dataLength == c.totalBytes, c.dataLength != c.totalBytes)
  {
  }

  /** A later chunk of an open stream is written and counted, and closes the stream when it is the last. */
  lemma ReceiveNext(s: Stream, c: ResponseChunk)
    requires s.open && s.active && !s.verified && !s.deleted
    requires c.chunkIndex != 0 && 0 < c.dataLength
    requires s.bytesWritten + c.dataLength < U32_LIMIT && s.receivedChunks + 1 < U16_LIMIT
    ensures var done := s.bytesWritten + c.dataLength;
      Receive(s, c, true, c.dataLength)
      == if s.receivedChunks + 1 < s.totalChunks then s.(bytesWritten := done, receivedChunks := s.receivedChunks + 1)
         else s.(open := false, bytesWritten := done, receivedChunks := s.receivedChunks + 1,
                 verified := done == s.totalBytes, deleted := done != s.totalBytes)
  {
  }

  /** The receiver's record after one more chunk. */
  lemma ReceiveInFullSnoc(s: Stream, chunks: seq<ResponseChunk>, m: nat)
    requires s.bytesWritten < U32_LIMIT && s.receivedChunks < U16_LIMIT
    requires 0 < m <= |chunks|
    ensures ReceiveInFull(s, chunks[..m])
      == Receive(ReceiveInFull(s, chunks[..m - 1]), chunks[m - 1], true, chunks[m - 1].dataLength)
  {
    assert chunks[..m][..m - 1] == chunks[..m - 1];
  }

  /** The receiver's record after the first `m` chunks of a response. */
  lemma {:induction false} StreamPrefix(s: Stream, json: seq<Byte>, lastUpdated: nat, m: nat)
    requires s.bytesWritten < U32_LIMIT && s.receivedChunks < U16_LIMIT
    requires 0 < |json| < U32_LIMIT && CeilDiv(|json|, STATS_RESPONSE_CHUNK) < U16_LIMIT
    requires 0 < m <= CeilDiv(|json|, STATS_RESPONSE_CHUNK)
    ensures var total := CeilDiv(|json|, STATS_RESPONSE_CHUNK);
      var r := ReceiveInFull(s, ResponseChunks(json, lastUpdated)[..m]);
      && (m < total ==> r == Stream(true, |json|, m * STATS_RESPONSE_CHUNK, total, m, lastUpdated, true, false, false))
      && (m == total ==> r == Stream(false, |json|, |json|, total, total, lastUpdated, true, true, false))
  {
    var total := CeilDiv(|json|, STATS_RESPONSE_CHUNK);
    var chunks := ResponseChunks(json, lastUpdated);
    PieceLength(json, STATS_RESPONSE_CHUNK, m - 1);
    var length := |Piece(json, STATS_RESPONSE_CHUNK, m - 1)|;
    var c := chunks[m - 1];
    assert c == ResponseChunk(lastUpdated, |json|, m - 1, total, length);
    ReceiveInFullSnoc(s, chunks, m);
    if m == 1 {
      assert chunks[..0] == [];
      ReceiveFirst(s, c);
    } else {
      StreamPrefix(s, json, lastUpdated, m - 1);
      if m < total {
        CeilDivBelow(|json|, STATS_RESPONSE_CHUNK, m);
      }
      StreamStep(ReceiveInFull(s, chunks[..m - 1]), c, |json|, total, m);
    }
  }

  /** One more chunk of an open response stream, with the write complete. */
  lemma StreamStep(prev: Stream, c: ResponseChunk, size: nat, total: nat, m: nat)
    requires 1 < m <= total < U16_LIMIT && size < U32_LIMIT
    requires prev == Stream(true, size, (m - 1) * STATS_RESPONSE_CHUNK, total, m - 1, c.lastUpdated, true, false, false)
    requires c.chunkIndex == m - 1 && 0 < c.dataLength
    requires m < total ==> c.dataLength == STATS_RESPONSE_CHUNK && m * STATS_RESPONSE_CHUNK < size
    requires m == total ==> (m - 1) * STATS_RESPONSE_CHUNK + c.dataLength == size
    ensures m < total ==>
      Receive(prev, c, true, c.dataLength) == Stream(true, size, m * STATS_RESPONSE_CHUNK, total, m, c.lastUpdated, true, false, false)
    ensures m == total ==>
      Receive(prev, c, true, c.dataLength) == Stream(false, size, size, total, total, c.lastUpdated, true, true, false)
  {
    ReceiveNext(prev, c);
  }

  /**
   * A statistics response the companion sends, received whole by the
   * plugin with every write complete, leaves a verified log of the right
   * size, and the plugin's completion poll reports success.
   */
  lemma StatsResponseDelivered(s: Stream, json: seq<Byte>, lastUpdated: nat)
    requires s.bytesWritten < U32_LIMIT && s.receivedChunks < U16_LIMIT
    requires 0 < |json| < U32_LIMIT && CeilDiv(|json|, STATS_RESPONSE_CHUNK) < U16_LIMIT
    requires lastUpdated < U64_LIMIT
    ensures var packets := StatsResponsePackets(json, lastUpdated);
      && |packets| == |ResponseChunks(json, lastUpdated)|
      && (forall k :: 0 <= k < |packets| ==> DecodeResponseChunk(packets[k]) == ResponseChunks(json, lastUpdated)[k])
      && var r := ReceiveInFull(s, ResponseChunks(json, lastUpdated));
         r.verified && !r.deleted && r.bytesWritten == |json| && r.lastUpdated == lastUpdated
         && StreamStatus(r) == 1
  {
    ResponsePacketsDecode(json, lastUpdated);
    ResponseReceivedWhole(s, json, lastUpdated);
  }

  /** Every packet of a response decodes to its chunk. */
  lemma ResponsePacketsDecode(json: seq<Byte>, lastUpdated: nat)
    requires lastUpdated < U64_LIMIT
    ensures var packets := StatsResponsePackets(json, lastUpdated);
      && |packets| == |ResponseChunks(json, lastUpdated)|
      && forall k :: 0 <= k < |packets| ==> DecodeResponseChunk(packets[k]) == ResponseChunks(json, lastUpdated)[k]
  {
    var packets := StatsResponsePackets(json, lastUpdated);
    forall k | 0 <= k < |packets|
      ensures DecodeResponseChunk(packets[k]) == ResponseChunks(json, lastUpdated)[k]
    {
      StatsResponseDecoded(json, lastUpdated, k);
    }
  }

  /** All chunks of a response received with every write complete end in a verified log. */
  lemma ResponseReceivedWhole(s: Stream, json: seq<Byte>, lastUpdated: nat)
    requires s.bytesWritten < U32_LIMIT && s.receivedChunks < U16_LIMIT
    requires 0 < |json| < U32_LIMIT && CeilDiv(|json|, STATS_RESPONSE_CHUNK) < U16_LIMIT
    ensures var r := ReceiveInFull(s, ResponseChunks(json, lastUpdated));
      r.verified && !r.deleted && r.bytesWritten == |json| && r.lastUpdated == lastUpdated
      && StreamStatus(r) == 1
  {
    var total := CeilDiv(|json|, STATS_RESPONSE_CHUNK);
    var chunks := ResponseChunks(json, lastUpdated);
    CeilDivBelow(|json|, STATS_RESPONSE_CHUNK, 0);
    StreamPrefix(s, json, lastUpdated, total);
    assert chunks[..total] == chunks;
  }
}
