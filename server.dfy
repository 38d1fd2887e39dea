/**
 * The desktop companion's UDP server: one record per PSP address, each
 * holding the chunked icon and statistics transfers in progress.  The
 * server's map of connections is updated in place by the packet handlers
 * and by the periodic timeout sweep.  Time is a parameter, in
 * milliseconds.
 */
module Server {
  import opened Common
  import opened Protocol
  import Network

  // ---------------------------------------------------------------------
  // Chunk buffers
  // ---------------------------------------------------------------------

  /** A chunked transfer being received: one slot per chunk, the announced total, the slots filled. */
  datatype Chunked = Chunked(slots: seq<Option<seq<Byte>>>, totalChunks: nat, received: nat)

  /** The number of filled slots. */
  function Filled(slots: seq<Option<seq<Byte>>>): (r: nat)
    ensures r <= |slots|
  {
    if slots == [] then 0
    else Filled(slots[..|slots| - 1]) + (if slots[|slots| - 1].Some? then 1 else 0)
  }

  /**
   * The bookkeeping the handlers keep: one slot per announced chunk, the
   * counter equal to the number of filled slots, and the 16-bit fields in
   * range (so `received_chunks += 1` never overflows).
   */
  predicate Consistent(b: Chunked)
  {
    |b.slots| == b.totalChunks && b.totalChunks < U16_LIMIT && b.received == Filled(b.slots)
  }

  /** A buffer for `total` chunks, as the first chunk of a transfer creates it. */
  function Fresh(total: nat): (r: Chunked)
    ensures |r.slots| == total && r.received == 0
    ensures forall k :: 0 <= k < total ==> r.slots[k].None?
    ensures total < U16_LIMIT ==> Consistent(r)
  {
    var slots := seq(total, k => None);
    FilledNone(slots);
    Chunked(slots, total, 0)
  }

  lemma {:induction false} FilledNone(slots: seq<Option<seq<Byte>>>)
    requires forall k :: 0 <= k < |slots| ==> slots[k].None?
    ensures Filled(slots) == 0
    decreases |slots|
  {
    if slots != [] {
      FilledNone(slots[..|slots| - 1]);
    }
  }

  /**
   * A chunk stored at `index`: an index past the buffer is ignored; a slot
   * is counted only the first time it is filled, and a repeated chunk
   * replaces the earlier data.
   */
  function Store(b: Chunked, index: nat, data: seq<Byte>): (r: Chunked)
    ensures index >= |b.slots| ==> r == b
    ensures index < |b.slots| ==> r.slots == b.slots[index := Some(data)] && r.totalChunks == b.totalChunks
    ensures index < |b.slots| ==> r.received == b.received + (if b.slots[index].None? then 1 else 0)
  {
    if index < |b.slots| then
      Chunked(b.slots[index := Some(data)], b.totalChunks,
              b.received + (if b.slots[index].None? then 1 else 0))
    else b
  }

  lemma {:induction false} FilledUpdate(slots: seq<Option<seq<Byte>>>, i: nat, x: seq<Byte>)
    requires i < |slots|
    ensures Filled(slots[i := Some(x)]) == Filled(slots) + (if slots[i].None? then 1 else 0)
    decreases |slots|
  {
    var n := |slots|;
    var u := slots[i := Some(x)];
    if i == n - 1 {
      assert u[..n - 1] == slots[..n - 1];
    } else {
      assert u[..n - 1] == slots[..n - 1][i := Some(x)];
      FilledUpdate(slots[..n - 1], i, x);
    }
  }

  /** Storing a chunk keeps the counter equal to the filled slots. */
  lemma StoreConsistent(b: Chunked, index: nat, data: seq<Byte>)
    requires Consistent(b)
    ensures Consistent(Store(b, index, data))
  {
    if index < |b.slots| {
      FilledUpdate(b.slots, index, data);
    }
  }

  /** A chunk received twice is counted once. */
  lemma DuplicateCountedOnce(b: Chunked, index: nat, first: seq<Byte>, again: seq<Byte>)
    ensures Store(Store(b, index, first), index, again).received == Store(b, index, first).received
    ensures index < |b.slots| ==> Store(Store(b, index, first), index, again).slots[index] == Some(again)
  {
  }

  /** The filled slots' data concatenated in index order; empty slots contribute nothing. */
  function Assemble(slots: seq<Option<seq<Byte>>>): (r: seq<Byte>)
  {
    if slots == [] then []
    else
      var last := slots[|slots| - 1];
      Assemble(slots[..|slots| - 1]) + (if last.Some? then last.value else [])
  }

  lemma {:induction false} FlattenSnoc(parts: seq<seq<Byte>>, x: seq<Byte>)
    ensures Flatten(parts + [x]) == Flatten(parts) + x
    decreases |parts|
  {
    if parts == [] {
      assert [] + [x] == [x];
      assert Flatten([x]) == x + Flatten([]);
    } else {
      assert (parts + [x])[1..] == parts[1..] + [x];
      FlattenSnoc(parts[1..], x);
    }
  }

  /** Chunks stored at their own indices, in order, starting from a fresh buffer. */
  function Fed(total: nat, pieces: seq<seq<Byte>>): (r: Chunked)
    decreases |pieces|
  {
    if pieces == [] then Fresh(total)
    else Store(Fed(total, pieces[..|pieces| - 1]), |pieces| - 1, pieces[|pieces| - 1])
  }

  /** After `m` chunks in order the first `m` slots hold them, and the counter is `m`. */
  lemma {:induction false} FedShape(total: nat, pieces: seq<seq<Byte>>)
    requires |pieces| <= total
    ensures var b := Fed(total, pieces);
      |b.slots| == total && b.totalChunks == total && b.received == |pieces|
      && (forall k :: 0 <= k < total ==> b.slots[k] == if k < |pieces| then Some(pieces[k]) else None)
    decreases |pieces|
  {
    if pieces != [] {
      FedShape(total, pieces[..|pieces| - 1]);
    }
  }

  /** With every slot filled in order, the assembled data is the chunks joined. */
  lemma {:induction false} AssembleFilled(slots: seq<Option<seq<Byte>>>, pieces: seq<seq<Byte>>)
    requires |slots| == |pieces| && forall k :: 0 <= k < |slots| ==> slots[k] == Some(pieces[k])
    ensures Assemble(slots) == Flatten(pieces)
    decreases |slots|
  {
    if slots != [] {
      var n := |slots|;
      AssembleFilled(slots[..n - 1], pieces[..n - 1]);
      assert Assemble(slots) == Assemble(slots[..n - 1]) + pieces[n - 1];
      FlattenSnoc(pieces[..n - 1], pieces[n - 1]);
      assert pieces[..n - 1] + [pieces[n - 1]] == pieces;
    }
  }

  /** Every chunk of a transfer, delivered in order, assembles to the joined data. */
  lemma FedComplete(pieces: seq<seq<Byte>>)
    requires |pieces| < U16_LIMIT
    ensures var b := Fed(|pieces|, pieces);
      Consistent(b) && b.received == b.totalChunks && Assemble(b.slots) == Flatten(pieces)
  {
    var b := Fed(|pieces|, pieces);
    FedShape(|pieces|, pieces);
    AssembleFilled(b.slots, pieces);
    FedConsistent(|pieces|, pieces);
  }

  lemma {:induction false} FedConsistent(total: nat, pieces: seq<seq<Byte>>)
    requires total < U16_LIMIT
    ensures Consistent(Fed(total, pieces))
    decreases |pieces|
  {
    if pieces != [] {
      FedConsistent(total, pieces[..|pieces| - 1]);
      StoreConsistent(Fed(total, pieces[..|pieces| - 1]), |pieces| - 1, pieces[|pieces| - 1]);
    }
  }

  // ---------------------------------------------------------------------
  // Icon transfers
  // ---------------------------------------------------------------------

  /**
   * `handle_icon_chunk` on one connection's buffers: the buffer for the
   * chunk's game is created on its first chunk, sized from that chunk's
   * total, and the chunk is stored.
   */
  function AcceptIconChunk(icons: map<seq<Byte>, Chunked>, c: IconChunkMsg): (r: map<seq<Byte>, Chunked>)
    ensures r.Keys == icons.Keys + {c.gameId}
    ensures forall id :: id in icons && id != c.gameId ==> r[id] == icons[id]
    ensures c.gameId !in icons ==> |r[c.gameId].slots| == c.totalChunks
    ensures c.gameId in icons ==> |r[c.gameId].slots| == |icons[c.gameId].slots|
  {
    var b := if c.gameId in icons then icons[c.gameId] else Fresh(c.totalChunks);
    icons[c.gameId := Store(b, c.chunkIndex, c.data)]
  }

  /**
   * `handle_icon_end` on one connection's buffers: the game's buffer is
   * removed, and its chunks, joined in index order, are the icon when
   * their CRC-32 matches the end marker's.
   */
  function FinishIcon(icons: map<seq<Byte>, Chunked>, end: IconEndMsg): (r: (map<seq<Byte>, Chunked>, Option<seq<Byte>>))
    ensures r.0 == icons - {end.gameId}
    ensures r.1.Some? <==> end.gameId in icons && Network.Crc32(Assemble(icons[end.gameId].slots)) as nat == end.crc32
    ensures r.1.Some? ==> r.1.value == Assemble(icons[end.gameId].slots)
  {
    if end.gameId in icons then
      var data := Assemble(icons[end.gameId].slots);
      (icons - {end.gameId}, if Network.Crc32(data) as nat == end.crc32 then Some(data) else None)
    else (icons, None)
  }

  /** Every buffer a connection keeps stays consistent through a chunk. */
  lemma AcceptIconChunkConsistent(icons: map<seq<Byte>, Chunked>, c: IconChunkMsg)
    requires forall id :: id in icons ==> Consistent(icons[id])
    requires c.totalChunks < U16_LIMIT
    ensures var r := AcceptIconChunk(icons, c);
      forall id :: id in r ==> Consistent(r[id])
  {
    var b := if c.gameId in icons then icons[c.gameId] else Fresh(c.totalChunks);
    StoreConsistent(b, c.chunkIndex, c.data);
  }

  /** Chunks fed to the buffers one after another. */
  function AcceptIconChunks(icons: map<seq<Byte>, Chunked>, chunks: seq<IconChunkMsg>): (r: map<seq<Byte>, Chunked>)
    decreases |chunks|
  {
    if chunks == [] then icons
    else AcceptIconChunk(AcceptIconChunks(icons, chunks[..|chunks| - 1]), chunks[|chunks| - 1])
  }

  /** The chunks of one icon, as the server decodes them. */
  function IconChunkMsgs(id: seq<Byte>, pieces: seq<seq<Byte>>, m: nat): (r: seq<IconChunkMsg>)
    requires m <= |pieces|
    ensures |r| == m && forall k :: 0 <= k < m ==> r[k] == IconChunkMsg(id, k, |pieces|, pieces[k])
  {
    if m == 0 then [] else IconChunkMsgs(id, pieces, m - 1) + [IconChunkMsg(id, m - 1, |pieces|, pieces[m - 1])]
  }

  /** After the first `m` chunks of one icon, its buffer holds exactly those chunks. */
  lemma {:induction false} IconChunksPrefix(icons: map<seq<Byte>, Chunked>, id: seq<Byte>, pieces: seq<seq<Byte>>, m: nat)
    requires id !in icons && 0 < m <= |pieces|
    ensures AcceptIconChunks(icons, IconChunkMsgs(id, pieces, m)) == icons[id := Fed(|pieces|, pieces[..m])]
  {
    var chunks := IconChunkMsgs(id, pieces, m);
    assert chunks[..m - 1] == IconChunkMsgs(id, pieces, m - 1);
    AcceptUnfold(icons, chunks);
    FedStep(|pieces|, pieces, m);
    var next := Fed(|pieces|, pieces[..m]);
    if m == 1 {
      assert pieces[..0] == [];
    } else {
      IconChunksPrefix(icons, id, pieces, m - 1);
      UpdateTwice(icons, id, Fed(|pieces|, pieces[..m - 1]), next);
    }
  }

  lemma AcceptUnfold(icons: map<seq<Byte>, Chunked>, chunks: seq<IconChunkMsg>)
    requires chunks != []
    ensures AcceptIconChunks(icons, chunks)
      == AcceptIconChunk(AcceptIconChunks(icons, chunks[..|chunks| - 1]), chunks[|chunks| - 1])
  {
  }

  lemma FedStep(total: nat, pieces: seq<seq<Byte>>, m: nat)
    requires 0 < m <= |pieces|
    ensures Fed(total, pieces[..m]) == Store(Fed(total, pieces[..m - 1]), m - 1, pieces[m - 1])
  {
    assert pieces[..m][..m - 1] == pieces[..m - 1];
  }

  /**
   * All chunks of an icon followed by its end marker: the buffer is gone
   * afterwards, and the icon emitted is exactly the joined chunks.
   */
  lemma IconReassembled(icons: map<seq<Byte>, Chunked>, id: seq<Byte>, pieces: seq<seq<Byte>>, size: nat)
    requires id !in icons && 0 < |pieces| < U16_LIMIT && size < U32_LIMIT
    ensures var r := FinishIcon(AcceptIconChunks(icons, IconChunkMsgs(id, pieces, |pieces|)),
                                IconEndMsg(id, size, Network.Crc32(Flatten(pieces)) as nat));
      r == (icons, Some(Flatten(pieces)))
  {
    var b := Fed(|pieces|, pieces);
    IconChunksPrefix(icons, id, pieces, |pieces|);
    assert pieces[..|pieces|] == pieces;
    FedComplete(pieces);
    FinishWhole(icons, id, b, Flatten(pieces), size);
  }

  /** The end marker of a buffer whose slots join to `data`, with `data`'s checksum, emits `data`. */
  lemma FinishWhole(icons: map<seq<Byte>, Chunked>, id: seq<Byte>, b: Chunked, data: seq<Byte>, size: nat)
    requires id !in icons && Assemble(b.slots) == data
    ensures FinishIcon(icons[id := b], IconEndMsg(id, size, Network.Crc32(data) as nat)) == (icons, Some(data))
  {
    assert icons[id := b] - {id} == icons;
  }

  /** Piece `k` of the net plugin's icon upload, as the server decodes it. */
  lemma IconFrameDecoded(gameId: seq<Byte>, icon: seq<Byte>, k: nat)
    requires 0 < |icon| <= 0xFFFF * Network.ICON_CHUNK_SIZE && k < Network.IconChunkCount(|icon|)
    ensures var frame := Network.IconFrames(gameId, icon)[k];
      var total := Network.IconChunkCount(|icon|);
      && ParsePacket(frame).Ok? && ParsePacket(frame).value.0 == IconChunk
      && DecodeIconChunk(ParsePacket(frame).value.1)
         == Ok(IconChunkMsg(Network.IdField(gameId), k, total, Piece(icon, Network.ICON_CHUNK_SIZE, k)))
  {
    var total := Network.IconChunkCount(|icon|);
    var id := Network.IdField(gameId);
    var m := IconChunkMsg(id, k, total, Piece(icon, Network.ICON_CHUNK_SIZE, k));
    Network.IconFrameAt(gameId, icon, k);
    FrameRoundTrip(IconChunk, EncodeIconChunk(m));
    IconChunkRoundTrip(m);
  }

  /** The net plugin's end marker, as the server decodes it. */
  lemma IconEndDecoded(gameId: seq<Byte>, icon: seq<Byte>)
    requires 0 < |icon| <= 0xFFFF * Network.ICON_CHUNK_SIZE
    ensures var frames := Network.IconFrames(gameId, icon);
      var frame := frames[|frames| - 1];
      && ParsePacket(frame).Ok? && ParsePacket(frame).value.0 == IconEnd
      && DecodeIconEnd(ParsePacket(frame).value.1)
         == Ok(IconEndMsg(Network.IdField(gameId), |icon|, Network.Crc32(icon) as nat))
  {
    var id := Network.IdField(gameId);
    var m := IconEndMsg(id, |icon|, Network.Crc32(icon) as nat);
    Network.IconFrameAt(gameId, icon, Network.IconChunkCount(|icon|));
    FrameRoundTrip(IconEnd, EncodeIconEnd(m));
    IconEndRoundTrip(m);
  }

  /** The pieces of the net plugin's icon upload join back to the icon. */
  lemma IconPiecesJoin(icon: seq<Byte>)
    requires 0 < |icon| <= 0xFFFF * Network.ICON_CHUNK_SIZE
    ensures var total := Network.IconChunkCount(|icon|);
      Flatten(seq(total, k requires 0 <= k < total => Piece(icon, Network.ICON_CHUNK_SIZE, k))) == icon
  {
    var size := Network.ICON_CHUNK_SIZE;
    var total := Network.IconChunkCount(|icon|);
    var pieces := seq(total, k requires 0 <= k < total => Piece(icon, size, k));
    ChunksCount(icon, size);
    forall k | 0 <= k < total
      ensures pieces[k] == Chunks(icon, size)[k]
    {
      ChunkAt(icon, size, k);
    }
    assert pieces == Chunks(icon, size);
    ChunksJoin(icon, size);
  }

  /**
   * End to end: the chunks the net plugin sends for a non-empty icon,
   * decoded by the server and fed to a connection with no transfer pending
   * for that game, followed by the end marker, give back exactly the icon
   * (the CRC check passes) and leave no buffer behind.
   */
  lemma IconDeliveredOverNetwork(icons: map<seq<Byte>, Chunked>, gameId: seq<Byte>, icon: seq<Byte>)
    requires 0 < |icon| <= 0xFFFF * Network.ICON_CHUNK_SIZE
    requires Network.IdField(gameId) !in icons
    ensures var total := Network.IconChunkCount(|icon|);
      var id := Network.IdField(gameId);
      var pieces := seq(total, k requires 0 <= k < total => Piece(icon, Network.ICON_CHUNK_SIZE, k));
      && (forall k :: 0 <= k < total ==>
            DecodeIconChunk(ParsePacket(Network.IconFrames(gameId, icon)[k]).value.1) == Ok(IconChunkMsgs(id, pieces, total)[k]))
      && FinishIcon(AcceptIconChunks(icons, IconChunkMsgs(id, pieces, total)),
                    IconEndMsg(id, |icon|, Network.Crc32(icon) as nat)) == (icons, Some(icon))
  {
    var total := Network.IconChunkCount(|icon|);
    var id := Network.IdField(gameId);
    var pieces := seq(total, k requires 0 <= k < total => Piece(icon, Network.ICON_CHUNK_SIZE, k));
    forall k | 0 <= k < total
      ensures DecodeIconChunk(ParsePacket(Network.IconFrames(gameId, icon)[k]).value.1) == Ok(IconChunkMsgs(id, pieces, total)[k])
    {
      IconFrameDecoded(gameId, icon, k);
    }
    CeilDivBelow(|icon|, Network.ICON_CHUNK_SIZE, 0);
    IconPiecesJoin(icon);
    IconReassembled(icons, id, pieces, |icon|);
  }

  // ---------------------------------------------------------------------
  // Statistics uploads
  // ---------------------------------------------------------------------

  /** A statistics upload chunk, as the handler receives it. */
  datatype StatsUploadMsg = StatsUploadMsg(chunkIndex: nat, totalChunks: nat, lastUpdated: nat, jsonData: seq<Byte>)

  /** A statistics upload being received, with the timestamp of its first chunk. */
  datatype StatsBuffer = StatsBuffer(parts: Chunked, lastUpdated: nat)

  /**
   * `handle_stats_upload_chunk` on one connection's buffer: chunk 0 starts
   * a fresh buffer; a chunk inside the buffer is stored; once the counter
   * reaches the total the chunks are joined and emitted with the upload's
   * timestamp, and the buffer is cleared.
   */
  function AcceptStatsChunk(buffer: Option<StatsBuffer>, u: StatsUploadMsg)
    : (r: (Option<StatsBuffer>, Option<(seq<Byte>, nat)>))
    ensures u.chunkIndex == 0 && u.totalChunks == 0 ==> r == (Some(StatsBuffer(Fresh(0), u.lastUpdated)), None)
    ensures buffer.None? && u.chunkIndex != 0 ==> r == (None, None)
    ensures r.1.Some? ==> r.0.None?
  {
    var b := if u.chunkIndex == 0 then Some(StatsBuffer(Fresh(u.totalChunks), u.lastUpdated)) else buffer;
    if b.None? then (b, None)
    else if u.chunkIndex < |b.value.parts.slots| then
      var parts := Store(b.value.parts, u.chunkIndex, u.jsonData);
      if parts.received >= parts.totalChunks then (None, Some((Assemble(parts.slots), b.value.lastUpdated)))
      else (Some(b.value.(parts := parts)), None)
    else (b, None)
  }

  /** The buffer stays consistent through a chunk. */
  lemma AcceptStatsChunkConsistent(buffer: Option<StatsBuffer>, u: StatsUploadMsg)
    requires buffer.Some? ==> Consistent(buffer.value.parts)
    requires u.totalChunks < U16_LIMIT
    ensures var r := AcceptStatsChunk(buffer, u).0;
      r.Some? ==> Consistent(r.value.parts)
  {
    var b := if u.chunkIndex == 0 then Some(StatsBuffer(Fresh(u.totalChunks), u.lastUpdated)) else buffer;
    if b.Some? {
      StoreConsistent(b.value.parts, u.chunkIndex, u.jsonData);
    }
  }

  /** A chunk already received does not advance the count, so it cannot complete the upload. */
  lemma StatsDuplicateIgnored(b: StatsBuffer, u: StatsUploadMsg)
    requires Consistent(b.parts) && u.chunkIndex != 0 && u.chunkIndex < |b.parts.slots|
    requires b.parts.slots[u.chunkIndex].Some? && b.parts.received < b.parts.totalChunks
    ensures var r := AcceptStatsChunk(Some(b), u);
      r.1.None? && r.0.Some? && r.0.value.parts.received == b.parts.received
  {
  }

  /** The chunks of one upload, as the server receives them. */
  function StatsChunkMsgs(lastUpdated: nat, pieces: seq<seq<Byte>>, m: nat): (r: seq<StatsUploadMsg>)
    requires m <= |pieces|
    ensures |r| == m && forall k :: 0 <= k < m ==> r[k] == StatsUploadMsg(k, |pieces|, lastUpdated, pieces[k])
  {
    if m == 0 then [] else StatsChunkMsgs(lastUpdated, pieces, m - 1) + [StatsUploadMsg(m - 1, |pieces|, lastUpdated, pieces[m - 1])]
  }

  /** Chunks fed one after another; the last emission, if any. */
  function AcceptStatsChunks(buffer: Option<StatsBuffer>, chunks: seq<StatsUploadMsg>)
    : (r: (Option<StatsBuffer>, Option<(seq<Byte>, nat)>))
    decreases |chunks|
  {
    if chunks == [] then (buffer, None)
    else AcceptStatsChunk(AcceptStatsChunks(buffer, chunks[..|chunks| - 1]).0, chunks[|chunks| - 1])
  }

  /** Chunk `k` of an upload sent in order, arriving after the chunks before it. */
  lemma StatsNextChunk(prev: Option<StatsBuffer>, lastUpdated: nat, pieces: seq<seq<Byte>>, k: nat)
    requires k < |pieces| < U16_LIMIT
    requires k > 0 ==> prev == Some(StatsBuffer(Fed(|pieces|, pieces[..k]), lastUpdated))
    ensures AcceptStatsChunk(prev, StatsUploadMsg(k, |pieces|, lastUpdated, pieces[k]))
      == if k + 1 < |pieces| then (Some(StatsBuffer(Fed(|pieces|, pieces[..k + 1]), lastUpdated)), None)
         else (None, Some((Assemble(Fed(|pieces|, pieces[..k + 1]).slots), lastUpdated)))
  {
    var n := |pieces|;
    assert pieces[..k + 1][..k] == pieces[..k];
    if k == 0 {
      assert pieces[..0] == [];
    }
    FedShape(n, pieces[..k]);
    FedShape(n, pieces[..k + 1]);
  }

  /** Part-way through an upload sent in order, the buffer holds what arrived and nothing is emitted. */
  lemma {:induction false} StatsChunksPrefix(buffer: Option<StatsBuffer>, lastUpdated: nat, pieces: seq<seq<Byte>>, m: nat)
    requires 0 < m <= |pieces| < U16_LIMIT
    ensures AcceptStatsChunks(buffer, StatsChunkMsgs(lastUpdated, pieces, m))
      == if m < |pieces| then (Some(StatsBuffer(Fed(|pieces|, pieces[..m]), lastUpdated)), None)
         else (None, Some((Assemble(Fed(|pieces|, pieces[..m]).slots), lastUpdated)))
  {
    var chunks := StatsChunkMsgs(lastUpdated, pieces, m);
    assert chunks[..m - 1] == StatsChunkMsgs(lastUpdated, pieces, m - 1);
    var prev := AcceptStatsChunks(buffer, chunks[..m - 1]).0;
    if m > 1 {
      StatsChunksPrefix(buffer, lastUpdated, pieces, m - 1);
    }
    StatsNextChunk(prev, lastUpdated, pieces, m - 1);
  }

  /**
   * An upload whose chunks arrive once each and in order completes on its
   * last chunk: the joined chunks are emitted with the upload's timestamp,
   * and the buffer is cleared.
   */
  lemma StatsUploadCompletes(buffer: Option<StatsBuffer>, lastUpdated: nat, pieces: seq<seq<Byte>>)
    requires 0 < |pieces| < U16_LIMIT
    ensures AcceptStatsChunks(buffer, StatsChunkMsgs(lastUpdated, pieces, |pieces|))
            == (None, Some((Flatten(pieces), lastUpdated)))
  {
    StatsChunksPrefix(buffer, lastUpdated, pieces, |pieces|);
    assert pieces[..|pieces|] == pieces;
    FedComplete(pieces);
  }

  // ---------------------------------------------------------------------
  // Connections
  // ---------------------------------------------------------------------

  /** What the server keeps per PSP address. */
  datatype Conn = Conn(name: seq<Byte>, lastSeen: nat, currentGame: Option<GameInfoMsg>,
                       icons: map<seq<Byte>, Chunked>, discoverySent: bool, persistent: bool,
                       stats: Option<StatsBuffer>)

  predicate ConnValid(c: Conn)
  {
    (forall id :: id in c.icons ==> Consistent(c.icons[id]))
    && (c.stats.Some? ==> Consistent(c.stats.value.parts))
  }

  /** Replacing one connection by a valid one keeps every connection valid. */
  lemma TableUpdate(conns: map<Network.Addr, Conn>, addr: Network.Addr, c: Conn, m: map<Network.Addr, Conn>)
    requires forall a :: a in conns ==> ConnValid(conns[a])
    requires ConnValid(c) && m == conns[addr := c]
    ensures forall a :: a in m ==> ConnValid(m[a])
  {
  }

  /** The name a PSP gets before it has introduced itself: "PSP-" and its port. */
  function DefaultName(addr: Network.Addr): (r: seq<Byte>)
    ensures |r| > 4 && r[..4] == [0x50, 0x53, 0x50, 0x2D]
  {
    [0x50, 0x53, 0x50, 0x2D] + ToBytes(Decimal(addr.port))
  }

  /**
   * `update_last_seen`: a known PSP is marked seen, and a discovery
   * request is due when auto-discovery is on and none was sent to it yet;
   * an unknown PSP is added, with the request due exactly when
   * auto-discovery is on.
   */
  function LastSeen(conns: map<Network.Addr, Conn>, addr: Network.Addr, now: nat, auto: bool)
    : (r: (map<Network.Addr, Conn>, bool))
    ensures r.0.Keys == conns.Keys + {addr} && r.0[addr].lastSeen == now
    ensures r.1 <==> auto && (addr !in conns || !conns[addr].discoverySent)
    ensures r.0[addr].discoverySent <==> auto || (addr in conns && conns[addr].discoverySent)
    ensures forall a :: a in conns && a != addr ==> r.0[a] == conns[a]
    ensures addr in conns ==> r.0[addr] == conns[addr].(lastSeen := now, discoverySent := r.0[addr].discoverySent)
    ensures addr !in conns ==> r.0[addr] == Conn(DefaultName(addr), now, None, map[], auto, false, None)
  {
    if addr in conns then
      var c := conns[addr];
      if auto && !c.discoverySent then (conns[addr := c.(lastSeen := now, discoverySent := true)], true)
      else (conns[addr := c.(lastSeen := now)], false)
    else (conns[addr := Conn(DefaultName(addr), now, None, map[], auto, false, None)], auto)
  }

  /** A discovery request is due at most once per connection: a second sighting never asks again. */
  lemma DiscoveryRequestedOnce(conns: map<Network.Addr, Conn>, addr: Network.Addr, first: nat, second: nat, auto: bool)
    ensures !LastSeen(LastSeen(conns, addr, first, auto).0, addr, second, auto).1
  {
  }

  /** The elapsed whole seconds between two instants in milliseconds; none when the clock went back. */
  function ElapsedSecs(since: nat, now: nat): (r: nat)
    ensures now >= since ==> r * 1000 <= now - since < (r + 1) * 1000
    ensures now <= since ==> r == 0
  {
    if now >= since then (now - since) / 1000 else 0
  }

  /** The timeout sweep's test: a connection in send-once mode never expires. */
  predicate Expired(c: Conn, now: nat, timeoutSecs: nat)
  {
    !c.persistent && ElapsedSecs(c.lastSeen, now) > timeoutSecs
  }

  /** The sweep's first pass: every address whose connection has expired. */
  method ExpiredAddrs(conns: map<Network.Addr, Conn>, now: nat, timeoutSecs: nat)
    returns (removed: set<Network.Addr>)
    ensures removed == set a | a in conns && Expired(conns[a], now, timeoutSecs)
  {
    var pending := conns.Keys;
    removed := {};
    while pending != {}
      invariant pending <= conns.Keys
      invariant removed == set a | a in conns && a !in pending && Expired(conns[a], now, timeoutSecs)
      decreases |pending|
    {
      var a :| a in pending;
      if Expired(conns[a], now, timeoutSecs) {
        removed := removed + {a};
      }
      pending := pending - {a};
    }
  }

  /** The sweep's second pass: the table with the given addresses removed one by one. */
  method Dropped(conns: map<Network.Addr, Conn>, removed: set<Network.Addr>)
    returns (m: map<Network.Addr, Conn>)
    ensures m.Keys == conns.Keys - removed
    ensures forall a :: a in m ==> m[a] == conns[a]
  {
    var rest := removed;
    m := conns;
    while rest != {}
      invariant rest <= removed
      invariant m.Keys == conns.Keys - (removed - rest)
      invariant forall a :: a in m ==> m[a] == conns[a]
      decreases |rest|
    {
      var a :| a in rest;
      m := m - {a};
      rest := rest - {a};
    }
  }

  /** The server's connection table. */
  class Server {
    const autoDiscovery: bool
    const timeoutSecs: nat
    var connections: map<Network.Addr, Conn>

    predicate Valid()
      reads this
    {
      forall a :: a in connections ==> ConnValid(connections[a])
    }

    constructor (autoDiscovery: bool, timeoutSecs: nat)
      ensures this.autoDiscovery == autoDiscovery && this.timeoutSecs == timeoutSecs
      ensures connections == map[] && Valid()
    {
      this.autoDiscovery := autoDiscovery;
      this.timeoutSecs := timeoutSecs;
      connections := map[];
    }

    /** `update_last_seen`: whether a discovery request should go to `addr`. */
    method UpdateLastSeen(addr: Network.Addr, now: nat) returns (shouldSend: bool)
      requires Valid()
      modifies this`connections
      ensures Valid()
      ensures (connections, shouldSend) == LastSeen(old(connections), addr, now, autoDiscovery)
    {
      if addr in connections {
        var c := connections[addr];
        if autoDiscovery && !c.discoverySent {
          connections := connections[addr := c.(lastSeen := now, discoverySent := true)];
          return true;
        }
        connections := connections[addr := c.(lastSeen := now)];
        return false;
      }
      connections := connections[addr := Conn(DefaultName(addr), now, None, map[], autoDiscovery, false, None)];
      shouldSend := autoDiscovery;
    }

    /**
     * A game-info packet: the PSP is marked seen (possibly asking for
     * discovery), its current game is replaced, its name is taken from a
     * non-empty PSP name, and a persistent flag marks it as never timing out.
     */
    method HandleGameInfo(addr: Network.Addr, info: GameInfoMsg, now: nat) returns (shouldSend: bool)
      requires Valid()
      modifies this`connections
      ensures Valid()
      ensures var seen := LastSeen(old(connections), addr, now, autoDiscovery);
        var c := seen.0[addr];
        && shouldSend == seen.1
        && connections == seen.0[addr := c.(currentGame := Some(info),
                                           name := if info.pspName != [] then info.pspName else c.name,
                                           persistent := c.persistent || info.persistent)]
    {
      shouldSend := UpdateLastSeen(addr, now);
      var c := connections[addr];
      c := c.(lastSeen := now, currentGame := Some(info));
      if info.pspName != [] && c.name != info.pspName {
        c := c.(name := info.pspName);
      }
      if info.persistent {
        c := c.(persistent := true);
      }
      connections := connections[addr := c];
    }

    /** A discovery response adds the PSP under its own name, but never replaces a known connection. */
    method HandleDiscoveryResponse(addr: Network.Addr, response: DiscoveryResponseMsg, now: nat)
      requires Valid()
      modifies this`connections
      ensures Valid()
      ensures addr in old(connections) ==> connections == old(connections)
      ensures addr !in old(connections) ==>
        connections == old(connections)[addr := Conn(response.pspName, now, None, map[], true, false, None)]
    {
      if addr !in connections {
        connections := connections[addr := Conn(response.pspName, now, None, map[], true, false, None)];
      }
    }

    /** `handle_icon_chunk`: stored in the connection's buffer for the game; an unknown PSP is ignored. */
    method HandleIconChunk(addr: Network.Addr, chunk: IconChunkMsg)
      requires Valid() && chunk.totalChunks < U16_LIMIT
      modifies this`connections
      ensures Valid()
      ensures addr !in old(connections) ==> connections == old(connections)
      ensures addr in old(connections) ==>
        connections == old(connections)[addr := old(connections)[addr].(icons := AcceptIconChunk(old(connections)[addr].icons, chunk))]
    {
      if addr in connections {
        var c := connections[addr];
        var b := if chunk.gameId in c.icons then c.icons[chunk.gameId] else Fresh(chunk.totalChunks);
        ghost var before := b;
        if chunk.chunkIndex < |b.slots| {
          var counted := if b.slots[chunk.chunkIndex].None? then b.received + 1 else b.received;
          b := Chunked(b.slots[chunk.chunkIndex := Some(chunk.data)], b.totalChunks, counted);
        }
        assert b == Store(before, chunk.chunkIndex, chunk.data);
        var icons := c.icons[chunk.gameId := b];
        assert icons == AcceptIconChunk(c.icons, chunk);
        AcceptIconChunkConsistent(c.icons, chunk);
        TableUpdate(connections, addr, c.(icons := icons), connections[addr := c.(icons := icons)]);
        connections := connections[addr := c.(icons := icons)];
      }
    }

    /** `handle_icon_end`: the buffer is removed; the icon is returned when its CRC matches. */
    method HandleIconEnd(addr: Network.Addr, end: IconEndMsg) returns (icon: Option<seq<Byte>>)
      requires Valid()
      modifies this`connections
      ensures Valid()
      ensures addr !in old(connections) ==> connections == old(connections) && icon.None?
      ensures addr in old(connections) ==>
        var r := FinishIcon(old(connections)[addr].icons, end);
        connections == old(connections)[addr := old(connections)[addr].(icons := r.0)] && icon == r.1
    {
      icon := None;
      if addr in connections {
        var c := connections[addr];
        if end.gameId in c.icons {
          var data := Assemble(c.icons[end.gameId].slots);
          if Network.Crc32(data) as nat == end.crc32 {
            icon := Some(data);
          }
        }
        connections := connections[addr := c.(icons := c.icons - {end.gameId})];
      }
    }

    /**
     * `handle_stats_upload_chunk`: the connection's name, the joined JSON
     * and its timestamp once the upload is complete; an unknown PSP is ignored.
     */
    method HandleStatsUpload(addr: Network.Addr, upload: StatsUploadMsg) returns (done: Option<(seq<Byte>, seq<Byte>, nat)>)
      requires Valid() && upload.totalChunks < U16_LIMIT
      modifies this`connections
      ensures Valid()
      ensures addr !in old(connections) ==> connections == old(connections) && done.None?
      ensures addr in old(connections) ==>
        var c := old(connections)[addr];
        var r := AcceptStatsChunk(c.stats, upload);
        && connections == old(connections)[addr := c.(stats := r.0)]
        && done == if r.1.Some? then Some((c.name, r.1.value.0, r.1.value.1)) else None
    {
      done := None;
      if addr in connections {
        var c := connections[addr];
        AcceptStatsChunkConsistent(c.stats, upload);
        var r := AcceptStatsChunk(c.stats, upload);
        connections := connections[addr := c.(stats := r.0)];
        if r.1.Some? {
          done := Some((c.name, r.1.value.0, r.1.value.1));
        }
      }
    }

    /**
     * The timeout sweep: the connections that are not persistent and were
     * last seen more than `timeoutSecs` seconds ago are collected, then
     * removed; the removed addresses are returned.
     */
    method Sweep(now: nat) returns (removed: set<Network.Addr>)
      requires Valid()
      modifies this`connections
      ensures Valid()
      ensures removed == set a | a in old(connections) && Expired(old(connections)[a], now, timeoutSecs)
      ensures connections.Keys == old(connections).Keys - removed
      ensures forall a :: a in connections ==> connections[a] == old(connections)[a]
    {
      removed := ExpiredAddrs(connections, now, timeoutSecs);
      connections := Dropped(connections, removed);
    }
  }
}
