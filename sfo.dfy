/**
 * The PARAM.SFO reader of the network plugin: a 20-byte header (magic,
 * version, key table offset, value table offset, entry count), then
 * 16-byte entries whose key names a NUL-terminated string in the key table
 * and whose value lies in the value table.  The reader keeps TITLE,
 * DISC_ID, TITLE_ID and CATEGORY; a later entry with the same key
 * overwrites an earlier one.
 */
module Sfo {
  import opened Common

  /** "\0PSF" read as a little-endian word. */
  const SFO_MAGIC: nat := 0x4653_5000
  const HEADER_SIZE: nat := 20
  const ENTRY_SIZE: nat := 16
  /** Sizes of the title and id buffers of the output record. */
  const MAX_TITLE_LENGTH: nat := 128
  const MAX_ID_LENGTH: nat := 10

  const TITLE: seq<Byte> := [0x54, 0x49, 0x54, 0x4C, 0x45]
  const DISC_ID: seq<Byte> := [0x44, 0x49, 0x53, 0x43, 0x5F, 0x49, 0x44]
  const TITLE_ID: seq<Byte> := [0x54, 0x49, 0x54, 0x4C, 0x45, 0x5F, 0x49, 0x44]
  const CATEGORY: seq<Byte> := [0x43, 0x41, 0x54, 0x45, 0x47, 0x4F, 0x52, 0x59]

  /**
   * What the reader fills in.  Each string field holds the value bytes the
   * reader copied into its buffer, as stored in the file: the copy is of
   * the entry's length, cut to the buffer, so a stored terminator is kept
   * as one of the bytes.  The zero padding of the rest of the C buffer is
   * not part of the field.
   */
  datatype SfoData = SfoData(title: seq<Byte>, discId: seq<Byte>, titleId: seq<Byte>, category: nat)

  /** The zeroed record. */
  const EMPTY: SfoData := SfoData([], [], [], 0)

  /** The record's fields fit their buffers. */
  predicate Bounded(d: SfoData)
  {
    |d.title| < MAX_TITLE_LENGTH && |d.discId| < MAX_ID_LENGTH && |d.titleId| < MAX_ID_LENGTH
    && d.category < U16_LIMIT
  }

  // ---------------------------------------------------------------------
  // Header and entries
  // ---------------------------------------------------------------------

  function Magic(b: seq<Byte>): nat requires |b| >= HEADER_SIZE { U32At(b, 0) }
  function KeyTable(b: seq<Byte>): nat requires |b| >= HEADER_SIZE { U32At(b, 8) }
  function ValueTable(b: seq<Byte>): nat requires |b| >= HEADER_SIZE { U32At(b, 12) }
  function Count(b: seq<Byte>): nat requires |b| >= HEADER_SIZE { U32At(b, 16) }

  /** Where entry i starts. */
  function EntryAt(i: nat): nat
  {
    HEADER_SIZE + ENTRY_SIZE * i
  }

  predicate EntryInBounds(b: seq<Byte>, i: nat)
  {
    |b| >= HEADER_SIZE && EntryAt(i) + ENTRY_SIZE <= |b|
  }

  function KeyPos(b: seq<Byte>, i: nat): nat
    requires EntryInBounds(b, i)
  {
    KeyTable(b) + U16At(b, EntryAt(i))
  }

  function ValueLength(b: seq<Byte>, i: nat): nat
    requires EntryInBounds(b, i)
  {
    U32At(b, EntryAt(i) + 4)
  }

  function ValuePos(b: seq<Byte>, i: nat): nat
    requires EntryInBounds(b, i)
  {
    ValueTable(b) + U32At(b, EntryAt(i) + 12)
  }

  /** The entry's key string lies in the buffer, terminator included. */
  predicate KeyReadable(b: seq<Byte>, i: nat)
  {
    EntryInBounds(b, i) && KeyPos(b, i) < |b| && 0 in b[KeyPos(b, i)..]
  }

  function Key(b: seq<Byte>, i: nat): (r: seq<Byte>)
    requires KeyReadable(b, i)
    ensures 0 !in r
  {
    Before(b[KeyPos(b, i)..], 0)
  }

  /** How many value bytes the reader touches for an entry with this key and length. */
  function Needed(key: seq<Byte>, length: nat): (r: nat)
  {
    if key == TITLE then Min(length, MAX_TITLE_LENGTH - 1)
    else if key == DISC_ID || key == TITLE_ID then Min(length, MAX_ID_LENGTH - 1)
    else if key == CATEGORY && length >= 2 then 2
    else 0
  }

  /** Everything the reader touches for entry i lies inside the buffer. */
  predicate EntryReadable(b: seq<Byte>, i: nat)
  {
    KeyReadable(b, i) && ValuePos(b, i) + Needed(Key(b, i), ValueLength(b, i)) <= |b|
  }

  /** Every entry the header announces can be read. */
  predicate Readable(b: seq<Byte>)
    requires |b| >= HEADER_SIZE
  {
    forall i :: 0 <= i < Count(b) ==> EntryReadable(b, i)
  }

  /** The value of entry i cut to `cap` bytes, as `memcpy` copies it. */
  function Value(b: seq<Byte>, i: nat, cap: nat): (r: seq<Byte>)
    requires EntryInBounds(b, i) && ValuePos(b, i) + Min(ValueLength(b, i), cap) <= |b|
    ensures |r| == Min(ValueLength(b, i), cap)
  {
    b[ValuePos(b, i)..ValuePos(b, i) + Min(ValueLength(b, i), cap)]
  }

  function Cap(key: seq<Byte>): nat
  {
    if key == TITLE then MAX_TITLE_LENGTH - 1 else MAX_ID_LENGTH - 1
  }

  /** What the reader sees of one entry: its key string and the value bytes it copies. */
  datatype EntryView = EntryView(key: seq<Byte>, value: seq<Byte>)

  /** Views whose value fits the field their key fills. */
  predicate Fits(e: EntryView)
  {
    |e.value| <= Cap(e.key)
  }

  /**
   * Entry i as the reader sees it: the key before its terminator, and the
   * value bytes `Needed` counts (the string value cut to its buffer, the
   * two CATEGORY bytes, nothing for any other key).
   */
  function View(b: seq<Byte>, i: nat): (r: EntryView)
    requires EntryReadable(b, i)
    ensures r.key == Key(b, i) && Fits(r)
    ensures r.key == TITLE || r.key == DISC_ID || r.key == TITLE_ID ==> r.value == Value(b, i, Cap(r.key))
    ensures r.key == CATEGORY ==> (|r.value| == 2 <==> ValueLength(b, i) >= 2)
    ensures r.key == CATEGORY && ValueLength(b, i) >= 2 ==> r.value == b[ValuePos(b, i)..ValuePos(b, i) + 2]
  {
    var key := Key(b, i);
    EntryView(key, b[ValuePos(b, i)..ValuePos(b, i) + Needed(key, ValueLength(b, i))])
  }

  /** The entries the header announces, in order. */
  function Views(b: seq<Byte>): (r: seq<EntryView>)
    requires |b| >= HEADER_SIZE && Readable(b)
    ensures |r| == Count(b) && forall k :: 0 <= k < |r| ==> r[k] == View(b, k)
  {
    seq(Count(b), k requires 0 <= k < Count(b) => View(b, k))
  }

  /** What one entry does to the record. */
  function Apply(d: SfoData, e: EntryView): (r: SfoData)
    ensures Bounded(d) && Fits(e) ==> Bounded(r)
  {
    if e.key == TITLE then d.(title := e.value)
    else if e.key == DISC_ID then d.(discId := e.value)
    else if e.key == TITLE_ID then d.(titleId := e.value)
    else if e.key == CATEGORY && |e.value| >= 2 then d.(category := e.value[0] as nat * 256 + e.value[1] as nat)
    else d
  }

  /** The entries applied in order, first to last. */
  function ApplyAll(d: SfoData, views: seq<EntryView>): (r: SfoData)
    ensures Bounded(d) && (forall k :: 0 <= k < |views| ==> Fits(views[k])) ==> Bounded(r)
  {
    if views == [] then d else Apply(ApplyAll(d, views[..|views| - 1]), views[|views| - 1])
  }

  /**
   * `sfo_parse_buffer` on the bytes of `b`: -1 (record untouched) below
   * 20 bytes, -2 (record zeroed) on a bad magic, -3 (zeroed) when a table
   * offset lies outside the buffer, else 0 and the record the entries fill
   * in.  The entry and value positions are not checked by the reader, so
   * a well-formed header must announce readable entries.
   */
  function ParseBuffer(b: seq<Byte>): (r: (int, Option<SfoData>))
    requires |b| >= HEADER_SIZE && Magic(b) == SFO_MAGIC && KeyTable(b) < |b| && ValueTable(b) < |b| ==> Readable(b)
    ensures r.0 in {0, -1, -2, -3}
    ensures r.0 == -1 <==> |b| < HEADER_SIZE
    ensures r.0 == -1 <==> r.1.None?
    ensures r.0 == -2 <==> |b| >= HEADER_SIZE && Magic(b) != SFO_MAGIC
    ensures r.0 == -3 <==> |b| >= HEADER_SIZE && Magic(b) == SFO_MAGIC && (KeyTable(b) >= |b| || ValueTable(b) >= |b|)
    ensures r.0 == -2 || r.0 == -3 ==> r.1 == Some(EMPTY)
    ensures r.1.Some? ==> Bounded(r.1.value)
  {
    if |b| < HEADER_SIZE then (-1, None)
    else if Magic(b) != SFO_MAGIC then (-2, Some(EMPTY))
    else if KeyTable(b) >= |b| || ValueTable(b) >= |b| then (-3, Some(EMPTY))
    else (0, Some(ApplyAll(EMPTY, Views(b))))
  }

  // ---------------------------------------------------------------------
  // Which entry wins
  // ---------------------------------------------------------------------

  /** The string field a key fills. */
  function Field(d: SfoData, key: seq<Byte>): seq<Byte>
  {
    if key == TITLE then d.title else if key == DISC_ID then d.discId else d.titleId
  }

  predicate IsStringKey(key: seq<Byte>)
  {
    key == TITLE || key == DISC_ID || key == TITLE_ID
  }

  /** The last entry whose key is `key`: every later entry has another key, and none has it when there is no such entry. */
  function LastWith(views: seq<EntryView>, key: seq<Byte>): (r: Option<nat>)
    ensures r.Some? ==> r.value < |views| && views[r.value].key == key
    ensures r.Some? ==> forall k :: r.value < k < |views| ==> views[k].key != key
    ensures r.None? ==> forall k :: 0 <= k < |views| ==> views[k].key != key
  {
    if views == [] then None
    else if views[|views| - 1].key == key then Some(|views| - 1)
    else LastWith(views[..|views| - 1], key)
  }

  lemma ApplyField(d: SfoData, e: EntryView, key: seq<Byte>)
    requires IsStringKey(key)
    ensures e.key == key ==> Field(Apply(d, e), key) == e.value
    ensures e.key != key ==> Field(Apply(d, e), key) == Field(d, key)
  {
  }

  /**
   * Each string field ends up holding the value of the last entry with its
   * key, or what it held before when no entry has it.
   */
  lemma {:induction false} LastEntryWins(d: SfoData, views: seq<EntryView>, key: seq<Byte>)
    requires IsStringKey(key)
    ensures Field(ApplyAll(d, views), key) ==
      match LastWith(views, key)
      case None => Field(d, key)
      case Some(j) => views[j].value
  {
    if views != [] {
      var init := views[..|views| - 1];
      var e := views[|views| - 1];
      ApplyField(ApplyAll(d, init), e, key);
      if e.key != key {
        LastEntryWins(d, init, key);
        match LastWith(init, key)
        case None =>
        case Some(j) => assert views[j] == init[j];
      }
    }
  }

  /**
   * The parsed title is the TITLE value of the last TITLE entry, cut to
   * 127 bytes, or empty when no entry is titled.
   */
  lemma ParsedTitle(b: seq<Byte>)
    requires |b| >= HEADER_SIZE && Magic(b) == SFO_MAGIC && KeyTable(b) < |b| && ValueTable(b) < |b|
    requires Readable(b)
    ensures var t := ParseBuffer(b).1.value.title;
      match LastWith(Views(b), TITLE)
      case None => t == []
      case Some(j) => j < Count(b) && t == View(b, j).value
  {
    LastEntryWins(EMPTY, Views(b), TITLE);
  }

  /** CATEGORY is read as the first two value bytes, most significant first, when it has two. */
  lemma CategoryBigEndian(b: seq<Byte>, i: nat, d: SfoData)
    requires EntryReadable(b, i) && Key(b, i) == CATEGORY
    ensures ValueLength(b, i) >= 2 ==> Apply(d, View(b, i)).category == 256 * (b[ValuePos(b, i)] as int) + b[ValuePos(b, i) + 1] as int
    ensures ValueLength(b, i) < 2 ==> Apply(d, View(b, i)) == d
    ensures Apply(d, View(b, i)).title == d.title && Apply(d, View(b, i)).titleId == d.titleId
  {
  }

  // ---------------------------------------------------------------------
  // A minimal PARAM.SFO
  // ---------------------------------------------------------------------

  /** The header of a file with one entry, its key table at 36 and its value table at 42. */
  function OneEntryHeader(): (r: seq<Byte>)
    ensures |r| == HEADER_SIZE
  {
    U32Bytes(SFO_MAGIC) + U32Bytes(0x101) + U32Bytes(36) + U32Bytes(42) + U32Bytes(1)
  }

  /** A TITLE entry for a value of `n` bytes at the start of the value table. */
  function TitleEntry(n: nat): (r: seq<Byte>)
    requires n < U32_LIMIT
    ensures |r| == ENTRY_SIZE
  {
    U16Bytes(0) + U16Bytes(4) + U32Bytes(n) + U32Bytes(n) + U32Bytes(0)
  }

  /** A PARAM.SFO holding only a TITLE entry. */
  function TitleOnly(title: seq<Byte>): (r: seq<Byte>)
    requires |title| < U32_LIMIT
    ensures |r| == 42 + |title|
  {
    OneEntryHeader() + TitleEntry(|title|) + (TITLE + [0]) + title
  }

  lemma TitleOnlyHeader(title: seq<Byte>)
    requires |title| < U32_LIMIT
    ensures var b := TitleOnly(title);
      Magic(b) == SFO_MAGIC && KeyTable(b) == 36 && ValueTable(b) == 42 && Count(b) == 1
  {
    var b := TitleOnly(title);
    var h := OneEntryHeader();
    assert b[..20] == h;
    assert b[0..4] == h[0..4] == U32Bytes(SFO_MAGIC);
    assert b[8..12] == h[8..12] == U32Bytes(36);
    assert b[12..16] == h[12..16] == U32Bytes(42);
    assert b[16..20] == h[16..20] == U32Bytes(1);
    U32RoundTrip(b, 0, SFO_MAGIC);
    U32RoundTrip(b, 8, 36);
    U32RoundTrip(b, 12, 42);
    U32RoundTrip(b, 16, 1);
  }

  lemma TitleOnlyEntry(title: seq<Byte>)
    requires |title| < U32_LIMIT
    ensures var b := TitleOnly(title);
      EntryInBounds(b, 0) && U16At(b, 20) == 0 && ValueLength(b, 0) == |title| && U32At(b, 32) == 0
  {
    var b := TitleOnly(title);
    var e := TitleEntry(|title|);
    assert b[20..36] == e;
    assert b[20..22] == e[0..2] == U16Bytes(0);
    assert b[24..28] == e[4..8] == U32Bytes(|title|);
    assert b[32..36] == e[12..16] == U32Bytes(0);
    U16RoundTrip(b, 20, 0);
    U32RoundTrip(b, 24, |title|);
    U32RoundTrip(b, 32, 0);
  }

  lemma TitleOnlyKey(title: seq<Byte>)
    requires |title| < U32_LIMIT
    requires EntryInBounds(TitleOnly(title), 0) && KeyPos(TitleOnly(title), 0) == 36
    ensures KeyReadable(TitleOnly(title), 0) && Key(TitleOnly(title), 0) == TITLE
  {
    var b := TitleOnly(title);
    assert b[36..] == TITLE + ([0] + title);
    assert b[41] == 0;
    BeforePadded(TITLE, [0] + title, 0);
  }

  /** The single entry of a title-only file is readable and reads as the title, cut to 127 bytes. */
  lemma TitleOnlyView(title: seq<Byte>)
    requires 0 < |title| < U32_LIMIT
    ensures var b := TitleOnly(title);
      && (|b| >= HEADER_SIZE && Magic(b) == SFO_MAGIC && KeyTable(b) < |b| && ValueTable(b) < |b| && Count(b) == 1)
      && EntryReadable(b, 0) && Readable(b)
      && View(b, 0) == EntryView(TITLE, Truncate(title, MAX_TITLE_LENGTH - 1))
  {
    var b := TitleOnly(title);
    TitleOnlyHeader(title);
    TitleOnlyEntry(title);
    TitleOnlyKey(title);
    assert EntryReadable(b, 0);
    assert Readable(b);
    assert b[42..] == title;
    assert Value(b, 0, MAX_TITLE_LENGTH - 1) == Truncate(title, MAX_TITLE_LENGTH - 1);
  }

  /**
   * A file holding only a non-empty title parses to that title, cut to
   * 127 bytes, with the other fields empty.
   */
  lemma TitleOnlyRoundTrip(title: seq<Byte>)
    requires 0 < |title| < U32_LIMIT
    ensures var b := TitleOnly(title);
      && (|b| >= HEADER_SIZE && Magic(b) == SFO_MAGIC && KeyTable(b) < |b| && ValueTable(b) < |b|)
      && Readable(b)
      && ParseBuffer(b) == (0, Some(EMPTY.(title := Truncate(title, MAX_TITLE_LENGTH - 1))))
  {
    var b := TitleOnly(title);
    TitleOnlyView(title);
    assert Views(b) == [View(b, 0)];
    assert ApplyAll(EMPTY, Views(b)) == Apply(ApplyAll(EMPTY, []), View(b, 0));
  }
}
