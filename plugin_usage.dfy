/**
 * The network plugin's local usage tracker: a table of at most 50 games,
 * each with its id, title, seconds played and session count, a running
 * total of play time, and the session in progress.  Sessions are timed in
 * ticks of the real-time clock, passed in as readings.  Also the two JSON
 * scrapers the tracker uses to read its usage.json back.
 */
module PluginUsage {
  import opened Common
  import NetConfig

  const MAX_TRACKED_GAMES: nat := 50
  /** Sizes of the `game_id` and `title` buffers. */
  const ID_SIZE: nat := 16
  const TITLE_SIZE: nat := 128

  const LLONG_MIN: int := -0x8000_0000_0000_0000
  const LLONG_MAX: int := 0x7FFF_FFFF_FFFF_FFFF

  /** One row of the table; the counters are `uint64_t` and `uint32_t`. */
  datatype GameUsage = GameUsage(gameId: seq<CChar>, title: seq<CChar>, totalSeconds: nat, sessionCount: nat)

  /** The row `find_or_create_game` starts for a new id: zeroed, with the id copied in. */
  function NewGame(id: seq<CChar>): (r: GameUsage)
    ensures |r.gameId| < ID_SIZE && r.title == [] && r.totalSeconds == 0 && r.sessionCount == 0
    ensures |id| < ID_SIZE ==> r.gameId == id
  {
    GameUsage(CopyStr(id, ID_SIZE), [], 0, 0)
  }

  // ---------------------------------------------------------------------
  // The game table
  // ---------------------------------------------------------------------

  /** The first row at or after `from` whose id equals `id`. */
  function FindFrom(games: seq<GameUsage>, id: seq<CChar>, from: nat): (r: Option<nat>)
    ensures r.Some? ==> from <= r.value < |games| && games[r.value].gameId == id
    ensures r.Some? ==> forall j :: from <= j < r.value ==> games[j].gameId != id
    ensures r.None? ==> forall j :: from <= j < |games| ==> games[j].gameId != id
    decreases |games| - from
  {
    if from >= |games| then None
    else if games[from].gameId == id then Some(from)
    else FindFrom(games, id, from + 1)
  }

  /**
   * `find_or_create_game`: the table and the row it hands back, which is
   * the existing row for the id, else a new row appended while fewer than
   * 50 exist, else none.
   */
  function Slot(games: seq<GameUsage>, id: seq<CChar>): (r: (seq<GameUsage>, Option<nat>))
  {
    match FindFrom(games, id, 0)
    case Some(i) => (games, Some(i))
    case None =>
      if |games| < MAX_TRACKED_GAMES then (games + [NewGame(id)], Some(|games|))
      else (games, None)
  }

  /** Ids are unique in the table. */
  ghost predicate Distinct(games: seq<GameUsage>)
  {
    forall i, j :: 0 <= i < j < |games| ==> games[i].gameId != games[j].gameId
  }

  /**
   * The row handed back holds the id; the table only ever grows by that
   * one row and stays within 50 rows with distinct ids; no row is handed
   * back exactly when the id is absent and the table is full.
   */
  lemma SlotSpec(games: seq<GameUsage>, id: seq<CChar>)
    requires |id| < ID_SIZE
    ensures var r := Slot(games, id);
      && (r.1.Some? ==> r.1.value < |r.0| && r.0[r.1.value].gameId == id)
      && (r.1.None? <==> FindFrom(games, id, 0).None? && |games| >= MAX_TRACKED_GAMES)
      && games <= r.0 && |r.0| <= |games| + 1
      && (|games| <= MAX_TRACKED_GAMES ==> |r.0| <= MAX_TRACKED_GAMES)
      && (FindFrom(games, id, 0).Some? ==> r.0 == games)
      && (Distinct(games) ==> Distinct(r.0))
  {
  }

  // ---------------------------------------------------------------------
  // Crediting a session
  // ---------------------------------------------------------------------

  /** Whole seconds between two 64-bit tick readings, at `resolution` ticks per second. */
  function Elapsed(startTick: nat, now: nat, resolution: nat): (r: nat)
    requires resolution > 0
    ensures startTick <= now < U64_LIMIT ==> r == (now - startTick) / resolution
  {
    ((now - startTick) % U64_LIMIT) / resolution
  }

  /**
   * What ending a session of `elapsed` seconds does to the table and the
   * total: nothing under one second or when the table has no row for the
   * game; otherwise the row's title is replaced by a non-empty session
   * title, and its seconds, its session count and the total grow, each
   * wrapping at its C width.
   */
  function Credit(games: seq<GameUsage>, total: nat, id: seq<CChar>, title: seq<CChar>, elapsed: nat): (r: (seq<GameUsage>, nat))
  {
    if elapsed < 1 then (games, total)
    else
      var s := Slot(games, id);
      match s.1
      case None => (games, total)
      case Some(i) => (s.0[i := Bumped(s.0[i], title, elapsed)], (total + elapsed) % U64_LIMIT)
  }

  /**
   * A row after a session of `elapsed` seconds: a non-empty session title
   * replaces its title, and its seconds and session count grow, wrapping
   * at 64 and 32 bits.
   */
  function Bumped(g: GameUsage, title: seq<CChar>, elapsed: nat): (r: GameUsage)
    ensures r.gameId == g.gameId
    ensures g.totalSeconds + elapsed < U64_LIMIT ==> r.totalSeconds == g.totalSeconds + elapsed
    ensures g.sessionCount + 1 < U32_LIMIT ==> r.sessionCount == g.sessionCount + 1
  {
    g.(title := if title != [] then CopyStr(title, TITLE_SIZE) else g.title,
       totalSeconds := (g.totalSeconds + elapsed) % U64_LIMIT,
       sessionCount := (g.sessionCount + 1) % U32_LIMIT)
  }

  /** Seconds over all rows. */
  function SumSeconds(games: seq<GameUsage>): (r: nat)
  {
    if games == [] then 0 else SumSeconds(games[..|games| - 1]) + games[|games| - 1].totalSeconds
  }

  lemma {:induction false} SumSecondsAppend(games: seq<GameUsage>, g: GameUsage)
    ensures SumSeconds(games + [g]) == SumSeconds(games) + g.totalSeconds
  {
    assert (games + [g])[..|games|] == games;
  }

  lemma {:induction false} SumSecondsUpdate(games: seq<GameUsage>, i: nat, g: GameUsage)
    requires i < |games|
    ensures SumSeconds(games[i := g]) + games[i].totalSeconds == SumSeconds(games) + g.totalSeconds
    decreases |games|
  {
    var n := |games| - 1;
    if i < n {
      assert games[i := g][..n] == games[..n][i := g];
      SumSecondsUpdate(games[..n], i, g);
    } else {
      assert games[i := g][..n] == games[..n];
    }
  }

  lemma {:induction false} RowAtMostSum(games: seq<GameUsage>, i: nat)
    requires i < |games|
    ensures games[i].totalSeconds <= SumSeconds(games)
    decreases |games|
  {
    var n := |games| - 1;
    if i < n {
      RowAtMostSum(games[..n], i);
      assert games[..n][i] == games[i];
    }
  }

  /**
   * The total is the sum of the rows' seconds, and crediting a session
   * keeps it so as long as the total does not wrap; a session the table
   * has no room for is lost.
   */
  lemma CreditKeepsTotal(games: seq<GameUsage>, total: nat, id: seq<CChar>, title: seq<CChar>, elapsed: nat)
    requires SumSeconds(games) == total && total + elapsed < U64_LIMIT
    ensures var r := Credit(games, total, id, title, elapsed);
      && SumSeconds(r.0) == r.1
      && (elapsed >= 1 && Slot(games, id).1.Some? ==> r.1 == total + elapsed)
      && (elapsed < 1 || Slot(games, id).1.None? ==> r == (games, total))
  {
    var s := Slot(games, id);
    if elapsed >= 1 && s.1.Some? {
      SlotKeepsSum(games, id);
      BumpKeepsSum(s.0, s.1.value, total, title, elapsed);
    }
  }

  lemma SlotKeepsSum(games: seq<GameUsage>, id: seq<CChar>)
    ensures SumSeconds(Slot(games, id).0) == SumSeconds(games)
  {
    if Slot(games, id).0 != games {
      SumSecondsAppend(games, NewGame(id));
    }
  }

  lemma BumpKeepsSum(rows: seq<GameUsage>, i: nat, total: nat, title: seq<CChar>, elapsed: nat)
    requires i < |rows| && SumSeconds(rows) == total && total + elapsed < U64_LIMIT
    ensures SumSeconds(rows[i := Bumped(rows[i], title, elapsed)]) == total + elapsed
  {
    RowAtMostSum(rows, i);
    SumSecondsUpdate(rows, i, Bumped(rows[i], title, elapsed));
  }

  /**
   * Crediting touches only the session's row: it gains the elapsed seconds
   * and one session, and every other row is kept.
   */
  lemma CreditOneRow(games: seq<GameUsage>, total: nat, id: seq<CChar>, title: seq<CChar>, elapsed: nat)
    requires |id| < ID_SIZE && elapsed >= 1
    requires Slot(games, id).1.Some?
    ensures var s := Slot(games, id);
      var i := s.1.value;
      var r := Credit(games, total, id, title, elapsed).0;
      && |r| == |s.0| && r[i].gameId == id
      && r[i].totalSeconds == (s.0[i].totalSeconds + elapsed) % U64_LIMIT
      && r[i].sessionCount == (s.0[i].sessionCount + 1) % U32_LIMIT
      && (title != [] ==> r[i].title == CopyStr(title, TITLE_SIZE))
      && (title == [] ==> r[i].title == s.0[i].title)
      && (forall j :: 0 <= j < |r| && j != i ==> r[j] == s.0[j])
  {
    SlotSpec(games, id);
  }

  // ---------------------------------------------------------------------
  // JSON scraping
  // ---------------------------------------------------------------------

  /** The text `"key":` that `parse_json_number` looks for. */
  function NumberKey(key: seq<CChar>): (r: seq<CChar>)
    ensures |r| == |key| + 3
  {
    ['"'] + key + ['"', ':']
  }

  /** The text `"key":"` that `parse_json_string` looks for. */
  function StringKey(key: seq<CChar>): (r: seq<CChar>)
    ensures r == NumberKey(key) + ['"']
  {
    ['"'] + key + ['"', ':', '"']
  }

  /**
   * `parse_json_number`: 0 when `"key":` is absent; otherwise what `atoll`
   * reads after it (past spaces and tabs), as an unsigned 64-bit value.
   */
  function ParseJsonNumber(json: seq<CChar>, key: seq<CChar>): (r: nat)
    ensures r < U64_LIMIT
    ensures IndexOf(json, NumberKey(key)).None? ==> r == 0
  {
    var search := NumberKey(key);
    match IndexOf(json, search)
    case None => 0
    case Some(i) =>
      NetConfig.Unsigned(NetConfig.StrToInt(SkipBlanks(json[i + |search|..]), LLONG_MIN, LLONG_MAX), U64_LIMIT)
  }

  /**
   * `parse_json_string` into a buffer of `outSize` bytes: empty unless
   * `"key":"` occurs and a closing quote follows; otherwise the text up to
   * that quote, cut to `outSize - 1` characters.
   */
  function ParseJsonString(json: seq<CChar>, key: seq<CChar>, outSize: nat): (r: seq<CChar>)
    requires outSize > 0
    ensures |r| < outSize && '"' !in r
  {
    var search := StringKey(key);
    match IndexOf(json, search)
    case None => []
    case Some(i) =>
      var rest := json[i + |search|..];
      if '"' in rest then CopyStr(Before(rest, '"'), outSize) else []
  }

  lemma FirstAt(hay: seq<CChar>, needle: seq<CChar>)
    requires |needle| <= |hay| && hay[..|needle|] == needle
    ensures IndexOf(hay, needle) == Some(0)
  {
    assert OccursAt(hay, needle, 0);
  }

  /** A field `"key":"v"` at the front of the text reads back as v when v fits and holds no quote. */
  lemma JsonStringRoundTrip(key: seq<CChar>, v: seq<CChar>, trailer: seq<CChar>, outSize: nat)
    requires '"' !in v && |v| < outSize
    ensures ParseJsonString(StringKey(key) + (v + ['"'] + trailer), key, outSize) == v
  {
    var search := StringKey(key);
    var json := search + (v + ['"'] + trailer);
    assert json[..|search|] == search;
    FirstAt(json, search);
    var rest := v + ['"'] + trailer;
    assert json[|search|..] == rest;
    assert rest[|v|] == '"';
    BeforeFirst(v, ['"'] + trailer, '"');
    assert rest == v + (['"'] + trailer);
  }

  lemma {:induction false} BeforeFirst(v: seq<CChar>, rest: seq<CChar>, stop: CChar)
    requires stop !in v && rest != [] && rest[0] == stop
    ensures Before(v + rest, stop) == v
  {
    if v != [] {
      assert (v + rest)[1..] == v[1..] + rest;
      BeforeFirst(v[1..], rest, stop);
    }
  }

  lemma JsonNumberAt(key: seq<CChar>, rest: seq<CChar>)
    ensures ParseJsonNumber(NumberKey(key) + rest, key)
      == NetConfig.Unsigned(NetConfig.StrToInt(SkipBlanks(rest), LLONG_MIN, LLONG_MAX), U64_LIMIT)
  {
    var search := NumberKey(key);
    var json := search + rest;
    assert json[..|search|] == search;
    FirstAt(json, search);
    assert json[|search|..] == rest;
  }

  /** A count written with `%llu` at the front of the text reads back as written, below 2^63. */
  lemma JsonNumberRoundTrip(key: seq<CChar>, n: nat, trailer: seq<CChar>)
    requires n <= LLONG_MAX
    requires trailer == [] || !IsDigit(trailer[0])
    ensures ParseJsonNumber(NumberKey(key) + (Decimal(n) + trailer), key) == n
  {
    JsonNumberDigits(key, Decimal(n), trailer);
  }

  /** Any run of digits after the key reads back as its value, below 2^63. */
  lemma JsonNumberDigits(key: seq<CChar>, d: seq<CChar>, trailer: seq<CChar>)
    requires d != [] && forall i :: 0 <= i < |d| ==> IsDigit(d[i])
    requires DecimalValue(d) <= LLONG_MAX
    requires trailer == [] || !IsDigit(trailer[0])
    ensures ParseJsonNumber(NumberKey(key) + (d + trailer), key) == DecimalValue(d)
  {
    JsonNumberAt(key, d + trailer);
    NumberValue(d, trailer);
  }

  lemma NumberValue(d: seq<CChar>, trailer: seq<CChar>)
    requires d != [] && forall i :: 0 <= i < |d| ==> IsDigit(d[i])
    requires DecimalValue(d) <= LLONG_MAX
    requires trailer == [] || !IsDigit(trailer[0])
    ensures NetConfig.Unsigned(NetConfig.StrToInt(SkipBlanks(d + trailer), LLONG_MIN, LLONG_MAX), U64_LIMIT) == DecimalValue(d)
  {
    var rest := d + trailer;
    assert SkipBlanks(rest) == rest by {
      assert rest[0] == d[0] && IsDigit(d[0]);
    }
    NetConfig.StrToIntDigits(d, trailer, LLONG_MIN, LLONG_MAX);
    ModBelow(DecimalValue(d), U64_LIMIT);
  }

  // ---------------------------------------------------------------------
  // The tracker
  // ---------------------------------------------------------------------

  /** `g_usage_data` and `g_current_session`, with the clock's tick rate. */
  class Tracker {
    var games: seq<GameUsage>
    var totalPlaytime: nat
    var active: bool
    var sessionId: seq<CChar>
    var sessionTitle: seq<CChar>
    var startTick: nat
    const resolution: nat

    /** The table fits its array and a running session has an id. */
    ghost predicate Valid()
      reads this
    {
      && resolution > 0
      && |games| <= MAX_TRACKED_GAMES
      && |sessionId| < ID_SIZE && |sessionTitle| < TITLE_SIZE
      && (active ==> sessionId != [])
    }

    /** `usage_init` on an empty table. */
    constructor (resolution: nat)
      requires resolution > 0
      ensures Valid() && this.resolution == resolution
      ensures games == [] && totalPlaytime == 0 && !active && sessionId == [] && sessionTitle == []
    {
      this.resolution := resolution;
      games := [];
      totalPlaytime := 0;
      active := false;
      sessionId := [];
      sessionTitle := [];
      startTick := 0;
    }

    /** `find_or_create_game`, scanning the rows in order. */
    method FindOrCreate(id: seq<CChar>) returns (slot: Option<nat>)
      modifies this`games
      ensures (games, slot) == Slot(old(games), id)
    {
      var i := 0;
      while i < |games|
        invariant i <= |games| && games == old(games)
        invariant FindFrom(games, id, i) == FindFrom(games, id, 0)
        decreases |games| - i
      {
        if games[i].gameId == id {
          return Some(i);
        }
        i := i + 1;
      }
      if |games| < MAX_TRACKED_GAMES {
        games := games + [NewGame(id)];
        return Some(|games| - 1);
      }
      return None;
    }

    /**
     * `usage_end_session` at tick `now`: a running session is credited to
     * its game and forgotten; without one nothing changes.
     */
    method EndSession(now: nat)
      requires Valid()
      modifies this`games, this`totalPlaytime, this`active, this`sessionId, this`sessionTitle
      ensures Valid()
      ensures !active && (old(active) ==> sessionId == [] && sessionTitle == [])
      ensures !old(active) ==> (games == old(games) && totalPlaytime == old(totalPlaytime)
        && sessionId == old(sessionId) && sessionTitle == old(sessionTitle))
      ensures old(active) ==> ((games, totalPlaytime) ==
        Credit(old(games), old(totalPlaytime), old(sessionId), old(sessionTitle), Elapsed(old(startTick), now, resolution)))
    {
      if !active {
        return;
      }
      var elapsed := Elapsed(startTick, now, resolution);
      if elapsed >= 1 {
        SlotSpec(games, sessionId);
        var slot := FindOrCreate(sessionId);
        if slot.Some? {
          var i := slot.value;
          games := games[i := Bumped(games[i], sessionTitle, elapsed)];
          totalPlaytime := (totalPlaytime + elapsed) % U64_LIMIT;
        } else {
          assert games == old(games);
        }
      }
      active := false;
      sessionId := [];
      sessionTitle := [];
    }

    /**
     * `usage_start_session` at tick `now`: any running session is ended
     * first; an empty id starts nothing; otherwise the id and the title
     * (the id when there is none) are copied in and the clock is read.
     */
    method StartSession(id: seq<CChar>, title: Option<seq<CChar>>, now: nat)
      requires Valid()
      modifies this`games, this`totalPlaytime, this`active, this`sessionId, this`sessionTitle, this`startTick
      ensures Valid()
      ensures old(active) ==> ((games, totalPlaytime) ==
        Credit(old(games), old(totalPlaytime), old(sessionId), old(sessionTitle), Elapsed(old(startTick), now, resolution)))
      ensures !old(active) ==> games == old(games) && totalPlaytime == old(totalPlaytime)
      ensures id == [] ==> !active
      ensures id != [] ==> (active && sessionId == CopyStr(id, ID_SIZE) && startTick == now
        && sessionTitle == CopyStr(if title.Some? then title.value else id, TITLE_SIZE))
    {
      EndSession(now);
      if id == [] {
        return;
      }
      active := true;
      sessionId := CopyStr(id, ID_SIZE);
      sessionTitle := CopyStr(if title.Some? then title.value else id, TITLE_SIZE);
      startTick := now;
    }
  }
}
