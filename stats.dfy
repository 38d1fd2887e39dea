/**
 * The on-PSP statistics viewer's reader for the companion's usage file: a
 * scan for `"title":` that cuts out each game object by counting braces,
 * the key-by-key value extraction inside it, the running totals, and the
 * duration labels.  The file is a sequence of bytes, each a `CChar`.
 */
module StatsApp {
  import opened Common
  import NetConfig

  /** Rust's `char::is_whitespace` on single bytes. */
  predicate IsWhite(c: CChar)
  {
    c == ' ' || c == '\t' || c == '\n' || c == '\r' || c as int == 11 || c as int == 12
  }

  /** `trim_start`. */
  function TrimStart(s: seq<CChar>): (r: seq<CChar>)
    ensures |r| <= |s| && forall i :: 0 <= i < |r| ==> r[i] == s[|s| - |r| + i]
    ensures r == [] || !IsWhite(r[0])
  {
    if s != [] && IsWhite(s[0]) then TrimStart(s[1..]) else s
  }

  /** `trim_end`. */
  function TrimEnd(s: seq<CChar>): (r: seq<CChar>)
    ensures |r| <= |s| && r == s[..|r|]
    ensures r == [] || !IsWhite(r[|r| - 1])
  {
    if s != [] && IsWhite(s[|s| - 1]) then TrimEnd(s[..|s| - 1]) else s
  }

  /** `"key":`, the text every extractor looks for. */
  function KeyPattern(key: seq<CChar>): seq<CChar>
  {
    ['"'] + key + ['"', ':']
  }

  /** The text after the first occurrence of `pattern`, with leading whitespace removed. */
  function AfterPattern(json: seq<CChar>, pattern: seq<CChar>): (r: Option<seq<CChar>>)
  {
    match IndexOf(json, pattern)
    case None => None
    case Some(p) => Some(TrimStart(json[p + |pattern|..]))
  }

  /** The text after the first `"key":`, with leading whitespace removed. */
  function AfterKey(json: seq<CChar>, key: seq<CChar>): (r: Option<seq<CChar>>)
  {
    AfterPattern(json, KeyPattern(key))
  }

  /** `extract_string_value`: the text between the quotes after the key, or `None`. */
  function ExtractString(json: seq<CChar>, key: seq<CChar>): (r: Option<seq<CChar>>)
    ensures r.Some? ==> '"' !in r.value
  {
    match AfterKey(json, key)
    case None => None
    case Some(t) =>
      if t != [] && t[0] == '"' && '"' in t[1..] then Some(Before(t[1..], '"')) else None
  }

  /** `extract_number_value`: the leading digits as a `u64`; `None` without digits or past its range. */
  function ExtractNumber(json: seq<CChar>, key: seq<CChar>): (r: Option<nat>)
    ensures r.Some? ==> r.value < U64_LIMIT
  {
    match AfterKey(json, key)
    case None => None
    case Some(t) =>
      var d := DigitPrefix(t);
      if d == [] || DecimalValue(d) >= U64_LIMIT then None else Some(DecimalValue(d))
  }

  /** How a boolean is written in JSON. */
  function BoolText(b: bool): seq<CChar>
  {
    if b then "true" else "false"
  }

  /** `extract_bool_value`: the literal `true` or `false` after the key. */
  function ExtractBool(json: seq<CChar>, key: seq<CChar>): (r: Option<bool>)
    ensures r.Some? ==> AfterKey(json, key).Some? && BoolText(r.value) <= AfterKey(json, key).value
    ensures r.None? ==> (AfterKey(json, key).None?
      || (!(BoolText(true) <= AfterKey(json, key).value) && !(BoolText(false) <= AfterKey(json, key).value)))
  {
    match AfterKey(json, key)
    case None => None
    case Some(t) =>
      if BoolText(true) <= t then Some(true)
      else if BoolText(false) <= t then Some(false)
      else None
  }

  /** The key is found where it first occurs. */
  lemma {:induction false} AfterKeyAt(json: seq<CChar>, key: seq<CChar>, p: nat)
    requires OccursAt(json, KeyPattern(key), p)
    requires forall j :: 0 <= j < p ==> !OccursAt(json, KeyPattern(key), j)
    ensures AfterKey(json, key) == Some(TrimStart(json[p + |KeyPattern(key)|..]))
  {
    IndexOfAt(json, KeyPattern(key), p);
    AfterPatternFound(json, KeyPattern(key), p);
  }

  /** The text after a pattern, once the pattern's first position is known. */
  lemma {:induction false} AfterPatternFound(json: seq<CChar>, pattern: seq<CChar>, p: nat)
    requires IndexOf(json, pattern) == Some(p)
    ensures AfterPattern(json, pattern) == Some(TrimStart(json[p + |pattern|..]))
  {
  }

  /**
   * A quoted value is read back exactly: after the first `"key":` and any
   * whitespace, a quote, text without quotes, and a quote give that text.
   */
  lemma StringValueRoundTrip(json: seq<CChar>, key: seq<CChar>, p: nat, ws: seq<CChar>, v: seq<CChar>, rest: seq<CChar>)
    requires OccursAt(json, KeyPattern(key), p)
    requires forall j :: 0 <= j < p ==> !OccursAt(json, KeyPattern(key), j)
    requires forall i :: 0 <= i < |ws| ==> IsWhite(ws[i])
    requires '"' !in v
    requires json[p + |KeyPattern(key)|..] == ws + ['"'] + v + ['"'] + rest
    ensures ExtractString(json, key) == Some(v)
  {
    AfterKeyAt(json, key, p);
    ReadQuoted(json[p + |KeyPattern(key)|..], ws, v, rest);
  }

  /** A boolean is read back exactly: after the first `"key":` and any whitespace, `true` or `false` gives that value. */
  lemma BoolValueRoundTrip(json: seq<CChar>, key: seq<CChar>, p: nat, ws: seq<CChar>, b: bool, rest: seq<CChar>)
    requires OccursAt(json, KeyPattern(key), p)
    requires forall j :: 0 <= j < p ==> !OccursAt(json, KeyPattern(key), j)
    requires forall i :: 0 <= i < |ws| ==> IsWhite(ws[i])
    requires json[p + |KeyPattern(key)|..] == ws + BoolText(b) + rest
    ensures ExtractBool(json, key) == Some(b)
  {
    AfterKeyAt(json, key, p);
    ReadBool(json[p + |KeyPattern(key)|..], ws, b, rest);
  }

  lemma ReadBool(t: seq<CChar>, ws: seq<CChar>, b: bool, rest: seq<CChar>)
    requires forall i :: 0 <= i < |ws| ==> IsWhite(ws[i])
    requires t == ws + BoolText(b) + rest
    ensures var u := TrimStart(t); BoolText(b) <= u && (b || !(BoolText(true) <= u))
  {
    var u := BoolText(b) + rest;
    assert t == ws + u;
    TrimWhitePrefix(ws, u);
    assert u[..|BoolText(b)|] == BoolText(b);
    assert !b ==> u[0] == 'f';
  }

  lemma ReadQuoted(t: seq<CChar>, ws: seq<CChar>, v: seq<CChar>, rest: seq<CChar>)
    requires forall i :: 0 <= i < |ws| ==> IsWhite(ws[i])
    requires '"' !in v
    requires t == ws + ['"'] + v + ['"'] + rest
    ensures var u := TrimStart(t); u != [] && u[0] == '"' && '"' in u[1..] && Before(u[1..], '"') == v
  {
    var u := v + ['"'] + rest;
    var q := ['"'] + u;
    QuotedShape(ws, v, rest);
    TrimWhitePrefix(ws, q);
    assert q[1..] == u;
    assert u[|v|] == '"';
    BeforeFirst(v, rest);
  }

  lemma QuotedShape(ws: seq<CChar>, v: seq<CChar>, rest: seq<CChar>)
    ensures ws + ['"'] + v + ['"'] + rest == ws + (['"'] + (v + ['"'] + rest))
  {
  }

  lemma {:induction false} TrimWhitePrefix(ws: seq<CChar>, t: seq<CChar>)
    requires forall i :: 0 <= i < |ws| ==> IsWhite(ws[i])
    requires t != [] && !IsWhite(t[0])
    ensures TrimStart(ws + t) == t
  {
    if ws != [] {
      assert (ws + t)[0] == ws[0];
      assert (ws + t)[1..] == ws[1..] + t;
      TrimWhitePrefix(ws[1..], t);
    } else {
      assert ws + t == t;
    }
  }

  lemma {:induction false} BeforeFirst(v: seq<CChar>, rest: seq<CChar>)
    requires '"' !in v
    ensures Before(v + ['"'] + rest, '"') == v
  {
    if v != [] {
      assert (v + ['"'] + rest)[1..] == v[1..] + ['"'] + rest;
      BeforeFirst(v[1..], rest);
    }
  }

  /**
   * A number is read back exactly: after the first `"key":` and any
   * whitespace, the decimal digits of a `u64` followed by a non-digit give
   * that number; a non-digit right away gives none.
   */
  lemma NumberValueRoundTrip(json: seq<CChar>, key: seq<CChar>, p: nat, ws: seq<CChar>, n: nat, rest: seq<CChar>)
    requires OccursAt(json, KeyPattern(key), p)
    requires forall j :: 0 <= j < p ==> !OccursAt(json, KeyPattern(key), j)
    requires forall i :: 0 <= i < |ws| ==> IsWhite(ws[i])
    requires n < U64_LIMIT && (rest == [] || !IsDigit(rest[0]))
    requires json[p + |KeyPattern(key)|..] == ws + Decimal(n) + rest
    ensures ExtractNumber(json, key) == Some(n)
  {
    AfterKeyAt(json, key, p);
    ReadDigits(json[p + |KeyPattern(key)|..], ws, n, rest);
  }

  lemma ReadDigits(t: seq<CChar>, ws: seq<CChar>, n: nat, rest: seq<CChar>)
    requires forall i :: 0 <= i < |ws| ==> IsWhite(ws[i])
    requires rest == [] || !IsDigit(rest[0])
    requires t == ws + Decimal(n) + rest
    ensures DigitPrefix(TrimStart(t)) == Decimal(n)
  {
    var d := Decimal(n);
    assert !IsWhite(d[0]);
    assert t == ws + (d + rest);
    TrimWhitePrefix(ws, d + rest);
    NetConfig.DigitPrefixOf(d, rest);
  }

  lemma NoNumber(json: seq<CChar>, key: seq<CChar>, p: nat, ws: seq<CChar>, rest: seq<CChar>)
    requires OccursAt(json, KeyPattern(key), p)
    requires forall j :: 0 <= j < p ==> !OccursAt(json, KeyPattern(key), j)
    requires forall i :: 0 <= i < |ws| ==> IsWhite(ws[i])
    requires rest != [] && !IsDigit(rest[0]) && !IsWhite(rest[0])
    requires json[p + |KeyPattern(key)|..] == ws + rest
    ensures ExtractNumber(json, key) == None
  {
    AfterKeyAt(json, key, p);
    TrimWhitePrefix(ws, rest);
  }

  // ---------------------------------------------------------------------
  // Game entries
  // ---------------------------------------------------------------------

  datatype GameStats = GameStats(
    title: seq<CChar>, gameId: seq<CChar>, gameKey: seq<CChar>, totalSeconds: nat,
    sessionCount: nat, lastPlayed: seq<CChar>, hidden: bool)

  datatype StatsData = StatsData(games: seq<GameStats>, totalPlaytime: nat, totalSessions: nat)

  const TITLE: seq<CChar> := "title"
  const GAME_ID: seq<CChar> := "game_id"
  const SECONDS: seq<CChar> := "seconds"
  const TOTAL_SECONDS: seq<CChar> := "total_seconds"
  const SESSIONS: seq<CChar> := "sessions"
  const SESSION_COUNT: seq<CChar> := "session_count"
  const LAST_PLAYED: seq<CChar> := "last_played"
  const HIDDEN: seq<CChar> := "hidden"

  function OrElse<T>(a: Option<T>, b: Option<T>): Option<T>
  {
    if a.Some? then a else b
  }

  function OrDefault<T>(a: Option<T>, d: T): T
  {
    if a.Some? then a.value else d
  }

  /**
   * `parse_game_entry`: `None` without a title; otherwise the title, the
   * other fields or their defaults, "seconds" before "total_seconds",
   * "sessions" before "session_count", the count cut to 32 bits.
   */
  function ParseGameEntry(json: seq<CChar>, gameKey: seq<CChar>): (r: Option<GameStats>)
    ensures r.Some? <==> ExtractString(json, TITLE).Some?
    ensures r.Some? ==> r.value.title == ExtractString(json, TITLE).value && r.value.gameKey == gameKey
    ensures r.Some? ==> r.value.totalSeconds < U64_LIMIT && r.value.sessionCount < U32_LIMIT
    ensures r.Some? && ExtractNumber(json, SECONDS).Some? ==> r.value.totalSeconds == ExtractNumber(json, SECONDS).value
    ensures r.Some? && ExtractNumber(json, SECONDS).None? ==> r.value.totalSeconds == OrDefault(ExtractNumber(json, TOTAL_SECONDS), 0)
    ensures r.Some? && ExtractNumber(json, SESSIONS).Some? ==> r.value.sessionCount == ExtractNumber(json, SESSIONS).value % U32_LIMIT
    ensures r.Some? && ExtractNumber(json, SESSIONS).None? ==>
      r.value.sessionCount == OrDefault(ExtractNumber(json, SESSION_COUNT), 0) % U32_LIMIT
    ensures r.Some? ==> r.value.gameId == OrDefault(ExtractString(json, GAME_ID), [])
    ensures r.Some? ==> r.value.lastPlayed == OrDefault(ExtractString(json, LAST_PLAYED), [])
    ensures r.Some? ==> r.value.hidden == OrDefault(ExtractBool(json, HIDDEN), false)
  {
    match ExtractString(json, TITLE)
    case None => None
    case Some(title) =>
      Some(GameStats(
        title,
        OrDefault(ExtractString(json, GAME_ID), []),
        gameKey,
        OrDefault(OrElse(ExtractNumber(json, SECONDS), ExtractNumber(json, TOTAL_SECONDS)), 0),
        OrDefault(OrElse(ExtractNumber(json, SESSIONS), ExtractNumber(json, SESSION_COUNT)), 0) % U32_LIMIT,
        OrDefault(ExtractString(json, LAST_PLAYED), []),
        OrDefault(ExtractBool(json, HIDDEN), false)))
  }

  /** Position of the last `c` in `s`, as `rfind`. */
  function LastIndex(s: seq<CChar>, c: CChar): (r: Option<nat>)
    ensures r.Some? ==> r.value < |s| && s[r.value] == c && c !in s[r.value + 1..]
    ensures r.None? ==> c !in s
  {
    if s == [] then None
    else if s[|s| - 1] == c then Some(|s| - 1)
    else
      var r := LastIndex(s[..|s| - 1], c);
      assert r.Some? ==> s[r.value + 1..] == s[..|s| - 1][r.value + 1..] + [s[|s| - 1]];
      assert s == s[..|s| - 1] + [s[|s| - 1]];
      r
  }

  /**
   * `extract_game_key`: for text ending (whitespace aside) in a colon
   * after a closing quote, the text back to the quote before it; else empty.
   */
  function ExtractGameKey(before: seq<CChar>): (r: seq<CChar>)
    ensures '"' !in r
  {
    var trimmed := TrimEnd(before);
    if trimmed == [] || trimmed[|trimmed| - 1] != ':' then []
    else
      var beforeColon := TrimEnd(trimmed[..|trimmed| - 1]);
      if beforeColon == [] || beforeColon[|beforeColon| - 1] != '"' then []
      else
        var keyEnd := |beforeColon| - 1;
        match LastIndex(beforeColon[..keyEnd], '"')
        case None => []
        case Some(keyStart) => beforeColon[keyStart + 1..keyEnd]
  }

  lemma {:induction false} TrimWhiteSuffix(s: seq<CChar>, ws: seq<CChar>)
    requires forall i :: 0 <= i < |ws| ==> IsWhite(ws[i])
    requires s != [] && !IsWhite(s[|s| - 1])
    ensures TrimEnd(s + ws) == s
  {
    if ws != [] {
      assert (s + ws)[..|s + ws| - 1] == s + ws[..|ws| - 1];
      TrimWhiteSuffix(s, ws[..|ws| - 1]);
    } else {
      assert s + ws == s;
    }
  }

  /** The key of `"KEY": {` is read back: the text between the last pair of quotes before the colon. */
  lemma GameKeyRoundTrip(prefix: seq<CChar>, key: seq<CChar>, ws1: seq<CChar>, ws2: seq<CChar>)
    requires '"' !in key
    requires forall i :: 0 <= i < |ws1| ==> IsWhite(ws1[i])
    requires forall i :: 0 <= i < |ws2| ==> IsWhite(ws2[i])
    ensures ExtractGameKey(prefix + ['"'] + key + ['"'] + ws1 + [':'] + ws2) == key
  {
    var quoted := prefix + ['"'] + key + ['"'];
    var withColon := quoted + ws1 + [':'];
    var before := withColon + ws2;
    assert prefix + ['"'] + key + ['"'] + ws1 + [':'] + ws2 == before;
    TrimWhiteSuffix(withColon, ws2);
    assert withColon[..|withColon| - 1] == quoted + ws1;
    TrimWhiteSuffix(quoted, ws1);
    var keyEnd := |quoted| - 1;
    assert quoted[..keyEnd] == prefix + ['"'] + key;
    var q := prefix + ['"'] + key;
    assert q[|prefix|] == '"';
    assert q[|prefix| + 1..] == key;
    var li := LastIndex(q, '"');
    assert li.Some?;
  }

  // ---------------------------------------------------------------------
  // Cutting game objects out of the file
  // ---------------------------------------------------------------------

  const TITLE_PATTERN: seq<CChar> := ['"', 't', 'i', 't', 'l', 'e', '"', ':']

  /**
   * The backward brace count from `json[..i]`: the nearest `{` not closed
   * by a `}` between it and the starting point.
   */
  function ScanBack(json: seq<CChar>, i: nat, depth: nat): (r: Option<nat>)
    requires i <= |json|
    ensures r.Some? ==> r.value < i && json[r.value] == '{'
  {
    if i == 0 then None
    else if json[i - 1] == '}' then ScanBack(json, i - 1, depth + 1)
    else if json[i - 1] == '{' then (if depth == 0 then Some(i - 1) else ScanBack(json, i - 1, depth - 1))
    else ScanBack(json, i - 1, depth)
  }

  /** The forward brace count from `json[j..]`: the position just past the `}` that closes `depth` braces. */
  function ScanForward(json: seq<CChar>, j: nat, depth: nat): (r: Option<nat>)
    requires j <= |json| && depth >= 1
    ensures r.Some? ==> j < r.value <= |json| && json[r.value - 1] == '}'
    decreases |json| - j
  {
    if j == |json| then None
    else if json[j] == '{' then ScanForward(json, j + 1, depth + 1)
    else if json[j] == '}' then (if depth == 1 then Some(j + 1) else ScanForward(json, j + 1, depth - 1))
    else ScanForward(json, j + 1, depth)
  }

  /** The object around a title found at `abs`: its start, or `abs` without an opening brace. */
  function ObjectStart(json: seq<CChar>, abs: nat): (r: nat)
    requires abs <= |json|
    ensures r <= abs
    ensures r < abs <==> ScanBack(json, abs, 0).Some?
    ensures r < abs ==> json[r] == '{'
  {
    match ScanBack(json, abs, 0)
    case Some(i) => i
    case None => abs
  }

  /** Just past the object's closing brace, or `abs` without one. */
  function ObjectEnd(json: seq<CChar>, objStart: nat, abs: nat): (r: nat)
    requires objStart < |json| && abs <= |json|
    ensures r <= |json|
    ensures ScanForward(json, objStart + 1, 1).Some? ==> objStart + 1 < r && json[r - 1] == '}'
    ensures ScanForward(json, objStart + 1, 1).None? ==> r == abs
    ensures ScanForward(json, objStart + 1, 1).Some? ==> r == ScanForward(json, objStart + 1, 1).value
  {
    match ScanForward(json, objStart + 1, 1)
    case Some(e) => e
    case None => abs
  }

  /** A byte that begins a UTF-8 character: any byte but a continuation byte `10xxxxxx`. */
  predicate StartsChar(b: CChar)
  {
    !(0x80 <= b as int < 0xC0)
  }

  /** How many characters the bytes `s` hold, as `chars()` counts them in well-formed UTF-8. */
  function CharCount(s: seq<CChar>): (r: nat)
    ensures r <= |s|
  {
    if s == [] then 0 else CharCount(s[..|s| - 1]) + (if StartsChar(s[|s| - 1]) then 1 else 0)
  }

  /** Characters and bytes agree exactly when no byte continues a multi-byte character. */
  lemma {:induction false} CharCountIsLength(s: seq<CChar>)
    ensures CharCount(s) == |s| <==> forall k :: 0 <= k < |s| ==> StartsChar(s[k])
  {
    if s != [] {
      var init := s[..|s| - 1];
      CharCountIsLength(init);
      assert forall k :: 0 <= k < |init| ==> init[k] == s[k];
    }
  }

  /**
   * `obj_start` as written: the number of characters between the opening
   * brace and the title, taken from the reversed character scan, subtracted
   * from the title's byte offset.
   */
  function ObjectStartAsWritten(json: seq<CChar>, abs: nat): (r: nat)
    requires abs <= |json|
    ensures ObjectStart(json, abs) <= r <= abs
  {
    match ScanBack(json, abs, 0)
    case Some(i) => abs - CharCount(json[i + 1..abs]) - 1
    case None => abs
  }

  /**
   * `obj_end` as written: the closing brace's character index in the text
   * after the opening brace, added to the opening brace's byte offset.
   */
  function ObjectEndAsWritten(json: seq<CChar>, objStart: nat, abs: nat): (r: nat)
    requires objStart < |json| && abs <= |json|
    ensures r <= ObjectEnd(json, objStart, abs)
  {
    match ScanForward(json, objStart + 1, 1)
    case Some(e) => objStart + 1 + CharCount(json[objStart + 1..e - 1]) + 1
    case None => abs
  }

  /** Characters and bytes agree on a slice exactly when no byte in it continues a character. */
  lemma SliceCharCount(json: seq<CChar>, a: nat, b: nat)
    requires a <= b <= |json|
    ensures CharCount(json[a..b]) == b - a <==> forall k :: a <= k < b ==> StartsChar(json[k])
  {
    var t := json[a..b];
    CharCountIsLength(t);
    assert forall k :: a <= k < b ==> json[k] == t[k - a];
  }

  /**
   * The written start is the byte offset of the opening brace exactly when
   * no multi-byte character lies between the brace and the title;
   * otherwise it falls after the brace.
   */
  lemma StartAsWrittenExact(json: seq<CChar>, abs: nat)
    requires abs <= |json| && ScanBack(json, abs, 0).Some?
    ensures var i := ScanBack(json, abs, 0).value;
      ObjectStartAsWritten(json, abs) == ObjectStart(json, abs) <==> forall k :: i + 1 <= k < abs ==> StartsChar(json[k])
  {
    var i := ScanBack(json, abs, 0).value;
    SliceCharCount(json, i + 1, abs);
  }

  /**
   * The written end is just past the closing brace exactly when no
   * multi-byte character lies inside the object; otherwise the object is
   * cut short before its closing brace.
   */
  lemma EndAsWrittenExact(json: seq<CChar>, objStart: nat, abs: nat)
    requires objStart < |json| && abs <= |json| && ScanForward(json, objStart + 1, 1).Some?
    ensures var e := ScanForward(json, objStart + 1, 1).value;
      ObjectEndAsWritten(json, objStart, abs) == ObjectEnd(json, objStart, abs)
      <==> forall k :: objStart + 1 <= k < e - 1 ==> StartsChar(json[k])
  {
    var e := ScanForward(json, objStart + 1, 1).value;
    SliceCharCount(json, objStart + 1, e - 1);
  }

  /** `{"title":"ファ","seconds":5}` in UTF-8: thirty bytes holding twenty-six characters. */
  function KanaObject(): (r: seq<CChar>)
    ensures |r| == 30
  {
    ['{'] + KanaInside() + ['}']
  }

  /** What lies between that object's braces: the title key, the title in two three-byte characters, the seconds. */
  function KanaInside(): (r: seq<CChar>)
    ensures |r| == 28
  {
    ['"', 't', 'i', 't', 'l', 'e', '"', ':', '"']
    + ['\U{E3}', '\U{83}', '\U{95}'] + ['\U{E3}', '\U{82}', '\U{A1}']
    + ['"', ',', '"', 's', 'e', 'c', 'o', 'n', 'd', 's', '"', ':', '5']
  }

  /**
   * On that object the written end stops four bytes early, inside the
   * seconds key, so the cut object no longer holds the seconds the whole
   * object records.
   */
  lemma ObjectCutShortAsWritten()
    ensures var json := KanaObject();
      && ObjectStart(json, 1) == 0 && ObjectStartAsWritten(json, 1) == 0
      && ObjectEnd(json, 0, 1) == 30 && ObjectEndAsWritten(json, 0, 1) == 26
      && ExtractNumber(json, SECONDS) == Some(5)
      && ExtractNumber(json[..26], SECONDS).None? && ExtractNumber(json[..26], TOTAL_SECONDS).None?
  {
    KanaEnds();
    KanaSecondsKept();
    KanaSecondsLost();
  }

  /** Where the object begins and ends, by bytes and as written. */
  lemma KanaEnds()
    ensures var json := KanaObject();
      && ObjectStart(json, 1) == 0 && ObjectStartAsWritten(json, 1) == 0
      && ObjectEnd(json, 0, 1) == 30 && ObjectEndAsWritten(json, 0, 1) == 26
  {
    ScanToClosingBrace(KanaObject(), 1, 29);
    KanaCharCount();
  }

  /** The first twenty-six bytes hold neither seconds key. */
  lemma KanaSecondsLost()
    ensures ExtractNumber(KanaObject()[..26], SECONDS).None? && ExtractNumber(KanaObject()[..26], TOTAL_SECONDS).None?
  {
    KanaNoSeconds();
    KanaNoTotalSeconds();
  }

  lemma KanaNoSeconds()
    ensures ExtractNumber(KanaObject()[..26], SECONDS).None?
  {
    KanaFront();
    KanaNoKey(SECONDS, 0, 18);
  }

  lemma KanaNoTotalSeconds()
    ensures ExtractNumber(KanaObject()[..26], TOTAL_SECONDS).None?
  {
    KanaFront();
    KanaNoKey(TOTAL_SECONDS, 1, 13);
  }

  /** A key is not found in the first twenty-six bytes when its `m`-th letter is missing where it could fall. */
  lemma KanaNoKey(key: seq<CChar>, m: nat, bound: nat)
    requires m < |key| && bound == 28 + m - |KeyPattern(key)| && bound <= 26
    requires key[m] !in KanaObject()[..bound]
    ensures ExtractNumber(KanaObject()[..26], key).None?
  {
    var cut := KanaObject()[..26];
    assert cut[..bound] == KanaObject()[..bound];
    NoKeyIn(cut, key, m);
  }

  /** The object's first eighteen bytes hold no `s`, and its first thirteen no `o`. */
  lemma KanaFront()
    ensures 's' !in KanaObject()[..18] && 'o' !in KanaObject()[..13]
  {
    var head: seq<CChar> := ['{', '"', 't', 'i', 't', 'l', 'e', '"', ':', '"', '\U{E3}', '\U{83}', '\U{95}'];
    var rest: seq<CChar> := ['\U{E3}', '\U{82}', '\U{A1}', '"', ','];
    assert KanaObject()[..13] == head;
    assert KanaObject()[..18] == head + rest;
  }

  /** The whole object records five seconds. */
  lemma KanaSecondsKept()
    ensures ExtractNumber(KanaObject(), SECONDS) == Some(5)
  {
    var json := KanaObject();
    assert json[18..28] == KeyPattern(SECONDS);
    assert json[28..] == [] + Decimal(5) + ['}'];
    assert 's' !in json[..19];
    forall j | 0 <= j < 18 ensures !OccursAt(json, KeyPattern(SECONDS), j) {
      assert json[j + 1] in json[..19];
      KeyLetterNotAt(json, SECONDS, j, 0);
    }
    NumberValueRoundTrip(json, SECONDS, 18, [], 5, ['}']);
  }

  /** A key is not found in text whose every place its `m`-th letter could fall lacks that letter. */
  lemma NoKeyIn(json: seq<CChar>, key: seq<CChar>, m: nat)
    requires m < |key| && |json| + m + 2 >= |KeyPattern(key)|
    requires key[m] !in json[..|json| + m + 2 - |KeyPattern(key)|]
    ensures ExtractNumber(json, key).None?
  {
    forall j: nat ensures !OccursAt(json, KeyPattern(key), j) {
      if j + |KeyPattern(key)| <= |json| {
        assert json[j + 1 + m] in json[..|json| + m + 2 - |KeyPattern(key)|];
        KeyLetterNotAt(json, key, j, m);
      }
    }
  }

  /** A key does not occur where its `m`-th letter would fall on another letter. */
  lemma KeyLetterNotAt(json: seq<CChar>, key: seq<CChar>, j: nat, m: nat)
    requires m < |key| && j + |KeyPattern(key)| <= |json| && json[j + 1 + m] != key[m]
    ensures !OccursAt(json, KeyPattern(key), j)
  {
    assert KeyPattern(key)[1 + m] == key[m];
    assert json[j..j + |KeyPattern(key)|][1 + m] == json[j + 1 + m];
  }

  /** A three-byte character counts as one. */
  lemma ThreeByteChar(a: CChar, b: CChar, c: CChar)
    requires StartsChar(a) && !StartsChar(b) && !StartsChar(c)
    ensures CharCount([a, b, c]) == 1
  {
    assert [a][..0] == [];
    assert CharCount([a]) == 1;
    assert [a, b][..1] == [a];
    assert CharCount([a, b]) == 1;
    assert [a, b, c][..2] == [a, b];
  }

  /** Between the braces lie twenty-four characters in twenty-eight bytes. */
  lemma KanaCharCount()
    ensures CharCount(KanaObject()[1..29]) == 24
  {
    var json := KanaObject();
    var head: seq<CChar> := ['"', 't', 'i', 't', 'l', 'e', '"', ':', '"'];
    var fu: seq<CChar> := ['\U{E3}', '\U{83}', '\U{95}'];
    var small: seq<CChar> := ['\U{E3}', '\U{82}', '\U{A1}'];
    var tail: seq<CChar> := ['"', ',', '"', 's', 'e', 'c', 'o', 'n', 'd', 's', '"', ':', '5'];
    assert json[1..29] == KanaInside() == head + fu + small + tail;
    CharCountConcat(head, fu);
    CharCountConcat(head + fu, small);
    CharCountConcat(head + fu + small, tail);
    assert forall k :: 0 <= k < |head| ==> StartsChar(head[k]);
    assert forall k :: 0 <= k < |tail| ==> StartsChar(tail[k]);
    CharCountIsLength(head);
    CharCountIsLength(tail);
    ThreeByteChar('\U{E3}', '\U{83}', '\U{95}');
    ThreeByteChar('\U{E3}', '\U{82}', '\U{A1}');
  }

  /** One more byte adds a character when it starts one. */
  lemma CharCountSnoc(s: seq<CChar>, c: CChar)
    ensures CharCount(s + [c]) == CharCount(s) + (if StartsChar(c) then 1 else 0)
  {
    assert (s + [c])[..|s|] == s;
  }

  /** Counting characters distributes over concatenation. */
  lemma {:induction false} CharCountConcat(a: seq<CChar>, b: seq<CChar>)
    ensures CharCount(a + b) == CharCount(a) + CharCount(b)
    decreases |b|
  {
    if b == [] {
      assert a + b == a;
    } else {
      var b' := b[..|b| - 1];
      assert a + b == (a + b') + [b[|b| - 1]] && b == b' + [b[|b| - 1]];
      CharCountSnoc(a + b', b[|b| - 1]);
      CharCountSnoc(b', b[|b| - 1]);
      CharCountConcat(a, b');
    }
  }

  /** With no brace before position `k` and `}` at `k`, the forward count closes just past `k`. */
  lemma {:induction false} ScanToClosingBrace(json: seq<CChar>, j: nat, k: nat)
    requires j <= k < |json| && json[k] == '}'
    requires forall m :: j <= m < k ==> json[m] != '{' && json[m] != '}'
    ensures ScanForward(json, j, 1) == Some(k + 1)
    decreases k - j
  {
    if j < k {
      ScanToClosingBrace(json, j + 1, k);
    }
  }

  /** What a character does to the brace count: `{` opens, `}` closes. */
  function BraceDelta(c: CChar): int
  {
    if c == '{' then 1 else if c == '}' then -1 else 0
  }

  /** Opening braces minus closing braces in `s`. */
  function BraceNet(s: seq<CChar>): int
  {
    if s == [] then 0 else BraceDelta(s[0]) + BraceNet(s[1..])
  }

  /** `s` closes every brace it opens and never closes one it did not open. */
  predicate Balanced(s: seq<CChar>)
  {
    BraceNet(s) == 0 && forall k :: 0 <= k <= |s| ==> BraceNet(s[..k]) >= 0
  }

  lemma {:induction false} BraceNetConcat(a: seq<CChar>, b: seq<CChar>)
    ensures BraceNet(a + b) == BraceNet(a) + BraceNet(b)
    decreases |a|
  {
    if a != [] {
      assert (a + b)[0] == a[0];
      assert (a + b)[1..] == a[1..] + b;
      BraceNetConcat(a[1..], b);
    } else {
      assert a + b == b;
    }
  }

  lemma BraceNetSnoc(x: seq<CChar>, c: CChar)
    ensures BraceNet(x + [c]) == BraceNet(x) + BraceDelta(c)
  {
    BraceNetConcat(x, [c]);
    assert [c][1..] == [];
  }

  /** Every prefix of `w` leaves at least one of `depth` braces open. */
  predicate StaysOpen(w: seq<CChar>, depth: int)
  {
    forall k :: 0 <= k <= |w| ==> depth + BraceNet(w[..k]) >= 1
  }

  /** No suffix of `w` closes more than `depth` braces beyond those it opens. */
  predicate NeverBelow(w: seq<CChar>, depth: int)
  {
    forall k :: 0 <= k <= |w| ==> depth - BraceNet(w[k..]) >= 0
  }

  lemma StaysOpenTail(w: seq<CChar>, depth: int)
    requires w != [] && StaysOpen(w, depth)
    ensures depth + BraceDelta(w[0]) >= 1 && StaysOpen(w[1..], depth + BraceDelta(w[0]))
  {
    assert w[..1][1..] == [];
    assert depth + BraceNet(w[..1]) >= 1;
    forall k | 0 <= k <= |w| - 1
      ensures depth + BraceDelta(w[0]) + BraceNet(w[1..][..k]) >= 1
    {
      assert w[..k + 1][0] == w[0] && w[..k + 1][1..] == w[1..][..k];
      assert depth + BraceNet(w[..k + 1]) >= 1;
    }
  }

  lemma NeverBelowInit(w: seq<CChar>, depth: int)
    requires w != [] && NeverBelow(w, depth)
    ensures var d := depth - BraceDelta(w[|w| - 1]);
      d >= 0 && NeverBelow(w[..|w| - 1], d) && d - BraceNet(w[..|w| - 1]) == depth - BraceNet(w)
  {
    var c := w[|w| - 1];
    var x := w[..|w| - 1];
    var d := depth - BraceDelta(c);
    forall k | 0 <= k <= |x|
      ensures d - BraceNet(x[k..]) == depth - BraceNet(w[k..])
    {
      assert w[k..] == x[k..] + [c];
      BraceNetSnoc(x[k..], c);
    }
    assert x[|x|..] == [];
    assert depth - BraceNet(w[|x|..]) >= 0;
    assert x[0..] == x && w[0..] == w;
  }

  /**
   * The forward count started at `j` with `depth` braces open stops just
   * past the `}` at `j + m` when the count stays positive up to there and
   * that brace brings it to zero.
   */
  lemma {:induction false} ScanForwardCloses(json: seq<CChar>, j: nat, depth: nat, m: nat)
    requires j + m < |json| && depth >= 1
    requires StaysOpen(json[j..j + m], depth)
    requires json[j + m] == '}' && depth + BraceNet(json[j..j + m]) == 1
    ensures ScanForward(json, j, depth) == Some(j + m + 1)
    decreases m
  {
    if m > 0 {
      var w := json[j..j + m];
      StaysOpenTail(w, depth);
      var d := depth + BraceDelta(json[j]);
      assert w[0] == json[j] && w[1..] == json[j + 1..j + 1 + (m - 1)];
      assert BraceNet(w) == BraceDelta(json[j]) + BraceNet(w[1..]);
      ScanForwardCloses(json, j + 1, d, m - 1);
    }
  }

  /** One step of the backward count that does not stop. */
  lemma ScanBackStep(json: seq<CChar>, i: nat, depth: nat)
    requires 0 < i <= |json| && depth - BraceDelta(json[i - 1]) >= 0
    ensures ScanBack(json, i, depth) == ScanBack(json, i - 1, depth - BraceDelta(json[i - 1]))
  {
  }

  /** The count `m` steps back from `i`, starting at `depth`, never drops below zero. */
  predicate BackClear(json: seq<CChar>, i: nat, depth: int, m: nat)
    requires m <= i <= |json|
    decreases m
  {
    m == 0 || (depth - BraceDelta(json[i - 1]) >= 0 && BackClear(json, i - 1, depth - BraceDelta(json[i - 1]), m - 1))
  }

  /** The count `m` steps back from `i`, starting at `depth`. */
  function BackDepth(json: seq<CChar>, i: nat, depth: int, m: nat): int
    requires m <= i <= |json|
    decreases m
  {
    if m == 0 then depth else BackDepth(json, i - 1, depth - BraceDelta(json[i - 1]), m - 1)
  }

  /**
   * The backward count started at `i` with `depth` closing braces pending
   * stops on the `{` at `i - m - 1` when no step drives the count below
   * zero and that brace finds it at zero.
   */
  lemma {:induction false} ScanBackOpens(json: seq<CChar>, i: nat, depth: nat, m: nat)
    requires m < i <= |json| && json[i - m - 1] == '{'
    requires BackClear(json, i, depth, m) && BackDepth(json, i, depth, m) == 0
    ensures ScanBack(json, i, depth) == Some(i - m - 1)
    decreases m
  {
    if m > 0 {
      var d := depth - BraceDelta(json[i - 1]);
      ScanBackStep(json, i, depth);
      ScanBackOpens(json, i - 1, d, m - 1);
    }
  }

  /** The backward count over `w`, from its last character to its first, never drops below zero. */
  predicate SuffixClear(w: seq<CChar>, depth: int)
  {
    w == [] || (depth - BraceDelta(w[|w| - 1]) >= 0 && SuffixClear(w[..|w| - 1], depth - BraceDelta(w[|w| - 1])))
  }

  /** A span whose suffixes never close more than `depth` braces passes the backward count. */
  lemma {:induction false} NeverBelowClear(w: seq<CChar>, depth: int)
    requires NeverBelow(w, depth)
    ensures SuffixClear(w, depth)
    decreases |w|
  {
    if w != [] {
      NeverBelowInit(w, depth);
      NeverBelowClear(w[..|w| - 1], depth - BraceDelta(w[|w| - 1]));
    }
  }

  /** The backward count over a window of `json` is the count over that slice. */
  lemma {:induction false} WindowClear(json: seq<CChar>, i: nat, depth: int, m: nat)
    requires m <= i <= |json| && SuffixClear(json[i - m..i], depth)
    ensures BackClear(json, i, depth, m)
    ensures BackDepth(json, i, depth, m) == depth - BraceNet(json[i - m..i])
    decreases m
  {
    var w := json[i - m..i];
    if m == 0 {
      assert w == [];
    } else {
      var c := json[i - 1];
      assert w[|w| - 1] == c;
      assert w[..|w| - 1] == json[(i - 1) - (m - 1)..i - 1];
      assert w == w[..|w| - 1] + [c];
      BraceNetSnoc(w[..|w| - 1], c);
      WindowClear(json, i - 1, depth - BraceDelta(c), m - 1);
    }
  }

  /** A balanced span has no suffix with more opening than closing braces. */
  lemma BalancedSuffix(b: seq<CChar>, k: nat)
    requires Balanced(b) && k <= |b|
    ensures BraceNet(b[k..]) <= 0
  {
    assert b == b[..k] + b[k..];
    BraceNetConcat(b[..k], b[k..]);
  }

  /** The forward count from just inside a `{` stops just past the `}` that closes it across a balanced body. */
  lemma ScanForwardMatches(pre: seq<CChar>, b: seq<CChar>, post: seq<CChar>)
    requires Balanced(b)
    ensures ScanForward(pre + ['{'] + b + ['}'] + post, |pre| + 1, 1) == Some(|pre| + |b| + 2)
  {
    var json := pre + ['{'] + b + ['}'] + post;
    var j := |pre| + 1;
    assert json[j..j + |b|] == b;
    ScanForwardCloses(json, j, 1, |b|);
  }

  /** The backward count from the end of a balanced span stops on the `{` just before it. */
  lemma ScanBackMatches(pre: seq<CChar>, b: seq<CChar>, post: seq<CChar>)
    requires Balanced(b)
    ensures ScanBack(pre + ['{'] + b + post, |pre| + |b| + 1, 0) == Some(|pre|)
  {
    var json := pre + ['{'] + b + post;
    var i := |pre| + |b| + 1;
    forall k | 0 <= k <= |b|
      ensures 0 - BraceNet(b[k..]) >= 0
    {
      BalancedSuffix(b, k);
    }
    assert json[i - |b|..i] == b;
    NeverBelowClear(b, 0);
    WindowClear(json, i, 0, |b|);
    ScanBackOpens(json, i, 0, |b|);
  }

  /**
   * A title at the end of a balanced span after a `{` lies in the object
   * that brace opens: the object starts at that brace and, when its body
   * is balanced, ends just past the `}` that closes it.
   */
  lemma ObjectMatches(pre: seq<CChar>, b: seq<CChar>, c: seq<CChar>, post: seq<CChar>)
    requires Balanced(b) && Balanced(b + c)
    ensures var json := pre + ['{'] + b + c + ['}'] + post;
      && ObjectStart(json, |pre| + 1 + |b|) == |pre|
      && ObjectEnd(json, |pre|, |pre| + 1 + |b|) == |pre| + |b| + |c| + 2
  {
    var json := pre + ['{'] + b + c + ['}'] + post;
    assert json == pre + ['{'] + b + (c + ['}'] + post);
    ScanBackMatches(pre, b, c + ['}'] + post);
    assert json == pre + ['{'] + (b + c) + ['}'] + post;
    ScanForwardMatches(pre, b + c, post);
  }

  /**
   * One pass of the scan loop as written: from `start`, the next title's
   * object, and where the next search begins; `None` once no title is left.
   */
  function StepAsWritten(json: seq<CChar>, start: nat): (r: Option<(Option<GameStats>, nat)>)
  {
    match IndexOfFrom(json, TITLE_PATTERN, start)
    case None => None
    case Some(abs) =>
      var objStart := ObjectStartAsWritten(json, abs);
      var key := ExtractGameKey(json[..objStart]);
      var objEnd := if objStart < |json| then ObjectEndAsWritten(json, objStart, abs) else abs;
      var game := if objStart <= objEnd then ParseGameEntry(json[objStart..objEnd], key) else None;
      Some((game, objEnd))
  }

  lemma {:induction false} NoBraceForward(json: seq<CChar>, j: nat, depth: nat)
    requires j <= |json| && depth >= 1
    requires forall k :: j <= k < |json| ==> json[k] != '}'
    ensures ScanForward(json, j, depth).None?
    decreases |json| - j
  {
    if j < |json| {
      NoBraceForward(json, j + 1, if json[j] == '{' then depth + 1 else depth);
    }
  }

  lemma {:induction false} NoBraceBack(json: seq<CChar>, i: nat, depth: nat)
    requires i <= |json|
    requires forall k :: 0 <= k < i ==> json[k] != '{'
    ensures ScanBack(json, i, depth).None?
  {
    if i > 0 {
      NoBraceBack(json, i - 1, if json[i - 1] == '}' then depth + 1 else depth);
    }
  }

  /**
   * The scan as written never ends on text that starts with a title and
   * has no braces, such as a usage file cut short: the search resumes where
   * it began and finds the same title again.
   */
  lemma ScanStallsAsWritten(json: seq<CChar>)
    requires OccursAt(json, TITLE_PATTERN, 0)
    requires forall k :: 0 <= k < |json| ==> json[k] != '{' && json[k] != '}'
    ensures StepAsWritten(json, 0).Some? && StepAsWritten(json, 0).value.1 == 0
  {
    assert IndexOfFrom(json, TITLE_PATTERN, 0) == Some(0);
    NoBraceBack(json, 0, 0);
    NoBraceForward(json, 1, 1);
  }

  /**
   * The scan with the evident intent kept: each title's object, read until
   * no title is left, stopping at an object that is never closed.
   */
  function Scan(json: seq<CChar>, start: nat): (r: seq<GameStats>)
    ensures forall i :: 0 <= i < |r| ==> r[i].title != []
    decreases |json| - start
  {
    match IndexOfFrom(json, TITLE_PATTERN, start)
    case None => []
    case Some(abs) =>
      var objStart := ObjectStart(json, abs);
      var objEnd := ObjectEnd(json, objStart, abs);
      if objEnd <= abs then []
      else Kept(ParseGameEntry(json[objStart..objEnd], ExtractGameKey(json[..objStart]))) + Scan(json, objEnd)
  }

  /** A parsed object is kept when it has a non-empty title. */
  function Kept(game: Option<GameStats>): (r: seq<GameStats>)
    ensures |r| <= 1 && (r != [] ==> r[0].title != [])
  {
    if game.Some? && game.value.title != [] then [game.value] else []
  }

  function SumSeconds(games: seq<GameStats>): nat
  {
    if games == [] then 0 else SumSeconds(games[..|games| - 1]) + games[|games| - 1].totalSeconds
  }

  function SumSessions(games: seq<GameStats>): nat
  {
    if games == [] then 0 else SumSessions(games[..|games| - 1]) + games[|games| - 1].sessionCount
  }

  predicate SortedBySeconds(games: seq<GameStats>)
  {
    forall i, j :: 0 <= i < j < |games| ==> games[i].totalSeconds >= games[j].totalSeconds
  }

  lemma {:induction false} SumsCons(g: GameStats, s: seq<GameStats>)
    ensures SumSeconds([g] + s) == g.totalSeconds + SumSeconds(s)
    ensures SumSessions([g] + s) == g.sessionCount + SumSessions(s)
  {
    if s != [] {
      assert ([g] + s)[..|s|] == [g] + s[..|s| - 1];
      SumsCons(g, s[..|s| - 1]);
    } else {
      assert ([g] + s)[..0] == [];
    }
  }

  /** A game placed after every game with at least as many seconds, as a stable sort does. */
  function InsertBySeconds(s: seq<GameStats>, g: GameStats): (r: seq<GameStats>)
    requires SortedBySeconds(s)
    ensures SortedBySeconds(r) && multiset(r) == multiset(s) + multiset{g}
    ensures SumSeconds(r) == SumSeconds(s) + g.totalSeconds
    ensures SumSessions(r) == SumSessions(s) + g.sessionCount
  {
    if s == [] then
      assert [g][..0] == [];
      [g]
    else if s[0].totalSeconds >= g.totalSeconds then
      var rest := InsertBySeconds(s[1..], g);
      SumsCons(s[0], rest);
      SumsCons(s[0], s[1..]);
      assert s == [s[0]] + s[1..];
      InsertedSorted(s, g, rest);
      [s[0]] + rest
    else
      SumsCons(g, s);
      FrontSorted(s, g);
      [g] + s
  }

  lemma FrontSorted(s: seq<GameStats>, g: GameStats)
    requires s != [] && SortedBySeconds(s) && s[0].totalSeconds < g.totalSeconds
    ensures SortedBySeconds([g] + s)
  {
    var r := [g] + s;
    forall i, j | 0 <= i < j < |r| ensures r[i].totalSeconds >= r[j].totalSeconds {
      assert r[j] == s[j - 1];
      if i > 0 { assert r[i] == s[i - 1]; }
    }
  }

  lemma InsertedSorted(s: seq<GameStats>, g: GameStats, rest: seq<GameStats>)
    requires s != [] && SortedBySeconds(s) && s[0].totalSeconds >= g.totalSeconds
    requires SortedBySeconds(rest) && multiset(rest) == multiset(s[1..]) + multiset{g}
    ensures SortedBySeconds([s[0]] + rest)
  {
    var r := [s[0]] + rest;
    forall j | 0 < j < |r| ensures r[0].totalSeconds >= r[j].totalSeconds {
      assert r[j] == rest[j - 1];
      assert rest[j - 1] in multiset(rest);
      if r[j] != g {
        assert r[j] in multiset(s[1..]);
        var k :| 0 <= k < |s[1..]| && s[1..][k] == r[j];
        assert s[k + 1] == r[j];
      }
    }
    forall i, j | 0 < i < j < |r| ensures r[i].totalSeconds >= r[j].totalSeconds {
      assert r[i] == rest[i - 1] && r[j] == rest[j - 1];
    }
  }

  /** `sort_by` on seconds, largest first, ties kept in file order. */
  function SortBySeconds(s: seq<GameStats>): (r: seq<GameStats>)
    ensures SortedBySeconds(r) && multiset(r) == multiset(s)
    ensures SumSeconds(r) == SumSeconds(s) && SumSessions(r) == SumSessions(s)
  {
    if s == [] then []
    else
      assert s == s[..|s| - 1] + [s[|s| - 1]];
      InsertBySeconds(SortBySeconds(s[..|s| - 1]), s[|s| - 1])
  }

  /**
   * `parse_usage_json`: every game object with a non-empty title, in file
   * order, summed into the totals (with the wrap-around of their unsigned
   * types) and then sorted by seconds.
   */
  method ParseUsageJson(json: seq<CChar>) returns (stats: StatsData)
    ensures stats.games == SortBySeconds(Scan(json, 0))
    ensures stats.totalPlaytime == WrappedSeconds(Scan(json, 0))
    ensures stats.totalSessions == WrappedSessions(Scan(json, 0))
  {
    var games: seq<GameStats> := [];
    var playtime: nat, sessions: nat := 0, 0;
    var searchStart: nat := 0;
    var done := false;
    while !done
      invariant searchStart <= |json|
      invariant games + Scan(json, searchStart) == Scan(json, 0)
      invariant done ==> Scan(json, searchStart) == []
      invariant playtime == WrappedSeconds(games) && sessions == WrappedSessions(games)
      decreases !done, |json| - searchStart
    {
      var kept, next;
      done, kept, next := NextObject(json, searchStart);
      ConcatAssoc(games, kept, Scan(json, next));
      games, playtime, sessions := AddTotals(games, kept, playtime, sessions);
      searchStart := next;
    }
    assert games + [] == games;
    stats := StatsData(SortBySeconds(games), playtime, sessions);
  }

  /**
   * One pass of the scan loop: find the next title, cut its object out by
   * counting braces, and parse it; `done` when no title or no closing
   * brace is left.
   */
  method NextObject(json: seq<CChar>, searchStart: nat) returns (done: bool, kept: seq<GameStats>, next: nat)
    requires searchStart <= |json|
    ensures |kept| <= 1 && searchStart <= next <= |json|
    ensures Scan(json, searchStart) == kept + Scan(json, next)
    ensures done ==> kept == [] && next == searchStart && Scan(json, searchStart) == []
    ensures !done ==> searchStart < next
  {
    var found := IndexOfFrom(json, TITLE_PATTERN, searchStart);
    if found.None? {
      return true, [], searchStart;
    }
    var abs := found.value;
    var objStart := FindObjectStart(json, abs);
    var key := ExtractGameKey(json[..objStart]);
    var objEnd := FindObjectEnd(json, objStart, abs);
    if objEnd <= abs {
      return true, [], searchStart;
    }
    kept := Kept(ParseGameEntry(json[objStart..objEnd], key));
    return false, kept, objEnd;
  }

  /** The `u64` playtime total as the loop adds it up, wrapping at each addition. */
  function WrappedSeconds(games: seq<GameStats>): (r: nat)
    ensures r < U64_LIMIT
  {
    if games == [] then 0 else (WrappedSeconds(games[..|games| - 1]) + games[|games| - 1].totalSeconds) % U64_LIMIT
  }

  /** The `u32` session total as the loop adds it up, wrapping at each addition. */
  function WrappedSessions(games: seq<GameStats>): (r: nat)
    ensures r < U32_LIMIT
  {
    if games == [] then 0 else (WrappedSessions(games[..|games| - 1]) + games[|games| - 1].sessionCount) % U32_LIMIT
  }

  /** Adds the kept game, if any, to the list and to the running totals. */
  method AddTotals(games: seq<GameStats>, kept: seq<GameStats>, playtime: nat, sessions: nat)
    returns (games': seq<GameStats>, playtime': nat, sessions': nat)
    requires |kept| <= 1
    requires playtime == WrappedSeconds(games) && sessions == WrappedSessions(games)
    ensures games' == games + kept
    ensures playtime' == WrappedSeconds(games') && sessions' == WrappedSessions(games')
  {
    if kept == [] {
      assert games + kept == games;
      return games, playtime, sessions;
    }
    var g := kept[0];
    assert (games + kept)[..|games|] == games;
    return games + kept, (playtime + g.totalSeconds) % U64_LIMIT, (sessions + g.sessionCount) % U32_LIMIT;
  }

  /** Wrapping at each addition comes to the same as wrapping the whole sum once. */
  lemma {:induction false} WrappedSums(games: seq<GameStats>)
    ensures WrappedSeconds(games) == SumSeconds(games) % U64_LIMIT
    ensures WrappedSessions(games) == SumSessions(games) % U32_LIMIT
  {
    if games != [] {
      var init := games[..|games| - 1];
      var g := games[|games| - 1];
      WrappedSums(init);
      ModAddLeft(SumSeconds(init), g.totalSeconds, U64_LIMIT);
      ModAddLeft(SumSessions(init), g.sessionCount, U32_LIMIT);
    }
  }

  lemma ModAddLeft(a: nat, b: nat, m: nat)
    requires m > 0
    ensures (a % m + b) % m == (a + b) % m
  {
    var q := a / m;
    assert a == m * q + a % m;
    assert a + b == m * q + (a % m + b);
    var k := (a % m + b) / m;
    assert a % m + b == m * k + (a % m + b) % m;
    assert a + b == m * (q + k) + (a % m + b) % m;
    DivUnique(a + b, m, q + k, (a % m + b) % m);
  }

  /** The backward brace loop. */
  method FindObjectStart(json: seq<CChar>, abs: nat) returns (objStart: nat)
    requires abs <= |json|
    ensures objStart == ObjectStart(json, abs)
  {
    var depth: nat := 0;
    var i: nat := abs;
    objStart := abs;
    while i > 0
      invariant i <= abs
      invariant ScanBack(json, abs, 0) == ScanBack(json, i, depth)
    {
      var c := json[i - 1];
      if c == '}' {
        depth := depth + 1;
      } else if c == '{' {
        if depth == 0 {
          return i - 1;
        }
        depth := depth - 1;
      }
      i := i - 1;
    }
  }

  /** The forward brace loop, from just after the object's start. */
  method FindObjectEnd(json: seq<CChar>, objStart: nat, abs: nat) returns (objEnd: nat)
    requires objStart < |json| && abs <= |json|
    ensures objEnd == ObjectEnd(json, objStart, abs)
  {
    var depth: nat := 1;
    var j := objStart + 1;
    while j < |json|
      invariant objStart + 1 <= j <= |json| && depth >= 1
      invariant ScanForward(json, objStart + 1, 1) == ScanForward(json, j, depth)
    {
      var c := json[j];
      if c == '{' {
        depth := depth + 1;
      } else if c == '}' {
        if depth == 1 {
          return j + 1;
        }
        depth := depth - 1;
      }
      j := j + 1;
    }
    return abs;
  }

  /**
   * What the viewer shows: games with titles, largest total first, the
   * totals being the sums over exactly those games.
   */
  lemma ParsedStats(json: seq<CChar>, stats: StatsData)
    requires stats.games == SortBySeconds(Scan(json, 0))
    requires stats.totalPlaytime == WrappedSeconds(Scan(json, 0))
    requires stats.totalSessions == WrappedSessions(Scan(json, 0))
    ensures SortedBySeconds(stats.games)
    ensures forall g :: g in stats.games ==> g.title != []
    ensures stats.totalPlaytime == SumSeconds(stats.games) % U64_LIMIT
    ensures stats.totalSessions == SumSessions(stats.games) % U32_LIMIT
  {
    var s := Scan(json, 0);
    WrappedSums(s);
    forall g | g in stats.games ensures g.title != [] {
      assert g in multiset(stats.games);
      assert g in multiset(s);
      var i :| 0 <= i < |s| && s[i] == g;
    }
  }

  // ---------------------------------------------------------------------
  // Durations
  // ---------------------------------------------------------------------

  /** Hours, minutes and seconds of a duration. */
  function DurationParts(total: nat): (r: (nat, nat, nat))
    ensures r.0 * 3600 + r.1 * 60 + r.2 == total
    ensures r.1 < 60 && r.2 < 60
  {
    (total / 3600, (total % 3600) / 60, total % 60)
  }

  /** `format_duration`: "Hh Mm Ss", "Mm Ss" under an hour, "Ss" under a minute. */
  function FormatDuration(total: nat): (r: seq<CChar>)
    ensures r != [] && r[|r| - 1] == 's'
  {
    var (h, m, s) := DurationParts(total);
    if h > 0 then Decimal(h) + "h " + Decimal(m) + "m " + Decimal(s) + "s"
    else if m > 0 then Decimal(m) + "m " + Decimal(s) + "s"
    else Decimal(s) + "s"
  }

  /** `format_duration_short`: whole hours, else whole minutes, else "<1m". */
  function FormatDurationShort(total: nat): (r: seq<CChar>)
    ensures r != [] && (r[|r| - 1] == 'h' <==> total >= 3600)
    ensures r[|r| - 1] == 'm' <==> total < 3600
  {
    var (h, m, _) := DurationParts(total);
    if h > 0 then Decimal(h) + "h"
    else if m > 0 then Decimal(m) + "m"
    else "<1m"
  }

  /** Under a minute, the label is the seconds alone. */
  lemma SecondsLabel(total: nat)
    requires total < 60
    ensures FormatDuration(total) == Decimal(total) + "s"
  {
    assert total / 3600 == 0 && total % 3600 == total;
    assert total / 60 == 0 && total % 60 == total;
  }

  /** From an hour up, the label leads with the whole hours. */
  lemma HoursLabel(total: nat)
    requires total >= 3600
    ensures FormatDuration(total)[..|Decimal(total / 3600)| + 1] == Decimal(total / 3600) + "h"
  {
    var d := Decimal(total / 3600);
    var rest := " " + Decimal((total % 3600) / 60) + "m " + Decimal(total % 60) + "s";
    assert FormatDuration(total) == d + "h" + rest;
    PrefixOfConcat(d + "h", rest);
  }

  /** The label names hours exactly from an hour on. */
  lemma HoursMarked(total: nat)
    ensures total >= 3600 <==> 'h' in FormatDuration(total)
  {
    var (h, m, s) := DurationParts(total);
    var r := FormatDuration(total);
    if total >= 3600 {
      assert r[|Decimal(h)|] == 'h';
    } else {
      var tail := Decimal(s) + "s";
      NoHourIn(Decimal(s), "s");
      if m > 0 {
        NoHourIn(Decimal(m), "m ");
        NoHourJoin(Decimal(m) + "m ", tail);
        assert r == Decimal(m) + "m " + tail;
      }
    }
  }

  /** Digits followed by a unit without 'h' hold no 'h'. */
  lemma NoHourIn(d: seq<CChar>, unit: seq<CChar>)
    requires forall i :: 0 <= i < |d| ==> IsDigit(d[i])
    requires 'h' !in unit
    ensures 'h' !in d + unit
  {
    forall i | 0 <= i < |d + unit|
      ensures (d + unit)[i] != 'h'
    {
      if i < |d| {
        assert (d + unit)[i] == d[i];
      }
    }
  }

  /** Two texts without 'h' joined hold none. */
  lemma NoHourJoin(a: seq<CChar>, b: seq<CChar>)
    requires 'h' !in a && 'h' !in b
    ensures 'h' !in a + b
  {
  }

  /** The front of a concatenation is its first part. */
  lemma PrefixOfConcat(a: seq<CChar>, b: seq<CChar>)
    ensures (a + b)[..|a|] == a
  {
  }

  /** From a minute up to an hour, the label leads with the whole minutes. */
  lemma MinutesLabel(total: nat)
    requires 60 <= total < 3600
    ensures FormatDuration(total)[..|Decimal(total / 60)| + 1] == Decimal(total / 60) + "m"
  {
    var (h, m, s) := DurationParts(total);
    assert h == 0 && m == total / 60;
    var d := Decimal(m);
    var rest := " " + Decimal(s) + "s";
    assert FormatDuration(total) == d + "m" + rest;
    assert (d + "m" + rest)[..|d| + 1] == d + "m";
  }

  /** The short label reads "<1m" exactly under a minute. */
  lemma ShortLabel(total: nat)
    ensures FormatDurationShort(total) == "<1m" <==> total < 60
  {
    var (h, m, s) := DurationParts(total);
    if h > 0 {
      assert (Decimal(h) + "h")[0] == Decimal(h)[0];
    } else if m > 0 {
      assert (Decimal(m) + "m")[0] == Decimal(m)[0];
    } else {
      assert total < 60;
    }
  }
}
