/**
 * The network plugin's INI configuration (psp_drp.ini): defaults, the
 * line splitter of the loader, the `key = value` line parser with its range
 * clamps, and the in-place whitespace trimmer.
 */
module NetConfig {
  import opened Common

  const DEFAULT_PORT: nat := 9276
  /** The loader reads at most this many bytes of the file. */
  const READ_LIMIT: nat := 2047
  /** A line buffer holds 127 characters and a terminator. */
  const LINE_MAX: nat := 127
  const KEY_MAX: nat := 31
  const VALUE_MAX: nat := 63

  datatype Config = Config(
    enabled: bool,
    desktopIp: seq<CChar>,
    port: nat,
    autoDiscovery: bool,
    alwaysActive: bool,
    sendIcons: bool,
    pspName: seq<CChar>,
    pollIntervalMs: nat,
    heartbeatIntervalMs: nat,
    gameUpdateIntervalMs: nat,
    connectTimeoutS: nat,
    sendOnce: bool,
    enableLogging: bool)

  /** The ranges every loaded configuration stays in. */
  predicate InRange(c: Config)
  {
    0 < c.port < U16_LIMIT
    && 500 <= c.pollIntervalMs <= 60000
    && 1000 <= c.heartbeatIntervalMs <= 300000
    && c.gameUpdateIntervalMs <= 3600000
    && c.connectTimeoutS <= 600
    && |c.desktopIp| < 16
    && |c.pspName| < 32
  }

  /** `config_set_defaults`. */
  function Defaults(): (r: Config)
    ensures InRange(r)
    ensures r.desktopIp == [] && r.autoDiscovery && r.port == DEFAULT_PORT
  {
    Config(
      enabled := true, desktopIp := [], port := DEFAULT_PORT, autoDiscovery := true,
      alwaysActive := false, sendIcons := true, pspName := "PSP",
      pollIntervalMs := 5000, heartbeatIntervalMs := 30000,
      gameUpdateIntervalMs := 60000, connectTimeoutS := 30,
      sendOnce := false, enableLogging := false)
  }

  // ---------------------------------------------------------------------
  // Line splitting
  // ---------------------------------------------------------------------

  predicate IsTerminator(c: char) { c == '\n' || c == '\r' || c == '\0' }

  function Last<T>(s: seq<T>): T requires |s| > 0 { s[|s| - 1] }

  /**
   * The pieces of `s` between terminators, in order, empty pieces included:
   * k terminators give k + 1 pieces.
   */
  function Pieces(s: seq<CChar>): (r: seq<seq<CChar>>)
    ensures |r| > 0
  {
    if s == [] then [[]]
    else
      var p := Pieces(s[..|s| - 1]);
      if IsTerminator(Last(s)) then p + [[]]
      else p[..|p| - 1] + [Last(p) + [Last(s)]]
  }


  /** Non-empty pieces, each cut to the line buffer. */
  function KeepLines(pieces: seq<seq<CChar>>): (r: seq<seq<CChar>>)
  {
    if pieces == [] then []
    else
      var init := KeepLines(pieces[..|pieces| - 1]);
      if Last(pieces) == [] then init else init + [Truncate(Last(pieces), LINE_MAX)]
  }

  /** The lines `config_load` hands to `parse_line` for a file's contents. */
  function Lines(content: seq<CChar>): seq<seq<CChar>>
  {
    KeepLines(Pieces(content))
  }

  lemma {:induction false} PiecesHaveNoTerminator(s: seq<CChar>, k: nat, i: nat)
    requires k < |Pieces(s)| && i < |Pieces(s)[k]|
    ensures !IsTerminator(Pieces(s)[k][i])
  {
    if s != [] {
      var p := Pieces(s[..|s| - 1]);
      if IsTerminator(Last(s)) {
        if k < |p| { PiecesHaveNoTerminator(s[..|s| - 1], k, i); }
      } else if k < |p| - 1 {
        PiecesHaveNoTerminator(s[..|s| - 1], k, i);
      } else if i < |Last(p)| {
        PiecesHaveNoTerminator(s[..|s| - 1], |p| - 1, i);
      }
    }
  }

  lemma {:induction false} KeepLinesShape(pieces: seq<seq<CChar>>, k: nat)
    requires k < |KeepLines(pieces)|
    ensures 0 < |KeepLines(pieces)[k]| <= LINE_MAX
    ensures exists j :: 0 <= j < |pieces| && KeepLines(pieces)[k] == Truncate(pieces[j], LINE_MAX)
  {
    var init := KeepLines(pieces[..|pieces| - 1]);
    if k < |init| {
      KeepLinesShape(pieces[..|pieces| - 1], k);
      var j :| 0 <= j < |pieces| - 1 && init[k] == Truncate(pieces[..|pieces| - 1][j], LINE_MAX);
      assert pieces[..|pieces| - 1][j] == pieces[j];
    } else {
      assert KeepLines(pieces)[k] == Truncate(pieces[|pieces| - 1], LINE_MAX);
    }
  }

  /**
   * Every line given to the parser is non-empty, at most 127 characters
   * long and holds no line terminator or NUL.
   */
  lemma LinesShape(content: seq<CChar>, k: nat)
    requires k < |Lines(content)|
    ensures 0 < |Lines(content)[k]| <= LINE_MAX
    ensures forall i :: 0 <= i < |Lines(content)[k]| ==> !IsTerminator(Lines(content)[k][i])
  {
    var pieces := Pieces(content);
    KeepLinesShape(pieces, k);
    var j :| 0 <= j < |pieces| && Lines(content)[k] == Truncate(pieces[j], LINE_MAX);
    forall i | 0 <= i < |Lines(content)[k]| ensures !IsTerminator(Lines(content)[k][i]) {
      PiecesHaveNoTerminator(content, j, i);
    }
  }

  // ---------------------------------------------------------------------
  // Trimming
  // ---------------------------------------------------------------------

  function TrimEnd(s: seq<CChar>): (r: seq<CChar>)
    ensures |r| <= |s| && r == s[..|r|]
    ensures r == [] || !IsBlank(Last(r))
    ensures forall i :: |r| <= i < |s| ==> IsBlank(s[i])
  {
    if s != [] && IsBlank(Last(s)) then TrimEnd(s[..|s| - 1]) else s
  }

  /** `s` without leading or trailing spaces and tabs. */
  function Trim(s: seq<CChar>): (r: seq<CChar>)
    ensures |r| <= |s|
    ensures r == [] || (!IsBlank(r[0]) && !IsBlank(Last(r)))
  {
    TrimEnd(SkipBlanks(s))
  }

  /** Trimming twice is trimming once. */
  lemma TrimIdempotent(s: seq<CChar>)
    ensures Trim(Trim(s)) == Trim(s)
  {
    var t := Trim(s);
    if t != [] {
      assert SkipBlanks(t) == t;
    }
  }

  /** `strlen`: the position of the first NUL. */
  method StrLen(a: array<CChar>) returns (len: nat)
    requires '\0' in a[..]
    ensures len < a.Length && a[len] == '\0'
    ensures a[..len] == Before(a[..], '\0')
  {
    ghost var text := Before(a[..], '\0');
    len := 0;
    while a[len] != '\0'
      invariant 0 <= len <= |text|
      invariant a[..len] == text[..len]
      decreases |text| - len
    {
      len := len + 1;
    }
    assert a[..len] == text[..len];
  }

  /** `memmove(a, a + start, n + 1)`: the n characters at `start` and the one after them move to the front. */
  method MoveToFront(a: array<CChar>, start: nat, n: nat)
    requires start + n < a.Length
    modifies a
    ensures a[..n + 1] == old(a[start..start + n + 1])
    ensures a[n + 1..] == old(a[n + 1..])
  {
    var k := 0;
    while k <= n
      invariant 0 <= k <= n + 1
      invariant forall i :: 0 <= i < k ==> a[i] == old(a[start + i])
      invariant forall i :: k <= i < a.Length ==> a[i] == old(a[i])
    {
      a[k] := a[start + k];
      k := k + 1;
    }
  }

  /**
   * The trailing-blank loop of `trim_whitespace`: `a` holds `n` characters
   * starting with a non-blank one, then a NUL; the trailing blanks become NULs.
   */
  method ClearTrailing(a: array<CChar>, n: nat) returns (keep: nat)
    requires n < a.Length && a[n] == '\0'
    requires n > 0 ==> !IsBlank(a[0])
    modifies a
    ensures keep <= n && a[keep] == '\0'
    ensures a[..keep] == TrimEnd(old(a[..n]))
  {
    ghost var text := a[..n];
    var end := n - 1;
    while end > 0 && (a[end] == ' ' || a[end] == '\t')
      invariant -1 <= end < n
      invariant a[..end + 1] == text[..end + 1]
      invariant a[end + 1] == '\0'
      invariant forall i :: end < i < n ==> IsBlank(text[i])
      decreases end
    {
      a[end] := '\0';
      end := end - 1;
    }
    keep := end + 1;
    TrimEndAt(text, keep);
  }

  /**
   * `trim_whitespace`: trims the NUL-terminated text held by `a` in place,
   * moving it to the front of the buffer.
   */
  method TrimWhitespace(a: array<CChar>)
    requires '\0' in a[..]
    modifies a
    ensures '\0' in a[..]
    ensures Before(a[..], '\0') == Trim(Before(old(a[..]), '\0'))
  {
    var len := StrLen(a);
    var start := LeadingBlanks(a, len);
    ghost var lead := a[start..len];
    var n := len - start;
    if start != 0 {
      MoveToFront(a, start, n);
    }
    assert a[..n] == lead && a[n] == '\0';
    var keep := ClearTrailing(a, n);
    assert a[keep] == '\0';
    BeforeAt(a[..], keep, '\0');
  }

  /** The leading-whitespace loop of `trim_whitespace`: where the text starts once its blanks are skipped. */
  method LeadingBlanks(a: array<CChar>, len: nat) returns (start: nat)
    requires len < a.Length && a[len] == '\0'
    ensures start <= len && SkipBlanks(a[..len]) == a[start..len]
  {
    ghost var text := a[..len];
    start := 0;
    while a[start] == ' ' || a[start] == '\t'
      invariant 0 <= start <= len
      invariant forall i :: 0 <= i < start ==> IsBlank(text[i])
      decreases len - start
    {
      start := start + 1;
    }
    SkipBlanksAt(text, start);
    assert text[start..] == a[start..len];
  }

  lemma {:induction false} SkipBlanksAt(s: seq<CChar>, k: nat)
    requires k <= |s| && (k == |s| || !IsBlank(s[k]))
    requires forall i :: 0 <= i < k ==> IsBlank(s[i])
    ensures SkipBlanks(s) == s[k..]
  {
    if k > 0 {
      SkipBlanksAt(s[1..], k - 1);
      assert s[1..][k - 1..] == s[k..];
    }
  }

  lemma {:induction false} TrimEndAt(s: seq<CChar>, k: nat)
    requires k <= |s| && (k == 0 || !IsBlank(s[k - 1]))
    requires forall i :: k <= i < |s| ==> IsBlank(s[i])
    ensures TrimEnd(s) == s[..k]
    decreases |s|
  {
    if |s| > k {
      TrimEndAt(s[..|s| - 1], k);
      assert s[..|s| - 1][..k] == s[..k];
    } else {
      assert s[..k] == s;
    }
  }

  lemma {:induction false} BeforeAt<T>(s: seq<T>, k: nat, stop: T)
    requires k < |s| && s[k] == stop && stop !in s[..k]
    ensures Before(s, stop) == s[..k]
  {
    if k > 0 {
      assert s[0] in s[..k];
      BeforeAt(s[1..], k - 1, stop);
      assert s[1..][..k - 1] == s[1..k];
    }
  }

  // ---------------------------------------------------------------------
  // Values
  // ---------------------------------------------------------------------

  /** `parse_bool`: "1", "true", "yes" and "on" are true, anything else false. */
  predicate ParseBool(value: seq<CChar>): (b: bool)
    ensures b ==> 1 <= |value| <= 4 && (value[0] == '1' || 'a' <= value[0] <= 'z')
  {
    value == "1" || value == "true" || value == "yes" || value == "on"
  }

  /** The characters `isspace` accepts. */
  predicate IsSpace(c: char)
  {
    c == ' ' || c == '\t' || c == '\n' || c == '\r' || c == '\U{000B}' || c == '\U{000C}'
  }

  function SkipSpaces(s: seq<CChar>): (r: seq<CChar>)
    ensures |r| <= |s| && r == s[|s| - |r|..]
    ensures r == [] || !IsSpace(r[0])
  {
    if s != [] && IsSpace(s[0]) then SkipSpaces(s[1..]) else s
  }

  const INT_MIN: int := -0x8000_0000
  const INT_MAX: int := 0x7FFF_FFFF

  function Clamp(x: int, lo: int, hi: int): (r: int)
    requires lo <= hi
    ensures lo <= r <= hi
    ensures lo <= x <= hi ==> r == x
  {
    if x < lo then lo else if x > hi then hi else x
  }

  /**
   * The C library's `strtol` family in base 10 with a result range
   * `[lo, hi]`: leading white space, an optional sign, then the longest run
   * of digits; out-of-range values saturate.
   */
  function StrToInt(s: seq<CChar>, lo: int, hi: int): (r: int)
    requires lo <= 0 <= hi
    ensures lo <= r <= hi
  {
    var t := SkipSpaces(s);
    var negative := t != [] && t[0] == '-';
    var body := if t != [] && (t[0] == '-' || t[0] == '+') then t[1..] else t;
    var v: int := DecimalValue(DigitPrefix(body));
    Clamp(if negative then -v else v, lo, hi)
  }

  /** The C library's `atoi` on the 32-bit target. */
  function Atoi(s: seq<CChar>): (r: int)
    ensures INT_MIN <= r <= INT_MAX
  {
    StrToInt(s, INT_MIN, INT_MAX)
  }

  /** A value written in decimal reads back unchanged when it is in range. */
  lemma StrToIntDecimal(n: nat, trailer: seq<CChar>, lo: int, hi: int)
    requires lo <= 0 <= hi && n <= hi
    requires trailer == [] || !IsDigit(trailer[0])
    ensures StrToInt(Decimal(n) + trailer, lo, hi) == n
  {
    StrToIntDigits(Decimal(n), trailer, lo, hi);
  }

  /** A run of digits in range reads back as its value, whatever follows it. */
  lemma StrToIntDigits(d: seq<CChar>, trailer: seq<CChar>, lo: int, hi: int)
    requires d != [] && forall i :: 0 <= i < |d| ==> IsDigit(d[i])
    requires lo <= 0 <= hi && DecimalValue(d) <= hi
    requires trailer == [] || !IsDigit(trailer[0])
    ensures StrToInt(d + trailer, lo, hi) == DecimalValue(d)
  {
    var t := d + trailer;
    DigitPrefixOf(d, trailer);
    StrToIntUnsigned(t, lo, hi);
  }

  /** Text that starts with a digit reads as the value of its leading digits, clamped. */
  lemma StrToIntUnsigned(t: seq<CChar>, lo: int, hi: int)
    requires t != [] && IsDigit(t[0]) && lo <= 0 <= hi
    ensures StrToInt(t, lo, hi) == Clamp(DecimalValue(DigitPrefix(t)), lo, hi)
  {
    assert SkipSpaces(t) == t;
  }

  /** A value written with `%d` (as `config_save` does) reads back unchanged. */
  lemma AtoiDecimal(n: nat, trailer: seq<CChar>)
    requires n <= INT_MAX
    requires trailer == [] || !IsDigit(trailer[0])
    ensures Atoi(Decimal(n) + trailer) == n
  {
    StrToIntDecimal(n, trailer, INT_MIN, INT_MAX);
  }

  lemma {:induction false} DigitPrefixOf(d: seq<CChar>, trailer: seq<CChar>)
    requires forall i :: 0 <= i < |d| ==> IsDigit(d[i])
    requires trailer == [] || !IsDigit(trailer[0])
    ensures DigitPrefix(d + trailer) == d
  {
    if d != [] {
      assert (d + trailer)[1..] == d[1..] + trailer;
      DigitPrefixOf(d[1..], trailer);
    }
  }

  // ---------------------------------------------------------------------
  // Lines
  // ---------------------------------------------------------------------

  /** The key of a `key = value` line: at most 31 characters, trimmed. */
  function LineKey(line: seq<CChar>, eq: nat): seq<CChar>
    requires eq <= |line|
  {
    Trim(line[..Min(eq, KEY_MAX)])
  }

  /** The value: at most 63 characters after the '=', trimmed. */
  function LineValue(line: seq<CChar>, eq: nat): seq<CChar>
    requires eq < |line|
  {
    Trim(Truncate(line[eq + 1..], VALUE_MAX))
  }

  /** An integer converted to an unsigned field of `limit` values, as C does. */
  function Unsigned(x: int, limit: nat): (r: nat)
    requires limit > 0
    ensures r < limit
  {
    x % limit
  }

  /** A `port` value: read as an unsigned 16-bit number, with 0 meaning the default port. */
  function PortValue(value: seq<CChar>): (p: nat)
    ensures 0 < p < U16_LIMIT
    ensures Atoi(value) % U16_LIMIT != 0 ==> p == Atoi(value) % U16_LIMIT
  {
    var p := Unsigned(Atoi(value), U16_LIMIT);
    if p == 0 then DEFAULT_PORT else p
  }

  /**
   * An interval value: read as an unsigned 32-bit number and clamped to
   * `lo..hi` (a lower bound of 0 needs no clamp, as with `MIN` in C).
   */
  function Interval(value: seq<CChar>, lo: nat, hi: nat): (r: nat)
    requires lo <= hi
    ensures lo <= r <= hi
    ensures lo <= Atoi(value) % U32_LIMIT <= hi ==> r == Atoi(value) % U32_LIMIT
  {
    Clamp(Unsigned(Atoi(value), U32_LIMIT), lo, hi)
  }

  /** The keys `parse_line` knows. */
  datatype Key =
    | Enabled | DesktopIp | Port | AutoDiscovery | AlwaysActive | SendIcons | PspName
    | PollIntervalMs | HeartbeatIntervalMs | GameUpdateIntervalMs | ConnectTimeoutS
    | SendOnce | EnableLogging

  /** The key a name spells, compared exactly (case matters); `None` for any other name. */
  function KeyOf(name: seq<CChar>): Option<Key>
  {
    match name
    case "enabled" => Some(Enabled)
    case "desktop_ip" => Some(DesktopIp)
    case "port" => Some(Port)
    case "auto_discovery" => Some(AutoDiscovery)
    case "always_active" => Some(AlwaysActive)
    case "send_icons" => Some(SendIcons)
    case "psp_name" => Some(PspName)
    case "poll_interval_ms" => Some(PollIntervalMs)
    case "heartbeat_interval_ms" => Some(HeartbeatIntervalMs)
    case "game_update_interval_ms" => Some(GameUpdateIntervalMs)
    case "connect_timeout_s" => Some(ConnectTimeoutS)
    case "send_once" => Some(SendOnce)
    case "enable_logging" => Some(EnableLogging)
    case _ => None
  }

  /**
   * The assignment `parse_line` makes for a known key: `port` 0 reads as
   * the default port, the intervals are clamped to their ranges and the
   * texts are cut to their buffers, so the configuration stays in range.
   */
  function Set(config: Config, key: Key, value: seq<CChar>): (r: Config)
    ensures InRange(config) ==> InRange(r)
  {
    match key
    case Enabled => config.(enabled := ParseBool(value))
    case DesktopIp => config.(desktopIp := CopyStr(value, 16))
    case Port => config.(port := PortValue(value))
    case AutoDiscovery => config.(autoDiscovery := ParseBool(value))
    case AlwaysActive => config.(alwaysActive := ParseBool(value))
    case SendIcons => config.(sendIcons := ParseBool(value))
    case PspName => config.(pspName := CopyStr(value, 32))
    case PollIntervalMs => config.(pollIntervalMs := Interval(value, 500, 60000))
    case HeartbeatIntervalMs => config.(heartbeatIntervalMs := Interval(value, 1000, 300000))
    case GameUpdateIntervalMs => config.(gameUpdateIntervalMs := Interval(value, 0, 3600000))
    case ConnectTimeoutS => config.(connectTimeoutS := Interval(value, 0, 600))
    case SendOnce => config.(sendOnce := ParseBool(value))
    case EnableLogging => config.(enableLogging := ParseBool(value))
  }

  /** A known key is assigned its value; an unknown key changes nothing. */
  function Assign(config: Config, name: seq<CChar>, value: seq<CChar>): (r: Config)
    ensures KeyOf(name).None? ==> r == config
    ensures InRange(config) ==> InRange(r)
  {
    match KeyOf(name)
    case None => config
    case Some(key) => Set(config, key, value)
  }

  /**
   * `parse_line`: comments (';' or '#'), empty lines and lines without '='
   * change nothing; otherwise the trimmed key before the first '=' is
   * assigned the trimmed value after it.
   */
  function ParseLine(config: Config, line: seq<CChar>): (r: Config)
    ensures line == [] || line[0] == ';' || line[0] == '#' || '=' !in line ==> r == config
    ensures InRange(config) ==> InRange(r)
  {
    if line == [] || line[0] == ';' || line[0] == '#' then config
    else
      var eq := |Before(line, '=')|;
      if eq == |line| then config
      else Assign(config, LineKey(line, eq), LineValue(line, eq))
  }

  /** Each line applied in turn with `parse`, first to last. */
  function Fold<C>(init: C, parse: (C, seq<CChar>) -> C, lines: seq<seq<CChar>>): C
  {
    if lines == [] then init
    else parse(Fold(init, parse, lines[..|lines| - 1]), Last(lines))
  }

  function ApplyLines(config: Config, lines: seq<seq<CChar>>): Config
  {
    Fold(config, ParseLine, lines)
  }

  /** Whatever the file holds, the loaded configuration stays in range. */
  lemma {:induction false} ApplyLinesInRange(config: Config, lines: seq<seq<CChar>>)
    requires InRange(config)
    ensures InRange(ApplyLines(config, lines))
  {
    if lines != [] {
      ApplyLinesInRange(config, lines[..|lines| - 1]);
    }
  }

  /**
   * `config_load`: defaults first; a missing file is created from the
   * defaults (status 0), an empty or unreadable one gives -1, and otherwise
   * each line of the first 2047 bytes is parsed in order.
   */
  method ConfigLoad(file: Option<seq<CChar>>) returns (status: int, config: Config, saveDefaults: bool)
    ensures saveDefaults <==> file.None?
    ensures file.None? ==> status == 0 && config == Defaults()
    ensures file.Some? && file.value == [] ==> status == -1 && config == Defaults()
    ensures file.Some? && file.value != [] ==>
      status == 0 && config == ApplyLines(Defaults(), Lines(Truncate(file.value, READ_LIMIT)))
    ensures InRange(config)
  {
    config := Defaults();
    saveDefaults := false;
    if file.None? {
      saveDefaults := true;
      return 0, config, saveDefaults;
    }
    var content := Truncate(file.value, READ_LIMIT);
    if |content| == 0 {
      return -1, config, saveDefaults;
    }
    config := ScanLines(Defaults(), ParseLine, content);
    ApplyLinesInRange(Defaults(), Lines(content));
    status := 0;
  }

  /** The lines completed within `b`. */
  ghost function Done(b: seq<CChar>): seq<seq<CChar>>
  {
    var p := Pieces(b);
    KeepLines(p[..|p| - 1])
  }

  /** The line still being read at the end of `b`. */
  ghost function Current(b: seq<CChar>): seq<CChar>
  {
    Last(Pieces(b))
  }

  /** The scanner's state: the lines handed on so far and the line buffer. */
  datatype Scanner = Scanner(done: seq<seq<CChar>>, line: seq<CChar>)

  /**
   * One character read by the loaders: a terminator hands the buffered
   * line on when it is non-empty and empties the buffer; any other
   * character is kept while the buffer has room.
   */
  function ScanChar(st: Scanner, c: CChar): (r: Scanner)
    ensures |r.line| <= LINE_MAX || r.line == st.line
  {
    if IsTerminator(c) then Scanner(if st.line == [] then st.done else st.done + [st.line], [])
    else if |st.line| < LINE_MAX then st.(line := st.line + [c])
    else st
  }

  /** The scanner's state after the first `i` characters of `b`. */
  function Scan(b: seq<CChar>, i: nat): (r: Scanner)
    requires i <= |b|
  {
    if i == 0 then Scanner([], []) else ScanChar(Scan(b, i - 1), b[i - 1])
  }

  /** The scanner hands on exactly the non-empty pieces between terminators, each cut to 127 characters. */
  lemma {:induction false} ScanIsDone(b: seq<CChar>, i: nat)
    requires i <= |b|
    ensures Scan(b, i) == Scanner(Done(b[..i]), Truncate(Current(b[..i]), LINE_MAX))
  {
    if i > 0 {
      ScanIsDone(b, i - 1);
      DoneStep(b, i - 1);
    }
  }

  /** Scanning a NUL-terminated buffer to its end yields `Lines` of its contents. */
  lemma ScanLinesOf(content: seq<CChar>)
    ensures Scan(content + ['\0'], |content| + 1).done == Lines(content)
  {
    var b := content + ['\0'];
    ScanIsDone(b, |b|);
    assert b[..|b|] == b;
    LinesOfTerminated(content);
  }

  /** Scanning further never takes back a line already handed on. */
  lemma {:induction false} ScanPrefix(b: seq<CChar>, i: nat, j: nat)
    requires i <= j <= |b|
    ensures |Scan(b, i).done| <= |Scan(b, j).done|
    ensures Scan(b, j).done == Scan(b, i).done + Scan(b, j).done[|Scan(b, i).done|..]
    decreases j - i
  {
    if i < j {
      ScanPrefix(b, i, j - 1);
      var d := Scan(b, j - 1).done;
      assert Scan(b, j).done[..|d|] == d;
    }
  }

  /**
   * The line-splitting loop of the loaders over the NUL-terminated buffer:
   * each character goes through `ScanChar`, each line handed on goes to
   * `parse`, and "\r\n" counts as one terminator.
   */
  method ScanLines<C>(init: C, parse: (C, seq<CChar>) -> C, content: seq<CChar>) returns (r: C)
    ensures r == Fold(init, parse, Lines(content))
  {
    r := init;
    var buffer := content + ['\0'];
    var line: seq<CChar> := [];
    ghost var done: seq<seq<CChar>> := [];
    var i := 0;
    while i <= |content|
      invariant 0 <= i <= |content| + 1
      invariant Scan(buffer, i) == Scanner(done, line)
      invariant r == Fold(init, parse, done)
      decreases |content| + 1 - i
    {
      done, line, r, i := ScanStep(init, parse, buffer, i, done, line, r);
    }
    ScanLinesOf(content);
  }

  /**
   * One turn of the loop: the character at `i` goes through `ScanChar`, a
   * line handed on goes to `parse`, and a "\r" followed by "\n" takes both.
   */
  method ScanStep<C>(init: C, parse: (C, seq<CChar>) -> C, buffer: seq<CChar>, i: nat,
                     ghost done: seq<seq<CChar>>, line: seq<CChar>, r: C)
    returns (ghost done': seq<seq<CChar>>, line': seq<CChar>, r': C, i': nat)
    requires i < |buffer| && buffer[|buffer| - 1] == '\0'
    requires Scan(buffer, i) == Scanner(done, line)
    requires r == Fold(init, parse, done)
    ensures i < i' <= |buffer|
    ensures Scan(buffer, i') == Scanner(done', line')
    ensures r' == Fold(init, parse, done')
  {
    var c := buffer[i];
    assert Scan(buffer, i + 1) == ScanChar(Scanner(done, line), c);
    done', line', r', i' := done, line, r, i + 1;
    if c == '\n' || c == '\r' || c == '\0' {
      if |line| > 0 {
        FoldSnoc(init, parse, done, line);
        r' := parse(r, line);
        done' := done + [line];
      }
      line' := [];
      if c == '\r' && buffer[i + 1] == '\n' {
        assert Scan(buffer, i + 2) == ScanChar(Scan(buffer, i + 1), '\n');
        i' := i + 2;
      }
    } else if |line| < LINE_MAX {
      line' := line + [c];
    }
  }

  /**
   * The same turn without a `parse`: whether a line was handed on, for the
   * loaders that stop at the first line they want.
   */
  method ScanAdvance(buffer: seq<CChar>, i: nat, ghost done: seq<seq<CChar>>, line: seq<CChar>)
    returns (ghost done': seq<seq<CChar>>, line': seq<CChar>, i': nat, handed: bool)
    requires i < |buffer| && buffer[|buffer| - 1] == '\0'
    requires Scan(buffer, i) == Scanner(done, line)
    ensures i < i' <= |buffer|
    ensures Scan(buffer, i') == Scanner(done', line')
    ensures handed ==> line != [] && done' == done + [line]
    ensures !handed ==> done' == done
  {
    var c := buffer[i];
    assert Scan(buffer, i + 1) == ScanChar(Scanner(done, line), c);
    done', line', i', handed := done, line, i + 1, false;
    if c == '\n' || c == '\r' || c == '\0' {
      if |line| > 0 {
        done', handed := done + [line], true;
      }
      line' := [];
      if c == '\r' && buffer[i + 1] == '\n' {
        assert Scan(buffer, i + 2) == ScanChar(Scan(buffer, i + 1), '\n');
        i' := i + 2;
      }
    } else if |line| < LINE_MAX {
      line' := line + [c];
    }
  }

  /** One character of the buffer either ends the current line or extends it. */
  lemma DoneStep(buffer: seq<CChar>, i: nat)
    requires i < |buffer|
    ensures IsTerminator(buffer[i]) ==>
      Current(buffer[..i + 1]) == [] &&
      Done(buffer[..i + 1]) == Done(buffer[..i])
        + (if Current(buffer[..i]) == [] then [] else [Truncate(Current(buffer[..i]), LINE_MAX)])
    ensures !IsTerminator(buffer[i]) ==>
      Current(buffer[..i + 1]) == Current(buffer[..i]) + [buffer[i]] &&
      Done(buffer[..i + 1]) == Done(buffer[..i])
    ensures Truncate(Current(buffer[..i]) + [buffer[i]], LINE_MAX)
      == if |Current(buffer[..i])| < LINE_MAX then Truncate(Current(buffer[..i]), LINE_MAX) + [buffer[i]]
         else Truncate(Current(buffer[..i]), LINE_MAX)
  {
    var p := Pieces(buffer[..i]);
    assert buffer[..i + 1][..i] == buffer[..i];
    var q := Pieces(buffer[..i + 1]);
    if IsTerminator(buffer[i]) {
      assert q[..|q| - 1] == p;
    } else {
      assert q[..|q| - 1] == p[..|p| - 1];
    }
    TruncateSnoc(Last(p), buffer[i], LINE_MAX);
  }

  lemma FoldSnoc<C>(init: C, parse: (C, seq<CChar>) -> C, lines: seq<seq<CChar>>, line: seq<CChar>)
    ensures Fold(init, parse, lines + [line]) == parse(Fold(init, parse, lines), line)
  {
    assert (lines + [line])[..|lines|] == lines;
  }

  lemma TruncateSnoc<T>(s: seq<T>, c: T, n: nat)
    ensures Truncate(s + [c], n) == if |s| < n then Truncate(s, n) + [c] else Truncate(s, n)
  {
    if |s| >= n { assert (s + [c])[..n] == s[..n]; }
  }

  lemma LinesOfTerminated(content: seq<CChar>)
    ensures Pieces(content + ['\0']) == Pieces(content) + [[]]
    ensures KeepLines(Pieces(content + ['\0'])[..|Pieces(content + ['\0'])| - 1]) == Lines(content)
  {
    assert (content + ['\0'])[..|content|] == content;
  }
}
