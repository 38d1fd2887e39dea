/**
 * The USB plugin's view of psp_drp.ini: its own defaults and the subset of
 * keys it reads, its sign-aware integer reader, and the per-game
 * `<GAMEID>_vblank_wait` override.  The line splitting, trimming and
 * boolean reading are those of the network plugin's loader.
 */
module UsbConfig {
  import opened Common
  import NetConfig

  /** A `<GAMEID>_vblank_wait` key keeps at most 19 characters of the id. */
  const SEARCH_ID_MAX: nat := 19

  datatype Config = Config(
    enabled: bool,
    pspName: seq<CChar>,
    pollIntervalMs: nat,
    heartbeatIntervalMs: nat,
    gameUpdateIntervalMs: nat,
    enableLogging: bool,
    sendIcons: bool,
    vblankWait: nat,
    sendOnce: bool)

  /** The ranges every loaded configuration stays in. */
  predicate InRange(c: Config)
  {
    500 <= c.pollIntervalMs <= 60000
    && 1000 <= c.heartbeatIntervalMs <= 300000
    && c.gameUpdateIntervalMs <= 300000
    && c.vblankWait <= 3000
    && |c.pspName| < 32
  }

  /** `usb_config_set_defaults`. */
  function Defaults(): (r: Config)
    ensures InRange(r)
    ensures r.enabled && r.sendIcons && !r.sendOnce && !r.enableLogging
    ensures r.gameUpdateIntervalMs == 0 && r.vblankWait == 300
  {
    Config(
      enabled := true, pspName := "PSP", pollIntervalMs := 5000,
      heartbeatIntervalMs := 30000, gameUpdateIntervalMs := 0,
      enableLogging := false, sendIcons := true, vblankWait := 300, sendOnce := false)
  }

  // ---------------------------------------------------------------------
  // parse_int
  // ---------------------------------------------------------------------

  /** What follows the blanks: the sign, if any, and the text after it. */
  function Signed(s: seq<CChar>): (r: (bool, seq<CChar>))
  {
    var t := SkipBlanks(s);
    if t != [] && t[0] == '-' then (true, t[1..])
    else if t != [] && t[0] == '+' then (false, t[1..])
    else (false, t)
  }

  /**
   * The value `parse_int` reads: blanks skipped, an optional sign, then the
   * longest run of digits (none reads as 0).
   */
  function ParseIntValue(s: seq<CChar>): (r: int)
  {
    var signed := Signed(s);
    var v: int := DecimalValue(DigitPrefix(signed.1));
    if signed.0 then -v else v
  }

  /** `parse_int`: blanks skipped, the sign noted, then the accumulator loop over the digits. */
  method ParseInt(s: seq<CChar>) returns (r: int)
    ensures r == ParseIntValue(s)
  {
    var i := SkipBlankRun(s);
    var sign: int := 1;
    if i < |s| && s[i] == '-' {
      sign := -1;
      i := i + 1;
    } else if i < |s| && s[i] == '+' {
      i := i + 1;
    }
    assert s[i..] == Signed(s).1;
    var v := Accumulate(s[i..]);
    r := v * sign;
  }

  /** The position of the first character that is not a space or a tab. */
  method SkipBlankRun(s: seq<CChar>) returns (i: nat)
    ensures i <= |s| && s[i..] == SkipBlanks(s)
  {
    i := 0;
    while i < |s| && IsBlank(s[i])
      invariant 0 <= i <= |s|
      invariant forall k :: 0 <= k < i ==> IsBlank(s[k])
      decreases |s| - i
    {
      i := i + 1;
    }
    NetConfig.SkipBlanksAt(s, i);
  }

  /** `result = result * 10 + digit` over the leading digits. */
  method Accumulate(body: seq<CChar>) returns (v: nat)
    ensures v == DecimalValue(DigitPrefix(body))
  {
    v := 0;
    var k := 0;
    while k < |body| && IsDigit(body[k])
      invariant 0 <= k <= |body|
      invariant forall j :: 0 <= j < k ==> IsDigit(body[j])
      invariant v == DecimalValue(body[..k])
      decreases |body| - k
    {
      assert body[..k + 1][..k] == body[..k];
      v := v * 10 + DigitValue(body[k]);
      k := k + 1;
    }
    DigitPrefixAt(body, k);
  }

  lemma {:induction false} DigitPrefixAt(s: seq<CChar>, k: nat)
    requires k <= |s| && (k == |s| || !IsDigit(s[k]))
    requires forall j :: 0 <= j < k ==> IsDigit(s[j])
    ensures DigitPrefix(s) == s[..k]
  {
    if k > 0 {
      DigitPrefixAt(s[1..], k - 1);
      assert [s[0]] + s[1..][..k - 1] == s[..k];
    }
  }

  lemma SignedDigit(s: seq<CChar>)
    requires s != [] && IsDigit(s[0])
    ensures Signed(s) == (false, s)
  {
    assert SkipBlanks(s) == s;
  }

  lemma SignedMinus(rest: seq<CChar>)
    ensures Signed(['-'] + rest) == (true, rest)
  {
    assert SkipBlanks(['-'] + rest) == ['-'] + rest;
    assert (['-'] + rest)[1..] == rest;
  }

  /** A space, a tab and a plus sign: blanks before an explicit sign. */
  const BLANKS_PLUS: seq<CChar> := [' ', '\t', '+']

  lemma SignedBlanksPlus(rest: seq<CChar>)
    ensures Signed(BLANKS_PLUS + rest) == (false, rest)
  {
    var p := BLANKS_PLUS + rest;
    NetConfig.SkipBlanksAt(p, 2);
    assert p[2..] == ['+'] + rest;
    assert (['+'] + rest)[1..] == rest;
  }

  /** A run of digits followed by a non-digit reads as the value of the digits. */
  lemma ParseIntDigits(d: seq<CChar>, trailer: seq<CChar>)
    requires d != [] && forall i :: 0 <= i < |d| ==> IsDigit(d[i])
    requires trailer == [] || !IsDigit(trailer[0])
    ensures ParseIntValue(d + trailer) == DecimalValue(d)
    ensures ParseIntValue(['-'] + (d + trailer)) == -(DecimalValue(d) as int)
    ensures ParseIntValue(BLANKS_PLUS + (d + trailer)) == DecimalValue(d)
  {
    var s := d + trailer;
    NetConfig.DigitPrefixOf(d, trailer);
    assert s[0] == d[0];
    SignedDigit(s);
    SignedMinus(s);
    SignedBlanksPlus(s);
  }

  /** A number written in decimal reads back unchanged, and negated after a minus sign. */
  lemma ParseIntDecimal(n: nat, trailer: seq<CChar>)
    requires trailer == [] || !IsDigit(trailer[0])
    ensures ParseIntValue(Decimal(n) + trailer) == n
    ensures ParseIntValue(['-'] + (Decimal(n) + trailer)) == -(n as int)
  {
    var d := Decimal(n);
    ParseIntDigits(d, trailer);
  }

  /** Text that starts with neither a digit nor a sign after its blanks reads as 0. */
  lemma ParseIntNoDigits(s: seq<CChar>)
    requires var t := SkipBlanks(s); t == [] || (!IsDigit(t[0]) && t[0] != '-' && t[0] != '+')
    ensures ParseIntValue(s) == 0
  {
  }

  // ---------------------------------------------------------------------
  // parse_line
  // ---------------------------------------------------------------------

  /** An integer key's value as the 32-bit unsigned field receives it. */
  function Field32(value: seq<CChar>): (r: nat)
    ensures r < U32_LIMIT
  {
    NetConfig.Unsigned(ParseIntValue(value), U32_LIMIT)
  }

  /**
   * The accumulator as a 32-bit register holds it: after each step
   * `result * 10 + digit` only the low 32 bits are kept.
   */
  function WrappedValue(s: string): (r: nat)
    requires forall i :: 0 <= i < |s| ==> IsDigit(s[i])
    ensures r < U32_LIMIT
  {
    if s == [] then 0 else (WrappedValue(s[..|s| - 1]) * 10 + DigitValue(s[|s| - 1])) % U32_LIMIT
  }

  /**
   * What `(uint32_t)parse_int(value)` yields when the `int` arithmetic
   * wraps at 32 bits: the wrapped magnitude, negated modulo 2^32 after a
   * minus sign.
   */
  function Field32Wrapped(value: seq<CChar>): (r: nat)
    ensures r < U32_LIMIT
  {
    var signed := Signed(value);
    var w := WrappedValue(DigitPrefix(signed.1));
    if signed.0 then (U32_LIMIT - w) % U32_LIMIT else w
  }

  /** Adding a multiple of the modulus does not change the remainder. */
  lemma ModShift(k: int, y: int)
    ensures (k * U32_LIMIT + y) % U32_LIMIT == y % U32_LIMIT
  {
    var q := y / U32_LIMIT;
    assert y == q * U32_LIMIT + y % U32_LIMIT;
    assert k * U32_LIMIT + y == (k + q) * U32_LIMIT + y % U32_LIMIT;
  }

  /** Keeping the low 32 bits after each step keeps the low 32 bits of the whole value. */
  lemma {:induction false} WrappedIsLowBits(s: string)
    requires forall i :: 0 <= i < |s| ==> IsDigit(s[i])
    ensures WrappedValue(s) == DecimalValue(s) % U32_LIMIT
  {
    if s != [] {
      var p := s[..|s| - 1];
      var d := DigitValue(s[|s| - 1]);
      WrappedIsLowBits(p);
      var v := DecimalValue(p);
      assert v == (v / U32_LIMIT) * U32_LIMIT + v % U32_LIMIT;
      assert v * 10 + d == ((v / U32_LIMIT) * 10) * U32_LIMIT + ((v % U32_LIMIT) * 10 + d);
      ModShift((v / U32_LIMIT) * 10, (v % U32_LIMIT) * 10 + d);
    }
  }

  /**
   * The unbounded reading cast to the 32-bit field is what the source's
   * wrapping 32-bit arithmetic leaves in the field, for any digit run.
   */
  lemma Field32Wraps(value: seq<CChar>)
    ensures Field32(value) == Field32Wrapped(value)
  {
    var signed := Signed(value);
    var v: int := DecimalValue(DigitPrefix(signed.1));
    WrappedIsLowBits(DigitPrefix(signed.1));
    if signed.0 {
      assert ParseIntValue(value) == -v;
      var q := v / U32_LIMIT;
      assert v == q * U32_LIMIT + v % U32_LIMIT;
      assert -v == (-q - 1) * U32_LIMIT + (U32_LIMIT - v % U32_LIMIT);
      ModShift(-q - 1, U32_LIMIT - v % U32_LIMIT);
    }
  }

  /**
   * The assignment `parse_line` makes for a key the USB plugin knows: the
   * intervals are clamped, the name is cut to its buffer, and any other
   * key changes nothing.
   */
  function Assign(config: Config, key: seq<CChar>, value: seq<CChar>): (r: Config)
    ensures InRange(config) ==> InRange(r)
  {
    match key
    case "enabled" => config.(enabled := NetConfig.ParseBool(value))
    case "psp_name" => config.(pspName := CopyStr(value, 32))
    case "poll_interval_ms" => config.(pollIntervalMs := NetConfig.Clamp(Field32(value), 500, 60000))
    case "heartbeat_interval_ms" => config.(heartbeatIntervalMs := NetConfig.Clamp(Field32(value), 1000, 300000))
    case "game_update_interval_ms" => config.(gameUpdateIntervalMs := Min(Field32(value), 300000))
    case "enable_logging" => config.(enableLogging := NetConfig.ParseBool(value))
    case "send_icons" => config.(sendIcons := NetConfig.ParseBool(value))
    case "vblank_wait" => config.(vblankWait := Min(Field32(value), 3000))
    case "send_once" => config.(sendOnce := NetConfig.ParseBool(value))
    case _ => config
  }

  /** The keys of the two clamped settings. */
  const INTERVAL_KEY: seq<CChar> := "game_update_interval_ms"
  const VBLANK_KEY: seq<CChar> := "vblank_wait"

  /** The resend interval and the vblank wait read from a line land in their ranges. */
  lemma AssignClamps(config: Config, value: seq<CChar>)
    ensures Assign(config, INTERVAL_KEY, value).gameUpdateIntervalMs
      == if Field32(value) > 300000 then 300000 else Field32(value)
    ensures Assign(config, VBLANK_KEY, value).vblankWait
      == if Field32(value) > 3000 then 3000 else Field32(value)
    ensures 0 <= ParseIntValue(value) <= 3000 ==> Assign(config, VBLANK_KEY, value).vblankWait == ParseIntValue(value)
  {
    AssignInterval(config, value);
    AssignVblank(config, value);
  }

  lemma AssignInterval(config: Config, value: seq<CChar>)
    ensures Assign(config, INTERVAL_KEY, value) == config.(gameUpdateIntervalMs := Min(Field32(value), 300000))
  {
    assert |INTERVAL_KEY| == 23 && INTERVAL_KEY[0] == 'g';
  }

  lemma AssignVblank(config: Config, value: seq<CChar>)
    ensures Assign(config, VBLANK_KEY, value) == config.(vblankWait := Min(Field32(value), 3000))
  {
    assert |VBLANK_KEY| == 11 && VBLANK_KEY[0] == 'v';
  }

  /**
   * `parse_line`: comments, empty lines and lines without '=' change
   * nothing; otherwise the trimmed key (at most 31 characters) is assigned
   * the trimmed value (at most 63).
   */
  function ParseLine(config: Config, line: seq<CChar>): (r: Config)
    ensures line == [] || line[0] == ';' || line[0] == '#' || '=' !in line ==> r == config
    ensures InRange(config) ==> InRange(r)
  {
    if line == [] || line[0] == ';' || line[0] == '#' then config
    else
      var eq := |Before(line, '=')|;
      if eq == |line| then config
      else Assign(config, NetConfig.LineKey(line, eq), NetConfig.LineValue(line, eq))
  }

  function ApplyLines(config: Config, lines: seq<seq<CChar>>): Config
  {
    NetConfig.Fold(config, ParseLine, lines)
  }

  /** Whatever the file holds, the loaded configuration stays in range. */
  lemma {:induction false} ApplyLinesInRange(config: Config, lines: seq<seq<CChar>>)
    requires InRange(config)
    ensures InRange(ApplyLines(config, lines))
  {
    if lines != [] {
      ApplyLinesInRange(config, lines[..|lines| - 1]);
    }
  }

  /**
   * `usb_config_load`: the defaults when there is no file (status 0), the
   * defaults and -1 for an empty one, and otherwise each line of the
   * first 2047 bytes parsed in order.
   */
  method ConfigLoad(file: Option<seq<CChar>>) returns (status: int, config: Config)
    ensures file.None? ==> status == 0 && config == Defaults()
    ensures file.Some? && file.value == [] ==> status == -1 && config == Defaults()
    ensures file.Some? && file.value != [] ==>
      status == 0 && config == ApplyLines(Defaults(), NetConfig.Lines(Truncate(file.value, NetConfig.READ_LIMIT)))
    ensures InRange(config)
  {
    config := Defaults();
    if file.None? {
      return 0, config;
    }
    var content := Truncate(file.value, NetConfig.READ_LIMIT);
    if |content| == 0 {
      return -1, config;
    }
    config := NetConfig.ScanLines(Defaults(), ParseLine, content);
    ApplyLinesInRange(Defaults(), NetConfig.Lines(content));
    status := 0;
  }

  // ---------------------------------------------------------------------
  // usb_config_get_game_vblank_wait
  // ---------------------------------------------------------------------

  /** The key searched for a game: its id, cut to 19 characters, then "_vblank_wait". */
  function SearchKey(gameId: seq<CChar>): (r: seq<CChar>)
    ensures |r| <= SEARCH_ID_MAX + 12
  {
    Truncate(gameId, SEARCH_ID_MAX) + "_vblank_wait"
  }

  /**
   * The override a line holds for `key`: the line has an '=', the text
   * before it equals `key` once trailing blanks are dropped, and the value
   * after it is read with `parse_int`.
   */
  function LineWait(line: seq<CChar>, key: seq<CChar>): (r: Option<int>)
    ensures r.Some? ==> '=' in line
  {
    var eq := |Before(line, '=')|;
    if eq < |line| && NetConfig.TrimEnd(line[..eq]) == key then Some(ParseIntValue(line[eq + 1..]))
    else None
  }

  /** The first line, in order, on which `f` finds something. */
  function FirstSome<T>(lines: seq<seq<CChar>>, f: seq<CChar> -> Option<T>): (r: Option<T>)
  {
    if lines == [] then None
    else
      var init := FirstSome(lines[..|lines| - 1], f);
      if init.Some? then init else f(NetConfig.Last(lines))
  }

  /** What `FirstSome` finds is on the earliest line where `f` finds anything. */
  lemma {:induction false} FirstSomeIsEarliest<T>(lines: seq<seq<CChar>>, f: seq<CChar> -> Option<T>)
    ensures FirstSome(lines, f).None? <==> forall k :: 0 <= k < |lines| ==> f(lines[k]).None?
    ensures FirstSome(lines, f).Some? ==>
      exists k :: 0 <= k < |lines| && FirstSome(lines, f) == f(lines[k])
        && forall j :: 0 <= j < k ==> f(lines[j]).None?
  {
    if lines != [] {
      var init := lines[..|lines| - 1];
      FirstSomeIsEarliest(init, f);
      assert forall k :: 0 <= k < |init| ==> init[k] == lines[k];
      if FirstSome(init, f).Some? {
        var k :| 0 <= k < |init| && FirstSome(init, f) == f(init[k])
          && forall j :: 0 <= j < k ==> f(init[j]).None?;
        assert FirstSome(lines, f) == f(lines[k]);
      } else {
        assert FirstSome(lines, f) == f(lines[|lines| - 1]);
      }
    }
  }

  lemma {:induction false} FirstSomeExtend<T>(lines: seq<seq<CChar>>, rest: seq<seq<CChar>>, f: seq<CChar> -> Option<T>)
    requires FirstSome(lines, f).Some?
    ensures FirstSome(lines + rest, f) == FirstSome(lines, f)
    decreases |rest|
  {
    if rest == [] {
      assert lines + rest == lines;
    } else {
      var init := rest[..|rest| - 1];
      FirstSomeExtend(lines, init, f);
      assert (lines + rest)[..|lines + rest| - 1] == lines + init;
    }
  }

  lemma FirstSomeSnoc<T>(lines: seq<seq<CChar>>, line: seq<CChar>, f: seq<CChar> -> Option<T>)
    requires FirstSome(lines, f).None?
    ensures FirstSome(lines + [line], f) == f(line)
  {
    assert (lines + [line])[..|lines|] == lines;
  }

  /** The override search for `key`, line by line. */
  function Finder(key: seq<CChar>): seq<CChar> -> Option<int>
  {
    line => LineWait(line, key)
  }

  /**
   * `usb_config_get_game_vblank_wait`: the default for an empty id, a
   * missing or empty file, or when no line of the first 2047 bytes holds
   * the game's key; otherwise the value on the first such line.
   */
  function GameVblankWait(gameId: seq<CChar>, file: Option<seq<CChar>>, defaultWait: nat): (r: int)
  {
    if gameId == [] || file.None? then defaultWait
    else
      var content := Truncate(file.value, NetConfig.READ_LIMIT);
      if content == [] then defaultWait
      else
        var found := FirstSome(NetConfig.Lines(content), Finder(SearchKey(gameId)));
        if found.Some? then found.value else defaultWait
  }

  /** The override applies only when a line names the game's key; otherwise the default stands. */
  lemma OverrideOnlyForKey(gameId: seq<CChar>, content: seq<CChar>, defaultWait: nat)
    requires 0 < |content| <= NetConfig.READ_LIMIT && gameId != []
    ensures (forall k :: 0 <= k < |NetConfig.Lines(content)| ==> LineWait(NetConfig.Lines(content)[k], SearchKey(gameId)).None?)
      ==> GameVblankWait(gameId, Some(content), defaultWait) == defaultWait
    ensures GameVblankWait(gameId, Some(content), defaultWait) != defaultWait ==>
      exists k :: 0 <= k < |NetConfig.Lines(content)| && LineWait(NetConfig.Lines(content)[k], SearchKey(gameId)).Some?
  {
    FirstSomeIsEarliest(NetConfig.Lines(content), Finder(SearchKey(gameId)));
  }

  /** A line found by the search stays the first one found when the scan goes on to the end. */
  lemma FoundLine<T>(buffer: seq<CChar>, i: nat, done: seq<seq<CChar>>, f: seq<CChar> -> Option<T>)
    requires i <= |buffer| && NetConfig.Scan(buffer, i).done == done
    requires FirstSome(done, f).Some?
    ensures FirstSome(NetConfig.Scan(buffer, |buffer|).done, f) == FirstSome(done, f)
  {
    NetConfig.ScanPrefix(buffer, i, |buffer|);
    var all := NetConfig.Scan(buffer, |buffer|).done;
    FirstSomeExtend(done, all[|done|..], f);
  }

  /** The search loop: it stops at the first line holding the key. */
  method GetGameVblankWait(gameId: seq<CChar>, file: Option<seq<CChar>>, defaultWait: nat) returns (r: int)
    ensures r == GameVblankWait(gameId, file, defaultWait)
  {
    if gameId == [] || file.None? {
      return defaultWait;
    }
    var key := SearchKey(gameId);
    var find := Finder(key);
    var content := Truncate(file.value, NetConfig.READ_LIMIT);
    if |content| == 0 {
      return defaultWait;
    }
    var buffer := content + ['\0'];
    NetConfig.ScanLinesOf(content);
    var line: seq<CChar> := [];
    ghost var done: seq<seq<CChar>> := [];
    var i := 0;
    while i <= |content|
      invariant 0 <= i <= |content| + 1
      invariant NetConfig.Scan(buffer, i) == NetConfig.Scanner(done, line)
      invariant FirstSome(done, find).None?
      decreases |content| + 1 - i
    {
      ghost var done';
      var line', i', handed;
      done', line', i', handed := NetConfig.ScanAdvance(buffer, i, done, line);
      if handed {
        FirstSomeSnoc(done, line, find);
        var w := find(line);
        if w.Some? {
          FoundLine(buffer, i', done', find);
          return w.value;
        }
      }
      done, line, i := done', line', i';
    }
    r := defaultWait;
  }
}
