/**
 * The decision logic of the USB plugin's main thread: the start-up
 * announcement, then one pass of its loop per clock reading, as a step over
 * the thread's globals given what the driver, the game detector and the
 * packet layer returned during that pass.  Also the reader of the local
 * `last_updated` stamp that a stats sync request carries.  Times are the
 * 32-bit seconds the thread computes from the low word of the system clock.
 */
module UsbMain {
  import opened Common
  import NetConfig
  import UsbConfig
  import UsbProtocol

  /** A periodic stats sync runs every five minutes. */
  const STATS_SYNC_INTERVAL_S: nat := 300
  /** `read_local_timestamp` reads at most this many bytes of usage_log.json. */
  const TIMESTAMP_READ_MAX: nat := 511
  /** The loader's start-up argument block is marked with "USBG". */
  const USB_STARTUP_MAGIC: nat := 0x5553_4247

  /** A reading of the thread's 32-bit seconds counter. */
  type Secs = n: nat | n < U32_LIMIT

  /** `now - then` on 32-bit unsigned seconds. */
  function Since(now: Secs, earlier: Secs): (r: nat)
    ensures r < U32_LIMIT
    ensures earlier <= now ==> r == now - earlier
  {
    (now - earlier) % U32_LIMIT
  }

  // ---------------------------------------------------------------------
  // read_local_timestamp
  // ---------------------------------------------------------------------

  const LAST_UPDATED: seq<CChar> := "last_updated"

  /** The characters skipped between the key and its number. */
  predicate IsSeparator(c: char)
  {
    c == '"' || c == ':' || c == ' '
  }

  function SkipSeparators(s: seq<CChar>): (r: seq<CChar>)
    ensures |r| <= |s| && r == s[|s| - |r|..]
    ensures r == [] || !IsSeparator(r[0])
  {
    if s != [] && IsSeparator(s[0]) then SkipSeparators(s[1..]) else s
  }

  /**
   * The stamp in a text: the digits after the first "last_updated", past
   * any quotes, colons and spaces, accumulated in an unsigned 64-bit
   * integer; 0 when the key is absent or no digit follows.
   */
  function Timestamp(text: seq<CChar>): (r: nat)
    ensures r < U64_LIMIT
    ensures IndexOf(text, LAST_UPDATED).None? ==> r == 0
  {
    match IndexOf(text, LAST_UPDATED)
    case None => 0
    case Some(i) => DecimalValue(DigitPrefix(SkipSeparators(text[i + |LAST_UPDATED|..]))) % U64_LIMIT
  }

  /**
   * `read_local_timestamp`: 0 without a file or with an empty one;
   * otherwise the stamp in the text before the first NUL of its first 511
   * bytes.
   */
  function LocalTimestamp(file: Option<seq<CChar>>): (r: nat)
    ensures r < U64_LIMIT
    ensures file.None? || file.value == [] ==> r == 0
  {
    if file.None? then 0
    else
      var buffer := Truncate(file.value, TIMESTAMP_READ_MAX);
      if buffer == [] then 0 else Timestamp(Before(buffer, '\0'))
  }

  /**
   * The stamp the desktop writes, `{"last_updated": N, ...}`, reads back
   * as N: after a two-character opening such as `{"`, the key, any run of
   * quotes, colons and spaces, and the decimal digits of N below 2^64.
   */
  lemma TimestampRoundTrip(open: seq<CChar>, sep: seq<CChar>, n: nat, trailer: seq<CChar>)
    requires |open| == 2 && open[0] != 'l' && open[1] != 'l'
    requires forall i :: 0 <= i < |sep| ==> IsSeparator(sep[i])
    requires n < U64_LIMIT
    requires trailer == [] || !IsDigit(trailer[0])
    ensures Timestamp(open + LAST_UPDATED + sep + Decimal(n) + trailer) == n
  {
    var d := Decimal(n);
    var rest := sep + (d + trailer);
    assert open + LAST_UPDATED + sep + d + trailer == (open + LAST_UPDATED) + rest;
    KeyFound(open, rest);
    ValueAfterKey(sep, d, trailer);
  }

  /** A key right after a two-character opening is the first one, and what follows it is read. */
  lemma KeyFound(open: seq<CChar>, rest: seq<CChar>)
    requires |open| == 2 && open[0] != 'l' && open[1] != 'l'
    ensures IndexOf((open + LAST_UPDATED) + rest, LAST_UPDATED) == Some(2)
    ensures Timestamp((open + LAST_UPDATED) + rest) == DecimalValue(DigitPrefix(SkipSeparators(rest))) % U64_LIMIT
  {
    var text := (open + LAST_UPDATED) + rest;
    assert LAST_UPDATED[0] == 'l';
    assert !OccursAt(text, LAST_UPDATED, 0) by { assert text[0] == open[0]; }
    assert !OccursAt(text, LAST_UPDATED, 1) by { assert text[1] == open[1]; }
    assert OccursAt(text, LAST_UPDATED, 2) by { assert text[2..14] == LAST_UPDATED; }
    FirstOccurrence(text, LAST_UPDATED, 2);
    assert text[14..] == rest;
  }

  /** After any run of separators, a decimal number below 2^64 is read back exactly. */
  lemma ValueAfterKey(sep: seq<CChar>, d: seq<CChar>, trailer: seq<CChar>)
    requires forall i :: 0 <= i < |sep| ==> IsSeparator(sep[i])
    requires d != [] && forall i :: 0 <= i < |d| ==> IsDigit(d[i])
    requires DecimalValue(d) < U64_LIMIT
    requires trailer == [] || !IsDigit(trailer[0])
    ensures DecimalValue(DigitPrefix(SkipSeparators(sep + (d + trailer)))) % U64_LIMIT == DecimalValue(d)
  {
    var s := sep + (d + trailer);
    assert s[|sep|] == d[0];
    SkipSeparatorsAt(s, |sep|);
    assert s[|sep|..] == d + trailer;
    NumberAfter(d, trailer);
  }

  lemma NumberAfter(d: seq<CChar>, trailer: seq<CChar>)
    requires d != [] && forall i :: 0 <= i < |d| ==> IsDigit(d[i])
    requires DecimalValue(d) < U64_LIMIT
    requires trailer == [] || !IsDigit(trailer[0])
    ensures DecimalValue(DigitPrefix(d + trailer)) % U64_LIMIT == DecimalValue(d)
  {
    NetConfig.DigitPrefixOf(d, trailer);
  }

  /** The stamp is read from the first 511 bytes only, and stops at a NUL. */
  lemma TimestampReadsPrefix(data: seq<CChar>, extra: seq<CChar>)
    requires |data| >= TIMESTAMP_READ_MAX
    ensures LocalTimestamp(Some(data + extra)) == LocalTimestamp(Some(data))
    ensures LocalTimestamp(Some(data[..TIMESTAMP_READ_MAX] + ['\0'] + extra)) == LocalTimestamp(Some(data))
  {
    assert (data + extra)[..TIMESTAMP_READ_MAX] == data[..TIMESTAMP_READ_MAX];
    var b := data[..TIMESTAMP_READ_MAX] + ['\0'] + extra;
    assert b[..TIMESTAMP_READ_MAX] == data[..TIMESTAMP_READ_MAX];
  }

  /** The pointer scan of `read_local_timestamp` over the bytes read. */
  method ReadLocalTimestamp(file: Option<seq<CChar>>) returns (timestamp: nat)
    ensures timestamp == LocalTimestamp(file)
  {
    if file.None? {
      return 0;
    }
    var buffer := Truncate(file.value, TIMESTAMP_READ_MAX);
    if |buffer| == 0 {
      return 0;
    }
    var text := Before(buffer, '\0');
    var pos := FindKey(text);
    if pos == |text| {
      return 0;
    }
    var p := SeparatorRun(text, pos + |LAST_UPDATED|);
    timestamp := AccumulateWrapping(text[p..]);
  }

  /** The separator loop: the first position from `start` on that is not a quote, colon or space. */
  method SeparatorRun(text: seq<CChar>, start: nat) returns (p: nat)
    requires start <= |text|
    ensures start <= p <= |text| && SkipSeparators(text[start..]) == text[p..]
  {
    p := start;
    while p < |text| && IsSeparator(text[p])
      invariant start <= p <= |text|
      invariant forall k :: start <= k < p ==> IsSeparator(text[k])
      decreases |text| - p
    {
      p := p + 1;
    }
    SkipSeparatorsAt(text[start..], p - start);
    assert text[start..][p - start..] == text[p..];
  }

  /** The first position of "last_updated" in `text`, or `|text|` when there is none. */
  method FindKey(text: seq<CChar>) returns (pos: nat)
    ensures pos <= |text|
    ensures pos == |text| <==> IndexOf(text, LAST_UPDATED).None?
    ensures pos < |text| ==> IndexOf(text, LAST_UPDATED) == Some(pos)
  {
    pos := 0;
    while pos < |text| && !(pos + |LAST_UPDATED| <= |text| && text[pos..pos + |LAST_UPDATED|] == LAST_UPDATED)
      invariant pos <= |text|
      invariant forall j :: 0 <= j < pos ==> !OccursAt(text, LAST_UPDATED, j)
      decreases |text| - pos
    {
      pos := pos + 1;
    }
    if pos < |text| {
      FirstOccurrence(text, LAST_UPDATED, pos);
    } else {
      NoOccurrence(text, LAST_UPDATED);
    }
  }

  lemma FirstOccurrence(hay: seq<CChar>, needle: seq<CChar>, pos: nat)
    requires OccursAt(hay, needle, pos)
    requires forall j :: 0 <= j < pos ==> !OccursAt(hay, needle, j)
    ensures IndexOf(hay, needle) == Some(pos)
  {
  }

  lemma NoOccurrence(hay: seq<CChar>, needle: seq<CChar>)
    requires needle != []
    requires forall j :: 0 <= j < |hay| ==> !OccursAt(hay, needle, j)
    ensures IndexOf(hay, needle).None?
  {
  }

  lemma {:induction false} SkipSeparatorsAt(s: seq<CChar>, k: nat)
    requires k <= |s| && (k == |s| || !IsSeparator(s[k]))
    requires forall i :: 0 <= i < k ==> IsSeparator(s[i])
    ensures SkipSeparators(s) == s[k..]
  {
    if k > 0 {
      SkipSeparatorsAt(s[1..], k - 1);
      assert s[1..][k - 1..] == s[k..];
    }
  }

  /** `timestamp = timestamp * 10 + digit` in an unsigned 64-bit integer. */
  method AccumulateWrapping(s: seq<CChar>) returns (v: nat)
    ensures v == DecimalValue(DigitPrefix(s)) % U64_LIMIT
  {
    v := 0;
    var k := 0;
    while k < |s| && IsDigit(s[k])
      invariant 0 <= k <= |s|
      invariant forall j :: 0 <= j < k ==> IsDigit(s[j])
      invariant v == DecimalValue(s[..k]) % U64_LIMIT
      decreases |s| - k
    {
      assert s[..k + 1][..k] == s[..k];
      ModStep(DecimalValue(s[..k]), DigitValue(s[k]), U64_LIMIT);
      v := (v * 10 + DigitValue(s[k])) % U64_LIMIT;
      k := k + 1;
    }
    UsbConfig.DigitPrefixAt(s, k);
  }

  /** Reducing before a decimal step gives the same remainder as reducing after it. */
  lemma ModStep(a: nat, d: nat, m: nat)
    requires m > 0
    ensures ((a % m) * 10 + d) % m == (a * 10 + d) % m
  {
    var q, r := a / m, a % m;
    var y := r * 10 + d;
    var q2, r2 := y / m, y % m;
    assert a == m * q + r;
    assert y == m * q2 + r2;
    assert a * 10 + d == m * (10 * q + q2) + r2 by {
      assert a * 10 == m * q * 10 + r * 10;
      assert m * q * 10 + m * q2 == m * (10 * q + q2);
    }
    DivUnique(a * 10 + d, m, 10 * q + q2, r2);
  }

  // ---------------------------------------------------------------------
  // Games
  // ---------------------------------------------------------------------

  /** What the detector reports. */
  datatype Game = Game(id: seq<CChar>, title: seq<CChar>, state: int, hasIcon: bool, startTime: nat)

  predicate HasPrefix(s: seq<CChar>, p: seq<CChar>)
  {
    |p| <= |s| && s[..|p|] == p
  }

  /** The ids the detector reports for the system menu. */
  predicate IsXmbId(id: seq<CChar>)
  {
    HasPrefix(id, "Xmb") || id == "XMB" || HasPrefix(id, "SystemCon") || id == "SystemControl"
  }

  /** The system menu is reported as "XMB" / "Browsing XMB"; any other game is left as it is. */
  function Normalize(g: Game): (r: Game)
    ensures r.state == g.state && r.hasIcon == g.hasIcon && r.startTime == g.startTime
  {
    if IsXmbId(g.id) then g.(id := "XMB", title := "Browsing XMB") else g
  }

  /** Normalising is idempotent, and changes exactly the system-menu ids. */
  lemma NormalizeXmb(g: Game)
    ensures Normalize(Normalize(g)) == Normalize(g)
    ensures IsXmbId(g.id) ==> Normalize(g).id == "XMB" && Normalize(g).title == "Browsing XMB"
    ensures !IsXmbId(g.id) ==> Normalize(g) == g
    ensures Normalize(g).id == "XMB" <==> IsXmbId(g.id)
  {
    assert IsXmbId("XMB");
  }

  /** Two ids the detector reports for the system menu, and one it reports for a game. */
  lemma NormalizeExamples(t: seq<CChar>, s: int, h: bool, st: nat)
    ensures Normalize(Game("XmbMain", t, s, h, st)).id == "XMB"
    ensures Normalize(Game("SystemConsole", t, s, h, st)).title == "Browsing XMB"
    ensures Normalize(Game("ULUS10041", t, s, h, st)).id == "ULUS10041"
  {
    assert HasPrefix("XmbMain", "Xmb");
    assert HasPrefix("SystemConsole", "SystemCon");
    var id: seq<CChar> := "ULUS10041";
    assert id[..3][0] == 'U' && id[..9][0] == 'U';
    assert !HasPrefix(id, "Xmb") && !HasPrefix(id, "SystemCon");
  }

  // ---------------------------------------------------------------------
  // Start-up
  // ---------------------------------------------------------------------

  /** The loader's start-up block: its magic word, game id field and title field. */
  datatype StartupArgs = StartupArgs(magic: nat, gameId: seq<CChar>, title: seq<CChar>)

  /**
   * The start-up id and title `module_start` keeps: both empty unless a
   * block with the right magic was passed; then each field up to its NUL,
   * cut to its buffer (15 and 63 characters).
   */
  function StartupGame(args: Option<StartupArgs>): (r: (seq<CChar>, seq<CChar>))
    ensures |r.0| < 16 && |r.1| < 64
    ensures '\0' !in r.0 && '\0' !in r.1
    ensures args.None? || args.value.magic != USB_STARTUP_MAGIC ==> r == ([], [])
  {
    if args.None? || args.value.magic != USB_STARTUP_MAGIC then ([], [])
    else (CopyStr(Before(args.value.gameId, '\0'), 16), CopyStr(Before(args.value.title, '\0'), 64))
  }

  /**
   * The vblanks waited before the driver starts: none when the configured
   * wait is 0; otherwise the per-game override for a start-up game, else
   * the configured wait.
   */
  function VblankWaitCount(config: UsbConfig.Config, startupId: seq<CChar>, file: Option<seq<CChar>>): (r: int)
    ensures config.vblankWait == 0 ==> r == 0
    ensures config.vblankWait > 0 && startupId == [] ==> r == config.vblankWait
  {
    if config.vblankWait == 0 then 0
    else if startupId != [] then UsbConfig.GameVblankWait(startupId, file, config.vblankWait)
    else config.vblankWait
  }

  // ---------------------------------------------------------------------
  // The thread
  // ---------------------------------------------------------------------

  /** The thread's globals. */
  datatype Ctx = Ctx(
    config: UsbConfig.Config,
    running: bool,
    connectedLogged: bool,
    lastPoll: Secs,
    lastGameId: seq<CChar>,
    gameStartTime: nat,
    lastGameUpdate: Secs,
    lastHeartbeat: Secs,
    syncPending: bool,
    syncDone: bool,
    lastSync: Secs)

  /**
   * What the calls made during one pass returned: the clock, the driver's
   * connection state, the detector (its status and game), the game-info
   * send, the message poll (its packet type and requested id), the icon
   * load, the usage file read for the local stamp, the stats request send
   * and the stats response poll.
   */
  datatype Env = Env(
    now: Secs,
    connected: bool,
    detectResult: int,
    game: Game,
    gameInfoResult: int,
    message: int,
    requested: seq<CChar>,
    iconLoaded: bool,
    usageFile: Option<seq<CChar>>,
    statsRequestResult: int,
    statsResponse: int)

  /** What a pass did outside the globals. */
  datatype Action =
    | SendGameInfo(id: seq<CChar>, title: seq<CChar>, state: int, hasIcon: bool, startTime: nat)
    | SendHeartbeat(uptime: nat)
    | SendIcon(id: seq<CChar>)
    | RequestStats(localTimestamp: nat)

  /**
   * The start-up announcement: a game passed by the loader is announced
   * as playing once the host is connected, and only then becomes the last
   * game sent; without one the plugin assumes the system menu, records it
   * as the last game, and announces it if the host is connected.
   */
  function Startup(config: UsbConfig.Config, startupId: seq<CChar>, startupTitle: seq<CChar>,
                   connected: bool, now: Secs, sendResult: int): (r: (Ctx, seq<Action>))
    ensures r.0.running && !r.0.connectedLogged && !r.0.syncPending && !r.0.syncDone && r.0.lastSync == 0
    ensures r.1 != [] <==> connected
    ensures startupId != [] && !connected ==> r.0.lastGameId == []
    ensures startupId == [] ==> r.0.lastGameId == "XMB"
    ensures startupId != [] && connected ==>
      r.0.lastGameId == CopyStr(startupId, 16) &&
      r.1 == [SendGameInfo(startupId, if startupTitle != [] then startupTitle else startupId, 1, true, now)]
    ensures startupId == [] && connected ==> r.1 == [SendGameInfo("XMB", "Browsing XMB", 0, false, now)]
    ensures r.0.gameStartTime == (if startupId == [] || connected then now else 0)
    ensures r.0.lastGameUpdate == (if connected && sendResult >= 0 then now else 0)
    ensures r.0.config == config && r.0.lastHeartbeat == 0 && r.0.lastPoll == 0
  {
    var c := Ctx(config, true, false, 0, [], 0, 0, 0, false, false, 0);
    if startupId != [] then
      if connected then
        var title := if startupTitle != [] then startupTitle else startupId;
        var sent := c.(lastGameId := CopyStr(startupId, 16), gameStartTime := now);
        (if sendResult >= 0 then sent.(lastGameUpdate := now) else sent,
         [SendGameInfo(startupId, title, 1, true, now)])
      else (c, [])
    else
      var xmb := c.(lastGameId := "XMB", gameStartTime := now);
      if connected then
        (if sendResult >= 0 then xmb.(lastGameUpdate := now) else xmb,
         [SendGameInfo("XMB", "Browsing XMB", 0, false, now)])
      else (xmb, [])
  }

  /** A new host connection starts the stats sync over. */
  function ConnectPhase(c: Ctx): (r: Ctx)
    ensures r.connectedLogged
    ensures !c.connectedLogged ==> !r.syncPending && !r.syncDone && r.lastSync == 0
    ensures c.connectedLogged ==> r == c
  {
    if c.connectedLogged then c
    else c.(connectedLogged := true, syncPending := false, syncDone := false, lastSync := 0)
  }

  /** The detector result counts when its status is 0 and its id is non-empty. */
  predicate Detected(e: Env)
  {
    e.detectResult == 0 && e.game.id != []
  }

  /** Whether the unchanged game is due to be sent again: a resend interval is set and has elapsed. */
  predicate ResendDue(c: Ctx, now: Secs)
  {
    c.config.gameUpdateIntervalMs > 0 && Since(now, c.lastGameUpdate) >= c.config.gameUpdateIntervalMs / 1000
  }

  /**
   * The game poll, when its interval has elapsed: a changed game becomes
   * the last game and is sent (in send-once mode a successful send ends the
   * loop); an unchanged one is sent again when the resend interval has
   * elapsed.  A successful send stamps the last update.
   */
  function PollPhase(c: Ctx, e: Env): (r: (Ctx, seq<Action>))
    ensures r.0.syncPending == c.syncPending && r.0.syncDone == c.syncDone && r.0.lastSync == c.lastSync
    ensures r.0.config == c.config && r.0.connectedLogged == c.connectedLogged
    ensures r.0.running != c.running ==> !r.0.running && c.config.sendOnce
  {
    if Since(e.now, c.lastPoll) < c.config.pollIntervalMs / 1000 then (c, [])
    else
      var polled := c.(lastPoll := e.now);
      if !Detected(e) then (polled, [])
      else
        var g := Normalize(e.game);
        var send := [SendGameInfo(g.id, g.title, g.state, g.hasIcon, g.startTime)];
        if polled.lastGameId != g.id then
          var changed := polled.(lastGameId := CopyStr(g.id, 16), gameStartTime := g.startTime);
          if e.gameInfoResult < 0 then (changed, send)
          else
            var sent := changed.(lastGameUpdate := e.now);
            (if c.config.sendOnce then sent.(running := false) else sent, send)
        else if ResendDue(polled, e.now) then
          (if e.gameInfoResult >= 0 then polled.(lastGameUpdate := e.now) else polled, send)
        else (polled, [])
  }

  /** The heartbeat, when its interval has elapsed. */
  function HeartbeatPhase(c: Ctx, e: Env): (r: (Ctx, seq<Action>))
    ensures r.1 != [] <==> Since(e.now, c.lastHeartbeat) >= c.config.heartbeatIntervalMs / 1000
    ensures r.1 != [] ==> r.0 == c.(lastHeartbeat := e.now) && r.1 == [SendHeartbeat(e.now)]
    ensures r.1 == [] ==> r.0 == c
  {
    if Since(e.now, c.lastHeartbeat) >= c.config.heartbeatIntervalMs / 1000 then
      (c.(lastHeartbeat := e.now), [SendHeartbeat(e.now)])
    else (c, [])
  }

  /** An icon request is served when icons are on, the id is non-empty and the icon loads. */
  function IconPhase(c: Ctx, e: Env): (r: seq<Action>)
    ensures r != [] <==> c.config.sendIcons && e.message == UsbProtocol.PKT_ICON_REQUEST as int
                         && e.requested != [] && e.iconLoaded
    ensures r != [] ==> r == [SendIcon(e.requested)]
  {
    if c.config.sendIcons && e.message == UsbProtocol.PKT_ICON_REQUEST as int && e.requested != [] && e.iconLoaded then
      [SendIcon(e.requested)]
    else []
  }

  /**
   * Whether a sync starts, as `usb_main_thread` tests it: the initial sync
   * (not done, never attempted), or a periodic one once done and five
   * minutes have passed.
   */
  predicate ShouldSyncAsWritten(c: Ctx, now: Secs)
  {
    (!c.syncDone && c.lastSync == 0)
    || (c.syncDone && Since(now, c.lastSync) >= STATS_SYNC_INTERVAL_S)
  }

  /**
   * Whether a sync starts, as the retry comment intends: the initial sync,
   * or another attempt five minutes after the last one, whether or not
   * that one completed.
   */
  predicate ShouldSync(c: Ctx, now: Secs)
  {
    (!c.syncDone && c.lastSync == 0) || Since(now, c.lastSync) >= STATS_SYNC_INTERVAL_S
  }

  /**
   * The stats sync, given whether a sync is due: when none is pending and
   * one is due, the request carries the local stamp and marks the sync
   * pending only if its send succeeded; while one is pending, the response
   * poll's 1 completes it, and -2 or any other error but -1 abandons it.
   */
  function SyncPhaseWith(c: Ctx, e: Env, due: bool): (r: (Ctx, seq<Action>))
    ensures r.0.config == c.config && r.0.running == c.running && r.0.connectedLogged == c.connectedLogged
    ensures !c.syncPending && r.0.syncPending ==> e.statsRequestResult >= 0 && r.0.lastSync == e.now
    ensures c.syncPending ==> r.1 == [] && r.0.lastSync == c.lastSync
    ensures r.0.syncDone != c.syncDone ==> c.syncPending && e.statsResponse == 1 && r.0.syncDone
    ensures (r.1 != [] <==> !c.syncPending && due) && (r.1 != [] ==> r.1 == [RequestStats(LocalTimestamp(e.usageFile))])
  {
    if !c.syncPending then
      if due then
        var request := [RequestStats(LocalTimestamp(e.usageFile))];
        if e.statsRequestResult >= 0 then (c.(syncPending := true, lastSync := e.now), request)
        else (c, request)
      else (c, [])
    else if e.statsResponse == 1 then (c.(syncPending := false, syncDone := true), [])
    else if e.statsResponse == -2 then (c.(syncPending := false), [])
    else if e.statsResponse < 0 && e.statsResponse != -1 then (c.(syncPending := false), [])
    else (c, [])
  }

  /** The stats sync as `usb_main_thread` decides it. */
  function SyncPhase(c: Ctx, e: Env): (r: (Ctx, seq<Action>))
    ensures r.0.config == c.config && r.0.running == c.running
    ensures r.1 != [] ==> !c.syncPending && ShouldSyncAsWritten(c, e.now)
  {
    SyncPhaseWith(c, e, ShouldSyncAsWritten(c, e.now))
  }

  /** The stats sync with the corrected test. */
  function SyncPhaseCorrected(c: Ctx, e: Env): (r: (Ctx, seq<Action>))
    ensures r.0.config == c.config && r.0.running == c.running
    ensures r.1 != [] ==> !c.syncPending && ShouldSync(c, e.now)
  {
    SyncPhaseWith(c, e, ShouldSync(c, e.now))
  }

  /**
   * One pass of the loop: without a host connection nothing happens but
   * forgetting the connection; otherwise the connection phase, the game
   * poll, the heartbeat, an icon request and the stats sync, in order.
   */
  function Step(c: Ctx, e: Env): (r: (Ctx, seq<Action>))
    ensures r.0.config == c.config
    ensures !e.connected ==> r == (c.(connectedLogged := false), [])
  {
    if !e.connected then (c.(connectedLogged := false), [])
    else
      var c1 := ConnectPhase(c);
      var p2 := PollPhase(c1, e);
      var p3 := HeartbeatPhase(p2.0, e);
      var a4 := IconPhase(p3.0, e);
      var p5 := SyncPhase(p3.0, e);
      (p5.0, p2.1 + p3.1 + a4 + p5.1)
  }

  /** A pass on a new connection sees the sync state reset before it decides. */
  lemma NewConnectionResetsSync(c: Ctx, e: Env)
    requires e.connected && !c.connectedLogged
    ensures var c1 := ConnectPhase(c);
      !c1.syncPending && !c1.syncDone && c1.lastSync == 0 && ShouldSync(c1, e.now)
      && ShouldSyncAsWritten(c1, e.now)
  {
  }

  /** A request goes out exactly when no sync is pending and one is due, and it carries the local stamp. */
  lemma RequestOnlyWhenDue(c: Ctx, e: Env)
    ensures var r := SyncPhase(c, e);
      (r.1 != [] <==> !c.syncPending && ShouldSyncAsWritten(c, e.now))
      && (r.1 != [] ==> r.1 == [RequestStats(LocalTimestamp(e.usageFile))])
      && (r.0.syncPending && !c.syncPending ==> r.1 != [])
    ensures var r := SyncPhaseCorrected(c, e);
      (r.1 != [] <==> !c.syncPending && ShouldSync(c, e.now))
      && (r.0.syncPending && !c.syncPending ==> r.1 != [])
  {
  }

  /** How a pending sync reacts to each response code. */
  lemma ResponseHandling(c: Ctx, e: Env)
    requires c.syncPending
    ensures var r := SyncPhase(c, e).0;
      && (e.statsResponse == 1 ==> !r.syncPending && r.syncDone)
      && (e.statsResponse == -2 ==> !r.syncPending && r.syncDone == c.syncDone)
      && (e.statsResponse < 0 && e.statsResponse != -1 ==> !r.syncPending)
      && (e.statsResponse == 0 || e.statsResponse == -1 || e.statsResponse > 1 ==> r == c)
    ensures SyncPhaseCorrected(c, e) == SyncPhase(c, e)
  {
  }

  /**
   * As written, once the initial sync has been attempted and did not
   * complete, no sync is ever started again on that connection.
   */
  lemma SyncStallsAsWritten(c: Ctx, e: Env, e2: Env)
    requires c.syncPending && !c.syncDone && c.lastSync != 0
    requires e.statsResponse == -2
    ensures var r := SyncPhase(c, e).0;
      !r.syncPending && !r.syncDone && r.lastSync == c.lastSync && SyncPhase(r, e2) == (r, [])
  {
  }

  /** The corrected step requests again once five minutes have passed since an abandoned sync. */
  lemma SyncRetriesAfterFailure(c: Ctx, e: Env, e2: Env)
    requires c.syncPending && e.statsResponse == -2
    requires Since(e2.now, c.lastSync) >= STATS_SYNC_INTERVAL_S
    ensures var r := SyncPhaseCorrected(c, e).0;
      ShouldSync(r, e2.now) && SyncPhaseCorrected(r, e2).1 == [RequestStats(LocalTimestamp(e2.usageFile))]
  {
  }

  /**
   * A concrete trace: the initial sync at second 10 is truncated; at second
   * 400 the step as written stays idle, while the corrected one requests.
   */
  lemma SyncStallExample(config: UsbConfig.Config)
    ensures var c := Ctx(config, true, true, 0, [], 0, 0, 0, true, false, 10);
      var e := Env(10, true, 0, Game([], [], 0, false, 0), 0, 0, [], false, None, 0, -2);
      var r := SyncPhase(c, e).0;
      SyncPhase(r, e.(now := 400)).1 == [] && SyncPhaseCorrected(r, e.(now := 400)).1 != []
  {
  }

  /** The corrected test agrees with the written one except on the abandoned-sync states. */
  lemma ShouldSyncExtends(c: Ctx, now: Secs)
    ensures ShouldSyncAsWritten(c, now) ==> ShouldSync(c, now)
    ensures ShouldSync(c, now) && !ShouldSyncAsWritten(c, now) ==> !c.syncDone && c.lastSync != 0
  {
  }

  /**
   * A changed game is recorded as the last game whether or not its send
   * succeeds, and the last update is stamped only after a successful send;
   * in send-once mode a successful send ends the loop.
   */
  lemma ChangedGameRecorded(c: Ctx, e: Env)
    requires Since(e.now, c.lastPoll) >= c.config.pollIntervalMs / 1000 && Detected(e)
    requires c.lastGameId != Normalize(e.game).id
    ensures var r := PollPhase(c, e);
      var g := Normalize(e.game);
      && r.0.lastGameId == CopyStr(g.id, 16)
      && r.1 == [SendGameInfo(g.id, g.title, g.state, g.hasIcon, g.startTime)]
      && (e.gameInfoResult >= 0 ==> r.0.lastGameUpdate == e.now)
      && (e.gameInfoResult < 0 ==> r.0.lastGameUpdate == c.lastGameUpdate)
      && (!r.0.running <==> !c.running || (c.config.sendOnce && e.gameInfoResult >= 0))
  {
  }

  /** An unchanged game is sent again only when the resend interval is set and has elapsed. */
  lemma ResendGating(c: Ctx, e: Env)
    requires Detected(e) && c.lastGameId == Normalize(e.game).id
    ensures PollPhase(c, e).1 != [] <==>
      Since(e.now, c.lastPoll) >= c.config.pollIntervalMs / 1000 && ResendDue(c.(lastPoll := e.now), e.now)
    ensures PollPhase(c, e).0.running == c.running
  {
  }

  /** The starting globals are those of the start-up announcement. */
  function Initial(config: UsbConfig.Config, startupId: seq<CChar>, startupTitle: seq<CChar>,
                   connected: bool, now: Secs, sendResult: int): (r: Ctx)
    ensures r.running
  {
    Startup(config, startupId, startupTitle, connected, now, sendResult).0
  }

  /** The passes from reading `i` on, stopping once the loop has ended. */
  function Run(c: Ctx, envs: seq<Env>, i: nat): (r: (Ctx, seq<Action>))
    decreases |envs| - i
  {
    if i >= |envs| || !c.running then (c, [])
    else
      var s := Step(c, envs[i]);
      var rest := Run(s.0, envs, i + 1);
      (rest.0, s.1 + rest.1)
  }

  /** The configuration never changes while the loop runs. */
  lemma {:induction false} RunKeepsConfig(c: Ctx, envs: seq<Env>, i: nat)
    ensures Run(c, envs, i).0.config == c.config
    decreases |envs| - i
  {
    if i < |envs| && c.running {
      RunKeepsConfig(Step(c, envs[i]).0, envs, i + 1);
    }
  }

  /** The thread: the globals and what it has done so far. */
  class UsbThread {
    var ctx: Ctx
    var actions: seq<Action>

    /** The globals after the start-up announcement. */
    constructor (config: UsbConfig.Config, startupId: seq<CChar>, startupTitle: seq<CChar>,
                 connected: bool, now: Secs, sendResult: int)
      ensures ctx == Startup(config, startupId, startupTitle, connected, now, sendResult).0
      ensures actions == Startup(config, startupId, startupTitle, connected, now, sendResult).1
    {
      var s := Startup(config, startupId, startupTitle, connected, now, sendResult);
      ctx := s.0;
      actions := s.1;
    }

    /** `while (g_running)`: one pass per environment reading, until the loop ends or the readings run out. */
    method Loop(envs: seq<Env>)
      modifies this`ctx, this`actions
      ensures ctx == Run(old(ctx), envs, 0).0
      ensures actions == old(actions) + Run(old(ctx), envs, 0).1
      ensures ctx.config == old(ctx).config
    {
      var c := ctx;
      var done: seq<Action> := [];
      ghost var total := Run(c, envs, 0);
      RunKeepsConfig(c, envs, 0);
      var i := 0;
      while i < |envs| && c.running
        invariant 0 <= i <= |envs| && actions == old(actions)
        invariant total.0 == Run(c, envs, i).0
        invariant total.1 == done + Run(c, envs, i).1
        decreases |envs| - i
      {
        var s := Step(c, envs[i]);
        c := s.0;
        done := done + s.1;
        i := i + 1;
      }
      assert Run(c, envs, i) == (c, []);
      assert done + [] == done;
      ctx := c;
      actions := actions + done;
    }
  }
}
