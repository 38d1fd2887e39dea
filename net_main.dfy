/**
 * The decision logic of the network plugin's main thread: one pass of its
 * loop is a step over the thread's globals, given what the calls into the
 * network layer, the game detector and the clock returned during that
 * pass.  Times are the 64-bit microsecond clock.
 */
module NetMain {
  import opened Common
  import NetConfig
  import Network
  import Protocol

  /** `CONNECT_RETRY_US`: five seconds between manual connect attempts. */
  const CONNECT_RETRY_US: nat := 5_000_000
  /** The detector is consulted at most every half second. */
  const MIN_GAME_CHECK_US: nat := 500_000

  /** The game the plugin reports: its id, state code and whether it has an icon. */
  datatype Game = Game(id: seq<Byte>, state: nat, hasIcon: bool)

  /** The id of the one game the plugin refuses to run beside. */
  const INCOMPATIBLE_GAME: seq<Byte> := [0x55, 0x4C, 0x55, 0x53, 0x31, 0x30, 0x30, 0x34, 0x36]

  /** `is_incompatible_game`: a non-empty id on the incompatibility list. */
  predicate IsIncompatibleGame(id: seq<Byte>): (b: bool)
    ensures b ==> |id| == 9
  {
    id != [] && id == INCOMPATIBLE_GAME
  }

  lemma IncompatibleOnlyListed(id: seq<Byte>)
    ensures IsIncompatibleGame(id) <==> id == INCOMPATIBLE_GAME
    ensures !IsIncompatibleGame([])
  {
  }

  /** A reading of the unsigned 64-bit microsecond clock. */
  type Micros = n: nat | n < U64_LIMIT

  /** `now - then` on the unsigned 64-bit clock. */
  function Since(now: Micros, earlier: Micros): (r: nat)
    ensures r < U64_LIMIT
    ensures earlier <= now ==> r == now - earlier
  {
    (now - earlier) % U64_LIMIT
  }

  /** The heartbeat period: the configured milliseconds, clamped to one second .. five minutes. */
  function HeartbeatPeriod(ms: nat): (r: nat)
    ensures 1_000_000 <= r <= 300_000_000
    ensures 1_000 <= ms <= 300_000 ==> r == ms * 1000
  {
    var us := ms * 1000;
    if us < 1_000_000 then 1_000_000 else if us > 300_000_000 then 300_000_000 else us
  }

  /** The game-info resend period: none when 0, otherwise clamped to one second .. one hour. */
  function ResendPeriod(ms: nat): (r: Option<nat>)
    ensures r.None? <==> ms == 0
    ensures r.Some? ==> 1_000_000 <= r.value <= 3_600_000_000
    ensures 1_000 <= ms <= 3_600_000 ==> r == Some(ms * 1000)
  {
    if ms == 0 then None
    else
      var us := ms * 1000;
      Some(if us < 1_000_000 then 1_000_000 else if us > 3_600_000_000 then 3_600_000_000 else us)
  }

  /** The detector period: the poll interval, at least half a second. */
  function GameCheckPeriod(ms: nat): (r: nat)
    ensures r >= MIN_GAME_CHECK_US && (ms * 1000 >= MIN_GAME_CHECK_US ==> r == ms * 1000)
  {
    if ms * 1000 < MIN_GAME_CHECK_US then MIN_GAME_CHECK_US else ms * 1000
  }

  /** A new detection counts as a change when its id or its state differs. */
  predicate GameChanged(current: Game, detected: Game)
  {
    detected.id != current.id || detected.state != current.state
  }

  /**
   * The icon upload outcome as `plugin_thread` tests it: success only for a
   * return value of 0.
   */
  predicate IconSentAsWritten(result: int)
  {
    result == 0
  }

  /** The icon upload outcome as the upload reports it: any non-negative result is success. */
  predicate IconSent(result: int)
  {
    result >= 0
  }

  /**
   * Whatever the sends return, an icon upload never returns 0, so the test
   * as written never records an icon as sent; the corrected test records
   * every upload whose sends all succeed.
   */
  lemma IconTestNeverPasses(gameId: seq<Byte>, icon: seq<Byte>, failures: seq<int>)
    requires |icon| < U32_LIMIT
    ensures var r := Network.Deliver(true, Network.IconFrames(gameId, icon), failures, 0).0;
      !IconSentAsWritten(r)
      && (IconSent(r) <==> r == Protocol.HEADER_SIZE + 18)
  {
    Network.IconUploadResult(gameId, icon, failures);
  }

  /** The thread's globals. */
  datatype Ctx = Ctx(
    config: NetConfig.Config,
    networkInitialized: bool,
    connected: bool,
    waitingForAck: bool,
    running: bool,
    lastHeartbeat: Micros,
    lastGameCheck: Micros,
    lastGameSend: Micros,
    lastConnectAttempt: Micros,
    initAttempts: nat,
    connectAttempts: nat,
    connectStart: Micros,
    current: Game,
    gameChanged: bool,
    lastIconId: seq<Byte>)

  /**
   * What the calls made during one pass returned: the clock, the WLAN
   * switch, `network_init` and `network_connect`, the discovery handler
   * (the desktop's address and port when a request arrived, and the result
   * of sending the response), the message poll (0, 1 for an ACK, 2 for an
   * icon request), the detector, the game-info send, the icon load and the
   * icon upload.
   */
  datatype Env = Env(
    now: Micros,
    wlanOn: bool,
    initResult: int,
    connectResult: int,
    discovered: Option<(seq<CChar>, nat)>,
    responseResult: int,
    poll: int,
    requested: seq<Byte>,
    detected: Option<Game>,
    gameInfoResult: int,
    iconLoaded: bool,
    iconResult: int)

  /** What a pass did outside the globals. */
  datatype Action =
    | ForceCleanup
    | Connect
    | Shutdown
    | ServeIcon(id: seq<Byte>)
    | SendHeartbeat
    | SendGameInfo
    | UploadIcon(id: seq<Byte>)

  /** A connect attempt: `network_connect` returning 0 or 1 leaves the plugin waiting for an ACK. */
  function Connecting(c: Ctx, e: Env): (r: Ctx)
    ensures !r.connected && r.running == c.running
    ensures r.networkInitialized == c.networkInitialized && r.config == c.config
  {
    c.(lastConnectAttempt := e.now, connectAttempts := c.connectAttempts + 1,
       connectStart := if c.connectStart == 0 then e.now else c.connectStart,
       connected := false,
       waitingForAck := if e.connectResult == 0 || e.connectResult == 1 then true else c.waitingForAck)
  }

  /** Bringing the network up when it is down and the WLAN switch is on. */
  function InitPhase(c: Ctx, e: Env): (r: (Ctx, seq<Action>))
    ensures r.0.running == c.running
    ensures LinkCoherent(c) ==> LinkCoherent(r.0)
  {
    if !c.networkInitialized && e.wlanOn then
      var tried := c.(initAttempts := c.initAttempts + 1);
      if e.initResult == 0 then (Connecting(tried.(networkInitialized := true), e), [Connect])
      else (tried, if tried.initAttempts == 1 then [ForceCleanup] else [])
    else (c, [])
  }

  /** Taking the network down when the WLAN switch is off. */
  function WlanPhase(c: Ctx, e: Env): (r: (Ctx, seq<Action>))
    ensures r.0.running == c.running && !e.wlanOn ==> !r.0.networkInitialized
    ensures LinkCoherent(c) ==> LinkCoherent(r.0)
  {
    if c.networkInitialized && !e.wlanOn then (c.(networkInitialized := false, connected := false), [Shutdown])
    else (c, [])
  }

  /**
   * A discovery request from the desktop stores the desktop's address in
   * the configuration (turning discovery off); the plugin connects only
   * when the handler reports success, that is when the response went out.
   */
  function DiscoveryPhase(c: Ctx, e: Env): (r: Ctx)
    ensures r.running == c.running && r.networkInitialized == c.networkInitialized
    ensures LinkCoherent(c) ==> LinkCoherent(r)
    ensures r.connected != c.connected ==> r.connected && e.discovered.Some? && e.responseResult >= 0
  {
    if c.networkInitialized && c.config.autoDiscovery && e.discovered.Some? then
      var wb := Network.WriteBack(c.config, e.discovered.value.0, e.discovered.value.1);
      if e.responseResult >= 0 then c.(config := wb.0, connected := true, waitingForAck := false, connectStart := 0)
      else c.(config := wb.0)
    else c
  }

  /**
   * A request whose response send fails leaves the plugin as it was but
   * with discovery turned off, so it is not connected and no later pass
   * discovers again.
   */
  lemma FailedResponseStrands(c: Ctx, e: Env)
    requires c.networkInitialized && c.config.autoDiscovery && e.discovered.Some? && e.responseResult < 0
    ensures var r := DiscoveryPhase(c, e);
      r.connected == c.connected && !r.config.autoDiscovery && DiscoveryPhase(r, e) == r
  {
  }

  /** The message poll: an ACK connects only while one is awaited; an icon request is served only when connected with icons on. */
  function PollPhase(c: Ctx, e: Env): (r: (Ctx, seq<Action>))
    ensures r.0.running == c.running && r.0.networkInitialized == c.networkInitialized
    ensures LinkCoherent(c) ==> LinkCoherent(r.0)
  {
    if !c.networkInitialized then (c, [])
    else if e.poll == 1 && c.waitingForAck then (c.(connected := true, waitingForAck := false, connectStart := 0), [])
    else if e.poll == 2 && c.connected && c.config.sendIcons then (c, if e.iconLoaded then [ServeIcon(e.requested)] else [])
    else (c, [])
  }

  /** Manual connection retries every five seconds while not connected and discovery is off. */
  function RetryPhase(c: Ctx, e: Env): (r: (Ctx, seq<Action>))
    ensures r.0.running == c.running
    ensures LinkCoherent(c) ==> LinkCoherent(r.0)
    ensures Connect in r.1 <==> c.networkInitialized && !c.connected && !c.config.autoDiscovery
                                && Since(e.now, c.lastConnectAttempt) >= CONNECT_RETRY_US
    ensures Connect in r.1 ==> r.0 == Connecting(c, e) && r.1 == [Connect]
    ensures Connect !in r.1 ==> r == (c, [])
  {
    if c.networkInitialized && !c.connected && !c.config.autoDiscovery
       && Since(e.now, c.lastConnectAttempt) >= CONNECT_RETRY_US then (Connecting(c, e), [Connect])
    else (c, [])
  }

  /** The connect timeout: fires when not connected, a start time is set, the timeout is on and has elapsed. */
  predicate TimedOut(c: Ctx, e: Env)
  {
    !c.connected && c.connectStart != 0 && c.config.connectTimeoutS > 0
    && Since(e.now, c.connectStart) >= c.config.connectTimeoutS * 1_000_000
  }

  /** The detector: when due, a detected game that differs from the current one replaces it and is marked changed. */
  function DetectPhase(c: Ctx, e: Env, startedFromUi: bool): (r: Ctx)
    ensures r.running == c.running && r.networkInitialized == c.networkInitialized
    ensures r.connected == c.connected && r.waitingForAck == c.waitingForAck && r.config == c.config
  {
    if !startedFromUi && Since(e.now, c.lastGameCheck) >= GameCheckPeriod(c.config.pollIntervalMs) then
      var checked := c.(lastGameCheck := e.now);
      if e.detected.Some? && GameChanged(c.current, e.detected.value) then
        checked.(current := e.detected.value, gameChanged := true)
      else checked
    else c
  }

  /** Whether game info is due: after a change, or when the resend period has elapsed. */
  predicate SendDue(c: Ctx, e: Env)
  {
    c.gameChanged
    || (var p := ResendPeriod(c.config.gameUpdateIntervalMs); p.Some? && Since(e.now, c.lastGameSend) >= p.value)
  }

  /** Whether an icon upload follows the game info: a changed game with an icon, icons on, not the last icon sent. */
  predicate IconDue(c: Ctx)
  {
    c.gameChanged && c.config.sendIcons && c.current.hasIcon && c.lastIconId != c.current.id
  }

  /**
   * Heartbeat and game info: the heartbeat goes out when its period has
   * elapsed; when connected and game info is due and its send succeeds,
   * the icon follows if due, the change is cleared, and in send-once mode
   * the network is shut down and the loop ends.  `recorded` is the outcome
   * of the test on the upload's result that decides whether the icon is
   * remembered as sent.
   */
  function SendPhaseWith(c: Ctx, e: Env, recorded: bool): (r: (Ctx, seq<Action>))
    ensures r.0.running != c.running ==> !r.0.running && c.networkInitialized && c.config.sendOnce
    ensures LinkCoherent(c) ==> LinkCoherent(r.0)
  {
    if !c.networkInitialized then (c, [])
    else
      var beat := Since(e.now, c.lastHeartbeat) >= HeartbeatPeriod(c.config.heartbeatIntervalMs);
      var c1 := if beat then c.(lastHeartbeat := e.now) else c;
      var a1: seq<Action> := if beat then [SendHeartbeat] else [];
      if !c1.connected || !SendDue(c1, e) then (c1, a1)
      else if e.gameInfoResult < 0 then (c1, a1 + [SendGameInfo])
      else
        var upload := IconDue(c1) && e.iconLoaded;
        var c2 := if upload && recorded then c1.(lastIconId := c1.current.id) else c1;
        var c3 := c2.(gameChanged := false, lastGameSend := e.now);
        var a2 := a1 + [SendGameInfo] + (if upload then [UploadIcon(c1.current.id)] else []);
        if c.config.sendOnce then (c3.(networkInitialized := false, connected := false, running := false), a2 + [Shutdown])
        else (c3, a2)
  }

  /** The send phase as `plugin_thread` is written: the icon counts as sent only for a result of 0. */
  function SendPhase(c: Ctx, e: Env): (r: (Ctx, seq<Action>))
    ensures r.0.running != c.running ==> !r.0.running && c.networkInitialized && c.config.sendOnce
    ensures LinkCoherent(c) ==> LinkCoherent(r.0)
    ensures r.0.lastIconId != c.lastIconId ==> e.iconResult == 0
  {
    SendPhaseWith(c, e, IconSentAsWritten(e.iconResult))
  }

  /** The send phase with the corrected test: any non-negative upload result counts as sent. */
  function SendPhaseCorrected(c: Ctx, e: Env): (r: (Ctx, seq<Action>))
    ensures r.0.running != c.running ==> !r.0.running && c.networkInitialized && c.config.sendOnce
    ensures LinkCoherent(c) ==> LinkCoherent(r.0)
    ensures r.0.lastIconId != c.lastIconId ==> IconSent(e.iconResult)
  {
    SendPhaseWith(c, e, IconSent(e.iconResult))
  }

  /** The part of a pass before the connect timeout is checked: link management and the message poll. */
  function Prelude(c: Ctx, e: Env): (r: (Ctx, seq<Action>))
    ensures r.0.running == c.running
    ensures LinkCoherent(c) ==> LinkCoherent(r.0)
  {
    var p1 := InitPhase(c, e);
    var p2 := WlanPhase(p1.0, e);
    var c3 := DiscoveryPhase(p2.0, e);
    var p4 := PollPhase(c3, e);
    var p5 := RetryPhase(p4.0, e);
    (p5.0, p1.1 + p2.1 + p4.1 + p5.1)
  }

  /** One pass of the loop: the new globals and what it did. */
  function Step(c: Ctx, e: Env, startedFromUi: bool): (r: (Ctx, seq<Action>))
    ensures LinkCoherent(c) ==> LinkCoherent(r.0)
  {
    var p5 := Prelude(c, e);
    var acts := p5.1;
    if TimedOut(p5.0, e) then
      var c6 := p5.0.(running := false);
      if c6.networkInitialized then (c6.(networkInitialized := false, connected := false), acts + [Shutdown])
      else (c6, acts)
    else
      var c7 := DetectPhase(p5.0, e, startedFromUi);
      var p8 := SendPhase(c7, e);
      (p8.0, acts + p8.1)
  }

  /** The link flags never contradict each other: connected means initialised and no longer waiting. */
  predicate LinkCoherent(c: Ctx)
  {
    (c.connected ==> c.networkInitialized && !c.waitingForAck)
  }

  /** An ACK connects the plugin only while it waits for one. */
  lemma AckConnectsOnlyWhenAwaited(c: Ctx, e: Env)
    requires c.networkInitialized && e.poll == 1
    ensures PollPhase(c, e).0.connected <==> c.waitingForAck || c.connected
    ensures c.waitingForAck ==> PollPhase(c, e).0.connected && !PollPhase(c, e).0.waitingForAck
    ensures !c.waitingForAck ==> PollPhase(c, e).0 == c
  {
  }

  /** An icon request is served only when connected with icons on. */
  lemma IconRequestServedOnlyWhenConnected(c: Ctx, e: Env)
    ensures PollPhase(c, e).1 != [] <==>
      c.networkInitialized && e.poll == 2 && !(e.poll == 1 && c.waitingForAck) && c.connected
      && c.config.sendIcons && e.iconLoaded
    ensures PollPhase(c, e).1 != [] ==> PollPhase(c, e).1 == [ServeIcon(e.requested)]
  {
  }

  /** Force cleanup follows only the first failed initialisation. */
  lemma ForceCleanupOnlyFirst(c: Ctx, e: Env)
    ensures ForceCleanup in InitPhase(c, e).1 <==>
      !c.networkInitialized && e.wlanOn && e.initResult != 0 && c.initAttempts == 0
  {
  }

  /** The connect timeout stops the loop, and only under its four conditions. */
  lemma TimeoutStops(c: Ctx, e: Env, startedFromUi: bool)
    requires c.running
    ensures var before := Prelude(c, e).0;
      var r := Step(c, e, startedFromUi).0;
      (TimedOut(before, e) ==> !r.running && !r.networkInitialized && !r.connected)
      && (!r.running ==> TimedOut(before, e) || (before.networkInitialized && before.config.sendOnce))
  {
  }

  /**
   * After game info is sent successfully in send-once mode the loop ends
   * with the network down; a failed send changes nothing but the heartbeat.
   */
  lemma SendOnceStops(c: Ctx, e: Env)
    requires c.networkInitialized && c.connected && SendDue(c.(lastHeartbeat := e.now), e) && SendDue(c, e)
    ensures var r := SendPhase(c, e).0;
      && (e.gameInfoResult >= 0 && c.config.sendOnce ==> !r.running && !r.networkInitialized && !r.gameChanged)
      && (e.gameInfoResult < 0 ==> r.gameChanged == c.gameChanged && r.lastGameSend == c.lastGameSend)
  {
  }

  /**
   * The icon follows the game info only for a changed game with an icon,
   * with icons on, when it is not the last icon sent, in both steps; with
   * the corrected test the last icon sent is updated only after a
   * successful upload.
   */
  lemma IconGating(c: Ctx, e: Env)
    ensures var r := SendPhase(c, e);
      forall id :: UploadIcon(id) in r.1 ==>
        id == c.current.id && c.gameChanged && c.config.sendIcons && c.current.hasIcon
        && c.lastIconId != c.current.id && e.gameInfoResult >= 0
    ensures var r := SendPhaseCorrected(c, e);
      && (forall id :: UploadIcon(id) in r.1 ==>
            id == c.current.id && c.gameChanged && c.config.sendIcons && c.current.hasIcon
            && c.lastIconId != c.current.id && e.gameInfoResult >= 0)
      && (r.0.lastIconId != c.lastIconId ==>
            UploadIcon(c.current.id) in r.1 && IconSent(e.iconResult) && r.0.lastIconId == c.current.id)
  {
  }

  /**
   * The gating of the send phase, whichever test records the icon: the
   * heartbeat goes out exactly when the network is up and its period has
   * elapsed, and only then is its time stamped; the game info goes out
   * exactly when the network is up, the host is connected and an update is
   * due; a successful send stamps the last send and clears the change, and
   * in send-once mode it is followed by the shutdown.
   */
  lemma SendGating(c: Ctx, e: Env, recorded: bool)
    ensures var r := SendPhaseWith(c, e, recorded);
      && (SendHeartbeat in r.1 <==>
            c.networkInitialized && Since(e.now, c.lastHeartbeat) >= HeartbeatPeriod(c.config.heartbeatIntervalMs))
      && r.0.lastHeartbeat == (if SendHeartbeat in r.1 then e.now else c.lastHeartbeat)
      && (SendGameInfo in r.1 <==> c.networkInitialized && c.connected && SendDue(c, e))
      && r.0.lastGameSend == (if SendGameInfo in r.1 && e.gameInfoResult >= 0 then e.now else c.lastGameSend)
      && (SendGameInfo in r.1 && e.gameInfoResult >= 0 ==> !r.0.gameChanged)
      && (Shutdown in r.1 <==> SendGameInfo in r.1 && e.gameInfoResult >= 0 && c.config.sendOnce)
  {
  }

  /**
   * With the corrected test, an icon whose upload succeeded is not
   * uploaded again: should the same game be marked changed once more
   * (its state changed, its id did not), no upload is due.
   */
  lemma NoRepeatUpload(c: Ctx, e: Env)
    requires UploadIcon(c.current.id) in SendPhaseCorrected(c, e).1 && IconSent(e.iconResult)
    ensures var r := SendPhaseCorrected(c, e).0;
      r.current == c.current && !IconDue(r.(gameChanged := true))
  {
  }

  /**
   * As written, an upload that returns what a successful upload returns
   * (the end marker's 23 bytes) leaves the icon unrecorded, so the same
   * game marked changed once more uploads its icon again.
   */
  lemma IconResentAsWritten(c: Ctx, e: Env)
    requires UploadIcon(c.current.id) in SendPhase(c, e).1
    requires e.iconResult == Protocol.HEADER_SIZE + 18
    ensures var r := SendPhase(c, e).0;
      r.current == c.current && IconDue(r.(gameChanged := true))
  {
  }

  /** A detection that differs in id or state replaces the current game and marks it changed; an equal one does not. */
  lemma DetectMarksChange(c: Ctx, e: Env)
    requires e.detected.Some?
    requires Since(e.now, c.lastGameCheck) >= GameCheckPeriod(c.config.pollIntervalMs)
    ensures var r := DetectPhase(c, e, false);
      && (GameChanged(c.current, e.detected.value) ==> r.current == e.detected.value && r.gameChanged)
      && (!GameChanged(c.current, e.detected.value) ==> r.current == c.current && r.gameChanged == c.gameChanged)
  {
  }

  /** The starting globals. */
  function Initial(config: NetConfig.Config, networkInitialized: bool, current: Game, changed: bool): (r: Ctx)
    ensures LinkCoherent(r) && r.running
  {
    Ctx(config, networkInitialized, false, false, true, 0, 0, 0, 0, 0, 0, 0, current, changed, [])
  }

  /** The passes from reading `i` on, stopping once the loop has ended. */
  function Run(c: Ctx, envs: seq<Env>, i: nat, startedFromUi: bool): (r: (Ctx, seq<Action>))
    decreases |envs| - i
  {
    if i >= |envs| || !c.running then (c, [])
    else
      var s := Step(c, envs[i], startedFromUi);
      var rest := Run(s.0, envs, i + 1, startedFromUi);
      (rest.0, s.1 + rest.1)
  }

  /** A pass that runs is followed by the passes from the next reading on. */
  lemma RunUnfold(c: Ctx, envs: seq<Env>, i: nat, startedFromUi: bool, s: (Ctx, seq<Action>))
    requires i < |envs| && c.running && s == Step(c, envs[i], startedFromUi)
    ensures Run(c, envs, i, startedFromUi) == (Run(s.0, envs, i + 1, startedFromUi).0, s.1 + Run(s.0, envs, i + 1, startedFromUi).1)
  {
  }

  /** Once the loop has ended or the readings have run out, no pass follows. */
  lemma RunEnded(c: Ctx, envs: seq<Env>, i: nat, startedFromUi: bool, done: seq<Action>)
    requires !(i < |envs| && c.running)
    ensures Run(c, envs, i, startedFromUi).0 == c
    ensures done + Run(c, envs, i, startedFromUi).1 == done
  {
    assert done + [] == done;
  }

  /** One pass of the loop: the globals it leaves and the actions taken up to it. */
  method Pass(c: Ctx, envs: seq<Env>, i: nat, startedFromUi: bool, done: seq<Action>) returns (c': Ctx, done': seq<Action>)
    requires i < |envs| && c.running && LinkCoherent(c)
    ensures LinkCoherent(c')
    ensures Run(c', envs, i + 1, startedFromUi).0 == Run(c, envs, i, startedFromUi).0
    ensures done' + Run(c', envs, i + 1, startedFromUi).1 == done + Run(c, envs, i, startedFromUi).1
  {
    var s := Step(c, envs[i], startedFromUi);
    RunUnfold(c, envs, i, startedFromUi, s);
    ConcatAssoc(done, s.1, Run(s.0, envs, i + 1, startedFromUi).1);
    c', done' := s.0, done + s.1;
  }

  /** The passes of `while (g_running)` over the readings, from the given globals. */
  method Passes(c0: Ctx, envs: seq<Env>, startedFromUi: bool) returns (c: Ctx, done: seq<Action>)
    requires LinkCoherent(c0)
    ensures (c, done) == Run(c0, envs, 0, startedFromUi)
    ensures LinkCoherent(c)
  {
    c, done := c0, [];
    var i := 0;
    while i < |envs| && c.running
      invariant 0 <= i <= |envs| && LinkCoherent(c)
      invariant Run(c0, envs, 0, startedFromUi).0 == Run(c, envs, i, startedFromUi).0
      invariant Run(c0, envs, 0, startedFromUi).1 == done + Run(c, envs, i, startedFromUi).1
      decreases |envs| - i
    {
      c, done := Pass(c, envs, i, startedFromUi, done);
      i := i + 1;
    }
    RunEnded(c, envs, i, startedFromUi, done);
  }

  /** The thread: the globals and the actions taken so far. */
  class PluginThread {
    const startedFromUi: bool
    var ctx: Ctx
    var actions: seq<Action>

    constructor (config: NetConfig.Config, networkInitialized: bool, startedFromUi: bool, current: Game, changed: bool)
      ensures this.startedFromUi == startedFromUi
      ensures ctx == Initial(config, networkInitialized, current, changed) && actions == []
    {
      this.startedFromUi := startedFromUi;
      ctx := Initial(config, networkInitialized, current, changed);
      actions := [];
    }

    /** `while (g_running)`: one pass per environment reading, until the loop ends or the readings run out. */
    method Loop(envs: seq<Env>)
      requires LinkCoherent(ctx)
      modifies this`ctx, this`actions
      ensures ctx == Run(old(ctx), envs, 0, startedFromUi).0
      ensures actions == old(actions) + Run(old(ctx), envs, 0, startedFromUi).1
      ensures LinkCoherent(ctx)
    {
      var c, done := Passes(ctx, envs, startedFromUi);
      ctx := c;
      actions := actions + done;
    }
  }
}
