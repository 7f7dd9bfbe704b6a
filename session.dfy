/**
 * The recording session's module-level state (function/ffmpegFunction.js:28-34) as a
 * value, and each event that changes it as a function from the state before to the
 * state after. The class Supervisor.Recorder holds the same state in fields and
 * performs these transitions in place.
 *
 * Processes, timers and intervals are represented by whether they exist:
 * `hasProcess` is `ffmpegProcess != null`, `monitorActive` is the device-check
 * interval, `reconnectPending` the reconnect timeout, `restartPending` the
 * two-second restart scheduled after an encoder error that is not about the device.
 */
module SessionState {
  import opened Text
  import opened Registry

  datatype Session = Session(
    isRecording: bool,
    hasProcess: bool,
    autoReconnect: bool,
    isReconnecting: bool,
    monitorActive: bool,
    reconnectPending: bool,
    restartPending: bool,
    times: map<string, int>)

  /** The state when the module is loaded. */
  function Initial(): Session {
    Session(false, false, true, false, false, false, false, map[])
  }

  /** A session records exactly while it owns an encoder, and is then watching the device. */
  ghost predicate Inv(s: Session) {
    s.isRecording == s.hasProcess && (s.hasProcess ==> s.monitorActive)
  }

  // ---------------------------------------------------------------------------
  // Classifying encoder errors (the 'error' handler of startRecording)

  datatype ErrorClass =
    | Killed        // the message mentions SIGKILL: the process was killed on purpose
    | DeviceAccess  // the capture device is missing or unusable
    | Other         // any other encoder failure

  const KILLED_MARKER: string := "SIGKILL"
  const DEVICE_MARKERS: seq<string> :=
    ["No such file or directory", "Connection refused", "Permission denied", "Cannot open video device"]

  /** The message mentions one of the four device failures. */
  ghost predicate MentionsDevice(message: string) {
    || Occurs(message, "No such file or directory")
    || Occurs(message, "Connection refused")
    || Occurs(message, "Permission denied")
    || Occurs(message, "Cannot open video device")
  }

  function Classify(message: string): (c: ErrorClass)
    ensures c == Killed <==> Occurs(message, KILLED_MARKER)
    ensures c == DeviceAccess <==> !Occurs(message, KILLED_MARKER) && MentionsDevice(message)
    ensures c == Other <==> !Occurs(message, KILLED_MARKER) && !MentionsDevice(message)
  {
    if Includes(message, KILLED_MARKER) then Killed
    else if Includes(message, DEVICE_MARKERS[0]) || Includes(message, DEVICE_MARKERS[1])
         || Includes(message, DEVICE_MARKERS[2]) || Includes(message, DEVICE_MARKERS[3]) then DeviceAccess
    else Other
  }

  // ---------------------------------------------------------------------------
  // Transitions

  datatype StartOutcome = AlreadyRecording | EncoderSpawned

  /** startRecording's guard: it does nothing while recording. */
  function StartOutcomeOf(s: Session): StartOutcome {
    if s.isRecording then AlreadyRecording else EncoderSpawned
  }

  /** startRecording up to the spawn: the registry is cleared before a new encoder starts. */
  function AfterStartRequest(s: Session): Session {
    if s.isRecording then s else s.(times := map[])
  }

  /** The encoder's 'start' event: the process is kept, recording is on, the device is watched. */
  function AfterEncoderStart(s: Session): Session {
    s.(hasProcess := true, isRecording := true, monitorActive := true)
  }

  /** handleDeviceDisconnection. */
  function AfterDisconnection(s: Session): Session {
    var stopped := if s.hasProcess then s.(hasProcess := false, isRecording := false) else s;
    var cleared := stopped.(times := map[]);
    if s.autoReconnect then cleared.(reconnectPending := true, isReconnecting := true) else cleared
  }

  /** The encoder's 'error' event with its message. */
  function AfterEncoderError(s: Session, message: string): Session {
    match Classify(message)
    case Killed => s
    case DeviceAccess => AfterDisconnection(s)
    case Other =>
      s.(isRecording := false, hasProcess := false, restartPending := s.restartPending || s.autoReconnect)
  }

  /** One tick of the device-check interval, with the probe's answer. */
  function AfterMonitorTick(s: Session, deviceConnected: bool): Session {
    if s.isRecording && !deviceConnected then AfterDisconnection(s) else s
  }

  /** stopRecording: everything is torn down, but only when there is a process. */
  function AfterStop(s: Session): Session {
    if s.hasProcess then
      s.(hasProcess := false, isRecording := false, times := map[], monitorActive := false, reconnectPending := false)
    else s
  }

  /**
   * cleanupAndStop: automatic reconnection is switched off for the duration of the
   * call and back on at its end; the rest is torn down whether or not there is a process.
   */
  function AfterCleanup(s: Session): Session {
    var suspended := s.(autoReconnect := false);
    var stopped := if suspended.hasProcess then suspended.(hasProcess := false, isRecording := false) else suspended;
    stopped.(monitorActive := false, reconnectPending := false, times := map[], autoReconnect := true)
  }

  function AfterSetAutoReconnect(s: Session, enable: bool): Session {
    s.(autoReconnect := enable)
  }

  /** The restart timer fires and calls startRecording. */
  function AfterRestartTimer(s: Session): Session {
    AfterStartRequest(s.(restartPending := false))
  }

  /** saveLastMinute: only the registry changes. */
  function AfterExport(s: Session, listing: seq<string>, stats: map<string, int>, clock: int, now: int): Session {
    s.(times := ExportTimes(s.times, listing, stats, clock, now))
  }

  // ---------------------------------------------------------------------------
  // Runs of events

  datatype Event =
    | StartRequested
    | EncoderStarted
    | EncoderError(message: string)
    | MonitorTick(deviceConnected: bool)
    | StopRequested
    | CleanupRequested
    | AutoReconnectSet(enable: bool)
    | RestartTimerFired
    | ExportRequested(listing: seq<string>, stats: map<string, int>, clock: int, now: int)

  function Step(s: Session, e: Event): Session {
    match e
    case StartRequested => AfterStartRequest(s)
    case EncoderStarted => AfterEncoderStart(s)
    case EncoderError(message) => AfterEncoderError(s, message)
    case MonitorTick(connected) => AfterMonitorTick(s, connected)
    case StopRequested => AfterStop(s)
    case CleanupRequested => AfterCleanup(s)
    case AutoReconnectSet(enable) => AfterSetAutoReconnect(s, enable)
    case RestartTimerFired => AfterRestartTimer(s)
    case ExportRequested(listing, stats, clock, now) => AfterExport(s, listing, stats, clock, now)
  }

  function Run(s: Session, events: seq<Event>): Session
    decreases |events|
  {
    if |events| == 0 then s else Run(Step(s, events[0]), events[1..])
  }

  // ---------------------------------------------------------------------------
  // Properties

  lemma StepKeepsInv(s: Session, e: Event)
    requires Inv(s)
    ensures Inv(Step(s, e))
  {
  }

  /** Every state reachable from the initial one records exactly while it owns an encoder. */
  lemma {:induction false} ReachableStatesKeepInv(s: Session, events: seq<Event>)
    requires Inv(s)
    ensures Inv(Run(s, events))
    decreases |events|
  {
    if |events| > 0 {
      StepKeepsInv(s, events[0]);
      ReachableStatesKeepInv(Step(s, events[0]), events[1..]);
    }
  }

  /** Starting while recording changes nothing and spawns nothing. */
  lemma StartWhileRecording(s: Session)
    requires s.isRecording
    ensures StartOutcomeOf(s) == AlreadyRecording && AfterStartRequest(s) == s
  {
  }

  /**
   * The guard tests only `isRecording`, which the encoder's 'start' event sets: a second
   * start request before that event spawns a second encoder, though it clears nothing
   * more than the first one did.
   */
  lemma SecondStartSpawnsAgain(s: Session)
    ensures !s.isRecording ==> StartOutcomeOf(AfterStartRequest(s)) == EncoderSpawned
    ensures AfterStartRequest(AfterStartRequest(s)) == AfterStartRequest(s)
  {
  }

  /** The error classifier's three outcomes, as the handler acts on them. */
  lemma EncoderErrorEffect(s: Session, message: string)
    requires Inv(s)
    ensures Occurs(message, KILLED_MARKER) ==> AfterEncoderError(s, message) == s
    ensures !Occurs(message, KILLED_MARKER) && MentionsDevice(message) ==>
      var t := AfterEncoderError(s, message);
      && !t.hasProcess && !t.isRecording && t.times == map[]
      && t.isReconnecting == (s.isReconnecting || s.autoReconnect)
      && t.reconnectPending == (s.reconnectPending || s.autoReconnect)
      && t.autoReconnect == s.autoReconnect && t.monitorActive == s.monitorActive
    ensures !Occurs(message, KILLED_MARKER) && !MentionsDevice(message) ==>
      var t := AfterEncoderError(s, message);
      && !t.hasProcess && !t.isRecording && t.times == s.times
      && t.restartPending == (s.restartPending || s.autoReconnect)
      && t.isReconnecting == s.isReconnecting && t.reconnectPending == s.reconnectPending
  {
  }

  /** stopRecording with a process tears everything down; without one it changes nothing. */
  lemma StopEffect(s: Session)
    ensures s.hasProcess ==>
      var t := AfterStop(s);
      && !t.hasProcess && !t.isRecording && t.times == map[] && !t.monitorActive && !t.reconnectPending
    ensures !s.hasProcess ==> AfterStop(s) == s
    ensures AfterStop(AfterStop(s)) == AfterStop(s)
  {
  }

  /** cleanupAndStop always ends with reconnection enabled, an empty registry and nothing running. */
  lemma CleanupEffect(s: Session)
    requires Inv(s)
    ensures var t := AfterCleanup(s);
      && t.autoReconnect && t.times == map[] && !t.hasProcess && !t.isRecording
      && !t.monitorActive && !t.reconnectPending
      && AfterStop(t) == t && AfterCleanup(t) == t
  {
  }
}
