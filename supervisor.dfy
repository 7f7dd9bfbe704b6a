/**
 * The capture supervisor (function/ffmpegFunction.js): the module-level variables
 * as the fields of one object, and the exported operations and event handlers as
 * methods that update them in place. Each method is proved to perform the
 * transition SessionState defines for it and to keep the session invariant.
 *
 * External events are parameters: the encoder's 'start' and 'error' events are
 * methods of their own, the device probe's answer and the results of `stat` are
 * arguments, and whether the concatenation succeeds is an argument of the export.
 */
module Supervisor {
  import opened Segments
  import opened Registry
  import opened Export
  import opened SessionState

  const CLEANUP_MESSAGE: string := "Registrazione interrotta e buffer puliti."

  class Recorder {
    var isRecording: bool
    var hasProcess: bool
    var autoReconnect: bool
    var isReconnecting: bool
    var monitorActive: bool
    var reconnectPending: bool
    var restartPending: bool
    var times: map<string, int>

    ghost function State(): Session
      reads this
    {
      Session(isRecording, hasProcess, autoReconnect, isReconnecting,
              monitorActive, reconnectPending, restartPending, times)
    }

    ghost predicate Valid()
      reads this
    {
      Inv(State())
    }

    constructor ()
      ensures Valid() && State() == Initial()
    {
      isRecording, hasProcess := false, false;
      autoReconnect, isReconnecting := true, false;
      monitorActive, reconnectPending, restartPending := false, false, false;
      times := map[];
    }

    /**
     * startRecording up to the spawn. While recording it does nothing. Otherwise the
     * old registry is dropped and an encoder is spawned; its 'start' or 'error'
     * event arrives later (EncoderStarted, EncoderFailed). Waiting for the device and
     * deleting old segment files have no effect on this state.
     */
    method StartRecording() returns (outcome: StartOutcome)
      requires Valid()
      modifies this
      ensures Valid()
      ensures outcome == StartOutcomeOf(old(State()))
      ensures State() == AfterStartRequest(old(State()))
    {
      if isRecording {
        outcome := AlreadyRecording;
        return;
      }
      times := map[];
      outcome := EncoderSpawned;
    }

    /** The encoder's 'start' event. */
    method EncoderStarted()
      requires Valid()
      modifies this
      ensures Valid()
      ensures State() == AfterEncoderStart(old(State()))
    {
      hasProcess := true;
      isRecording := true;
      monitorActive := true;
    }

    /** handleDeviceDisconnection. */
    method HandleDeviceDisconnection()
      requires Valid()
      modifies this
      ensures Valid()
      ensures State() == AfterDisconnection(old(State()))
    {
      if hasProcess {
        hasProcess := false;
        isRecording := false;
      }
      times := map[];
      if autoReconnect {
        reconnectPending := true;
        isReconnecting := true;
      }
    }

    /** The encoder's 'error' event: killed, device lost, or any other failure. */
    method EncoderFailed(message: string) returns (kind: ErrorClass)
      requires Valid()
      modifies this
      ensures Valid()
      ensures kind == Classify(message)
      ensures State() == AfterEncoderError(old(State()), message)
    {
      kind := Classify(message);
      match kind
      case Killed =>
      case DeviceAccess =>
        HandleDeviceDisconnection();
      case Other =>
        isRecording := false;
        hasProcess := false;
        if autoReconnect {
          restartPending := true;
        }
    }

    /** One tick of the device-check interval. */
    method MonitorTick(deviceConnected: bool)
      requires Valid()
      modifies this
      ensures Valid()
      ensures State() == AfterMonitorTick(old(State()), deviceConnected)
    {
      if isRecording && !deviceConnected {
        HandleDeviceDisconnection();
      }
    }

    /** The restart scheduled after a non-device encoder error fires. */
    method RestartTimerFired() returns (outcome: StartOutcome)
      requires Valid() && restartPending
      modifies this
      ensures Valid()
      ensures outcome == StartOutcomeOf(old(State()))
      ensures State() == AfterRestartTimer(old(State()))
    {
      restartPending := false;
      outcome := StartRecording();
    }

    method StopRecording()
      requires Valid()
      modifies this
      ensures Valid()
      ensures State() == AfterStop(old(State()))
    {
      if hasProcess {
        hasProcess := false;
        isRecording := false;
        times := map[];
        monitorActive := false;
        reconnectPending := false;
      }
    }

    /** cleanupAndStop; deleting the segment files has no effect on this state. */
    method CleanupAndStop() returns (message: string)
      requires Valid()
      modifies this
      ensures Valid()
      ensures message == CLEANUP_MESSAGE
      ensures State() == AfterCleanup(old(State()))
    {
      autoReconnect := false;
      if hasProcess {
        hasProcess := false;
        isRecording := false;
      }
      monitorActive := false;
      reconnectPending := false;
      times := map[];
      autoReconnect := true;
      message := CLEANUP_MESSAGE;
    }

    method SetAutoReconnect(enable: bool) returns (enabled: bool)
      requires Valid()
      modifies this
      ensures Valid()
      ensures enabled == enable
      ensures State() == AfterSetAutoReconnect(old(State()), enable)
    {
      autoReconnect := enable;
      enabled := autoReconnect;
    }

    /** The top-up loop of getLastMinuteSegments over the listed segment names. */
    method TopUpTimes(segments: seq<string>, stats: map<string, int>, now: int)
      requires Valid()
      modifies this
      ensures Valid()
      ensures State() == old(State()).(times := TopUp(old(times), segments, stats, now))
    {
      var i := 0;
      while i < |segments|
        invariant 0 <= i <= |segments|
        invariant times == TopUp(old(times), segments[..i], stats, now)
        invariant State() == old(State()).(times := times)
      {
        var segment := segments[i];
        assert segments[..i + 1][..i] == segments[..i];
        if segment !in times {
          times := times[segment := if segment in stats then stats[segment] else now];
        }
        i := i + 1;
      }
      assert segments[..i] == segments;
    }

    /** The forced re-stat loop of saveLastMinute. */
    method RefreshTimes(segments: seq<string>, stats: map<string, int>, clock: int)
      requires Valid()
      modifies this
      ensures Valid()
      ensures State() == old(State()).(times := Refreshed(old(times), segments, stats, clock))
    {
      var i := 0;
      while i < |segments|
        invariant 0 <= i <= |segments|
        invariant times == Refreshed(old(times), segments[..i], stats, clock)
        invariant State() == old(State()).(times := times)
      {
        var segment := segments[i];
        assert segments[..i + 1][..i] == segments[..i];
        times := times[segment := if segment in stats then stats[segment] else clock];
        i := i + 1;
      }
      assert segments[..i] == segments;
    }

    /**
     * saveLastMinute. It does not require recording (it only logs). The registry is
     * refreshed from the listing, topped up while the window is chosen, and the
     * outcome follows from the window as `Conclude` decides it.
     */
    method SaveLastMinute(listing: seq<string>, stats: map<string, int>, clock: int, now: int,
                          iso: string, concatOk: bool) returns (run: ExportRun)
      requires Valid()
      modifies this
      ensures Valid()
      ensures State() == AfterExport(old(State()), listing, stats, clock, now)
      ensures run == Conclude(LastMinuteSegments(listing, times, now), isReconnecting, concatOk, iso)
    {
      var segments := SegmentFiles(listing);
      RefreshTimes(segments, stats, clock);
      TopUpTimes(segments, stats, now);
      var window := LastMinuteSegments(listing, times, now);
      run := Conclude(window, isReconnecting, concatOk, iso);
    }
  }
}
