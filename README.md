# Instant-replay capture supervisor: a Dafny model

This project models the segment-buffer bookkeeping and the recording-session state of
the capture supervisor in `function/ffmpegFunction.js`. An external encoder records the
capture device into half-second files `segment000.mp4` … `segment119.mp4` under
`/dev/shm/buffer`, wrapping round. The supervisor does three jobs:

- It keeps a registry from segment file name to creation time (ms).
- It picks the last minute of segments on demand and writes them to a concat list
  for the encoder to join into one recording.
- It tracks the session flags across encoder start, encoder errors, device loss,
  stop and cleanup.

Modules:

- `Text` (text.dfy): the string operations the code calls: `startsWith`, `endsWith`,
  `includes`, one-character `replace` and `join`. `StartsWith` and `EndsWith` are
  themselves definitions. `Includes` is proved equal to "occurs at some position" and
  `ReplaceChar` is characterised character by character. `Split` is not called by the
  code: it is the inverse the list-file round trip is stated with, and `Join` is
  characterised through it (`SplitJoin`).
- `Segments` (segments.dfy): the segment-name filter and the number parse. The parse
  is the unanchored pattern `segment(\d+)\.mp4` followed by `parseInt`. The module also
  holds the `%03d` file names, the stable numeric sort and the window selector.
- `Registry` (registry.dfy): the two loops that write the registry from a directory
  listing, specified as functions over the listing.
- `Export` (export.dfy): the concat list text, the name of the output file, and how
  saveLastMinute decides its outcome.
- `SessionState` (session.dfy): the module-level state as a value. Every event is a
  transition function, and the error classifier lives here too.
- `Supervisor` (supervisor.dfy): class `Recorder`. It holds the same state in fields
  and implements each operation as a method that updates the fields in place. Each
  method is proved to perform its `SessionState` transition and to keep the invariant
  "recording exactly while an encoder process is held, and then the device is
  watched".

The filesystem is abstracted as a listing plus a map `stats`. The listing is the
sequence of names `readdir` returns. `stats` holds the modification time of every
file whose `stat` succeeds, so a name missing from it is a failed `stat`. Clock readings
(`Date.now()`), the device probe, the encoder's events and the concat result are
parameters.

Behaviour of the code that the model follows:

- Export does not wait for a minimum number of segments or a minimum recording time.
- saveLastMinute proceeds even when not recording. It only logs.
- The window has a lower time bound (`now - 60000`) and no upper bound.
- The start guard checks only `isRecording`. A second start before the encoder's
  'start' event is not refused.
- Starting while the device is absent waits for the device before spawning the encoder.
- The restart timer scheduled after a non-device encoder error is not stored anywhere.
  Stop and cleanup do not cancel it (`restartPending` survives them).
- handleDeviceDisconnection leaves the device-check interval running (`monitorActive`
  is untouched). It sets `isReconnecting` only when automatic reconnection is on. It
  never clears `isReconnecting`.
- The registry is consulted only for listed files. An entry for a file that has gone
  from the directory never reaches the window.

The sort comparator throws when `match` finds no number in a name, for example
`segment.mp4`, which passes the name filter (`UnnumberedSegmentName`). JavaScript's
sort calls the comparator on every element once there are two or more, and never with
fewer. So `LastMinuteSegments` is `None` exactly when two or more window names include
one without a number. The export then fails.

## Model

| member | source | states |
|---|---|---|
| Segments.SegmentFiles | function/ffmpegFunction.js:394-395 | the names kept from a listing are exactly the listed names that start with `segment` and end with `.mp4`; a listing without duplicates gives a result without duplicates |
| Segments.Recent | function/ffmpegFunction.js:412-416 | keeps exactly the segments whose tracked time (0 when untracked) is at or after the cutoff, without introducing duplicates |
| Segments.LastMinuteSegments | function/ffmpegFunction.js:389-423 | the window holds exactly the listed segment names tracked no earlier than `now - 60000`, each once when the listing has no duplicates, sorted by segment number, and all numbered once there are two or more; when it is None (the comparator throws) some window name has no number |
| Segments.WindowFailsExactly | function/ffmpegFunction.js:417-422 | for a listing without repeated names, the comparator throws exactly when the window holds two different names and one of them has no number |
| Segments.SortBy | function/ffmpegFunction.js:417-422 | the sort returns a permutation of its input, ascending by the comparator's key, without duplicates when the input has none |
| Segments.SortKeepsOrderOfEqualKeys | function/ffmpegFunction.js:417-422 | the sort is stable: names with equal keys keep their original relative order |
| Segments.WindowKeepsListingOrder | function/ffmpegFunction.js:412-422 | window names with the same number (segment5.mp4, segment005.mp4) appear in listing order |
| Segments.NumericOrder | function/ffmpegFunction.js:417-422 | the order is numeric: segment2.mp4 sorts before segment10.mp4 |
| Segments.ParseSegmentName | function/ffmpegFunction.js:419-420 | `segment<digits>.mp4` parses to the value of its digits, leading zeros included |
| Segments.SegmentNumberOfFileName | function/ffmpegFunction.js:22 | round trip: the file the encoder writes for segment n (`segment%03d.mp4`) passes the name filter and parses back to n |
| Segments.SegmentFileNameInjective | function/ffmpegFunction.js:22 | distinct segment numbers give distinct file names |
| Segments.UnnumberedSegmentName | function/ffmpegFunction.js:395-420 | `segment.mp4` passes the name filter but has no number for the comparator |
| Segments.Decimal | function/ffmpegFunction.js:419-420 | the decimal spelling of n is a non-empty digit string that parses back to n |
| Segments.LeadingZeros | function/ffmpegFunction.js:419-420 | zero padding does not change the parsed value |
| Text.Includes | function/ffmpegFunction.js:165-171 | the substring test is true exactly when the pattern occurs at some position |
| Text.SplitJoin | function/ffmpegFunction.js:263-265 | splitting joined parts on the separator gives the parts back when no part holds the separator |
| Registry.TopUpSpec | function/ffmpegFunction.js:398-409 | after the top-up every listed segment is tracked; tracked entries keep their time; new ones get the stat time, or `now` when stat fails; no other key is added |
| Registry.RefreshedSpec | function/ffmpegFunction.js:243-250 | after the forced refresh every listed segment's time is its stat time, or the clock when stat fails; entries for other names are untouched |
| Registry.TopUpAfterRefresh | function/ffmpegFunction.js:243-253 | the top-up that follows the forced refresh changes nothing |
| Registry.ExportTimesSpec | function/ffmpegFunction.js:239-253 | the registry the export's window is chosen from: listed segments carry their stat time (or the clock), other entries their old time |
| Export.DescriptorRoundTrip | function/ffmpegFunction.js:263-265 | the list file has one line `file '/dev/shm/buffer/<name>'` per window segment, in window order, and, for names without a newline or backslash, reading it back gives the window |
| Export.NameOfDescriptorLine | function/ffmpegFunction.js:263-265 | a segment name without a backslash is read back unchanged from its line (backslashes would become slashes) |
| Export.DescriptorEndsWithQuote | function/ffmpegFunction.js:263-265 | the list file ends with the last line's closing quote, not with a newline |
| Export.SanitizedStamp | function/ffmpegFunction.js:218 | the output file's timestamp has every `:` and `.` turned into `-` and every other character unchanged |
| Export.Conclude | function/ffmpegFunction.js:253-280 | a window the comparator could not sort fails with that error; an empty window returns null while reconnecting and fails with "no segments" otherwise; a list file is written exactly for a non-empty window, and it holds that window's list text; the export succeeds exactly when a list was written and the concat succeeded, and then returns the `recording-<stamp>.mp4` name; it fails with the concat's error exactly when a list was written and the concat failed |
| Export.ListFileNamesTheWindow | function/ffmpegFunction.js:239-266 | for a listing without repeated names whose names hold no newline or backslash, whenever an export writes a list file, it names exactly the window's segments, each once, sorted by number |
| SessionState.Classify | function/ffmpegFunction.js:164-191 | an error is "killed" exactly when its message contains SIGKILL; otherwise it is a device error exactly when it mentions one of the four device failures; anything else is a generic failure |
| SessionState.EncoderErrorEffect | function/ffmpegFunction.js:164-191 | a SIGKILL error changes nothing; a device error drops the process, stops recording, clears the registry and starts reconnecting only if auto-reconnect is on; any other error drops the process and stops recording, and a restart is scheduled only if auto-reconnect is on |
| SessionState.StartWhileRecording | function/ffmpegFunction.js:116-120 | starting while recording spawns nothing and changes nothing |
| SessionState.SecondStartSpawnsAgain | function/ffmpegFunction.js:116-131 | a second start request before the encoder's 'start' event passes the guard and spawns another encoder; the state it leaves is the one the first request left |
| SessionState.StopEffect | function/ffmpegFunction.js:292-315 | stopping with a process clears the process, recording, registry, monitor and reconnect timer; without one it changes nothing; stopping twice is stopping once |
| SessionState.CleanupEffect | function/ffmpegFunction.js:317-361 | cleanup always ends with auto-reconnect on, an empty registry, no process, no monitor and no reconnect timer; a later stop or cleanup changes nothing |
| SessionState.ReachableStatesKeepInv | function/ffmpegFunction.js:28-34 | after any sequence of events the session records exactly while it holds an encoder process, and is then watching the device |
| Supervisor.Recorder.constructor | function/ffmpegFunction.js:28-34 | the initial state: nothing running, auto-reconnect on, empty registry |
| Supervisor.Recorder.StartRecording | function/ffmpegFunction.js:116-131 | does nothing while recording; otherwise clears the registry and spawns an encoder; keeps the invariant |
| Supervisor.Recorder.EncoderStarted | function/ffmpegFunction.js:156-163 | the start event records the process, sets recording and starts the device monitor |
| Supervisor.Recorder.EncoderFailed | function/ffmpegFunction.js:164-191 | applies the classifier's outcome as the error handler does |
| Supervisor.Recorder.HandleDeviceDisconnection | function/ffmpegFunction.js:76-113 | drops the process, clears the registry, and schedules reconnection only if auto-reconnect is on |
| Supervisor.Recorder.MonitorTick | function/ffmpegFunction.js:67-72 | a tick that finds the device gone while recording handles the disconnection; any other tick changes nothing |
| Supervisor.Recorder.RestartTimerFired | function/ffmpegFunction.js:183-187 | the restart after a generic error calls startRecording |
| Supervisor.Recorder.StopRecording | function/ffmpegFunction.js:292-315 | performs the stop transition |
| Supervisor.Recorder.CleanupAndStop | function/ffmpegFunction.js:317-361 | performs the cleanup transition and returns the success message |
| Supervisor.Recorder.SetAutoReconnect | function/ffmpegFunction.js:369-372 | sets the flag and returns its new value |
| Supervisor.Recorder.TopUpTimes | function/ffmpegFunction.js:398-409 | the loop leaves the registry equal to `TopUp` of the old one and changes nothing else |
| Supervisor.Recorder.RefreshTimes | function/ffmpegFunction.js:243-250 | the loop leaves the registry equal to `Refreshed` of the old one and changes nothing else |
| Supervisor.Recorder.SaveLastMinute | function/ffmpegFunction.js:213-290 | changes only the registry, as both loops specify, and returns the outcome `Conclude` gives for the window over the new registry |

## Left out

- Spawning and configuring the encoder and the concat run: these are calls into an external library. The encoder's 'start' and 'error' events are methods of their own, and the concat's success is a parameter.
- Waiting for the device (`waitForDevice`) and deleting segment files (`cleanupSegments`): these are polling and filesystem writes. Neither affects the modelled state.
- Supervisor.Recorder.StartRecording: the catch block of startRecording is not modelled. It cannot run, because its awaited steps never reject and the spawn promise is returned without being awaited.
- SessionState.SecondStartSpawnsAgain: the session has no field for a spawn in progress or for a second encoder process, so the model shows that a second encoder is spawned but not that the first one is left running once the second one's 'start' event replaces it.
- The reconnect timer's body: this is timer-driven. It waits for the device, restarts, clears `isReconnecting` five seconds after a successful restart, and retries disconnection handling two seconds after a failed one. The model keeps only the `reconnectPending` flag, so `isReconnecting` is never cleared in it.
- The directory watcher: this is an asynchronous callback. It sets a name's time to `Date.now()` on a rename event.
- The flush signal, the five-second sleep and the process exit and signal handlers: these are operating-system signals and timing.
- Races between callbacks, timers and awaited filesystem calls: every operation runs to completion in the model. The directory is assumed unchanged between the two listings in saveLastMinute.
- Supervisor.Recorder.RefreshTimes: the source reads `Date.now()` once per failed `stat`; the model uses one `clock` value for all of them.
- Segments.LastMinuteSegments: `parseInt` loses precision above 2^53; the model parses with unbounded integers.
- The `path.join` normalisation: names from a directory listing contain no `/`, so the join is plain concatenation.
- The recordings directory prefix of the output path: it depends on where the program is installed. The model returns only the file name.
- Floating-point `SEGMENT_DURATION`, `Math.ceil` and the wrap count of 120 segments: the model uses only the window length of 60000 ms (`BUFFER_DURATION_MS`), and no member depends on how many segment files the encoder keeps.
- `isDeviceConnected`: it is a filesystem probe, and its answer is a parameter.
- SessionState.Classify: an error with no message is not modelled. The message is always a string, although the source would throw on the device test for a missing message.
