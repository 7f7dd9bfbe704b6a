/**
 * The segment registry (`segmentCreationTimes`, function/ffmpegFunction.js:30): a map
 * from file name to creation time in milliseconds. Two loops write into it from a
 * directory listing; their effect is specified here as functions over the listing,
 * built up one name at a time in listing order exactly as the loops visit it.
 *
 * The filesystem is a listing (the names `readdir` returns) and `stats`, the
 * modification time of every file whose `stat` succeeds; a name missing from
 * `stats` is a file whose `stat` fails.
 */
module Registry {
  import opened Segments

  /** The time a stat gives for `name`, or `fallback` when the stat fails. */
  function StatOr(stats: map<string, int>, name: string, fallback: int): int {
    if name in stats then stats[name] else fallback
  }

  /**
   * The top-up in getLastMinuteSegments, one listed name at a time in listing order:
   * a name not yet tracked gets its stat time, or `now` when the stat fails.
   */
  function TopUp(times: map<string, int>, segments: seq<string>, stats: map<string, int>, now: int)
    : map<string, int>
  {
    if |segments| == 0 then times
    else
      var before := TopUp(times, segments[..|segments| - 1], stats, now);
      var s := segments[|segments| - 1];
      if s in before then before else before[s := StatOr(stats, s, now)]
  }

  /**
   * The forced refresh in saveLastMinute, one listed name at a time: the name's time
   * is overwritten with its stat time, or `clock` when the stat fails.
   */
  function Refreshed(times: map<string, int>, segments: seq<string>, stats: map<string, int>, clock: int)
    : map<string, int>
  {
    if |segments| == 0 then times
    else
      var s := segments[|segments| - 1];
      Refreshed(times, segments[..|segments| - 1], stats, clock)[s := StatOr(stats, s, clock)]
  }

  /**
   * After the top-up every listed segment is tracked; tracked names keep their time;
   * a newly tracked name has its stat time, or `now`; no other name is added.
   */
  lemma {:induction false} TopUpSpec(times: map<string, int>, segments: seq<string>, stats: map<string, int>, now: int)
    ensures var r := TopUp(times, segments, stats, now);
      && (forall x :: x in r <==> x in times || x in segments)
      && (forall x :: x in times ==> r[x] == times[x])
      && (forall x :: x in segments && x !in times ==> r[x] == StatOr(stats, x, now))
  {
    if |segments| > 0 {
      var init := segments[..|segments| - 1];
      TopUpSpec(times, init, stats, now);
      assert forall x :: x in segments <==> x in init || x == segments[|segments| - 1];
    }
  }

  /**
   * After the refresh every listed segment carries its stat time, or `clock`; other
   * entries are untouched; no other name is added.
   */
  lemma {:induction false} RefreshedSpec(times: map<string, int>, segments: seq<string>, stats: map<string, int>, clock: int)
    ensures var r := Refreshed(times, segments, stats, clock);
      && (forall x :: x in r <==> x in times || x in segments)
      && (forall x :: x in segments ==> r[x] == StatOr(stats, x, clock))
      && (forall x :: x in times && x !in segments ==> r[x] == times[x])
  {
    if |segments| > 0 {
      var init := segments[..|segments| - 1];
      RefreshedSpec(times, init, stats, clock);
      assert forall x :: x in segments <==> x in init || x == segments[|segments| - 1];
    }
  }

  /** When every listed segment is already tracked, the top-up changes nothing. */
  lemma {:induction false} TopUpOfTracked(times: map<string, int>, segments: seq<string>, stats: map<string, int>, now: int)
    requires forall x :: x in segments ==> x in times
    ensures TopUp(times, segments, stats, now) == times
  {
    if |segments| > 0 {
      var init := segments[..|segments| - 1];
      assert forall x :: x in init ==> x in segments;
      TopUpOfTracked(times, init, stats, now);
    }
  }

  /** In saveLastMinute the top-up that follows the forced refresh adds and changes nothing. */
  lemma TopUpAfterRefresh(times: map<string, int>, segments: seq<string>, stats: map<string, int>, clock: int, now: int)
    ensures TopUp(Refreshed(times, segments, stats, clock), segments, stats, now)
         == Refreshed(times, segments, stats, clock)
  {
    RefreshedSpec(times, segments, stats, clock);
    TopUpOfTracked(Refreshed(times, segments, stats, clock), segments, stats, now);
  }

  /** The registry after both loops of saveLastMinute, over the segment names of `listing`. */
  function ExportTimes(times: map<string, int>, listing: seq<string>, stats: map<string, int>, clock: int, now: int)
    : map<string, int>
  {
    var segments := SegmentFiles(listing);
    TopUp(Refreshed(times, segments, stats, clock), segments, stats, now)
  }

  /**
   * What the export sees: every listed segment carries its stat time (or `clock`),
   * every other entry keeps its old time.
   */
  lemma ExportTimesSpec(times: map<string, int>, listing: seq<string>, stats: map<string, int>, clock: int, now: int)
    ensures var r := ExportTimes(times, listing, stats, clock, now);
      && (forall x :: x in r <==> x in times || (x in listing && IsSegmentName(x)))
      && (forall x :: x in listing && IsSegmentName(x) ==> r[x] == StatOr(stats, x, clock))
      && (forall x :: x in times && !(x in listing && IsSegmentName(x)) ==> r[x] == times[x])
  {
    RefreshedSpec(times, SegmentFiles(listing), stats, clock);
    TopUpAfterRefresh(times, SegmentFiles(listing), stats, clock, now);
  }
}
