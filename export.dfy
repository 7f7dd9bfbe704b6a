/**
 * The export step of saveLastMinute (function/ffmpegFunction.js:213-290): the
 * concat-demuxer list file built from the window, and the choice between returning
 * null, failing, and writing the list and concatenating. The concatenation itself
 * is the external encoder's; whether it succeeds is an input.
 */
module Export {
  import opened Wrappers
  import opened Text
  import opened Segments

  const BUFFER_DIR: string := "/dev/shm/buffer"
  const LINE_PREFIX: string := "file '" + BUFFER_DIR + "/"

  /** `path.join(BUFFER_DIR, name)` for a name from a directory listing (which holds no '/'). */
  function SegmentPath(name: string): string {
    BUFFER_DIR + "/" + name
  }

  /** One list-file line: `file '<path>'`, backslashes in the path turned into slashes. */
  function DescriptorLine(name: string): string {
    "file '" + ReplaceChar(SegmentPath(name), '\\', '/') + "'"
  }

  function DescriptorLines(window: seq<string>): (r: seq<string>)
    ensures |r| == |window|
    ensures forall i :: 0 <= i < |window| ==> r[i] == DescriptorLine(window[i])
  {
    if |window| == 0 then [] else [DescriptorLine(window[0])] + DescriptorLines(window[1..])
  }

  /** The list file's text: the lines joined by '\n', without a trailing newline. */
  function Descriptor(window: seq<string>): string {
    Join(DescriptorLines(window), '\n')
  }

  /** The name a list-file line refers to, if it is a line of the form DescriptorLine writes. */
  function NameOfLine(line: string): Option<string> {
    if StartsWith(line, LINE_PREFIX) && |line| > |LINE_PREFIX| && line[|line| - 1] == '\'' then
      Some(line[|LINE_PREFIX|..|line| - 1])
    else None
  }

  function NamesOfLines(lines: seq<string>): Option<seq<string>> {
    if |lines| == 0 then Some([])
    else
      match (NameOfLine(lines[0]), NamesOfLines(lines[1..]))
      case (Some(n), Some(rest)) => Some([n] + rest)
      case _ => None
  }

  /**
   * The segment names a list file refers to, in order, read back as the inverse of
   * `DescriptorLine`. This is not the concat demuxer's own parser, which would treat a
   * `'` inside a name as quoting.
   */
  function ListedNames(content: string): Option<seq<string>> {
    NamesOfLines(Split(content, '\n'))
  }

  /** The directory part of a list-file line holds no backslash. */
  lemma DirectoryHasNoBackslash()
    ensures '\\' !in BUFFER_DIR + "/"
  {
    var dir := BUFFER_DIR + "/";
    assert forall i :: 0 <= i < |dir| ==> dir[i] != '\\';
  }

  lemma Associative(a: string, b: string, c: string)
    ensures a + (b + c) == a + b + c
  {
  }

  /** What lies between a prefix and a final character is read back by slicing. */
  lemma Unframe(prefix: string, middle: string, last: char)
    ensures var s := prefix + middle + [last];
      && StartsWith(s, prefix) && s[|s| - 1] == last && s[|prefix|..|s| - 1] == middle
  {
    var s := prefix + middle + [last];
    assert s[..|prefix|] == prefix;
    assert s[|prefix|..|s| - 1] == middle;
  }

  /** A name without a backslash comes back unchanged from its line. */
  lemma NameOfDescriptorLine(name: string)
    requires '\\' !in name && |name| > 0
    ensures NameOfLine(DescriptorLine(name)) == Some(name)
  {
    var path := SegmentPath(name);
    DirectoryHasNoBackslash();
    assert '\\' !in path;
    ReplaceCharFacts(path, '\\', '/');
    assert DescriptorLine(name) == "file '" + path + ['\''];
    Associative("file '", BUFFER_DIR + "/", name);
    Associative("file '", BUFFER_DIR, "/");
    Unframe(LINE_PREFIX, name, '\'');
  }

  lemma {:induction false} NamesOfDescriptorLines(window: seq<string>)
    requires forall x :: x in window ==> '\\' !in x && |x| > 0
    ensures NamesOfLines(DescriptorLines(window)) == Some(window)
  {
    if |window| > 0 {
      NameOfDescriptorLine(window[0]);
      assert DescriptorLines(window)[1..] == DescriptorLines(window[1..]);
      NamesOfDescriptorLines(window[1..]);
      assert [window[0]] + window[1..] == window;
    }
  }

  /** No line of the list file contains the line separator. */
  lemma DescriptorLineHasNoNewline(name: string)
    requires '\n' !in name
    ensures '\n' !in DescriptorLine(name)
  {
    var path := SegmentPath(name);
    assert '\n' !in BUFFER_DIR + "/";
    assert '\n' !in path;
    var replaced := ReplaceChar(path, '\\', '/');
    assert forall i :: 0 <= i < |replaced| ==> replaced[i] != '\n';
  }

  lemma DescriptorLinesHaveNoNewline(window: seq<string>)
    requires forall x :: x in window ==> '\n' !in x
    ensures forall l :: l in DescriptorLines(window) ==> '\n' !in l
  {
    var lines := DescriptorLines(window);
    forall i | 0 <= i < |lines| ensures '\n' !in lines[i] {
      DescriptorLineHasNoNewline(window[i]);
    }
  }

  /**
   * Round trip: the list file names exactly the window's segments, one per line, in
   * window order, provided no name holds a newline or a backslash.
   */
  lemma DescriptorRoundTrip(window: seq<string>)
    requires |window| > 0
    requires forall x :: x in window ==> '\n' !in x && '\\' !in x && |x| > 0
    ensures Split(Descriptor(window), '\n') == DescriptorLines(window)
    ensures ListedNames(Descriptor(window)) == Some(window)
  {
    var lines := DescriptorLines(window);
    DescriptorLinesHaveNoNewline(window);
    SplitJoin(lines, '\n');
    assert ListedNames(Descriptor(window)) == NamesOfLines(lines);
    NamesOfDescriptorLines(window);
  }

  lemma DescriptorLineEndsWithQuote(name: string)
    ensures var line := DescriptorLine(name); |line| > 0 && line[|line| - 1] == '\''
  {
    var body := "file '" + ReplaceChar(SegmentPath(name), '\\', '/');
    assert DescriptorLine(name) == body + "'";
  }

  /** The list file has no trailing newline: it ends with the closing quote of the last line. */
  lemma DescriptorEndsWithQuote(window: seq<string>)
    requires |window| > 0
    ensures EndsWith(Descriptor(window), "'")
    ensures !EndsWith(Descriptor(window), "\n")
  {
    var lines := DescriptorLines(window);
    var last := lines[|lines| - 1];
    DescriptorLineEndsWithQuote(window[|window| - 1]);
    var d := Descriptor(window);
    EndsWithLastChar(d, last);
    EndsWithChar(d, '\'');
    EndsWithChar(d, '\n');
  }

  // ---------------------------------------------------------------------------
  // Output file name

  /** `new Date().toISOString().replace(/[:.]/g, '-')`, applied to the ISO text. */
  function SanitizedStamp(iso: string): (r: string)
    ensures |r| == |iso|
    ensures ':' !in r && '.' !in r
    ensures forall i :: 0 <= i < |iso| ==> r[i] == if iso[i] == ':' || iso[i] == '.' then '-' else iso[i]
  {
    var noColon := ReplaceChar(iso, ':', '-');
    ReplaceCharFacts(iso, ':', '-');
    ReplaceCharFacts(noColon, '.', '-');
    var r := ReplaceChar(noColon, '.', '-');
    assert forall i :: 0 <= i < |r| ==> r[i] != ':';
    r
  }

  /** The output file's name inside the recordings directory. */
  function RecordingName(iso: string): string {
    "recording-" + SanitizedStamp(iso) + ".mp4"
  }

  // ---------------------------------------------------------------------------
  // The outcome

  datatype ExportError =
    | NoSegments         // empty window while not reconnecting: "Nessun segmento disponibile ..."
    | UnparsableName     // the sort comparator threw on a name without a number
    | ConcatFailed       // the encoder's concatenation reported an error

  datatype ExportResult =
    | Saved(recording: string)   // the output file name
    | Reconnecting               // `return null` while a reconnection is in progress
    | Failed(error: ExportError)

  /** The result, and the text written to the list file if one was written. */
  datatype ExportRun = ExportRun(result: ExportResult, listFile: Option<string>)

  /**
   * The end of saveLastMinute once the window is known. The list file is written
   * only for a non-empty window, and is removed again in the `finally` block on
   * every path.
   */
  function Conclude(window: Option<seq<string>>, isReconnecting: bool, concatOk: bool, iso: string)
    : (run: ExportRun)
    ensures run.listFile.Some? <==> window.Some? && |window.value| > 0
    ensures run.result == Reconnecting <==> window == Some([]) && isReconnecting
    ensures run.result == Failed(NoSegments) <==> window == Some([]) && !isReconnecting
    ensures run.result.Saved? <==> run.listFile.Some? && concatOk
    ensures run.result.Saved? ==> run.result.recording == RecordingName(iso)
    ensures run.result == Failed(UnparsableName) <==> window.None?
    ensures run.result == Failed(ConcatFailed) <==> run.listFile.Some? && !concatOk
    ensures run.listFile.Some? ==> run.listFile.value == Descriptor(window.value)
  {
    match window
    case None => ExportRun(Failed(UnparsableName), None)
    case Some(segments) =>
      if |segments| == 0 then
        if isReconnecting then ExportRun(Reconnecting, None) else ExportRun(Failed(NoSegments), None)
      else
        var content := Descriptor(segments);
        if concatOk then ExportRun(Saved(RecordingName(iso)), Some(content))
        else ExportRun(Failed(ConcatFailed), Some(content))
  }

  /**
   * End to end: whenever an export writes a list file, that file names exactly the
   * window's segments (the listed names, of segment form, tracked no earlier than
   * `now - BUFFER_DURATION_MS`), each once, sorted by segment number.
   */
  lemma ListFileNamesTheWindow(listing: seq<string>, times: map<string, int>, now: int,
                               isReconnecting: bool, concatOk: bool, iso: string)
    requires NoDuplicates(listing)
    requires forall x :: x in listing ==> '\n' !in x && '\\' !in x
    requires Conclude(LastMinuteSegments(listing, times, now), isReconnecting, concatOk, iso).listFile.Some?
    ensures var content := Conclude(LastMinuteSegments(listing, times, now), isReconnecting, concatOk, iso).listFile.value;
      exists names ::
        && ListedNames(content) == Some(names)
        && NoDuplicates(names)
        && (forall x :: x in names <==> InWindow(listing, times, now, x))
        && SortedBy(names, NumberOf)
  {
    var selected := LastMinuteSegments(listing, times, now);
    var window := selected.value;
    assert |window| > 0;
    var run := Conclude(selected, isReconnecting, concatOk, iso);
    assert run.listFile == Some(Descriptor(window));
    forall x | x in window ensures '\n' !in x && '\\' !in x && |x| > 0 {
      assert InWindow(listing, times, now, x);
      assert |x| >= |SEGMENT_PREFIX|;
    }
    DescriptorRoundTrip(window);
    assert ListedNames(run.listFile.value) == Some(window);
  }
}
