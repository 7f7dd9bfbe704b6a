/**
 * Segment files and the trailing window (function/ffmpegFunction.js).
 *
 * The encoder writes `segment%03d.mp4` files into the buffer directory, wrapping
 * after 120 of them (a minute of half-second segments). The window is chosen from a directory listing:
 * names that look like segments, whose tracked creation time is no older than
 * `now - BUFFER_DURATION_MS`, sorted by the number the pattern `segment(\d+)\.mp4`
 * finds in them. Times are milliseconds; the registry maps a file name to its time.
 */
module Segments {
  import opened Wrappers
  import opened Text

  /** BUFFER_DURATION (60 s) in milliseconds, as the window's cutoff uses it. */
  const BUFFER_DURATION_MS: int := 60000
  const SEGMENT_PREFIX: string := "segment"
  const SEGMENT_SUFFIX: string := ".mp4"

  /** The name filter applied to every directory listing. */
  predicate IsSegmentName(name: string) {
    StartsWith(name, SEGMENT_PREFIX) && EndsWith(name, SEGMENT_SUFFIX)
  }

  predicate NoDuplicates<T(==)>(names: seq<T>) {
    forall i, j :: 0 <= i < j < |names| ==> names[i] != names[j]
  }

  lemma TailNoDuplicates<T>(names: seq<T>)
    requires |names| > 0
    ensures NoDuplicates(names) ==> names[0] !in names[1..] && NoDuplicates(names[1..])
  {
    if NoDuplicates(names) {
      forall i, j | 0 <= i < j < |names| - 1
        ensures names[1..][i] != names[1..][j]
      {
        assert names[1..][i] == names[i + 1];
      }
    }
  }

  /** The listing restricted to segment names, in listing order. */
  function SegmentFiles(listing: seq<string>): (r: seq<string>)
    ensures forall x :: x in r <==> x in listing && IsSegmentName(x)
    ensures NoDuplicates(listing) ==> NoDuplicates(r)
    ensures |r| <= |listing|
  {
    if |listing| == 0 then []
    else
      TailNoDuplicates(listing);
      (if IsSegmentName(listing[0]) then [listing[0]] else []) + SegmentFiles(listing[1..])
  }

  // ---------------------------------------------------------------------------
  // Decimal digits

  predicate IsDigit(c: char) {
    '0' <= c <= '9'
  }

  predicate AllDigits(s: string) {
    forall i :: 0 <= i < |s| ==> IsDigit(s[i])
  }

  function DigitValue(c: char): nat
    requires IsDigit(c)
  {
    c as int - '0' as int
  }

  function DigitChar(d: nat): (c: char)
    requires d < 10
    ensures IsDigit(c) && DigitValue(c) == d
  {
    ('0' as int + d) as char
  }

  /** The value of a string of decimal digits, leading zeros allowed: what `parseInt` gives. */
  function DecimalValue(s: string): nat
    requires AllDigits(s)
  {
    if |s| == 0 then 0 else 10 * DecimalValue(s[..|s| - 1]) + DigitValue(s[|s| - 1])
  }

  /** The shortest decimal spelling of `n`. */
  function Decimal(n: nat): (r: string)
    ensures |r| >= 1 && AllDigits(r)
    ensures DecimalValue(r) == n
  {
    if n < 10 then [DigitChar(n)]
    else
      var r := Decimal(n / 10) + [DigitChar(n % 10)];
      assert r[..|r| - 1] == Decimal(n / 10);
      r
  }

  function Zeros(k: nat): (r: string)
    ensures |r| == k && AllDigits(r)
  {
    if k == 0 then "" else Zeros(k - 1) + "0"
  }

  /** Leading zeros do not change a decimal value. */
  lemma {:induction false} LeadingZeros(k: nat, ds: string)
    requires AllDigits(ds)
    ensures AllDigits(Zeros(k) + ds)
    ensures DecimalValue(Zeros(k) + ds) == DecimalValue(ds)
  {
    var s := Zeros(k) + ds;
    assert AllDigits(s) by {
      forall i | 0 <= i < |s| ensures IsDigit(s[i]) {
        if i >= k { assert s[i] == ds[i - k]; }
      }
    }
    if |ds| == 0 {
      assert s == Zeros(k);
      if k > 0 {
        assert s[..k - 1] == Zeros(k - 1);
        LeadingZeros(k - 1, "");
        assert Zeros(k - 1) + "" == Zeros(k - 1);
      }
    } else {
      assert s[..|s| - 1] == Zeros(k) + ds[..|ds| - 1];
      LeadingZeros(k, ds[..|ds| - 1]);
    }
  }

  /** `%03d`: the decimal spelling of `n`, zero-padded to at least three digits. */
  function Padded(n: nat): (r: string)
    ensures AllDigits(r) && |r| >= 3
  {
    var d := Decimal(n);
    LeadingZeros(if |d| < 3 then 3 - |d| else 0, d);
    if |d| < 3 then Zeros(3 - |d|) + d else d
  }

  /** The file the encoder writes for segment number `n` (the pattern `segment%03d.mp4`). */
  function SegmentFileName(n: nat): string {
    SEGMENT_PREFIX + Padded(n) + SEGMENT_SUFFIX
  }

  // ---------------------------------------------------------------------------
  // Parsing the number back: `name.match(/segment(\d+)\.mp4/)[1]`, then parseInt

  /** Length of the run of digits that starts at `i`. */
  function DigitRun(s: string, i: nat): (k: nat)
    requires i <= |s|
    ensures i + k <= |s|
    ensures AllDigits(s[i..i + k])
    ensures i + k < |s| ==> !IsDigit(s[i + k])
    decreases |s| - i
  {
    if i < |s| && IsDigit(s[i]) then
      var k := DigitRun(s, i + 1);
      assert s[i..i + 1 + k] == [s[i]] + s[i + 1..i + 1 + k];
      1 + k
    else 0
  }

  /** A run of `n` digits that is not followed by a digit is the whole run. */
  lemma DigitRunIs(s: string, i: nat, n: nat)
    requires i + n <= |s| && AllDigits(s[i..i + n])
    requires i + n < |s| ==> !IsDigit(s[i + n])
    ensures DigitRun(s, i) == n
  {
    // A shorter run would stop at a digit of s[i..i + n]; a longer one would contain s[i + n].
  }

  /**
   * The regular expression matched at position `i`: "segment", one or more digits,
   * ".mp4". `\d+` is greedy and the character after a shorter run is a digit, not
   * '.', so only the longest run can be followed by ".mp4".
   */
  function MatchAt(s: string, i: nat): Option<nat>
    requires i <= |s|
  {
    if StartsWith(s[i..], SEGMENT_PREFIX) then
      var k := DigitRun(s, i + 7);
      if k > 0 && StartsWith(s[i + 7 + k..], SEGMENT_SUFFIX) then
        Some(DecimalValue(s[i + 7..i + 7 + k]))
      else None
    else None
  }

  /** The leftmost match at or after `i` (the pattern is not anchored). */
  function SearchFrom(s: string, i: nat): Option<nat>
    requires i <= |s|
    decreases |s| - i
  {
    match MatchAt(s, i)
    case Some(n) => Some(n)
    case None => if i == |s| then None else SearchFrom(s, i + 1)
  }

  /** The segment number the sort comparator extracts, or None where `match` yields null. */
  function SegmentNumber(name: string): Option<nat> {
    SearchFrom(name, 0)
  }

  /** "segment" + digits + ".mp4" parses to the value of the digits, whatever their padding. */
  lemma ParseSegmentName(ds: string)
    requires |ds| > 0 && AllDigits(ds)
    ensures SegmentNumber(SEGMENT_PREFIX + ds + SEGMENT_SUFFIX) == Some(DecimalValue(ds))
  {
    var s := SEGMENT_PREFIX + ds + SEGMENT_SUFFIX;
    var n := |ds|;
    assert StartsWith(s[0..], SEGMENT_PREFIX) by {
      Pieces(SEGMENT_PREFIX, ds, SEGMENT_SUFFIX);
      assert s[0..] == s;
    }
    assert s[7..7 + n] == ds && StartsWith(s[7 + n..], SEGMENT_SUFFIX) by {
      Pieces(SEGMENT_PREFIX, ds, SEGMENT_SUFFIX);
    }
    assert DigitRun(s, 7) == n by {
      assert s[7 + n] == s[7 + n..][0];
      DigitRunIs(s, 7, n);
    }
  }

  /** Round trip: the number parsed from the file the encoder wrote for `n` is `n`. */
  lemma SegmentNumberOfFileName(n: nat)
    ensures IsSegmentName(SegmentFileName(n))
    ensures SegmentNumber(SegmentFileName(n)) == Some(n)
  {
    var d := Decimal(n);
    LeadingZeros(if |d| < 3 then 3 - |d| else 0, d);
    ParseSegmentName(Padded(n));
    var s := SegmentFileName(n);
    assert s[..7] == SEGMENT_PREFIX;
    assert s[|s| - 4..] == SEGMENT_SUFFIX;
  }

  /** Distinct segment numbers give distinct file names. */
  lemma SegmentFileNameInjective(m: nat, n: nat)
    requires m != n
    ensures SegmentFileName(m) != SegmentFileName(n)
  {
    SegmentNumberOfFileName(m);
    SegmentNumberOfFileName(n);
  }

  // ---------------------------------------------------------------------------
  // The numeric sort

  /** Every name has a number, so the comparator never sees a null match. */
  predicate Parsable(names: seq<string>) {
    forall x :: x in names ==> SegmentNumber(x).Some?
  }

  /** The comparator's key: the parsed number (0 is never used on a name without one). */
  function NumberOf(name: string): nat {
    match SegmentNumber(name)
    case Some(n) => n
    case None => 0
  }

  /** Ascending by `key`. */
  ghost predicate SortedBy<T>(names: seq<T>, key: T -> nat) {
    forall i, j :: 0 <= i < j < |names| ==> key(names[i]) <= key(names[j])
  }

  /** `x` placed before the first name whose key is not below its own. */
  function InsertBy<T(==)>(x: T, sorted: seq<T>, key: T -> nat): (r: seq<T>)
    ensures multiset(r) == multiset(sorted) + multiset{x}
  {
    if |sorted| == 0 || key(x) <= key(sorted[0]) then
      [x] + sorted
    else
      assert sorted == [sorted[0]] + sorted[1..];
      [sorted[0]] + InsertBy(x, sorted[1..], key)
  }

  /** Equal multisets have the same members. */
  lemma SameMembers<T>(a: seq<T>, b: seq<T>, y: T)
    requires multiset(a) == multiset(b)
    ensures y in a <==> y in b
  {
    assert y in a <==> y in multiset(a);
    assert y in b <==> y in multiset(b);
  }

  lemma SortedTail<T>(s: seq<T>, key: T -> nat)
    requires |s| > 0 && SortedBy(s, key)
    ensures SortedBy(s[1..], key)
    ensures forall y :: y in s[1..] ==> key(s[0]) <= key(y)
  {
    forall i, j | 0 <= i < j < |s| - 1 ensures key(s[1..][i]) <= key(s[1..][j]) {
      assert s[1..][i] == s[i + 1] && s[1..][j] == s[j + 1];
    }
  }

  lemma {:induction false} InsertBySorted<T>(x: T, sorted: seq<T>, key: T -> nat)
    requires SortedBy(sorted, key)
    ensures SortedBy(InsertBy(x, sorted, key), key)
  {
    if |sorted| == 0 || key(x) <= key(sorted[0]) {
      var r := [x] + sorted;
      forall i, j | 0 <= i < j < |r| ensures key(r[i]) <= key(r[j]) {
        assert r[j] == sorted[j - 1];
        if i > 0 { assert r[i] == sorted[i - 1]; }
      }
    } else {
      var tail := sorted[1..];
      SortedTail(sorted, key);
      var rest := InsertBy(x, tail, key);
      InsertBySorted(x, tail, key);
      var r := [sorted[0]] + rest;
      assert InsertBy(x, sorted, key) == r;
      forall i, j | 0 <= i < j < |r| ensures key(r[i]) <= key(r[j]) {
        assert r[j] == rest[j - 1];
        if i > 0 {
          assert r[i] == rest[i - 1];
        } else {
          assert rest[j - 1] in multiset(tail) + multiset{x};
        }
      }
    }
  }

  lemma {:induction false} InsertByNoDuplicates<T>(x: T, sorted: seq<T>, key: T -> nat)
    requires NoDuplicates(sorted) && x !in sorted
    ensures NoDuplicates(InsertBy(x, sorted, key))
  {
    if |sorted| > 0 && key(x) > key(sorted[0]) {
      TailNoDuplicates(sorted);
      var rest := InsertBy(x, sorted[1..], key);
      InsertByNoDuplicates(x, sorted[1..], key);
      var r := [sorted[0]] + rest;
      forall i, j | 0 <= i < j < |r| ensures r[i] != r[j] {
        assert r[j] == rest[j - 1];
        if i > 0 {
          assert r[i] == rest[i - 1];
        } else {
          assert rest[j - 1] in multiset(sorted[1..]) + multiset{x};
        }
      }
    } else {
      var r := [x] + sorted;
      forall i, j | 0 <= i < j < |r| ensures r[i] != r[j] {
        assert r[j] == sorted[j - 1];
        if i > 0 { assert r[i] == sorted[i - 1]; }
      }
    }
  }

  /**
   * A stable sort with the comparator `key(a) - key(b)`: ascending by key, names with
   * equal keys kept in their original order (see SortKeepsOrderOfEqualKeys).
   */
  function SortBy<T(==)>(names: seq<T>, key: T -> nat): (r: seq<T>)
    ensures SortedBy(r, key)
    ensures multiset(r) == multiset(names)
    ensures NoDuplicates(names) ==> NoDuplicates(r)
  {
    if |names| == 0 then []
    else
      assert names == [names[0]] + names[1..];
      TailNoDuplicates(names);
      var rest := SortBy(names[1..], key);
      InsertBySorted(names[0], rest, key);
      if NoDuplicates(names) then
        SameMembers(rest, names[1..], names[0]);
        InsertByNoDuplicates(names[0], rest, key);
        InsertBy(names[0], rest, key)
      else
        InsertBy(names[0], rest, key)
  }

  lemma SortByMembers<T>(names: seq<T>, key: T -> nat)
    ensures forall y :: y in SortBy(names, key) <==> y in names
  {
    forall y ensures y in SortBy(names, key) <==> y in names {
      SameMembers(SortBy(names, key), names, y);
    }
  }

  /** The names of `s` whose key is `k`, in order. */
  function WithKey<T>(s: seq<T>, key: T -> nat, k: nat): seq<T> {
    if |s| == 0 then []
    else (if key(s[0]) == k then [s[0]] else []) + WithKey(s[1..], key, k)
  }

  lemma {:induction false} InsertKeepsOrder<T>(x: T, sorted: seq<T>, key: T -> nat, k: nat)
    requires SortedBy(sorted, key)
    ensures WithKey(InsertBy(x, sorted, key), key, k)
         == (if key(x) == k then [x] else []) + WithKey(sorted, key, k)
  {
    if |sorted| == 0 || key(x) <= key(sorted[0]) {
      assert ([x] + sorted)[1..] == sorted;
    } else {
      var s0, tail := sorted[0], sorted[1..];
      SortedTail(sorted, key);
      InsertKeepsOrder(x, tail, key, k);
      var rest := InsertBy(x, tail, key);
      assert InsertBy(x, sorted, key) == [s0] + rest;
      assert ([s0] + rest)[1..] == rest;
      assert WithKey([s0] + rest, key, k)
          == (if key(s0) == k then [s0] else []) + WithKey(rest, key, k);
      assert WithKey(sorted, key, k) == (if key(s0) == k then [s0] else []) + WithKey(tail, key, k);
      if key(x) == k {
        assert key(s0) != k;
      }
    }
  }

  /** Stability: among names with the same key, the sort keeps their original order. */
  lemma {:induction false} SortKeepsOrderOfEqualKeys<T>(names: seq<T>, key: T -> nat, k: nat)
    ensures WithKey(SortBy(names, key), key, k) == WithKey(names, key, k)
  {
    if |names| > 0 {
      SortKeepsOrderOfEqualKeys(names[1..], key, k);
      InsertKeepsOrder(names[0], SortBy(names[1..], key), key, k);
    }
  }

  // ---------------------------------------------------------------------------
  // The window

  /** The registry's time for `name`, 0 when untracked (`get(name) || 0`). */
  function TimeOf(times: map<string, int>, name: string): int {
    if name in times then times[name] else 0
  }

  /** Segment names whose time is at or after `cutoff`, in listing order. */
  function Recent(segments: seq<string>, times: map<string, int>, cutoff: int): (r: seq<string>)
    ensures forall x :: x in r <==> x in segments && TimeOf(times, x) >= cutoff
    ensures NoDuplicates(segments) ==> NoDuplicates(r)
    ensures |r| <= |segments|
  {
    if |segments| == 0 then []
    else
      TailNoDuplicates(segments);
      (if TimeOf(times, segments[0]) >= cutoff then [segments[0]] else []) + Recent(segments[1..], times, cutoff)
  }

  /** Which listed names the window is made of. */
  ghost predicate InWindow(listing: seq<string>, times: map<string, int>, now: int, x: string) {
    x in listing && IsSegmentName(x) && TimeOf(times, x) >= now - BUFFER_DURATION_MS
  }

  /**
   * getLastMinuteSegments after the registry top-up: the recent segments sorted by
   * number. None is the comparator's crash: with two or more names it is called on
   * every one of them, and a name the pattern does not match makes it throw; with
   * fewer than two it is never called.
   */
  function LastMinuteSegments(listing: seq<string>, times: map<string, int>, now: int)
    : (r: Option<seq<string>>)
    ensures r.Some? ==> forall x :: x in r.value <==> InWindow(listing, times, now, x)
    ensures r.Some? ==> SortedBy(r.value, NumberOf)
    ensures r.Some? && |r.value| >= 2 ==> Parsable(r.value)
    ensures r.Some? && NoDuplicates(listing) ==> NoDuplicates(r.value)
    ensures r.None? ==> exists x :: InWindow(listing, times, now, x) && SegmentNumber(x).None?
  {
    var candidates := Recent(SegmentFiles(listing), times, now - BUFFER_DURATION_MS);
    if Parsable(candidates) then
      SortByMembers(candidates, NumberOf);
      Some(SortBy(candidates, NumberOf))
    else if |candidates| <= 1 then
      assert forall x :: x in candidates ==> x == candidates[0];
      Some(candidates)
    else
      var x :| x in candidates && SegmentNumber(x).None?;
      assert InWindow(listing, times, now, x);
      None
  }

  /** A sequence holding two different values has at least two elements. */
  lemma TwoDistinct<T>(s: seq<T>, x: T, y: T)
    requires x in s && y in s && x != y
    ensures |s| >= 2
  {
    var i :| 0 <= i < |s| && s[i] == x;
    var j :| 0 <= j < |s| && s[j] == y;
    assert i != j;
  }

  /**
   * For a listing without repeated names, the window cannot be sorted exactly when it
   * holds two different names, one of which has no number.
   */
  lemma WindowFailsExactly(listing: seq<string>, times: map<string, int>, now: int)
    requires NoDuplicates(listing)
    ensures LastMinuteSegments(listing, times, now).None? <==>
      exists x, y :: InWindow(listing, times, now, x) && InWindow(listing, times, now, y)
                     && x != y && SegmentNumber(x).None?
  {
    var candidates := Recent(SegmentFiles(listing), times, now - BUFFER_DURATION_MS);
    if LastMinuteSegments(listing, times, now).None? {
      assert !Parsable(candidates) && |candidates| >= 2;
      var x :| x in candidates && SegmentNumber(x).None?;
      var y := if candidates[0] == x then candidates[1] else candidates[0];
      assert candidates[0] != candidates[1];
      assert InWindow(listing, times, now, x) && InWindow(listing, times, now, y) && x != y;
    } else {
      forall x, y | InWindow(listing, times, now, x) && InWindow(listing, times, now, y) && x != y
        ensures SegmentNumber(x).Some?
      {
        assert x in candidates && y in candidates;
        TwoDistinct(candidates, x, y);
        assert Parsable(candidates);
      }
    }
  }

  /**
   * Names with the same number (segment5.mp4 and segment005.mp4, say) keep their
   * listing order in the window. The ensures compares with `Recent(SegmentFiles(listing), ...)`,
   * and that sequence is in listing order: `SegmentFiles` and `Recent` are filters that
   * walk their input front to back and keep the elements they accept in place.
   */
  lemma WindowKeepsListingOrder(listing: seq<string>, times: map<string, int>, now: int, k: nat)
    requires LastMinuteSegments(listing, times, now).Some?
    ensures WithKey(LastMinuteSegments(listing, times, now).value, NumberOf, k)
         == WithKey(Recent(SegmentFiles(listing), times, now - BUFFER_DURATION_MS), NumberOf, k)
  {
    var candidates := Recent(SegmentFiles(listing), times, now - BUFFER_DURATION_MS);
    if Parsable(candidates) {
      SortKeepsOrderOfEqualKeys(candidates, NumberOf, k);
    }
  }

  lemma NumberOfTen()
    ensures NumberOf("segment10.mp4") == 10
  {
    assert "segment10.mp4" == SEGMENT_PREFIX + "10" + SEGMENT_SUFFIX;
    assert DecimalValue("10") == 10 by {
      assert "10"[..1] == "1";
    }
    ParseSegmentName("10");
  }

  lemma NumberOfTwo()
    ensures NumberOf("segment2.mp4") == 2
  {
    assert "segment2.mp4" == SEGMENT_PREFIX + "2" + SEGMENT_SUFFIX;
    ParseSegmentName("2");
  }

  /** The order is numeric, not by text: segment2.mp4 comes before segment10.mp4. */
  lemma NumericOrder()
    ensures SortBy(["segment10.mp4", "segment2.mp4"], NumberOf) == ["segment2.mp4", "segment10.mp4"]
  {
    var ten, two := "segment10.mp4", "segment2.mp4";
    NumberOfTen();
    NumberOfTwo();
    assert [ten, two][1..] == [two];
    assert SortBy([two], NumberOf) == InsertBy(two, [], NumberOf) == [two];
    assert InsertBy(ten, [two], NumberOf) == [two] + InsertBy(ten, [], NumberOf) == [two, ten];
  }

  /**
   * A name can pass the segment filter and still have no number: the comparator's
   * `match` gives null for it.
   */
  lemma UnnumberedSegmentName()
    ensures IsSegmentName("segment.mp4") && SegmentNumber("segment.mp4") == None
  {
    // The only "segment" in the name is at 0, and no digit follows it.
    assert DigitRun("segment.mp4", 7) == 0;
  }
}
