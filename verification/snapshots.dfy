/**
 The append-only log of cost snapshots: two readers that scan its last lines from opposite ends, and
 a writer that is meant to write nothing twice on one day.
 */
module Snapshots {
  import opened Text

  /** How many lines at the end of the log the readers look at. */
  const MAX_SCAN := 2000

  datatype Field = EntityId | CapturedAt | Currency | Amount

  /** A line of the log: blank, not a JSON object, or an object. */
  datatype Line = Blank | Malformed | Loaded(payload: map<Field, string>)

  datatype Entry = Entry(entityId: string, capturedAt: string, currency: string, amount30d: string)

  datatype Actuals = Actuals(currency: string, amount30d: string)

  function Get(payload: map<Field, string>, field: Field, default: string): string {
    Strip(if field in payload then payload[field] else default)
  }

  function SnapshotFrom(payload: map<Field, string>): Option<Entry> {
    var entityId, amount := Get(payload, EntityId, ""), Get(payload, Amount, "");
    if entityId == "" || amount == "" then None
    else Some(Entry(entityId, Get(payload, CapturedAt, ""), OrElse(Get(payload, Currency, "USD"), "USD"), amount))
  }

  function ParseLine(line: Line): Option<Entry> {
    if line.Loaded? then SnapshotFrom(line.payload) else None
  }

  function LineOf(e: Entry): Line {
    Loaded(map[EntityId := e.entityId, CapturedAt := e.capturedAt, Currency := e.currency, Amount := e.amount30d])
  }

  /** What an object says under a key, if anything. */
  function Said(line: Line, field: Field): string {
    if line.Loaded? && field in line.payload then Strip(line.payload[field]) else ""
  }

  /** A line is a snapshot exactly if it says an id and an amount; the currency defaults to US dollars. */
  lemma LineIsRead(line: Line)
    ensures ParseLine(line).Some? <==> Said(line, EntityId) != "" && Said(line, Amount) != ""
    ensures ParseLine(line).Some? ==>
      ParseLine(line).value == Entry(
        Said(line, EntityId), Said(line, CapturedAt),
        if Said(line, Currency) == "" then "USD" else Said(line, Currency), Said(line, Amount))
  {
    assert Stripped("USD") && Stripped("");
  }

  function LastOf<T>(s: seq<T>, k: nat): seq<T> {
    if |s| <= k then s else s[|s| - k..]
  }

  // ----- Reading -----

  predicate IsAbout(line: Line, entityId: string) {
    ParseLine(line).Some? && ParseLine(line).value.entityId == entityId
  }

  /** The snapshots of one entity, oldest first. */
  function Matches(lines: seq<Line>, entityId: string): seq<Entry> {
    if lines == [] then []
    else
      var earlier, last := Matches(lines[..|lines| - 1], entityId), lines[|lines| - 1];
      if IsAbout(last, entityId) then earlier + [ParseLine(last).value] else earlier
  }

  function Latest(lines: seq<Line>, entityId: string): Option<Entry> {
    var matches := Matches(lines, entityId);
    if matches == [] then None else Some(matches[|matches| - 1])
  }

  function Reversed<T>(s: seq<T>): seq<T> {
    if s == [] then [] else Reversed(s[1..]) + [s[0]]
  }

  lemma {:induction false} MatchesSplit(lines: seq<Line>, more: seq<Line>, entityId: string)
    ensures Matches(lines + more, entityId) == Matches(lines, entityId) + Matches(more, entityId)
  {
    hide IsAbout;
    if more == [] {
      assert lines + more == lines;
    } else {
      var n := |more| - 1;
      assert (lines + more)[..|lines + more| - 1] == lines + more[..n];
      MatchesSplit(lines, more[..n], entityId);
    }
  }

  lemma OneMatch(line: Line, entityId: string)
    ensures Matches([line], entityId) == if IsAbout(line, entityId) then [ParseLine(line).value] else []
  {
    assert [line][..0] == [];
  }

  /** Reads backwards, stops early, and still returns exactly the last matches, oldest first. */
  method ReadEntityCostSnapshots(lines: seq<Line>, entityId: string, limit: int) returns (snapshots: seq<Entry>)
    ensures var safeLimit := if limit > 32 then 32 else if limit < 1 then 1 else limit;
      snapshots == LastOf(Matches(LastOf(lines, 2000), entityId), safeLimit)
  {
    hide ParseLine; hide Matches;
    var safeLimit := if limit > 32 then 32 else if limit < 1 then 1 else limit;
    var window := LastOf(lines, MAX_SCAN);
    ghost var all := Matches(window, entityId);
    var matches: seq<Entry> := [];
    var i := |window|;
    assert window[|window|..] == [] && Matches([], entityId) == [] by { NoMatches(entityId); }
    assert Reversed(matches) == [];
    hide Reversed;
    while i > 0
      invariant 0 <= i <= |window|
      invariant |matches| < safeLimit
      invariant Reversed(matches) == Matches(window[i..], entityId)
    {
      i := i - 1;
      var entry := ParseLine(window[i]);
      assert window[i..] == [window[i]] + window[i + 1..];
      MatchesSplit([window[i]], window[i + 1..], entityId);
      OneMatch(window[i], entityId);
      if entry.None? || entry.value.entityId != entityId {
        continue;
      }
      ReversedAppend(matches, entry.value);
      matches := matches + [entry.value];
      if |matches| >= safeLimit {
        break;
      }
    }
    assert window == window[..i] + window[i..];
    MatchesSplit(window[..i], window[i..], entityId);
    ReversedLength(matches);
    if i == 0 {
      assert window[0..] == window;
    }
    snapshots := Reversed(matches);
  }

  lemma NoMatches(entityId: string)
    ensures Matches([], entityId) == []
  {
  }

  lemma {:induction false} ReversedAppend<T>(s: seq<T>, x: T)
    ensures Reversed(s + [x]) == [x] + Reversed(s)
  {
    if s != [] {
      assert (s + [x])[1..] == s[1..] + [x];
      ReversedAppend(s[1..], x);
    }
  }

  lemma {:induction false} ReversedLength<T>(s: seq<T>)
    ensures |Reversed(s)| == |s|
  {
    if s != [] { ReversedLength(s[1..]); }
  }

  method LatestEntityCostSnapshot(lines: seq<Line>, entityId: string) returns (latest: Option<Entry>)
    ensures latest == Latest(LastOf(lines, MAX_SCAN), entityId)
  {
    hide Matches;
    var snapshots := ReadEntityCostSnapshots(lines, entityId, 1);
    latest := if snapshots == [] then None else Some(snapshots[|snapshots| - 1]);
  }

  /** One pass forwards; for every entity it agrees with the backward reader at limit one. */
  method ReadLatestCostSnapshots(lines: seq<Line>) returns (latest: map<string, Entry>)
    ensures forall id :: (if id in latest then Some(latest[id]) else None) == Latest(LastOf(lines, MAX_SCAN), id)
  {
    hide ParseLine;
    var window := LastOf(lines, MAX_SCAN);
    latest := map[];
    for i := 0 to |window|
      invariant forall id :: (if id in latest then Some(latest[id]) else None) == Latest(window[..i], id)
    {
      assert window[..i + 1][..i] == window[..i];
      var entry := ParseLine(window[i]);
      if entry.None? {
        continue;
      }
      latest := latest[entry.value.entityId := entry.value];
    }
    assert window[..|window|] == window;
  }

  // ----- Writing -----

  /** `dayOf` is the calendar date an ISO timestamp names, in the zone it is written in, if it is one. */
  predicate SameDay(dayOf: string -> Option<int>, left: string, right: string) {
    && left != "" && right != ""
    && if dayOf(left).Some? && dayOf(right).Some? then dayOf(left) == dayOf(right)
       else left[..if |left| < 10 then |left| else 10] == right[..if |right| < 10 then |right| else 10]
  }

  /** The snapshot says what a capture would write. */
  predicate UpToDate(dayOf: string -> Option<int>, e: Entry, timestamp: string, actuals: Actuals) {
    SameDay(dayOf, e.capturedAt, timestamp) && e.amount30d == actuals.amount30d && e.currency == actuals.currency
  }

  type Captures = seq<(string, Actuals)>

  function CaptureOne(
      dayOf: string -> Option<int>, lines: seq<Line>, scan: nat, id: string, actuals: Actuals, timestamp: string)
    : seq<Line>
  {
    var latest := Latest(LastOf(lines, scan), Strip(id));
    if Strip(id) == "" || (latest.Some? && UpToDate(dayOf, latest.value, timestamp, actuals)) then lines
    else lines + [LineOf(Entry(Strip(id), timestamp, actuals.currency, actuals.amount30d))]
  }

  function Captured(
      dayOf: string -> Option<int>, lines: seq<Line>, scan: nat, entries: Captures, timestamp: string): seq<Line>
  {
    if entries == [] then lines
    else
      var last := entries[|entries| - 1];
      var earlier := Captured(dayOf, lines, scan, entries[..|entries| - 1], timestamp);
      CaptureOne(dayOf, earlier, scan, last.0, last.1, timestamp)
  }

  /** The texts agree in their first ten characters, or throughout if they are shorter. */
  predicate SameStart(left: string, right: string) {
    && (|left| == |right| || (|left| >= 10 && |right| >= 10))
    && forall k | 0 <= k < 10 && k < |left| && k < |right| :: left[k] == right[k]
  }

  /** Both stamps name one date, or, if not both name a date at all, start alike. */
  predicate NameOneDay(dayOf: string -> Option<int>, left: string, right: string) {
    && left != "" && right != ""
    && (dayOf(left).Some? && dayOf(right).Some? ==> dayOf(left) == dayOf(right))
    && (dayOf(left).None? || dayOf(right).None? ==> SameStart(left, right))
  }

  lemma SameDayIff(dayOf: string -> Option<int>, left: string, right: string)
    ensures SameDay(dayOf, left, right) <==> NameOneDay(dayOf, left, right)
  {
    var l, r := left[..if |left| < 10 then |left| else 10], right[..if |right| < 10 then |right| else 10];
    assert forall k | 0 <= k < |l| :: l[k] == left[k];
    assert forall k | 0 <= k < |r| :: r[k] == right[k];
    if SameStart(left, right) {
      assert l == r;
    }
  }

  /**
   A capture appends what it was given for an entity, unless the id is blank or the snapshot shown for
   it was taken on the same day with the same amount and currency.
   */
  lemma CaptureWritesIff(
      dayOf: string -> Option<int>, lines: seq<Line>, scan: nat, id: string, actuals: Actuals, timestamp: string)
    ensures var shown := Latest(LastOf(lines, scan), Strip(id));
      CaptureOne(dayOf, lines, scan, id, actuals, timestamp) ==
      if Strip(id) == "" then lines
      else if shown.Some? && NameOneDay(dayOf, shown.value.capturedAt, timestamp)
        && shown.value.amount30d == actuals.amount30d && shown.value.currency == actuals.currency
      then lines
      else lines + [Loaded(map[EntityId := Strip(id), CapturedAt := timestamp,
                               Currency := actuals.currency, Amount := actuals.amount30d])]
  {
    hide Latest; hide LastOf; hide Strip; hide SameDay; hide NameOneDay;
    var shown := Latest(LastOf(lines, scan), Strip(id));
    if shown.Some? { SameDayIff(dayOf, shown.value.capturedAt, timestamp); }
  }

  class SnapshotFile {
    var lines: seq<Line>

    constructor ()
      ensures lines == []
    {
      lines := [];
    }

    method CaptureCostSnapshots(dayOf: string -> Option<int>, entries: Captures, capturedAt: string, now: string)
      returns (written: nat)
      modifies this
      ensures lines == Captured(dayOf, old(lines), MAX_SCAN, entries, OrElse(capturedAt, now))
      ensures |lines| == |old(lines)| + written && old(lines) <= lines
    {
      hide Strip; hide UpToDate; hide LineOf; hide Latest;
      var timestamp := OrElse(capturedAt, now);
      written := 0;
      for i := 0 to |entries|
        invariant lines == Captured(dayOf, old(lines), MAX_SCAN, entries[..i], timestamp)
        invariant |lines| == |old(lines)| + written && old(lines) <= lines
      {
        var (entityId, actuals) := entries[i];
        assert entries[..i + 1][..i] == entries[..i];
        var normalizedId := Strip(entityId);
        if normalizedId == "" {
          continue;
        }
        var latest := LatestEntityCostSnapshot(lines, normalizedId);
        if latest.Some? && UpToDate(dayOf, latest.value, timestamp, actuals) {
          continue;
        }
        lines := lines + [LineOf(Entry(normalizedId, timestamp, actuals.currency, actuals.amount30d))];
        written := written + 1;
      }
      assert entries[..|entries|] == entries;
    }
  }

  // ----- Capturing twice -----

  predicate ReadsBack(id: string, actuals: Actuals) {
    && id != "" && Stripped(id)
    && actuals.amount30d != "" && Stripped(actuals.amount30d)
    && actuals.currency != "" && Stripped(actuals.currency)
  }

  /** Entries that read back as they were written, one for each entity. */
  ghost predicate Normalised(entries: Captures, timestamp: string) {
    && timestamp != "" && Stripped(timestamp)
    && (forall i | 0 <= i < |entries| :: ReadsBack(entries[i].0, entries[i].1))
    && (forall i, j | 0 <= i < j < |entries| :: entries[i].0 != entries[j].0)
  }

  lemma WrittenReadsBack(e: Entry)
    requires e.entityId != "" && Stripped(e.entityId) && e.amount30d != "" && Stripped(e.amount30d)
    requires e.currency != "" && Stripped(e.currency) && Stripped(e.capturedAt)
    ensures ParseLine(LineOf(e)) == Some(e)
  {
    hide Clean; hide Trim;
  }

  lemma LatestAfterAppend(lines: seq<Line>, line: Line, entityId: string)
    ensures Latest(lines + [line], entityId) ==
      if IsAbout(line, entityId) then ParseLine(line) else Latest(lines, entityId)
  {
    hide ParseLine;
    assert (lines + [line])[..|lines|] == lines;
  }

  /** What the scan window still shows of an entity is its latest snapshot in the whole log. */
  lemma WindowShowsLatest(lines: seq<Line>, scan: nat, entityId: string)
    ensures var shown := Latest(LastOf(lines, scan), entityId);
      shown.Some? ==> shown == Latest(lines, entityId)
  {
    hide Matches;
    if |lines| > scan {
      var cut := |lines| - scan;
      assert lines == lines[..cut] + lines[cut..];
      MatchesSplit(lines[..cut], lines[cut..], entityId);
    }
  }

  ghost predicate AllUpToDate(dayOf: string -> Option<int>, lines: seq<Line>, entries: Captures, timestamp: string) {
    forall i | 0 <= i < |entries| ::
      var latest := Latest(lines, entries[i].0);
      latest.Some? && UpToDate(dayOf, latest.value, timestamp, entries[i].1)
  }

  /** The latest snapshot was taken on that day and says the amount and the currency. */
  lemma UpToDateIff(dayOf: string -> Option<int>, e: Entry, timestamp: string, actuals: Actuals)
    ensures UpToDate(dayOf, e, timestamp, actuals) <==>
      && NameOneDay(dayOf, e.capturedAt, timestamp)
      && e.amount30d == actuals.amount30d && e.currency == actuals.currency
  {
    hide SameDay; hide NameOneDay;
    SameDayIff(dayOf, e.capturedAt, timestamp);
  }

  lemma {:induction false} CapturedIsUpToDate(
    dayOf: string -> Option<int>, lines: seq<Line>, scan: nat, entries: Captures, timestamp: string)
    requires Normalised(entries, timestamp)
    ensures AllUpToDate(dayOf, Captured(dayOf, lines, scan, entries, timestamp), entries, timestamp)
  {
    hide Latest; hide LastOf; hide Clean; hide Trim; hide LineOf; hide ParseLine;
    if entries != [] {
      var n := |entries| - 1;
      var before := Captured(dayOf, lines, scan, entries[..n], timestamp);
      var (id, actuals) := entries[n];
      CapturedIsUpToDate(dayOf, lines, scan, entries[..n], timestamp);
      WindowShowsLatest(before, scan, id);
      var entry := Entry(id, timestamp, actuals.currency, actuals.amount30d);
      WrittenReadsBack(entry);
      var after := Captured(dayOf, lines, scan, entries, timestamp);
      hide Captured;
      forall i | 0 <= i < |entries|
        ensures var latest := Latest(after, entries[i].0);
          latest.Some? && UpToDate(dayOf, latest.value, timestamp, entries[i].1)
      {
        LatestAfterAppend(before, LineOf(entry), entries[i].0);
        if i < n { assert entries[..n][i] == entries[i]; }
      }
    }
  }

  /**
   After a capture the latest snapshot of every captured entity was taken on that day and says what
   was captured, wherever the scan window ends.
   */
  lemma CaptureBringsUpToDate(
    dayOf: string -> Option<int>, lines: seq<Line>, scan: nat, entries: Captures, timestamp: string)
    requires Normalised(entries, timestamp)
    ensures forall i | 0 <= i < |entries| ::
      var latest := Latest(Captured(dayOf, lines, scan, entries, timestamp), entries[i].0);
      && latest.Some? && NameOneDay(dayOf, latest.value.capturedAt, timestamp)
      && latest.value.amount30d == entries[i].1.amount30d && latest.value.currency == entries[i].1.currency
  {
    hide Latest; hide Captured; hide UpToDate; hide NameOneDay;
    CapturedIsUpToDate(dayOf, lines, scan, entries, timestamp);
    var lines' := Captured(dayOf, lines, scan, entries, timestamp);
    forall e, actuals
      ensures UpToDate(dayOf, e, timestamp, actuals) <==>
        && NameOneDay(dayOf, e.capturedAt, timestamp)
        && e.amount30d == actuals.amount30d && e.currency == actuals.currency
    {
      UpToDateIff(dayOf, e, timestamp, actuals);
    }
  }

  /** Every entity still has a line among those that the readers look at. */
  ghost predicate AllInWindow(lines: seq<Line>, scan: nat, entries: Captures) {
    forall i | 0 <= i < |entries| :: Latest(LastOf(lines, scan), entries[i].0).Some?
  }

  lemma {:induction false} CapturedGrows(
      dayOf: string -> Option<int>, lines: seq<Line>, scan: nat, entries: Captures, timestamp: string)
    ensures lines <= Captured(dayOf, lines, scan, entries, timestamp)
  {
    hide Latest; hide Strip; hide LineOf; hide UpToDate; hide LastOf;
    if entries != [] {
      CapturedGrows(dayOf, lines, scan, entries[..|entries| - 1], timestamp);
    }
  }

  lemma {:induction false} UpToDateWritesNothing(
    dayOf: string -> Option<int>, lines: seq<Line>, scan: nat, entries: Captures, timestamp: string)
    requires Normalised(entries, timestamp) && AllUpToDate(dayOf, lines, entries, timestamp)
    ensures Captured(dayOf, lines, scan, entries, timestamp) == lines <==> AllInWindow(lines, scan, entries)
  {
    hide Latest; hide ReadsBack; hide CaptureOne; hide UpToDate; hide LastOf;
    if entries != [] {
      var n := |entries| - 1;
      UpToDateWritesNothing(dayOf, lines, scan, entries[..n], timestamp);
      CapturedGrows(dayOf, lines, scan, entries[..n], timestamp);
      OneWritesNothing(dayOf, lines, scan, entries[n].0, entries[n].1, timestamp);
      var earlier := Captured(dayOf, lines, scan, entries[..n], timestamp);
      OneGrows(dayOf, earlier, scan, entries[n].0, entries[n].1, timestamp);
    }
  }

  lemma OneGrows(
      dayOf: string -> Option<int>, lines: seq<Line>, scan: nat, id: string, actuals: Actuals, timestamp: string)
    ensures lines <= CaptureOne(dayOf, lines, scan, id, actuals, timestamp)
  {
    hide Latest; hide LastOf; hide UpToDate; hide LineOf; hide Strip;
  }

  lemma OneWritesNothing(
      dayOf: string -> Option<int>, lines: seq<Line>, scan: nat, id: string, actuals: Actuals, timestamp: string)
    requires ReadsBack(id, actuals)
    requires Latest(lines, id).Some? && UpToDate(dayOf, Latest(lines, id).value, timestamp, actuals)
    ensures CaptureOne(dayOf, lines, scan, id, actuals, timestamp) == lines <==>
      Latest(LastOf(lines, scan), id).Some?
  {
    hide Latest; hide LineOf; hide UpToDate; hide LastOf; hide Clean;
    WindowShowsLatest(lines, scan, id);
  }

  /**
   Capturing the same entries twice at one time writes nothing the second time exactly when every one
   of them still has a line in the scan window after the first.
   */
  lemma SecondCaptureWritesNothing(
      dayOf: string -> Option<int>, lines: seq<Line>, scan: nat, entries: Captures, timestamp: string)
    requires Normalised(entries, timestamp)
    ensures var once := Captured(dayOf, lines, scan, entries, timestamp);
      && (Captured(dayOf, once, scan, entries, timestamp) == once <==> AllInWindow(once, scan, entries))
      && (|once| <= scan ==> AllInWindow(once, scan, entries))
  {
    hide Latest; hide Normalised;
    CapturedIsUpToDate(dayOf, lines, scan, entries, timestamp);
    UpToDateWritesNothing(dayOf, Captured(dayOf, lines, scan, entries, timestamp), scan, entries, timestamp);
  }

  // ----- More entities than lines scanned -----

  function Ids(lines: seq<Line>): set<string> {
    set line | line in lines && ParseLine(line).Some? :: ParseLine(line).value.entityId
  }

  lemma {:induction false} FewIds(lines: seq<Line>)
    ensures |Ids(lines)| <= |lines|
  {
    hide ParseLine;
    if lines != [] {
      var n := |lines| - 1;
      FewIds(lines[..n]);
      var last := ParseLine(lines[n]);
      var own := if last.Some? then {last.value.entityId} else {};
      assert lines == lines[..n] + [lines[n]];
      assert Ids(lines) == Ids(lines[..n]) + own;
    } else {
      assert Ids(lines) == {};
    }
  }

  lemma {:induction false} LatestIsAnId(lines: seq<Line>, entityId: string)
    ensures Latest(lines, entityId).Some? ==> entityId in Ids(lines)
  {
    hide ParseLine;
    if lines != [] {
      var n := |lines| - 1;
      assert lines == lines[..n] + [lines[n]];
      LatestIsAnId(lines[..n], entityId);
    }
  }

  lemma {:induction false} DistinctIds(entries: Captures)
    requires forall i, j | 0 <= i < j < |entries| :: entries[i].0 != entries[j].0
    ensures |set e | e in entries :: e.0| == |entries|
  {
    if entries != [] {
      var n := |entries| - 1;
      DistinctIds(entries[..n]);
      var earlier := set e | e in entries[..n] :: e.0;
      assert entries == entries[..n] + [entries[n]];
      assert (set e | e in entries :: e.0) == earlier + {entries[n].0};
      assert entries[n].0 !in earlier;
    } else {
      assert (set e | e in entries :: e.0) == {};
    }
  }

  lemma SubsetIsSmaller(small: set<string>, big: set<string>)
    requires small <= big
    ensures |small| <= |big|
  {
    assert big == small + (big - small);
  }

  /** With more entities than the readers scan lines, the second capture always writes again. */
  lemma TooManyEntities(dayOf: string -> Option<int>, lines: seq<Line>, scan: nat, entries: Captures, timestamp: string)
    requires Normalised(entries, timestamp) && |entries| > scan
    ensures var once := Captured(dayOf, lines, scan, entries, timestamp);
      Captured(dayOf, once, scan, entries, timestamp) != once
  {
    hide Latest; hide Clean; hide Ids;
    var once := Captured(dayOf, lines, scan, entries, timestamp);
    SecondCaptureWritesNothing(dayOf, lines, scan, entries, timestamp);
    if AllInWindow(once, scan, entries) {
      var window := LastOf(once, scan);
      forall i | 0 <= i < |entries| ensures entries[i].0 in Ids(window) {
        LatestIsAnId(window, entries[i].0);
      }
      DistinctIds(entries);
      FewIds(window);
      SubsetIsSmaller(set e | e in entries :: e.0, Ids(window));
      assert false;
    }
  }
}
