/**
 Attributing the rows of a FinOps FOCUS export to catalog entities, and exactly when no row is billed twice.
 */
module Focus {
  import opened Text

  const SECONDS_PER_DAY := 86400

  /** Tags are a dictionary in its iteration order. */
  datatype FocusRow = FocusRow(
    billedCost: real,
    currency: string,
    periodStart: Option<int>,
    periodEnd: Option<int>,
    serviceName: string,
    tags: seq<(string, string)>)

  datatype Entity = Entity(owner: string, displayName: string)

  datatype Coverage = Complete | Partial | Missing

  /** `caseFold` and `lower` are Python's; of the first only `FoldsCase` is used, of the second nothing. */
  datatype FocusConfig = FocusConfig(
    tagKeyOwner: string,
    tagKeyService: string,
    lookbackDays: int,
    currency: string,
    caseFold: string -> string,
    lower: string -> string)

  /** Case folding never maps a non-empty text to the empty one, nor the empty one to another. */
  ghost predicate FoldsCase(caseFold: string -> string) {
    forall s :: caseFold(s) == "" <==> s == ""
  }

  function CoverageOf(e: Entity): Coverage {
    if Strip(e.owner) != "" && Strip(e.displayName) != "" then Complete
    else if Strip(e.owner) != "" || Strip(e.displayName) != "" then Partial
    else Missing
  }

  function TagAt(tags: seq<(string, string)>, key: string): string {
    if tags == [] then "" else if tags[0].0 == key then tags[0].1 else TagAt(tags[1..], key)
  }

  function FirstCaseMatch(tags: seq<(string, string)>, lower: string -> string, key: string): string {
    if tags == [] then ""
    else if lower(tags[0].0) == lower(key) then Strip(tags[0].1)
    else FirstCaseMatch(tags[1..], lower, key)
  }

  function TagValue(tags: seq<(string, string)>, lower: string -> string, key: string): string {
    if key == "" then ""
    else if Strip(TagAt(tags, key)) != "" then Strip(TagAt(tags, key))
    else FirstCaseMatch(tags, lower, key)
  }

  predicate SameText(config: FocusConfig, s: string, t: string) {
    config.caseFold(s) == config.caseFold(t)
  }

  predicate RowMatchesEntity(row: FocusRow, e: Entity, config: FocusConfig, coverage: Coverage) {
    var owner, service := Strip(e.owner), Strip(e.displayName);
    var tagOwner := TagValue(row.tags, config.lower, config.tagKeyOwner);
    var tagService := TagValue(row.tags, config.lower, config.tagKeyService);
    var serviceNameMatch := service != "" && SameText(config, row.serviceName, service);
    match coverage
    case Complete =>
      && owner != "" && SameText(config, tagOwner, owner)
      && ((service != "" && SameText(config, tagService, service)) || (serviceNameMatch && tagService == ""))
    case Partial =>
      || (owner != "" && SameText(config, tagOwner, owner))
      || (service != "" && (SameText(config, tagService, service) || serviceNameMatch))
    case Missing => false
  }

  function OrAlso<T>(first: Option<T>, second: Option<T>): Option<T> {
    if first.Some? then first else second
  }

  predicate RowInLookback(row: FocusRow, lookbackDays: int, now: int) {
    var anchor := OrAlso(row.periodStart, row.periodEnd);
    lookbackDays <= 0 || anchor.None? || anchor.value >= now - SECONDS_PER_DAY * lookbackDays
  }

  /** The row counts towards the entity. */
  predicate Claims(row: FocusRow, e: Entity, config: FocusConfig, now: int) {
    RowInLookback(row, config.lookbackDays, now) && RowMatchesEntity(row, e, config, CoverageOf(e))
  }

  // ----- Totals -----

  function ClaimedRows(rows: seq<FocusRow>, e: Entity, config: FocusConfig, now: int): seq<FocusRow> {
    if rows == [] then []
    else
      var earlier, last := ClaimedRows(rows[..|rows| - 1], e, config, now), rows[|rows| - 1];
      if Claims(last, e, config, now) then earlier + [last] else earlier
  }

  function Total(rows: seq<FocusRow>): real {
    if rows == [] then 0.0 else Total(rows[..|rows| - 1]) + rows[|rows| - 1].billedCost
  }

  datatype Summary = Summary(currency: string, amount: real, asOf: int, matched: nat, coverage: Coverage)

  /** The currency of the last row that names one. */
  ghost predicate IsCurrencyOf(currency: string, rows: seq<FocusRow>, default: string) {
    || (currency == default && forall r | r in rows :: r.currency == "")
    || (exists i | 0 <= i < |rows| ::
          currency == rows[i].currency != "" && forall j | i < j < |rows| :: rows[j].currency == "")
  }

  function EndOf(row: FocusRow): Option<int> { OrAlso(row.periodEnd, row.periodStart) }

  /** The period ends then, or starts then and has no end. */
  predicate EndsAt(row: FocusRow, time: int) {
    row.periodEnd == Some(time) || (row.periodEnd.None? && row.periodStart == Some(time))
  }

  /** The latest end among the rows, if any of them has one. */
  ghost predicate IsLatestEnd(latest: Option<int>, rows: seq<FocusRow>) {
    && (latest.Some? ==> exists r | r in rows :: EndsAt(r, latest.value))
    && (forall r, time | r in rows && EndsAt(r, time) :: latest.Some? && time <= latest.value)
  }

  /** There is a summary unless nothing is claimed, and it is about exactly the claimed rows. */
  ghost predicate IsSummaryOf(
      summary: Option<Summary>, claimed: seq<FocusRow>, coverage: Coverage, default: string, now: int)
  {
    && (summary.None? <==> claimed == [])
    && (summary.Some? ==>
          && summary.value.amount == Total(claimed)
          && summary.value.matched == |claimed|
          && summary.value.coverage == coverage
          && IsCurrencyOf(summary.value.currency, claimed, default)
          && exists latest :: IsLatestEnd(latest, claimed) && summary.value.asOf == OrAlso(latest, Some(now)).value)
  }

  /** One pass over the export. */
  method AggregateFocusActuals(rows: seq<FocusRow>, e: Entity, config: FocusConfig, now: int)
    returns (summary: Option<Summary>)
    ensures IsSummaryOf(summary, ClaimedRows(rows, e, config, now), CoverageOf(e),
                        OrElse(Strip(config.currency), "USD"), now)
  {
    hide Strip; hide RowMatchesEntity; hide TagValue; hide EndOf; hide EndsAt; hide CoverageOf; hide RowInLookback;
    hide IsTally; hide ClaimedRows; hide IsCurrencyOf; hide IsLatestEnd; hide Total; hide Claims; hide OrElse;
    var coverage := CoverageOf(e);
    if coverage == Missing {
      NothingIsClaimed(rows, e, config, now);
      return None;
    }
    var amount, matched := 0.0, 0;
    var currency := OrElse(Strip(config.currency), "USD");
    ghost var default := currency;
    var latestEnd: Option<int> := None;
    NothingTallied(rows, e, config, now, default);
    for i := 0 to |rows|
      invariant IsTally(ClaimedRows(rows[..i], e, config, now), amount, matched, currency, latestEnd, default)
    {
      var row := rows[i];
      ghost var claimed := ClaimedRows(rows[..i], e, config, now);
      ClaimedNext(rows, i, e, config, now);
      if !RowInLookback(row, config.lookbackDays, now) {
        continue;
      }
      if !RowMatchesEntity(row, e, config, coverage) {
        continue;
      }
      OneMoreRow(claimed, row, amount, matched, currency, latestEnd, default);
      amount := amount + row.billedCost;
      matched := matched + 1;
      if row.currency != "" {
        currency := row.currency;
      }
      var anchor := EndOf(row);
      if anchor.Some? && (latestEnd.None? || anchor.value > latestEnd.value) {
        latestEnd := anchor;
      }
    }
    assert rows[..|rows|] == rows;
    TallySays(ClaimedRows(rows, e, config, now), amount, matched, currency, latestEnd, default, coverage, now);
    if matched == 0 {
      return None;
    }
    summary := Some(Summary(currency, amount, OrAlso(latestEnd, Some(now)).value, matched, coverage));
  }

  lemma ClaimedNext(rows: seq<FocusRow>, i: nat, e: Entity, config: FocusConfig, now: int)
    requires i < |rows|
    ensures var earlier := ClaimedRows(rows[..i], e, config, now);
      ClaimedRows(rows[..i + 1], e, config, now) ==
      if RowInLookback(rows[i], config.lookbackDays, now) && RowMatchesEntity(rows[i], e, config, CoverageOf(e))
      then earlier + [rows[i]] else earlier
  {
    hide RowInLookback; hide RowMatchesEntity; hide CoverageOf;
    assert rows[..i + 1][..i] == rows[..i];
  }

  lemma {:induction false} NothingIsClaimed(rows: seq<FocusRow>, e: Entity, config: FocusConfig, now: int)
    requires CoverageOf(e) == Missing
    ensures ClaimedRows(rows, e, config, now) == []
  {
    hide Strip; hide TagValue;
    if rows != [] {
      NothingIsClaimed(rows[..|rows| - 1], e, config, now);
    }
  }

  ghost predicate IsTally(
      rows: seq<FocusRow>, amount: real, matched: nat, currency: string, latest: Option<int>, default: string)
  {
    amount == Total(rows) && matched == |rows| && IsCurrencyOf(currency, rows, default) && IsLatestEnd(latest, rows)
  }

  lemma NothingTallied(rows: seq<FocusRow>, e: Entity, config: FocusConfig, now: int, default: string)
    ensures IsTally(ClaimedRows(rows[..0], e, config, now), 0.0, 0, default, None, default)
  {
  }

  lemma TallySays(
      rows: seq<FocusRow>, amount: real, matched: nat, currency: string, latest: Option<int>, default: string,
      coverage: Coverage, now: int)
    requires IsTally(rows, amount, matched, currency, latest, default)
    ensures var summary := Summary(currency, amount, OrAlso(latest, Some(now)).value, matched, coverage);
      IsSummaryOf(if matched == 0 then None else Some(summary), rows, coverage, default, now)
  {
    hide IsCurrencyOf; hide IsLatestEnd; hide Total;
  }

  lemma OneMoreRow(
      rows: seq<FocusRow>, row: FocusRow, amount: real, matched: nat, currency: string, latest: Option<int>,
      default: string)
    requires IsTally(rows, amount, matched, currency, latest, default)
    ensures var end := EndOf(row);
      var latest' := if end.Some? && (latest.None? || end.value > latest.value) then end else latest;
      var currency' := if row.currency != "" then row.currency else currency;
      IsTally(rows + [row], amount + row.billedCost, matched + 1, currency', latest', default)
  {
    assert (rows + [row])[..|rows|] == rows;
    OneMoreCurrency(rows, row, currency, default);
    OneMoreEnd(rows, row, latest);
    hide IsCurrencyOf; hide IsLatestEnd; hide EndOf;
  }

  lemma OneMoreCurrency(rows: seq<FocusRow>, row: FocusRow, currency: string, default: string)
    requires IsCurrencyOf(currency, rows, default)
    ensures IsCurrencyOf(if row.currency != "" then row.currency else currency, rows + [row], default)
  {
    var longer := rows + [row];
    assert longer[|rows|] == row;
    if row.currency == "" && !(currency == default && forall r | r in rows :: r.currency == "") {
      var i :| 0 <= i < |rows| && currency == rows[i].currency != ""
        && forall j | i < j < |rows| :: rows[j].currency == "";
      assert longer[i] == rows[i];
    }
  }

  lemma OneMoreEnd(rows: seq<FocusRow>, row: FocusRow, latest: Option<int>)
    requires IsLatestEnd(latest, rows)
    ensures var end := EndOf(row);
      IsLatestEnd(if end.Some? && (latest.None? || end.value > latest.value) then end else latest, rows + [row])
  {
    var longer, end := rows + [row], EndOf(row);
    var later := if end.Some? && (latest.None? || end.value > latest.value) then end else latest;
    assert longer[|rows|] == row && forall r | r in rows :: r in longer;
    if end.Some? { assert EndsAt(row, end.value); }
    if latest.Some? {
      var r :| r in rows && EndsAt(r, latest.value);
      assert r in longer;
    }
    forall r, time | r in longer && EndsAt(r, time) ensures later.Some? && time <= later.value {
      assert r in rows || r == row;
    }
  }

  // ----- What counts -----

  /** The row without its dates, which lies in every window. */
  function Undated(row: FocusRow): FocusRow { row.(periodStart := None, periodEnd := None) }

  /** Dates decide whether a row is in the window, by its start or else its end, and nothing but that. */
  lemma LookbackDecides(row: FocusRow, e: Entity, config: FocusConfig, now: int, time: int)
    ensures config.lookbackDays <= 0 || (row.periodStart.None? && row.periodEnd.None?) ==>
      (Claims(row, e, config, now) <==> Claims(Undated(row), e, config, now))
    ensures var dated := row.periodStart == Some(time) || (row.periodStart.None? && row.periodEnd == Some(time));
      config.lookbackDays > 0 && dated ==>
        (Claims(row, e, config, now) <==>
          time >= now - 86400 * config.lookbackDays && Claims(Undated(row), e, config, now))
  {
    hide TagValue; hide Strip; hide CoverageOf;
  }

  lemma {:induction false} ClaimedConcat(
      rows: seq<FocusRow>, more: seq<FocusRow>, e: Entity, config: FocusConfig, now: int)
    ensures ClaimedRows(rows + more, e, config, now) ==
      ClaimedRows(rows, e, config, now) + ClaimedRows(more, e, config, now)
  {
    hide Claims;
    if more == [] {
      assert rows + more == rows;
    } else {
      assert (rows + more)[..|rows + more| - 1] == rows + more[..|more| - 1];
      ClaimedConcat(rows, more[..|more| - 1], e, config, now);
    }
  }

  /** A row from before the window may stand anywhere in the export and changes nothing. */
  lemma OldRowsDoNotCount(
      rows: seq<FocusRow>, row: FocusRow, more: seq<FocusRow>, e: Entity, config: FocusConfig, now: int, time: int)
    requires row.periodStart == Some(time) || (row.periodStart.None? && row.periodEnd == Some(time))
    requires config.lookbackDays > 0 && time < now - 86400 * config.lookbackDays
    ensures ClaimedRows(rows + [row] + more, e, config, now) == ClaimedRows(rows + more, e, config, now)
  {
    LookbackDecides(row, e, config, now, time);
    hide Claims;
    ClaimedConcat(rows + [row], more, e, config, now);
    ClaimedConcat(rows, [row], e, config, now);
    ClaimedConcat(rows, more, e, config, now);
    assert [row][..0] == [];
    assert ClaimedRows([row], e, config, now) == [];
  }

  /** The exact tag decides unless it is blank. */
  lemma ExactTagDecides(tags: seq<(string, string)>, lower: string -> string, key: string, i: nat)
    requires key != "" && i < |tags| && tags[i].0 == key && forall j | 0 <= j < i :: tags[j].0 != key
    requires Strip(tags[i].1) != ""
    ensures TagValue(tags, lower, key) == Strip(tags[i].1)
  {
    hide Strip; hide FirstCaseMatch;
    ExactTag(tags, key, i);
  }

  lemma {:induction false} ExactTag(tags: seq<(string, string)>, key: string, i: nat)
    requires i < |tags| && tags[i].0 == key && forall j | 0 <= j < i :: tags[j].0 != key
    ensures TagAt(tags, key) == tags[i].1
  {
    if i > 0 { ExactTag(tags[1..], key, i - 1); }
  }

  /** Without it the first tag decides whose key is the same in lower case, and without that there is no tag. */
  lemma {:induction false} AnyCaseDecides(tags: seq<(string, string)>, lower: string -> string, key: string, i: nat)
    requires key != "" && forall j | 0 <= j < |tags| && tags[j].0 == key :: Strip(tags[j].1) == ""
    requires i <= |tags| && forall j | 0 <= j < i :: lower(tags[j].0) != lower(key)
    requires i < |tags| ==> lower(tags[i].0) == lower(key)
    ensures TagValue(tags, lower, key) == if i < |tags| then Strip(tags[i].1) else ""
  {
    hide Strip;
    assert Strip("") == "" by { EmptyStripsToEmpty(); }
    BlankTag(tags, key);
    FirstInLower(tags, lower, key, i);
  }

  lemma {:induction false} BlankTag(tags: seq<(string, string)>, key: string)
    requires forall j | 0 <= j < |tags| && tags[j].0 == key :: Strip(tags[j].1) == ""
    ensures Strip(TagAt(tags, key)) == ""
  {
    hide Strip;
    assert Strip("") == "" by { EmptyStripsToEmpty(); }
    if tags != [] && tags[0].0 != key { BlankTag(tags[1..], key); }
  }

  lemma {:induction false} FirstInLower(tags: seq<(string, string)>, lower: string -> string, key: string, i: nat)
    requires i <= |tags| && forall j | 0 <= j < i :: lower(tags[j].0) != lower(key)
    requires i < |tags| ==> lower(tags[i].0) == lower(key)
    ensures FirstCaseMatch(tags, lower, key) == if i < |tags| then Strip(tags[i].1) else ""
  {
    hide Strip;
    if i > 0 { FirstInLower(tags[1..], lower, key, i - 1); }
  }

  /**
   A row in the window counts by its tags and its service name: towards a fully tagged entity if the
   owner agrees and the service does, for which the service name stands in where the tag is missing;
   towards a partly tagged one if what it names agrees, or else its service with the service name.
   All of this is up to case.
   */
  lemma CountsIff(row: FocusRow, e: Entity, config: FocusConfig, now: int)
    requires FoldsCase(config.caseFold) && row.periodStart.None? && row.periodEnd.None?
    ensures var owner, service := config.caseFold(Strip(e.owner)), config.caseFold(Strip(e.displayName));
      var tagOwner := config.caseFold(TagValue(row.tags, config.lower, config.tagKeyOwner));
      var tag := TagValue(row.tags, config.lower, config.tagKeyService);
      var tagService, name := config.caseFold(tag), config.caseFold(row.serviceName);
      Claims(row, e, config, now) <==>
        if Strip(e.displayName) == "" then Strip(e.owner) != "" && owner == tagOwner
        else if Strip(e.owner) == "" then service == tagService || service == name
        else owner == tagOwner && service == (if tag == "" then name else tagService)
  {
    hide TagValue; hide Strip;
  }

  // ----- No double billing -----

  predicate SameIdentity(e: Entity, f: Entity, config: FocusConfig) {
    SameText(config, Strip(e.owner), Strip(f.owner)) && SameText(config, Strip(e.displayName), Strip(f.displayName))
  }

  /**
   Two fully tagged entities that claim one row are the same up to case, and entities that are the
   same up to case claim the same rows.
   */
  lemma ClaimsIdentify(row: FocusRow, e: Entity, f: Entity, config: FocusConfig, now: int)
    requires FoldsCase(config.caseFold)
    requires CoverageOf(e) == Complete && CoverageOf(f) == Complete && Claims(row, e, config, now)
    ensures Claims(row, f, config, now) <==> SameIdentity(e, f, config)
  {
    hide Strip; hide TagValue;
  }

  /**
   No row can count towards both: one is untagged, or both name an owner and differ in it or, both
   fully tagged, in the service.
   */
  predicate Apart(e: Entity, f: Entity, config: FocusConfig) {
    || CoverageOf(e) == Missing || CoverageOf(f) == Missing
    || (&& Strip(e.owner) != "" && Strip(f.owner) != ""
        && (|| !SameText(config, Strip(e.owner), Strip(f.owner))
            || (CoverageOf(e) == CoverageOf(f) == Complete && !SameIdentity(e, f, config))))
  }

  lemma ApartShareNothing(row: FocusRow, e: Entity, f: Entity, config: FocusConfig, now: int)
    requires FoldsCase(config.caseFold) && Apart(e, f, config) && Claims(row, e, config, now)
    ensures !Claims(row, f, config, now)
  {
    hide Strip; hide TagValue; hide RowInLookback;
    if CoverageOf(e) == CoverageOf(f) == Complete && Claims(row, f, config, now) {
      ClaimsIdentify(row, e, f, config, now);
    }
  }

  /** Both tags can be told from each other. */
  predicate TwoKeys(config: FocusConfig) {
    config.tagKeyOwner != "" && config.tagKeyService != "" && config.tagKeyOwner != config.tagKeyService
  }

  /** An undated row with these tags. */
  function RowSaying(owner: string, service: string, serviceName: string, config: FocusConfig): FocusRow {
    FocusRow(1.0, "", None, None, serviceName, [(config.tagKeyOwner, owner), (config.tagKeyService, service)])
  }

  lemma TagsAreRead(owner: string, service: string, serviceName: string, config: FocusConfig)
    requires TwoKeys(config)
    ensures var tags := RowSaying(owner, service, serviceName, config).tags;
      && (Stripped(owner) && owner != "" ==> TagValue(tags, config.lower, config.tagKeyOwner) == owner)
      && (Stripped(service) && service != "" ==> TagValue(tags, config.lower, config.tagKeyService) == service)
  {
    hide Trim; hide Clean; hide FirstCaseMatch;
    var tags := RowSaying(owner, service, serviceName, config).tags;
    assert TagAt(tags, config.tagKeyOwner) == owner;
    assert TagAt(tags[1..], config.tagKeyService) == service;
  }

  /** A row of cost one that counts towards both, if the entities are not apart. */
  function SharedRow(e: Entity, f: Entity, config: FocusConfig): FocusRow {
    var owner := OrElse(Strip(e.owner), Strip(f.owner));
    if Strip(e.owner) == "" then RowSaying(owner, Strip(f.displayName), Strip(e.displayName), config)
    else if Strip(f.owner) == "" then RowSaying(owner, Strip(e.displayName), Strip(f.displayName), config)
    else RowSaying(owner, OrElse(Strip(e.displayName), Strip(f.displayName)), "", config)
  }

  lemma NotApartShare(e: Entity, f: Entity, config: FocusConfig, now: int)
    requires TwoKeys(config) && !Apart(e, f, config)
    ensures Claims(SharedRow(e, f, config), e, config, now) && Claims(SharedRow(e, f, config), f, config, now)
  {
    var row := SharedRow(e, f, config);
    TagsAreRead(row.tags[0].1, row.tags[1].1, row.serviceName, config);
    hide Strip; hide TagValue; hide TwoKeys;
  }

  /** Some row counts towards both exactly when they are not apart. */
  lemma SharedRowIff(e: Entity, f: Entity, config: FocusConfig, now: int)
    requires FoldsCase(config.caseFold) && TwoKeys(config)
    ensures (exists row :: Claims(row, e, config, now) && Claims(row, f, config, now)) <==> !Apart(e, f, config)
  {
    hide Claims; hide Apart; hide FoldsCase; hide TwoKeys; hide SharedRow;
    if !Apart(e, f, config) {
      NotApartShare(e, f, config, now);
    } else {
      forall row | Claims(row, e, config, now) ensures !Claims(row, f, config, now) {
        ApartShareNothing(row, e, f, config, now);
      }
    }
  }

  ghost predicate PairwiseApart(entities: seq<Entity>, config: FocusConfig) {
    forall i, j | 0 <= i < j < |entities| :: Apart(entities[i], entities[j], config)
  }

  function SumOfTotals(rows: seq<FocusRow>, entities: seq<Entity>, config: FocusConfig, now: int): real {
    if entities == [] then 0.0
    else
      var last := entities[|entities| - 1];
      SumOfTotals(rows, entities[..|entities| - 1], config, now) + Total(ClaimedRows(rows, last, config, now))
  }

  predicate SomeoneClaims(row: FocusRow, entities: seq<Entity>, config: FocusConfig, now: int) {
    exists e | e in entities :: Claims(row, e, config, now)
  }

  /** The rows that any of the entities claims, each once. */
  function AllClaimed(rows: seq<FocusRow>, entities: seq<Entity>, config: FocusConfig, now: int): seq<FocusRow> {
    if rows == [] then []
    else
      var earlier, last := AllClaimed(rows[..|rows| - 1], entities, config, now), rows[|rows| - 1];
      if SomeoneClaims(last, entities, config, now) then earlier + [last] else earlier
  }

  /** What one more row adds to the sum of all totals: its cost once, or nothing. */
  lemma {:induction false} RowIsBilledOnce(
      rows: seq<FocusRow>, row: FocusRow, entities: seq<Entity>, config: FocusConfig, now: int)
    requires FoldsCase(config.caseFold) && PairwiseApart(entities, config)
    ensures SumOfTotals(rows + [row], entities, config, now) ==
      SumOfTotals(rows, entities, config, now)
      + if SomeoneClaims(row, entities, config, now) then row.billedCost else 0.0
  {
    hide Claims; hide Apart; hide FoldsCase;
    if entities != [] {
      var n := |entities| - 1;
      var earlier, last := entities[..n], entities[n];
      RowIsBilledOnce(rows, row, earlier, config, now);
      TotalGrows(rows, row, last, config, now);
      assert forall e :: e in entities <==> e in earlier || e == last;
      if Claims(row, last, config, now) {
        forall e | e in earlier ensures !Claims(row, e, config, now) {
          var i :| 0 <= i < n && entities[i] == e;
          if Claims(row, e, config, now) {
            ApartShareNothing(row, e, last, config, now);
          }
        }
      }
    }
  }

  lemma TotalGrows(rows: seq<FocusRow>, row: FocusRow, e: Entity, config: FocusConfig, now: int)
    ensures Total(ClaimedRows(rows + [row], e, config, now)) ==
      Total(ClaimedRows(rows, e, config, now)) + if Claims(row, e, config, now) then row.billedCost else 0.0
  {
    hide Claims;
    assert (rows + [row])[..|rows|] == rows;
    var claimed := ClaimedRows(rows, e, config, now);
    assert (claimed + [row])[..|claimed|] == claimed;
  }

  lemma {:induction false} NothingToSum(entities: seq<Entity>, config: FocusConfig, now: int)
    ensures SumOfTotals([], entities, config, now) == 0.0
  {
    if entities != [] {
      NothingToSum(entities[..|entities| - 1], config, now);
    }
  }

  /** The totals of the entities come to the cost of the rows that any of them claims, each counted once. */
  predicate AddsUp(rows: seq<FocusRow>, entities: seq<Entity>, config: FocusConfig, now: int) {
    SumOfTotals(rows, entities, config, now) == Total(AllClaimed(rows, entities, config, now))
  }

  lemma {:induction false} TotalsAddUp(rows: seq<FocusRow>, entities: seq<Entity>, config: FocusConfig, now: int)
    requires FoldsCase(config.caseFold) && PairwiseApart(entities, config)
    ensures AddsUp(rows, entities, config, now)
  {
    hide FoldsCase; hide PairwiseApart; hide SomeoneClaims; hide SumOfTotals;
    if rows == [] {
      NothingToSum(entities, config, now);
    } else {
      var n := |rows| - 1;
      TotalsAddUp(rows[..n], entities, config, now);
      RowIsBilledOnce(rows[..n], rows[n], entities, config, now);
      assert rows == rows[..n] + [rows[n]];
      var earlier := AllClaimed(rows[..n], entities, config, now);
      assert (earlier + [rows[n]])[..|earlier|] == earlier;
    }
  }

  /** A row of cost one adds one to the sum for each entity that claims it. */
  lemma {:induction false} EachClaimCounts(
      row: FocusRow, claimants: set<nat>, entities: seq<Entity>, config: FocusConfig, now: int)
    requires row.billedCost == 1.0
    requires forall i | i in claimants :: i < |entities| && Claims(row, entities[i], config, now)
    ensures SumOfTotals([row], entities, config, now) >= |claimants| as real
  {
    hide Claims;
    if entities == [] {
      assert claimants == {};
    } else {
      var n := |entities| - 1;
      TotalGrows([], row, entities[n], config, now);
      assert [] + [row] == [row];
      EachClaimCounts(row, claimants - {n}, entities[..n], config, now);
    }
  }

  lemma SharedRowIsBilledTwice(entities: seq<Entity>, i: nat, j: nat, config: FocusConfig, now: int)
    requires TwoKeys(config) && i < j < |entities| && !Apart(entities[i], entities[j], config)
    ensures !AddsUp([SharedRow(entities[i], entities[j], config)], entities, config, now)
  {
    hide Claims; hide Apart; hide TwoKeys; hide SumOfTotals; hide SomeoneClaims;
    var row := SharedRow(entities[i], entities[j], config);
    NotApartShare(entities[i], entities[j], config, now);
    EachClaimCounts(row, {i, j}, entities, config, now);
    assert |{i, j}| == 2;
    assert [row][..0] == [];
    assert AllClaimed([row][..0], entities, config, now) == [];
    assert Total([]) == 0.0 && Total([row]) == 1.0;
  }

  /** The totals of the entities add up, whatever the export holds, if and only if they are pairwise apart. */
  lemma TotalsAddUpIff(entities: seq<Entity>, config: FocusConfig, now: int)
    requires FoldsCase(config.caseFold) && TwoKeys(config)
    ensures (forall rows :: AddsUp(rows, entities, config, now)) <==> PairwiseApart(entities, config)
  {
    hide FoldsCase; hide TwoKeys; hide AddsUp; hide Apart; hide SharedRow;
    if PairwiseApart(entities, config) {
      forall rows ensures AddsUp(rows, entities, config, now) {
        TotalsAddUp(rows, entities, config, now);
      }
    } else {
      var i, j :| 0 <= i < j < |entities| && !Apart(entities[i], entities[j], config);
      SharedRowIsBilledTwice(entities, i, j, config, now);
    }
  }

  /** An instance: an entity without a service name also claims what its owner's services claim. */
  lemma PartialEntitiesDoubleBill(row: FocusRow, e: Entity, config: FocusConfig, now: int)
    requires CoverageOf(e) == Complete && Claims(row, e, config, now)
    ensures CoverageOf(Entity(e.owner, "")) == Partial && Claims(row, Entity(e.owner, ""), config, now)
  {
    hide Clean; hide Trim; hide TagValue;
    EmptyStripsToEmpty();
  }

  lemma EmptyStripsToEmpty()
    ensures Strip("") == ""
  {
    assert Stripped("");
  }
}
