/**
 The append-only registry: a log of events, and the fold that reads the current records from it.
 */
module Registry {
  import opened Text
  import opened Records
  import opened Sorting

  /** What one log entry does to the registry. */
  datatype Effect = Nothing | Put(key: string, record: Record) | Drop(key: string)

  /** An environment is dropped by name alone; a component event must parse to count at all. */
  function EffectOf(family: Family, p: Payload): (effect: Effect)
    ensures effect.Put? ==> effect.key == Key(family, effect.record) && Normal(family, effect.record)
  {
    var event := Get(p, Event, "");
    var entry := FromEvent(family, p);
    ParsedIsNormal(family, p);
    var key := if family == Environments then Get(p, Name, "") else Get(p, EntityId, "");
    if key == "" || (family == Components && entry.None?) then Nothing
    else if event == DECOMMISSION then Drop(key)
    else if event == REGISTER && entry.Some? then Put(key, entry.value)
    else Nothing
  }

  predicate Touches(effect: Effect, key: string) {
    !effect.Nothing? && effect.key == key
  }

  function Apply(current: map<string, Record>, effect: Effect): map<string, Record> {
    match effect
    case Nothing => current
    case Put(key, record) => current[key := record]
    case Drop(key) => current - {key}
  }

  /** The records registered after a whole log. */
  function Fold(family: Family, log: seq<Payload>): (current: map<string, Record>)
    ensures Keyed(family, current)
  {
    if log == [] then map[]
    else Apply(Fold(family, log[..|log| - 1]), EffectOf(family, log[|log| - 1]))
  }

  ghost predicate Keyed(family: Family, current: map<string, Record>) {
    forall k | k in current :: Key(family, current[k]) == k && Normal(family, current[k])
  }

  /** The last entry that touches the key registers this record. */
  ghost predicate LastWriteIs(family: Family, log: seq<Payload>, key: string, r: Record) {
    exists i | 0 <= i < |log| ::
      && EffectOf(family, log[i]) == Put(key, r)
      && forall j | i < j < |log| :: !Touches(EffectOf(family, log[j]), key)
  }

  lemma {:induction false} LastWriteWins(family: Family, log: seq<Payload>, key: string, r: Record)
    ensures key in Fold(family, log) && Fold(family, log)[key] == r <==> LastWriteIs(family, log, key, r)
  {
    hide EffectOf; hide Keyed;
    if log != [] {
      hide LastWriteIs;
      LastWriteWins(family, log[..|log| - 1], key, r);
      LastWriteGrows(family, log, key, r);
    }
  }

  lemma LastWriteGrows(family: Family, log: seq<Payload>, key: string, r: Record)
    requires log != []
    ensures LastWriteIs(family, log, key, r) <==>
      var n := |log| - 1;
      if Touches(EffectOf(family, log[n]), key) then EffectOf(family, log[n]) == Put(key, r)
      else LastWriteIs(family, log[..n], key, r)
  {
    hide EffectOf; hide Normal; hide Fold;
    var n := |log| - 1;
    var earlier := log[..n];
    assert forall j | 0 <= j < n :: log[j] == earlier[j];
    if LastWriteIs(family, earlier, key, r) && !Touches(EffectOf(family, log[n]), key) {
      var i :| 0 <= i < n && EffectOf(family, earlier[i]) == Put(key, r)
        && forall j | i < j < n :: !Touches(EffectOf(family, earlier[j]), key);
      assert EffectOf(family, log[i]) == Put(key, r);
    }
    if LastWriteIs(family, log, key, r) {
      var i :| 0 <= i < |log| && EffectOf(family, log[i]) == Put(key, r)
        && forall j | i < j < |log| :: !Touches(EffectOf(family, log[j]), key);
      if i < n { assert EffectOf(family, earlier[i]) == Put(key, r); }
    }
  }

  /** Two entries about different keys can be written in either order. */
  lemma DifferentKeysCommute(family: Family, log: seq<Payload>, p: Payload, q: Payload)
    requires EffectOf(family, p).Nothing? || !Touches(EffectOf(family, q), EffectOf(family, p).key)
    ensures Fold(family, log + [p, q]) == Fold(family, log + [q, p])
  {
    hide EffectOf; hide Normal; hide Fold;
    FoldAppend(family, log, p);
    FoldAppend(family, log, q);
    FoldAppend(family, log + [p], q);
    FoldAppend(family, log + [q], p);
    assert log + [p, q] == (log + [p]) + [q] && log + [q, p] == (log + [q]) + [p];
    EffectsCommute(Fold(family, log), EffectOf(family, p), EffectOf(family, q));
    hide Apply; hide Touches;
  }

  lemma EffectsCommute(current: map<string, Record>, one: Effect, other: Effect)
    requires one.Nothing? || !Touches(other, one.key)
    ensures Apply(Apply(current, one), other) == Apply(Apply(current, other), one)
  {
  }

  lemma FoldAppend(family: Family, log: seq<Payload>, p: Payload)
    ensures Fold(family, log + [p]) == Apply(Fold(family, log), EffectOf(family, p))
  {
    assert (log + [p])[..|log|] == log;
  }

  /** An environment is dropped by name, whatever else its entry lacks; a component entry must parse. */
  lemma EffectIff(family: Family, p: Payload, key: string, r: Record)
    ensures EffectOf(family, p) == Put(key, r) <==>
      Get(p, Event, "") == "register" && FromEvent(family, p) == Some(r) && key == Key(family, r)
    ensures EffectOf(family, p) == Drop(key) <==>
      && Get(p, Event, "") == "decommission"
      && match family
         case Environments => key == Get(p, Name, "") != ""
         case Components => FromEvent(family, p).Some? && key == Get(p, EntityId, "")
  {
    hide Get; hide DescriptionFrom;
    ParsesIff(family, p);
    if FromEvent(family, p).Some? { ParsedFields(family, p); }
    hide FromEvent; hide Normal;
    ParsedIsNormal(family, p);
  }

  lemma EffectOfWrite(family: Family, r: Record)
    requires Normal(family, r)
    ensures EffectOf(family, ToEvent(family, r, REGISTER)) == Put(Key(family, r), r)
    ensures EffectOf(family, ToEvent(family, r, DECOMMISSION)) == Drop(Key(family, r))
  {
    hide Clean; hide Trim; hide Normal; hide ToEvent; hide FromEvent;
    RoundTrip(family, r, REGISTER);
    RoundTrip(family, r, DECOMMISSION);
    DefaultsAreStripped();
    NormalIsNamed(family, r);
    EntityIdRoundTrip(family, r, REGISTER);
    EntityIdRoundTrip(family, r, DECOMMISSION);
  }

  lemma NormalIsNamed(family: Family, r: Record)
    requires Normal(family, r)
    ensures r.name != "" && r.entityId != "" && Stripped(r.name) && Stripped(r.entityId)
  {
  }

  lemma EntityIdRoundTrip(family: Family, r: Record, event: string)
    ensures Get(ToEvent(family, r, event), EntityId, "") == Strip(r.entityId)
  {
    hide Clean; hide Trim;
  }

  /** A normal record that is written reads back as itself, under its own key and no other. */
  lemma ReadAfterWrite(family: Family, log: seq<Payload>, r: Record)
    requires Normal(family, r)
    ensures EffectOf(family, ToEvent(family, r, REGISTER)) == Put(Key(family, r), r)
    ensures EffectOf(family, ToEvent(family, r, DECOMMISSION)) == Drop(Key(family, r))
    ensures Fold(family, log + [ToEvent(family, r, REGISTER)]) == Fold(family, log)[Key(family, r) := r]
    ensures Fold(family, log + [ToEvent(family, r, DECOMMISSION)]) == Fold(family, log) - {Key(family, r)}
  {
    hide EffectOf; hide Normal; hide ToEvent; hide Fold;
    EffectOfWrite(family, r);
    FoldAppend(family, log, ToEvent(family, r, REGISTER));
    FoldAppend(family, log, ToEvent(family, r, DECOMMISSION));
  }

  // ----- The sorted listing -----

  /** `key=lambda item: item.stack_name` or `item.entity_id`. */
  function ByKey(family: Family): Record -> string { r => Key(family, r) }

  ghost predicate SortedByKey(family: Family, rs: seq<Record>) {
    InStrictOrder(ByKey(family), rs)
  }

  /** All the records of a registry, in strictly increasing key order. */
  ghost predicate IsListing(family: Family, rs: seq<Record>, current: map<string, Record>) {
    && SortedByKey(family, rs)
    && (forall r | r in rs :: Key(family, r) in current && current[Key(family, r)] == r)
    && (forall k | k in current :: current[k] in rs)
  }

  lemma ListingOfNothing(family: Family)
    ensures IsListing(family, [], map[])
  {
  }

  lemma ListingInsert(family: Family, rs: seq<Record>, current: map<string, Record>, r: Record)
    requires IsListing(family, rs, current) && Key(family, r) !in current
    ensures IsListing(family, Insert(ByKey(family), r, rs), current[Key(family, r) := r])
  {
    hide Before; hide Key;
    InsertHolds(ByKey(family), r, rs);
    InsertKeepsStrictOrder(ByKey(family), r, rs);
  }

  lemma {:induction false} ListingExists(family: Family, current: map<string, Record>) returns (rs: seq<Record>)
    requires Keyed(family, current)
    ensures IsListing(family, rs, current)
    decreases |current|
  {
    hide Insert; hide Normal; hide SortedByKey;
    if current == map[] {
      ListingOfNothing(family);
      rs := [];
    } else {
      var k :| k in current;
      var others := current - {k};
      assert others.Keys == current.Keys - {k};
      rs := ListingExists(family, others);
      ListingInsert(family, rs, others, current[k]);
      assert others[k := current[k]] == current;
      rs := Insert(ByKey(family), current[k], rs);
    }
  }

  /** A registry has one listing. */
  lemma {:induction false} ListingIsUnique(
      family: Family, rs: seq<Record>, ss: seq<Record>, current: map<string, Record>)
    requires Keyed(family, current) && IsListing(family, rs, current) && IsListing(family, ss, current)
    ensures rs == ss
    decreases |rs|
  {
    hide Normal; hide Before; hide Key; hide SortedByKey;
    assert rs != [] ==> rs[0] in rs && current != map[];
    assert ss != [] ==> ss[0] in ss && current != map[];
    hide IsListing;
    if rs != [] && ss != [] {
      ListingHead(family, rs, ss, current);
      ListingTail(family, rs, current);
      ListingTail(family, ss, current);
      ListingIsUnique(family, rs[1..], ss[1..], current - {Key(family, rs[0])});
      assert rs == [rs[0]] + rs[1..] && ss == [ss[0]] + ss[1..];
    }
  }

  lemma ListingHead(family: Family, rs: seq<Record>, ss: seq<Record>, current: map<string, Record>)
    requires rs != [] && ss != []
    requires Keyed(family, current) && IsListing(family, rs, current) && IsListing(family, ss, current)
    ensures rs[0] == ss[0]
  {
    hide Normal;
    var r, s := rs[0], ss[0];
    assert r in rs && s in ss;
    assert current[Key(family, r)] in ss && current[Key(family, s)] in rs;
    var i :| 0 <= i < |ss| && ss[i] == r;
    var j :| 0 <= j < |rs| && rs[j] == s;
    BeforeIsStrictOrder(Key(family, r), Key(family, s), Key(family, r));
  }

  lemma ListingTail(family: Family, rs: seq<Record>, current: map<string, Record>)
    requires rs != [] && Keyed(family, current) && IsListing(family, rs, current)
    ensures IsListing(family, rs[1..], current - {Key(family, rs[0])})
  {
    hide Before; hide Key; hide Normal;
    var head, tail := rs[0], rs[1..];
    forall r | r in tail ensures r in rs && Key(family, r) != Key(family, head) {
      BeforeIsStrictOrder(Key(family, head), Key(family, r), Key(family, r));
    }
    assert head in rs;
    forall k | k in current && k != Key(family, head) ensures current[k] in tail {
      var r := current[k];
      assert r in rs && Key(family, r) == k;
    }
  }

  /** What `read_environments` and `read_components` return for a log. */
  ghost function Snapshot(family: Family, log: seq<Payload>): (rs: seq<Record>)
    ensures IsListing(family, rs, Fold(family, log))
  {
    var _ := SnapshotExists(family, log);
    var rs :| IsListing(family, rs, Fold(family, log));
    rs
  }

  ghost function SnapshotExists(family: Family, log: seq<Payload>): (ok: bool)
    ensures exists rs :: IsListing(family, rs, Fold(family, log))
  {
    assert exists rs :: IsListing(family, rs, Fold(family, log)) by {
      var rs := ListingExists(family, Fold(family, log));
    }
    true
  }

  /** A snapshot holds exactly the registered records, each once. */
  lemma SnapshotMembers(family: Family, log: seq<Payload>)
    ensures forall r :: r in Snapshot(family, log) <==>
      Key(family, r) in Fold(family, log) && Fold(family, log)[Key(family, r)] == r
    ensures forall r | r in Snapshot(family, log) :: Normal(family, r)
    ensures SortedByKey(family, Snapshot(family, log))
  {
  }

  // ----- Writers -----

  predicate Registrable(family: Family, r: Record) {
    r.name != "" && (family == Components ==> r.group != "")
  }

  /** Writing down a record that is refused would have done nothing. */
  lemma RefusedWritesDoNothing(family: Family, log: seq<Payload>, r: Record, event: string)
    requires !Registrable(family, r)
    ensures Fold(family, log + [ToEvent(family, r, event)]) == Fold(family, log)
  {
    var p := ToEvent(family, r, event);
    RefusedWritesDoNotParse(family, r, event);
    FoldAppend(family, log, p);
    hide ToEvent; hide FromEvent; hide Fold; hide Registrable; hide Normal;
  }

  lemma RefusedWritesDoNotParse(family: Family, r: Record, event: string)
    requires !Registrable(family, r)
    ensures var p := ToEvent(family, r, event);
      FromEvent(family, p).None? && (family == Environments ==> Get(p, Name, "") == "")
  {
    hide DescriptionFrom; hide DescriptionToText; hide Trim; hide Clean; hide FromEvent; hide Normal;
    var p := ToEvent(family, r, event);
    assert Strip("") == "" by { NothingStrips(); }
    assert Get(p, Name, "") == Strip(r.name) && Get(p, Group, "") == Strip(r.group);
    ParsesIff(family, p);
  }

  lemma NothingStrips()
    ensures Strip("") == ""
  {
    assert Stripped("");
  }

  function Stamped(r: Record, clock: int): Record {
    r.(vendedAt := if r.vendedAt.Some? then r.vendedAt else Some(clock))
  }

  /** The record kept while a decommission pull request waits for review. */
  function Expired(r: Record, prUrl: string, prNumber: int, gitBranch: string): Record {
    r.(status := "expired", prUrl := Strip(prUrl), prNumber := prNumber,
       gitBranch := OrElse(Strip(gitBranch), r.gitBranch))
  }

  lemma ExpiredIsNormal(family: Family, r: Record, prUrl: string, prNumber: int, gitBranch: string, clock: int)
    requires Normal(family, r)
    ensures var e := Stamped(Expired(r, prUrl, prNumber, gitBranch), clock);
      Normal(family, e) && Key(family, e) == Key(family, r) && (HasOpenReview(e) <==> prNumber > 0)
  {
    hide Clean; hide Trim;
    DefaultsAreStripped();
    assert Lower("expired") == "expired";
  }

  /** `sorted(current.values(), key=...)`, taking the values in any order. */
  method ListByKey(family: Family, current: map<string, Record>) returns (rs: seq<Record>)
    requires Keyed(family, current)
    ensures IsListing(family, rs, current)
  {
    hide Normal; hide Insert;
    rs := [];
    ListingOfNothing(family);
    hide IsListing;
    var unlisted := current.Keys;
    assert current - unlisted == map[];
    while unlisted != {}
      invariant unlisted <= current.Keys
      invariant IsListing(family, rs, current - unlisted)
      decreases |unlisted|
    {
      var k :| k in unlisted;
      ListingInsert(family, rs, current - unlisted, current[k]);
      assert current - (unlisted - {k}) == (current - unlisted)[k := current[k]];
      rs := Insert(ByKey(family), current[k], rs);
      unlisted := unlisted - {k};
    }
    assert current - unlisted == current;
  }

  /** The fold of a whole log, listed by key. */
  method FoldPayloads(family: Family, payloads: seq<Payload>) returns (rs: seq<Record>)
    ensures rs == Snapshot(family, payloads)
  {
    hide EffectOf; hide Normal; hide IsListing;
    var current: map<string, Record> := map[];
    for i := 0 to |payloads|
      invariant current == Fold(family, payloads[..i])
    {
      assert payloads[..i + 1] == payloads[..i] + [payloads[i]];
      FoldAppend(family, payloads[..i], payloads[i]);
      match EffectOf(family, payloads[i])
      case Nothing =>
      case Put(key, entry) => current := current[key := entry];
      case Drop(key) => current := current - {key};
    }
    assert payloads[..|payloads|] == payloads;
    rs := ListByKey(family, current);
    ListingIsUnique(family, rs, Snapshot(family, payloads), current);
  }

  /** One registry file. A refused write leaves the file as it was. */
  class RegistryFile {
    const family: Family
    var log: seq<Payload>

    constructor (family: Family)
      ensures this.family == family && log == []
    {
      this.family := family;
      log := [];
    }

    method Read() returns (rs: seq<Record>)
      ensures rs == Snapshot(family, log)
    {
      rs := FoldPayloads(family, log);
    }

    method Register(r: Record, clock: int) returns (stamped: Option<Record>)
      modifies this
      ensures stamped.None? <==> r.name == "" || (family == Components && r.group == "")
      ensures stamped.Some? ==>
        stamped.value == r.(vendedAt := Some(if r.vendedAt.Some? then r.vendedAt.value else clock))
      ensures log == old(log) + if stamped.Some? then [ToEvent(family, stamped.value, REGISTER)] else []
      ensures stamped.Some? && Normal(family, r) ==>
        Fold(family, log) == Fold(family, old(log))[Key(family, r) := stamped.value]
    {
      if r.name == "" || (family == Components && r.group == "") {
        return None;
      }
      stamped := Some(r.(vendedAt := if r.vendedAt.Some? then r.vendedAt else Some(clock)));
      log := log + [ToEvent(family, stamped.value, REGISTER)];
      if Normal(family, r) {
        ReadAfterWrite(family, old(log), stamped.value);
      }
    }

    method Decommission(r: Record) returns (ok: bool)
      modifies this
      ensures !ok <==> r.name == "" || (family == Components && r.group == "")
      ensures log == old(log) + if ok then [ToEvent(family, r, DECOMMISSION)] else []
      ensures ok && Normal(family, r) ==> Fold(family, log) == Fold(family, old(log)) - {Key(family, r)}
    {
      ok := r.name != "" && (family == Components ==> r.group != "");
      if ok {
        log := log + [ToEvent(family, r, DECOMMISSION)];
        if Normal(family, r) {
          ReadAfterWrite(family, old(log), r);
        }
      }
    }

    method MarkExpired(r: Record, prUrl: string, prNumber: int, gitBranch: string, clock: int)
      returns (stamped: Option<Record>)
      modifies this
      ensures stamped.None? <==> r.name == "" || (family == Components && r.group == "")
      ensures stamped.Some? ==> stamped.value == r.(
                status := "expired", prUrl := Strip(prUrl), prNumber := prNumber,
                gitBranch := if Strip(gitBranch) != "" then Strip(gitBranch) else r.gitBranch,
                vendedAt := Some(if r.vendedAt.Some? then r.vendedAt.value else clock))
      ensures log == old(log) + if stamped.Some? then [ToEvent(family, stamped.value, REGISTER)] else []
    {
      var branch := Strip(gitBranch);
      var updated := r.(status := "expired", prUrl := Strip(prUrl), prNumber := prNumber,
                        gitBranch := if branch == "" then r.gitBranch else branch);
      stamped := Register(updated, clock);
    }
  }
}
