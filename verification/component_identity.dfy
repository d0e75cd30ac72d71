/**
 The identity of a component: which kinds and names share an entity id, and when a registry keyed
 by entity id is as good as one keyed by kind and name.
 */
module ComponentIdentity {
  import opened Text
  import opened Records
  import opened Registry
  import opened GitOps
  import opened Reclaim
  import opened ReclaimTheorems
  import opened Histories

  datatype Identity = Identity(kind: string, name: string)

  /** `entity_id_for_component`. */
  function EntityIdFor(kind: string, name: string): string {
    "cmp-" + Strip(kind) + "-" + Strip(name)
  }

  function IdOf(i: Identity): string { EntityIdFor(i.kind, i.name) }

  // ----- When two components share an id -----

  /** The hyphen between kind and name can be read in two places: `j.kind` swallows `middle`. */
  ghost predicate Straddles(i: Identity, j: Identity, middle: string) {
    Strip(j.kind) == Strip(i.kind) + "-" + middle && Strip(i.name) == middle + "-" + Strip(j.name)
  }

  /** Two components share an id exactly when they are the same or one straddles the other's hyphen. */
  lemma SameIdIff(i: Identity, j: Identity)
    ensures IdOf(i) == IdOf(j) <==>
      || (Strip(i.kind) == Strip(j.kind) && Strip(i.name) == Strip(j.name))
      || (exists middle :: Straddles(i, j, middle))
      || (exists middle :: Straddles(j, i, middle))
  {
    hide Strip;
    if IdOf(i) == IdOf(j) {
      SameTail(Strip(i.kind), Strip(i.name), Strip(j.kind), Strip(j.name));
      if |Strip(i.kind)| < |Strip(j.kind)| {
        var middle := SplitAtHyphen(Strip(i.kind), Strip(i.name), Strip(j.kind), Strip(j.name));
        assert Straddles(i, j, middle);
      } else if |Strip(j.kind)| < |Strip(i.kind)| {
        var middle := SplitAtHyphen(Strip(j.kind), Strip(j.name), Strip(i.kind), Strip(i.name));
        assert Straddles(j, i, middle);
      } else {
        SplitEvenly(Strip(i.kind), Strip(i.name), Strip(j.kind), Strip(j.name));
      }
    }
    forall middle | Straddles(i, j, middle) ensures IdOf(i) == IdOf(j) {
      StraddleGivesSameId(i, j, middle);
    }
    forall middle | Straddles(j, i, middle) ensures IdOf(i) == IdOf(j) {
      StraddleGivesSameId(j, i, middle);
    }
  }

  lemma StraddleGivesSameId(i: Identity, j: Identity, middle: string)
    requires Straddles(i, j, middle)
    ensures IdOf(i) == IdOf(j)
  {
    hide Strip;
    var k, n := Strip(i.kind), Strip(j.name);
    assert "cmp-" + k + "-" + (middle + "-" + n) == "cmp-" + (k + "-" + middle) + "-" + n;
  }

  lemma SameTail(k: string, n: string, k': string, n': string)
    requires "cmp-" + k + "-" + n == "cmp-" + k' + "-" + n'
    ensures k + "-" + n == k' + "-" + n'
  {
    assert ("cmp-" + k + "-" + n)[4..] == k + "-" + n;
    assert ("cmp-" + k' + "-" + n')[4..] == k' + "-" + n';
  }

  lemma SplitEvenly(k: string, n: string, k': string, n': string)
    requires k + "-" + n == k' + "-" + n' && |k| == |k'|
    ensures k == k' && n == n'
  {
    assert (k + "-" + n)[..|k|] == k && (k + "-" + n)[|k| + 1..] == n;
    assert (k' + "-" + n')[..|k|] == k' && (k' + "-" + n')[|k| + 1..] == n';
  }

  lemma SplitAtHyphen(k: string, n: string, k': string, n': string) returns (middle: string)
    requires k + "-" + n == k' + "-" + n' && |k| < |k'|
    ensures k' == k + "-" + middle && n == middle + "-" + n'
  {
    var whole := k + "-" + n;
    middle := k'[|k| + 1..];
    assert whole[..|k|] == k && whole[|k|] == '-' && whole[|k| + 1..] == n;
    assert whole[..|k'|] == k' && whole[|k'|] == '-' && whole[|k'| + 1..] == n';
    assert k'[..|k|] == whole[..|k|] && k'[|k|] == whole[|k|];
    assert k' == k'[..|k|] + [k'[|k|]] + middle;
    assert n == n[..|middle|] + [n[|middle|]] + n[|middle| + 1..];
  }

  predicate HyphenFree(kind: string) { '-' !in Strip(kind) }

  /** Without hyphens in the kinds an id names one component. */
  lemma IdsAreInjective(i: Identity, j: Identity)
    requires HyphenFree(i.kind) && HyphenFree(j.kind)
    ensures IdOf(i) == IdOf(j) <==> Strip(i.kind) == Strip(j.kind) && Strip(i.name) == Strip(j.name)
  {
    hide Strip;
    SameIdIff(i, j);
    forall middle ensures !Straddles(i, j, middle) && !Straddles(j, i, middle) {
      assert '-' in Strip(i.kind) + "-" + middle by { assert (Strip(i.kind) + "-" + middle)[|Strip(i.kind)|] == '-'; }
      assert '-' in Strip(j.kind) + "-" + middle by { assert (Strip(j.kind) + "-" + middle)[|Strip(j.kind)|] == '-'; }
    }
  }

  /** With a hyphen in a kind two components can share an id. */
  lemma HyphensCollide()
    ensures Identity("db-cache", "api") != Identity("db", "cache-api")
    ensures IdOf(Identity("db-cache", "api")) == IdOf(Identity("db", "cache-api"))
  {
    assert Stripped("db-cache") && Stripped("api") && Stripped("db") && Stripped("cache-api");
    assert |"db-cache"| != |"db"|;
    assert Straddles(Identity("db", "cache-api"), Identity("db-cache", "api"), "cache");
    StraddleGivesSameId(Identity("db", "cache-api"), Identity("db-cache", "api"), "cache");
  }

  // ----- The registry keyed by kind and name -----

  function IdentityOf(r: Record): Identity { Identity(r.group, r.name) }

  /** The same log, read into a registry keyed by kind and name. */
  function FoldByName(log: seq<Payload>): map<Identity, Record> {
    if log == [] then map[]
    else
      var current, p := FoldByName(log[..|log| - 1]), log[|log| - 1];
      var entry := FromEvent(Components, p);
      if entry.None? then current
      else if Get(p, Event, "") == DECOMMISSION then current - {IdentityOf(entry.value)}
      else if Get(p, Event, "") == REGISTER then current[IdentityOf(entry.value) := entry.value]
      else current
  }

  /** The entry carries the id that its kind and name give. */
  predicate Identified(r: Record) {
    r.entityId == IdOf(IdentityOf(r)) && HyphenFree(r.group)
  }

  ghost predicate AllIdentified(log: seq<Payload>) {
    forall p | p in log :: FromEvent(Components, p).Some? ==> Identified(FromEvent(Components, p).value)
  }

  /** Both registries hold the same records, under matching keys. */
  ghost predicate Refines(byId: map<string, Record>, byName: map<Identity, Record>) {
    && (forall k | k in byId ::
          Settles(k, byId[k]) && IdentityOf(byId[k]) in byName && byName[IdentityOf(byId[k])] == byId[k])
    && (forall i | i in byName ::
          Settles(IdOf(i), byName[i]) && IdentityOf(byName[i]) == i && IdOf(i) in byId && byId[IdOf(i)] == byName[i])
  }

  predicate Settles(key: string, r: Record) {
    key == r.entityId && Identified(r) && Stripped(r.group) && Stripped(r.name)
  }

  /**
   When every entry carries its own id and no kind has a hyphen, the registry keyed by entity id is
   the registry keyed by kind and name.
   */
  lemma {:induction false} KeyedByIdRefinesKeyedByName(log: seq<Payload>)
    requires AllIdentified(log)
    ensures Refines(Fold(Components, log), FoldByName(log))
  {
    if log != [] {
      var n := |log| - 1;
      assert forall p | p in log[..n] :: p in log;
      assert log[n] in log;
      KeyedByIdRefinesKeyedByName(log[..n]);
      hide Refines; hide Normal; hide Keyed; hide Clean; hide Trim; hide Identified;
      ParsedIsNormal(Components, log[n]);
      var entry := FromEvent(Components, log[n]);
      hide FromEvent; hide AllIdentified;
      if entry.Some? {
        NormalSettles(entry.value);
        RefinesPut(Fold(Components, log[..n]), FoldByName(log[..n]), entry.value);
        RefinesDrop(Fold(Components, log[..n]), FoldByName(log[..n]), entry.value);
        EffectOfEntry(log[n]);
      } else {
        EffectOfEntry(log[n]);
      }
    }
  }

  lemma NormalSettles(r: Record)
    requires Normal(Components, r) && Identified(r)
    ensures Settles(r.entityId, r)
  {
  }

  lemma EffectOfEntry(p: Payload)
    ensures EffectOf(Components, p) ==
      match FromEvent(Components, p)
      case None => Nothing
      case Some(entry) =>
        if Get(p, Event, "") == DECOMMISSION then Drop(entry.entityId)
        else if Get(p, Event, "") == REGISTER then Put(entry.entityId, entry)
        else Nothing
  {
    hide Clean; hide Trim; hide Normal; hide DescriptionFrom;
  }

  lemma SettledKeys(r: Record, s: Record)
    requires Settles(r.entityId, r) && Settles(s.entityId, s)
    ensures r.entityId == s.entityId <==> IdentityOf(r) == IdentityOf(s)
  {
    hide Clean; hide Trim;
    IdsAreInjective(IdentityOf(r), IdentityOf(s));
  }

  lemma RefinesPut(byId: map<string, Record>, byName: map<Identity, Record>, r: Record)
    requires Refines(byId, byName) && Settles(r.entityId, r)
    ensures Refines(byId[r.entityId := r], byName[IdentityOf(r) := r])
  {
    hide Settles; hide EntityIdFor;
    forall k | k in byId ensures byId[k].entityId == k && (k == r.entityId <==> IdentityOf(byId[k]) == IdentityOf(r)) {
      SettlesMeansKey(k, byId[k]);
      SettledKeys(byId[k], r);
    }
    SettlesMeansKey(r.entityId, r);
  }

  lemma RefinesDrop(byId: map<string, Record>, byName: map<Identity, Record>, r: Record)
    requires Refines(byId, byName) && Settles(r.entityId, r)
    ensures Refines(byId - {r.entityId}, byName - {IdentityOf(r)})
  {
    hide Settles; hide EntityIdFor;
    forall k | k in byId ensures byId[k].entityId == k && (k == r.entityId <==> IdentityOf(byId[k]) == IdentityOf(r)) {
      SettlesMeansKey(k, byId[k]);
      SettledKeys(byId[k], r);
    }
    SettlesMeansKey(r.entityId, r);
  }

  lemma SettlesMeansKey(key: string, r: Record)
    requires Settles(key, r)
    ensures key == r.entityId == IdOf(IdentityOf(r))
  {
  }

  /** A collision loses a component: the second registration takes the place of the first. */
  lemma CollisionLosesRecord(log: seq<Payload>, r: Record, s: Record)
    requires Normal(Components, r) && Normal(Components, s)
    requires IdentityOf(r) != IdentityOf(s) && r.entityId == s.entityId
    ensures var longer := log + [ToEvent(Components, r, REGISTER), ToEvent(Components, s, REGISTER)];
      && Fold(Components, longer) == Fold(Components, log)[s.entityId := s]
      && FoldByName(longer) == FoldByName(log)[IdentityOf(r) := r][IdentityOf(s) := s]
  {
    hide Clean; hide Trim; hide Normal; hide Fold; hide Keyed; hide ToEvent; hide FoldByName;
    var p, q := ToEvent(Components, r, REGISTER), ToEvent(Components, s, REGISTER);
    assert log + [p, q] == (log + [p]) + [q];
    ReadAfterWrite(Components, log, r);
    ReadAfterWrite(Components, log + [p], s);
    ByNameAfterWrite(log, r);
    ByNameAfterWrite(log + [p], s);
  }

  lemma ByNameAfterWrite(log: seq<Payload>, r: Record)
    requires Normal(Components, r)
    ensures FoldByName(log + [ToEvent(Components, r, REGISTER)]) == FoldByName(log)[IdentityOf(r) := r]
  {
    hide Clean; hide Trim; hide Normal; hide ToEvent; hide FromEvent;
    DefaultsAreStripped();
    RoundTrip(Components, r, REGISTER);
    var p := ToEvent(Components, r, REGISTER);
    assert (log + [p])[..|log|] == log;
  }

  // ----- Histories of vended components -----

  /** Vends of components give them the id that their kind and name give, and no kind has a hyphen. */
  ghost predicate VendsComponents(actions: seq<Action>) {
    forall a | a in actions && a.Vend? :: GivesId(a.vend)
  }

  predicate GivesId(v: VendRequest) {
    v.entityId == EntityIdFor(v.group, v.name) && HyphenFree(v.group)
  }

  lemma EntityIdIsStripped(kind: string, name: string)
    ensures Stripped(EntityIdFor(kind, name))
  {
    var n := Strip(name);
    assert n == "" || !IsSpace(n[|n| - 1]);
    var id := EntityIdFor(kind, name);
    assert id[0] == 'c';
    assert id[|id| - 1] == if n == "" then '-' else n[|n| - 1];
  }

  lemma VendIsIdentified(v: VendRequest, prNumber: int, now: int)
    requires GivesId(v)
    ensures var entry := FromEvent(Components, ToEvent(Components, VendedRecord(v, prNumber, now), REGISTER));
      entry.Some? ==> Identified(entry.value)
  {
    hide Clean; hide Trim; hide DescriptionFrom; hide DescriptionToText; hide ResolveTtl; hide ExpiryOf;
    hide EntityIdFor;
    EntityIdIsStripped(v.group, v.name);
    SameParts(v.group, v.name, Strip(v.group), Strip(v.name));
  }

  lemma SameParts(kind: string, name: string, kind': string, name': string)
    requires Strip(kind') == Strip(kind) && Strip(name') == Strip(name)
    ensures EntityIdFor(kind', name') == EntityIdFor(kind, name)
  {
  }

  lemma IdentifiedAppends(log: seq<Payload>, r: Record, event: string)
    requires AllIdentified(log) && Normal(Components, r) && Identified(r)
    ensures AllIdentified(log + [ToEvent(Components, r, event)])
  {
    hide Clean; hide Trim; hide Normal; hide ToEvent; hide FromEvent; hide Identified;
    RoundTrip(Components, r, event);
  }

  lemma {:induction false} FoldIsIdentified(log: seq<Payload>)
    requires AllIdentified(log)
    ensures forall k | k in Fold(Components, log) :: Identified(Fold(Components, log)[k])
  {
    if log != [] {
      var n := |log| - 1;
      assert forall p | p in log[..n] :: p in log;
      assert log[n] in log;
      FoldIsIdentified(log[..n]);
      hide Identified; hide Normal; hide FromEvent;
      EffectOfEntry(log[n]);
    }
  }

  lemma {:induction false} EntriesAreIdentified(call: Call, log: seq<Payload>, results: seq<Result>)
    requires call.family == Components && AllIdentified(log)
    requires forall i | 0 <= i < |results| :: Identified(results[i].subject) && Normal(Components, results[i].subject)
    ensures AllIdentified(log + AllEntries(call, results))
  {
    hide AllIdentified; hide Identified; hide Normal; hide EntriesOf;
    if results == [] {
      assert log + [] == log;
    } else {
      var n := |results| - 1;
      var earlier := log + AllEntries(call, results[..n]);
      EntriesAreIdentified(call, log, results[..n]);
      assert log + AllEntries(call, results) == earlier + EntriesOf(call, results[n]);
      EntryIsIdentified(call, earlier, results[n]);
    }
  }

  lemma EntryIsIdentified(call: Call, log: seq<Payload>, result: Result)
    requires call.family == Components && AllIdentified(log)
    requires Identified(result.subject) && Normal(Components, result.subject)
    ensures AllIdentified(log + EntriesOf(call, result))
  {
    hide AllIdentified; hide Normal; hide ToEvent; hide EntityIdFor; hide Strip;
    assert log + [] == log;
    var marked := MarkedBy(result.subject, result, call.request.now);
    ExpiredIsNormal(Components, result.subject, result.prUrl, result.prNumber, result.gitBranch, call.request.now);
    assert Identified(marked);
    IdentifiedAppends(log, result.subject, DECOMMISSION);
    IdentifiedAppends(log, marked, REGISTER);
  }

  lemma RunKeepsIdentified(call: Call, log: seq<Payload>, w: World)
    requires call.family == Components && AllIdentified(log)
    ensures AllIdentified(Run(call, log, w).log)
  {
    hide Fold; hide Keyed; hide IsListing; hide Sweep; hide AllIdentified; hide Identified; hide Normal; hide Jobs;
    hide Settled; hide AllEntries;
    var jobs, s := Jobs(call, Snapshot(call.family, log)), Run(call, log, w);
    FoldIsIdentified(log);
    JobsAreWellPlanned(call, log);
    SweepAccounts(call, jobs, log, w);
    forall i | 0 <= i < |s.results|
      ensures Identified(s.results[i].subject) && Normal(Components, s.results[i].subject)
    {
      assert jobs[i] in jobs;
    }
    EntriesAreIdentified(call, log, s.results);
  }

  lemma NextKeepsIdentified(s: System, a: Action)
    requires AllIdentified(s.log) && (a.Vend? ==> GivesId(a.vend))
    ensures AllIdentified(Next(Components, s, a).log)
  {
    hide AllIdentified; hide Fold; hide Keyed; hide IsListing; hide Run; hide FromEvent; hide EffectOf;
    hide GivesId; hide Location;
    match a {
      case Vend(v) =>
        var prNumber := if v.opensPr then NextId(s.world, VendPlace(v).repo).number else 0;
        VendIsIdentified(v, prNumber, s.now);
        AppendIdentified(s.log, ToEvent(Components, VendedRecord(v, prNumber, s.now), REGISTER));
      case ReclaimRun(_, _, _, _, _, _) => RunKeepsIdentified(CallOf(Components, s, a), s.log, s.world);
      case _ =>
    }
  }

  lemma AppendIdentified(log: seq<Payload>, p: Payload)
    requires AllIdentified(log)
    requires FromEvent(Components, p).Some? ==> Identified(FromEvent(Components, p).value)
    ensures AllIdentified(log + [p])
  {
    hide FromEvent; hide Identified;
  }

  lemma {:induction false} HistoryIsIdentified(start: System, actions: seq<Action>)
    requires Initial(start) && VendsComponents(actions)
    ensures AllIdentified(Exec(Components, start, actions).log)
  {
    hide Next;
    if actions != [] {
      hide AllIdentified; hide GivesId;
      var n := |actions| - 1;
      assert actions[n] in actions && forall a | a in actions[..n] :: a in actions;
      HistoryIsIdentified(start, actions[..n]);
      NextKeepsIdentified(Exec(Components, start, actions[..n]), actions[n]);
    }
  }

  /** In every history of vended components whose kinds have no hyphen, entity ids serve as identities. */
  lemma EveryHistoryRefines(start: System, actions: seq<Action>)
    requires Initial(start) && VendsComponents(actions)
    ensures var log := Exec(Components, start, actions).log;
      Refines(Fold(Components, log), FoldByName(log))
  {
    hide Exec; hide AllIdentified; hide Fold; hide FoldByName; hide VendsComponents; hide Initial; hide Refines;
    HistoryIsIdentified(start, actions);
    KeyedByIdRefinesKeyedByName(Exec(Components, start, actions).log);
  }
}
