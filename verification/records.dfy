/**
 Vended resources and the log entries that carry them.

 Environments and components run the same lifecycle. A `Family` says which of the two a
 registry holds; everything that differs between them is decided by that tag.
 */
module Records {
  import opened Text

  datatype Family = Environments | Components

  /** The fields the lifecycle only carries along. */
  datatype Description = Description(
    cloudProvider: string,
    tier: string,
    owner: string,
    blueprintName: string,
    blueprintVersion: string,
    gatesOutcome: string,
    sourceEntityId: string,
    runId: string)

  /** `name` is the stack or component name, `group` the environment class or component kind. */
  datatype Record = Record(
    name: string,
    group: string,
    entityId: string,
    description: Description,
    gitopsRepo: string,
    gitopsPath: string,
    gitBranch: string,
    prUrl: string,
    prNumber: int,
    vendedBy: string,
    vendedAt: Option<int>,
    expiresAt: Option<int>,
    status: string)

  /** The text keys of a log entry. A JSON object need not have them all. */
  datatype Field =
    | Event | Name | Group | EntityId | CloudProvider | Tier | Owner | BlueprintName | BlueprintVersion
    | GitopsRepo | GitopsPath | GitBranch | PrUrl | GatesOutcome | SourceEntityId | RunId | VendedBy | Status

  datatype Payload = Payload(
    text: map<Field, string>,
    prNumber: int,
    timestamp: Option<int>,
    expiresAt: Option<int>)

  const REGISTER := "register"
  const DECOMMISSION := "decommission"
  const SECONDS_PER_HOUR := 3600

  /** What the registry of a family is keyed by. */
  function Key(family: Family, r: Record): string {
    match family
    case Environments => r.name
    case Components => r.entityId
  }

  function Get(p: Payload, field: Field, default: string): (text: string)
    ensures Stripped(text)
  {
    Strip(if field in p.text then p.text[field] else default)
  }

  function DescriptionToText(family: Family, d: Description): map<Field, string> {
    var common := map[
      CloudProvider := d.cloudProvider, Tier := d.tier, Owner := d.owner,
      BlueprintName := d.blueprintName, BlueprintVersion := d.blueprintVersion,
      GatesOutcome := d.gatesOutcome, RunId := d.runId];
    if family == Environments then common[SourceEntityId := d.sourceEntityId] else common
  }

  function ToEvent(family: Family, r: Record, event: string): Payload {
    Payload(
      DescriptionToText(family, r.description)[
        Event := event][Name := r.name][Group := r.group][EntityId := r.entityId][
        GitopsRepo := r.gitopsRepo][GitopsPath := r.gitopsPath][GitBranch := r.gitBranch][
        PrUrl := r.prUrl][VendedBy := r.vendedBy][Status := r.status],
      r.prNumber, r.vendedAt, r.expiresAt)
  }

  function DescriptionFrom(family: Family, p: Payload): Description {
    Description(
      Get(p, CloudProvider, ""),
      Get(p, Tier, ""),
      Get(p, Owner, ""),
      Get(p, BlueprintName, ""),
      Get(p, BlueprintVersion, ""),
      Get(p, GatesOutcome, ""),
      if family == Environments then Get(p, SourceEntityId, "") else "",
      Get(p, RunId, ""))
  }

  /** A component also needs its kind, and an environment defaults its class and its author. */
  function FromEvent(family: Family, p: Payload): Option<Record> {
    var name, entityId := Get(p, Name, ""), Get(p, EntityId, "");
    var environment := family == Environments;
    var group := Get(p, Group, if environment then "sandbox" else "");
    if name == "" || entityId == "" || (!environment && group == "") then None
    else Some(Record(
      name,
      OrElse(group, "sandbox"),
      entityId,
      DescriptionFrom(family, p),
      Get(p, GitopsRepo, ""),
      Get(p, GitopsPath, ""),
      Get(p, GitBranch, ""),
      Get(p, PrUrl, ""),
      p.prNumber,
      if environment then OrElse(Get(p, VendedBy, "unknown"), "unknown") else Get(p, VendedBy, ""),
      p.timestamp,
      p.expiresAt,
      OrElse(Get(p, Status, "active"), "active")))
  }

  predicate DescriptionNormal(family: Family, d: Description) {
    && Stripped(d.cloudProvider) && Stripped(d.tier) && Stripped(d.owner)
    && Stripped(d.blueprintName) && Stripped(d.blueprintVersion)
    && Stripped(d.gatesOutcome) && Stripped(d.sourceEntityId) && Stripped(d.runId)
    && (family == Components ==> d.sourceEntityId == "")
  }

  /** Stripped everywhere, named, and with every defaulted field filled in. */
  predicate Normal(family: Family, r: Record) {
    && r.name != "" && Stripped(r.name)
    && r.group != "" && Stripped(r.group)
    && r.entityId != "" && Stripped(r.entityId)
    && DescriptionNormal(family, r.description)
    && Stripped(r.gitopsRepo) && Stripped(r.gitopsPath) && Stripped(r.gitBranch) && Stripped(r.prUrl)
    && Stripped(r.vendedBy) && (family == Environments ==> r.vendedBy != "")
    && r.status != "" && Stripped(r.status)
  }

  lemma DefaultsAreStripped()
    ensures Stripped("") && Stripped("sandbox") && Stripped("unknown") && Stripped("active") && Stripped("expired")
    ensures Stripped(REGISTER) && Stripped(DECOMMISSION)
  {
  }

  lemma ParsedIsNormal(family: Family, p: Payload)
    ensures var r := FromEvent(family, p);
      r.Some? ==> Normal(family, r.value) && r.value.prNumber == p.prNumber
  {
    hide Clean; hide Trim;
    DefaultsAreStripped();
  }

  /** A payload is a record exactly if it names one, with its id and, for a component, its kind. */
  lemma ParsesIff(family: Family, p: Payload)
    ensures FromEvent(family, p).Some? <==>
      Get(p, Name, "") != "" && Get(p, EntityId, "") != "" && (family == Components ==> Get(p, Group, "") != "")
  {
    DefaultsAreStripped();
  }

  /** Fields that are absent or blank get their defaults, and all others are taken as they stand. */
  lemma ParsedFields(family: Family, p: Payload)
    requires FromEvent(family, p).Some?
    ensures var r := FromEvent(family, p).value;
      && r.name == Get(p, Name, "") && r.entityId == Get(p, EntityId, "")
      && r.group == OrElse(Get(p, Group, ""), "sandbox")
      && r.status == OrElse(Get(p, Status, ""), "active")
      && r.vendedBy == OrElse(Get(p, VendedBy, ""), if family == Environments then "unknown" else "")
      && r.gitopsRepo == Get(p, GitopsRepo, "") && r.gitopsPath == Get(p, GitopsPath, "")
      && r.gitBranch == Get(p, GitBranch, "") && r.prUrl == Get(p, PrUrl, "")
      && r.prNumber == p.prNumber && r.vendedAt == p.timestamp && r.expiresAt == p.expiresAt
  {
    DefaultsAreStripped();
  }

  lemma DescriptionRoundTrip(family: Family, r: Record, event: string)
    requires DescriptionNormal(family, r.description)
    ensures DescriptionFrom(family, ToEvent(family, r, event)) == r.description
  {
    hide Clean; hide Trim;
  }

  /** The round trip holds for the normal records and for no others. */
  lemma RoundTrip(family: Family, r: Record, event: string)
    ensures FromEvent(family, ToEvent(family, r, event)) == Some(r) <==> Normal(family, r)
    ensures Get(ToEvent(family, r, event), Event, "") == Strip(event)
    ensures Get(ToEvent(family, r, event), Name, "") == Strip(r.name)
  {
    hide Clean; hide Trim; hide DescriptionFrom; hide DescriptionNormal; hide DescriptionToText;
    ParsedIsNormal(family, ToEvent(family, r, event));
    if Normal(family, r) {
      DescriptionRoundTrip(family, r, event);
    }
  }

  // ----- Time to live -----

  /** The first listed group that matches with a positive TTL, else a positive default. */
  function ResolveTtl(group: string, defaultHours: int, byGroup: seq<(string, int)>): (hours: Option<int>)
    ensures hours.Some? ==> hours.value > 0
  {
    if byGroup != [] then
      if Norm(byGroup[0].0) == Norm(group) && byGroup[0].1 > 0 then Some(byGroup[0].1)
      else ResolveTtl(group, defaultHours, byGroup[1..])
    else if defaultHours > 0 then Some(defaultHours)
    else None
  }

  /** No positive TTL resolves exactly when the default and every matching entry are unset. */
  lemma {:induction false} NoTtlResolves(group: string, defaultHours: int, byGroup: seq<(string, int)>)
    ensures ResolveTtl(group, defaultHours, byGroup).None? <==>
      defaultHours <= 0 && forall i | 0 <= i < |byGroup| :: Norm(byGroup[i].0) == Norm(group) ==> byGroup[i].1 <= 0
  {
    if byGroup != [] {
      NoTtlResolves(group, defaultHours, byGroup[1..]);
      assert forall i | 1 <= i < |byGroup| :: byGroup[i] == byGroup[1..][i - 1];
    }
  }

  /** The entry is about this group and has a positive TTL, and no earlier one is and has. */
  ghost predicate IsFirstPositive(group: string, byGroup: seq<(string, int)>, i: int) {
    && 0 <= i < |byGroup| && Norm(byGroup[i].0) == Norm(group) && byGroup[i].1 > 0
    && forall j | 0 <= j < i :: Norm(byGroup[j].0) == Norm(group) ==> byGroup[j].1 <= 0
  }

  /** The first positive entry for the group decides, and a positive default does where there is none. */
  lemma {:induction false} TtlResolvesTo(group: string, defaultHours: int, byGroup: seq<(string, int)>, hours: int)
    ensures ResolveTtl(group, defaultHours, byGroup) == Some(hours) <==>
      || (exists i :: IsFirstPositive(group, byGroup, i) && byGroup[i].1 == hours)
      || (defaultHours == hours > 0
          && forall i | 0 <= i < |byGroup| :: Norm(byGroup[i].0) == Norm(group) ==> byGroup[i].1 <= 0)
  {
    hide Norm;
    if byGroup != [] {
      var rest := byGroup[1..];
      if Norm(byGroup[0].0) == Norm(group) && byGroup[0].1 > 0 {
        assert IsFirstPositive(group, byGroup, 0);
      } else {
        TtlResolvesTo(group, defaultHours, rest, hours);
        assert forall j | 1 <= j < |byGroup| :: byGroup[j] == rest[j - 1];
        if i :| IsFirstPositive(group, rest, i) && rest[i].1 == hours {
          assert IsFirstPositive(group, byGroup, i + 1);
        }
        if i :| IsFirstPositive(group, byGroup, i) && byGroup[i].1 == hours {
          assert IsFirstPositive(group, rest, i - 1);
        }
      }
    }
  }

  function ExpiryOf(ttlHours: Option<int>, vendedAt: int): Option<int> {
    if ttlHours.None? || ttlHours.value <= 0 then None
    else Some(vendedAt + SECONDS_PER_HOUR * ttlHours.value)
  }

  predicate IsExpired(r: Record, now: int) {
    r.expiresAt.Some? && now >= r.expiresAt.value
  }

  predicate HasOpenReview(r: Record) {
    Norm(r.status) == "expired" && r.prNumber > 0
  }

  // ----- Reclaim and review groups -----

  predicate IsEligible(group: string, groups: set<string>) {
    exists g | g in groups :: Strip(g) != "" && Norm(g) == Norm(group)
  }

  function NormalGroups(groups: set<string>): set<string> {
    set g | g in groups && Strip(g) != "" :: Norm(g)
  }

  function ReviewGroups(auto: set<string>, configured: set<string>, observed: set<string>): set<string> {
    var automatic := NormalGroups(auto);
    if configured != {} then
      set g | g in configured && Strip(g) != "" && Norm(g) !in automatic :: Norm(g)
    else
      set g | g in observed && Strip(g) != "" && g !in automatic :: Norm(g)
  }

  /** The groups seen in a registry, already in comparison form. */
  function ObservedGroups(records: seq<Record>): set<string> {
    set r | r in records && Strip(r.group) != "" :: Norm(r.group)
  }

  /**
   Without configured review groups a registered group is reviewed exactly when it is not
   reclaimed automatically; with them, when one of them names it and no automatic one does.
   */
  lemma ReviewEligibility(r: Record, records: seq<Record>, auto: set<string>, configured: set<string>)
    requires r in records && Strip(r.group) != ""
    ensures IsEligible(r.group, ReviewGroups(auto, configured, ObservedGroups(records))) <==>
      !IsEligible(r.group, auto) && (configured == {} || IsEligible(r.group, configured))
  {
    var observed := ObservedGroups(records);
    var review := ReviewGroups(auto, configured, observed);
    NormTwice(r.group);
    assert Norm(r.group) in observed;
    assert Norm(r.group) in NormalGroups(auto) <==> IsEligible(r.group, auto);
    forall g: string
      ensures Norm(Norm(g)) == Norm(g) && Strip(Norm(g)) == Norm(g) && (Norm(g) == "" <==> Strip(g) == "")
    {
      NormTwice(g);
    }
    assert forall g | g in review :: g == Norm(g) && g != "";
    if !IsEligible(r.group, auto) && (configured == {} || IsEligible(r.group, configured)) {
      assert Norm(r.group) in review;
    }
  }
}
