/**
 Every history of vends, clock ticks, human actions on the Git host and reclaim runs, and what
 each of them keeps.
 */
module Histories {
  import opened Text
  import opened Records
  import opened Registry
  import opened GitOps
  import opened Reclaim
  import opened ReclaimTheorems

  // ----- What the host and the results have in common after a run -----

  /** Why a result of a run that started in `w` and reached `w'` was allowed to say what it says. */
  ghost predicate Justified(call: Call, w: World, w': World, result: Result) {
    var pr := PrId(Location(result.subject).repo, result.prNumber);
    && (result.reclaimed && result.mode == RegistryFinalize ==>
          RecordedPr(result.subject) in w.prs && w.prs[RecordedPr(result.subject)].state == Merged)
    && (result.reclaimed && result.mode == DecommissionReview ==> Location(result.subject) !in w.paths)
    && (result.mode != RegistryFinalize && result.prNumber > 0 ==>
          pr in w'.prs && w'.prs[pr] ==
            PullRequest(call.config.branchOf(result.subject.name), Open, Removes(Location(result.subject).path)))
  }

  /** A step opens at most one pull request, and its result is justified. */
  ghost predicate StaysJustified(call: Call, w: World, s: State, t: State) {
    && Extends(w, t.world)
    && (forall id | id in s.world.prs :: id in t.world.prs && t.world.prs[id] == s.world.prs[id])
    && (!t.crashed ==> |t.results| == |s.results| + 1 && Justified(call, w, t.world, t.results[|s.results|]))
  }

  lemma FinalizeJustified(call: Call, job: Job, w: World, s: State)
    requires !s.crashed && Extends(w, s.world) && job.mode == RegistryFinalize
    ensures StaysJustified(call, w, s, Step(call, job, s))
  {
    hide Strip; hide Trim; hide ToEvent; hide Extends; hide DecommissionTurn; hide MissingField; hide Location;
    hide Registrable;
    ExtendsFacts(w, s.world);
  }

  lemma AttemptJustified(call: Call, job: Job, w: World, s: State)
    requires !s.crashed && Extends(w, s.world) && job.mode != RegistryFinalize
    ensures StaysJustified(call, w, s, Step(call, job, s))
  {
    hide Strip; hide Trim; hide HasOpenPr; hide ToEvent; hide OpenPr; hide Extends; hide FinalizeTurn;
    hide MissingField; hide Location;
    hide Registrable; hide MarkedBy;
    var place, branch := Location(job.record), call.config.branchOf(job.record.name);
    OpenPrExtends(w, s.world, place.repo, branch, Removes(place.path));
    OpenPrRecords(s.world, place.repo, branch, Removes(place.path));
    ExtendsFacts(w, s.world);
  }

  lemma StepJustified(call: Call, job: Job, w: World, s: State)
    requires !s.crashed && Extends(w, s.world)
    ensures StaysJustified(call, w, s, Step(call, job, s))
  {
    hide Step; hide StaysJustified; hide Extends;
    if job.mode == RegistryFinalize {
      FinalizeJustified(call, job, w, s);
    } else {
      AttemptJustified(call, job, w, s);
    }
  }

  lemma OpenPrRecords(w: World, repo: string, branch: string, purpose: Purpose)
    ensures NextId(w, repo) in OpenPr(w, repo, branch, purpose).prs
    ensures OpenPr(w, repo, branch, purpose).prs[NextId(w, repo)] == PullRequest(branch, Open, purpose)
  {
  }

  lemma ExtendsFacts(w: World, w': World)
    requires Extends(w, w')
    ensures w'.paths == w.paths
    ensures forall id | id in w'.prs && w'.prs[id].state != Open :: id in w.prs && w.prs[id] == w'.prs[id]
  {
  }

  lemma {:induction false} SweepJustified(call: Call, jobs: seq<Job>, log: seq<Payload>, w: World)
    requires Sane(w)
    ensures var s := Sweep(call, jobs, State(log, w, [], false));
      Extends(w, s.world) && forall r | r in s.results :: Justified(call, w, s.world, r)
  {
    if jobs != [] {
      var n := |jobs| - 1;
      var start := State(log, w, [], false);
      var s := Sweep(call, jobs[..n], start);
      SweepJustified(call, jobs[..n], log, w);
      hide Step; hide Extends; hide Sane;
      assert Sweep(call, jobs, start) == Step(call, jobs[n], s);
      hide Sweep;
      if s.crashed {
        CrashedStays(call, jobs[n], s);
      } else {
        StepJustified(call, jobs[n], w, s);
        StepAccounts(call, jobs[n], s);
        var t := Step(call, jobs[n], s);
        forall r | r in t.results ensures Justified(call, w, t.world, r) {
          var i :| 0 <= i < |t.results| && t.results[i] == r;
          if i < |s.results| {
            assert t.results[..|s.results|][i] == r;
            assert r in s.results;
          }
        }
      }
    }
  }

  /** An open pull request on the branch of this record that removes its path. */
  predicate IsRemovalOf(config: Config, r: Record, id: PrId, pr: PullRequest) {
    id.repo == Location(r).repo && pr == PullRequest(config.branchOf(r.name), Open, Removes(Location(r).path))
  }

  /** The pull request that a job opens, if it opens one. */
  predicate IsPrFor(call: Call, job: Job, id: PrId, pr: PullRequest) {
    && job.mode != RegistryFinalize && IsRemovalOf(call.config, job.record, id, pr)
    && Location(job.record).repo != "" && Location(job.record).path != ""
  }

  /** Whatever the host replies, a step that opens a pull request opens it for its job. */
  lemma StepOpensForJob(call: Call, job: Job, s: State, id: PrId)
    requires id in Step(call, job, s).world.prs && id !in s.world.prs
    ensures IsPrFor(call, job, id, Step(call, job, s).world.prs[id])
  {
    hide HasOpenPr; hide ToEvent; hide Registrable; hide MarkedBy; hide Location; hide MergeStateOf;
  }

  lemma {:induction false} SweepOpensForJobs(call: Call, jobs: seq<Job>, log: seq<Payload>, w: World, id: PrId)
    requires Sane(w) && id !in w.prs && id in Sweep(call, jobs, State(log, w, [], false)).world.prs
    ensures exists job | job in jobs ::
      IsPrFor(call, job, id, Sweep(call, jobs, State(log, w, [], false)).world.prs[id])
  {
    var n := |jobs| - 1;
    var s := Sweep(call, jobs[..n], State(log, w, [], false));
    SweepJustified(call, jobs[..n], log, w);
    hide Step; hide Extends; hide Sane; hide IsPrFor; hide Justified;
    assert jobs[n] in jobs && forall job | job in jobs[..n] :: job in jobs;
    if id !in s.world.prs {
      StepOpensForJob(call, jobs[n], s, id);
    } else {
      SweepOpensForJobs(call, jobs[..n], log, w, id);
      if s.crashed {
        CrashedStays(call, jobs[n], s);
      } else {
        StepJustified(call, jobs[n], w, s);
      }
    }
  }

  // ----- Systems and their actions -----

  /** When a resource was vended, and the TTL in hours that was resolved for it then. */
  datatype Birth = Birth(at: int, ttlHours: Option<int>)

  datatype System = System(log: seq<Payload>, world: World, now: int, births: map<string, Birth>)

  /** A vend, with the TTL settings in force at that time. A dry run opens no pull request. */
  datatype VendRequest = VendRequest(
    name: string,
    group: string,
    entityId: string,
    description: Description,
    gitopsRepo: string,
    gitopsPath: string,
    gitBranch: string,
    prUrl: string,
    opensPr: bool,
    draft: bool,
    vendedBy: string,
    defaultTtlHours: int,
    ttlHoursByGroup: seq<(string, int)>)

  datatype Action =
    | Vend(vend: VendRequest)
    | Tick(seconds: nat)
    | MergePr(id: PrId)
    | ClosePr(id: PrId)
    | ReopenPr(id: PrId)
    | OpenOther(repo: string, branch: string, purpose: Purpose)
    | EditPath(place: Place, present: bool)
    | ReclaimRun(config: Config, dryRun: bool, token: bool, name: string, kind: string, replies: nat -> Reply)

  function VendPlace(v: VendRequest): Place {
    Place(Strip(v.gitopsRepo), Trim(IsSlash, Strip(v.gitopsPath)))
  }

  /** `build_environment_record_from_vend` and `build_component_record_from_vend`. */
  function VendedRecord(v: VendRequest, prNumber: int, now: int): Record {
    Record(v.name, v.group, v.entityId, v.description, v.gitopsRepo, v.gitopsPath, v.gitBranch, v.prUrl, prNumber,
           v.vendedBy, Some(now), ExpiryOf(ResolveTtl(v.group, v.defaultTtlHours, v.ttlHoursByGroup), now),
           if v.draft then "pending" else "active")
  }

  function VendStep(family: Family, s: System, v: VendRequest): System {
    var id := NextId(s.world, VendPlace(v).repo);
    var r := VendedRecord(v, if v.opensPr then id.number else 0, s.now);
    var entry := ToEvent(family, r, REGISTER);
    var effect := EffectOf(family, entry);
    var world := if v.opensPr then OpenPr(s.world, id.repo, v.gitBranch, Adds(VendPlace(v).path)) else s.world;
    if !Registrable(family, r) then s.(world := world)
    else System(
      s.log + [entry], world, s.now,
      if effect.Put?
      then s.births[effect.key := Birth(s.now, ResolveTtl(v.group, v.defaultTtlHours, v.ttlHoursByGroup))]
      else s.births)
  }

  /** A human changes the state of a pull request; merging one applies it to the base branch. */
  function SetPrState(w: World, id: PrId, state: PrState): World {
    if id !in w.prs || w.prs[id].state == Merged then w
    else
      var pr := w.prs[id];
      w.(prs := w.prs[id := pr.(state := state)],
         paths := if state != Merged then w.paths
                  else match pr.purpose
                    case Removes(path) => w.paths - {Place(id.repo, path)}
                    case Adds(path) => w.paths + {Place(id.repo, path)}
                    case Unrelated => w.paths)
  }

  function CallOf(family: Family, s: System, a: Action): Call
    requires a.ReclaimRun?
  {
    Call(family, a.config, Request(a.dryRun, a.token, a.name, a.kind, s.now), a.replies)
  }

  ghost function Next(family: Family, s: System, a: Action): System {
    match a
    case Vend(v) => VendStep(family, s, v)
    case Tick(seconds) => s.(now := s.now + seconds)
    case MergePr(id) => s.(world := SetPrState(s.world, id, Merged))
    case ClosePr(id) => s.(world := SetPrState(s.world, id, Closed))
    case ReopenPr(id) => s.(world := SetPrState(s.world, id, Open))
    case OpenOther(repo, branch, purpose) => s.(world := OpenPr(s.world, repo, branch, purpose))
    case EditPath(place, present) =>
      s.(world := s.world.(paths := if present then s.world.paths + {place} else s.world.paths - {place}))
    case ReclaimRun(_, _, _, _, _, _) =>
      var end := Run(CallOf(family, s, a), s.log, s.world);
      s.(log := end.log, world := end.world)
  }

  ghost function Exec(family: Family, s: System, actions: seq<Action>): System {
    if actions == [] then s
    else Next(family, Exec(family, s, actions[..|actions| - 1]), actions[|actions| - 1])
  }

  /** An empty registry beside any repositories whose pull requests are properly numbered. */
  ghost predicate Initial(s: System) {
    s.log == [] && Sane(s.world)
  }

  // ----- The invariant -----

  /** What is known of one registered record. */
  ghost predicate RecordInv(world: World, now: int, births: map<string, Birth>, key: string, r: Record) {
    && key in births
    && r.vendedAt == Some(births[key].at)
    && births[key].at <= now
    && r.expiresAt == ExpiryOf(births[key].ttlHours, births[key].at)
    && (Norm(r.status) == "expired" ==> IsExpired(r, now))
    && (HasOpenReview(r) ==>
          RecordedPr(r) in world.prs && world.prs[RecordedPr(r)].purpose == Removes(Location(r).path))
  }

  ghost predicate Inv(family: Family, s: System) {
    && Sane(s.world)
    && var current := Fold(family, s.log);
       forall k | k in current :: RecordInv(s.world, s.now, s.births, k, current[k])
  }

  /** Pull requests may change state but keep their purpose, and none disappears. */
  ghost predicate KeepsPrs(w: World, w': World) {
    forall id | id in w.prs :: id in w'.prs && w'.prs[id].purpose == w.prs[id].purpose
  }

  lemma RecordInvLater(w: World, w': World, now: int, now': int, births: map<string, Birth>, key: string, r: Record)
    requires RecordInv(w, now, births, key, r) && KeepsPrs(w, w') && now <= now'
    ensures RecordInv(w', now', births, key, r)
  {
    hide Norm; hide Strip; hide Trim;
  }

  lemma WorldStepKeepsInv(family: Family, s: System, s': System)
    requires Inv(family, s) && s'.log == s.log && s'.births == s.births
    requires s.now <= s'.now && Sane(s'.world) && KeepsPrs(s.world, s'.world)
    ensures Inv(family, s')
  {
    hide RecordInv; hide Fold; hide Keyed; hide KeepsPrs; hide Sane;
    forall k | k in Fold(family, s.log)
      ensures RecordInv(s'.world, s'.now, s'.births, k, Fold(family, s.log)[k])
    {
      RecordInvLater(s.world, s'.world, s.now, s'.now, s.births, k, Fold(family, s.log)[k]);
    }
  }

  lemma VendedIsNew(family: Family, v: VendRequest, prNumber: int, now: int)
    ensures var effect := EffectOf(family, ToEvent(family, VendedRecord(v, prNumber, now), REGISTER));
      && !effect.Drop?
      && (effect.Put? ==>
            && Norm(effect.record.status) != "expired"
            && effect.record.vendedAt == Some(now)
            && effect.record.expiresAt == ExpiryOf(ResolveTtl(v.group, v.defaultTtlHours, v.ttlHoursByGroup), now))
  {
    hide Clean; hide Trim; hide Normal; hide DescriptionFrom; hide DescriptionToText; hide ResolveTtl; hide ExpiryOf;
    DefaultsAreStripped();
    assert Stripped("pending") by { PendingIsStripped(); }
    RoundTrip(family, VendedRecord(v, prNumber, now), REGISTER);
    assert Lower("pending")[0] == 'p' && Lower("active")[0] == 'a';
  }

  /** What a vend puts down: the request, stripped, with its pull request, and an expiry by the TTL that applies. */
  lemma VendedAs(family: Family, v: VendRequest, prNumber: int, now: int)
    ensures var effect := EffectOf(family, ToEvent(family, VendedRecord(v, prNumber, now), REGISTER));
      effect.Put? ==>
        var r := effect.record;
        && r.name == Strip(v.name) && r.group == OrElse(Strip(v.group), "sandbox") && r.entityId == Strip(v.entityId)
        && Location(r) == VendPlace(v) && r.gitBranch == Strip(v.gitBranch)
        && r.prUrl == Strip(v.prUrl) && r.prNumber == prNumber
        && r.status == (if v.draft then "pending" else "active")
  {
    hide Clean; hide Trim; hide Normal; hide DescriptionFrom; hide DescriptionToText; hide ResolveTtl; hide ExpiryOf;
    hide FromEvent;
    DefaultsAreStripped();
    PendingIsStripped();
    var entry := ToEvent(family, VendedRecord(v, prNumber, now), REGISTER);
    if EffectOf(family, entry).Put? { ParsedFields(family, entry); }
  }

  /** A vend that changes the registry records the pull request it opened, which adds the path of the record. */
  lemma VendIsRecorded(family: Family, s: System, v: VendRequest, key: string)
    requires var before, after := Fold(family, s.log), Fold(family, VendStep(family, s, v).log);
      key in after && (key !in before || after[key] != before[key])
    ensures var s' := VendStep(family, s, v);
      var r := Fold(family, s'.log)[key];
      && r.vendedAt == Some(s.now) && key in s'.births && s'.births[key].at == s.now
      && (if v.opensPr then
            && r.prNumber > 0 && RecordedPr(r) in s'.world.prs
            && s'.world.prs[RecordedPr(r)] == PullRequest(v.gitBranch, Open, Adds(Location(r).path))
          else r.prNumber == 0 && s'.world == s.world)
  {
    hide Fold; hide EffectOf; hide ToEvent; hide VendedRecord; hide Normal; hide ResolveTtl; hide Registrable;
    var prNumber := if v.opensPr then NextId(s.world, VendPlace(v).repo).number else 0;
    VendedIsNew(family, v, prNumber, s.now);
    VendedAs(family, v, prNumber, s.now);
    FoldAppend(family, s.log, ToEvent(family, VendedRecord(v, prNumber, s.now), REGISTER));
    var r := Fold(family, VendStep(family, s, v).log)[key];
    assert Location(r).repo == Strip(r.gitopsRepo);
    assert Strip(Strip(v.gitopsRepo)) == Strip(v.gitopsRepo);
    hide Strip; hide Trim;
  }

  /** The expiry of a vended record: the first positive entry for its group decides, or else a positive default. */
  lemma VendedExpiry(family: Family, v: VendRequest, prNumber: int, now: int, hours: int)
    requires hours > 0
    ensures var effect := EffectOf(family, ToEvent(family, VendedRecord(v, prNumber, now), REGISTER));
      effect.Put? ==>
        (effect.record.expiresAt == Some(now + 3600 * hours) <==>
          || (exists i :: IsFirstPositive(v.group, v.ttlHoursByGroup, i) && v.ttlHoursByGroup[i].1 == hours)
          || (v.defaultTtlHours == hours
              && forall i | 0 <= i < |v.ttlHoursByGroup| ::
                Norm(v.ttlHoursByGroup[i].0) == Norm(v.group) ==> v.ttlHoursByGroup[i].1 <= 0))
  {
    hide EffectOf; hide ToEvent; hide VendedRecord; hide Norm; hide ResolveTtl; hide IsFirstPositive;
    VendedIsNew(family, v, prNumber, now);
    TtlResolvesTo(v.group, v.defaultTtlHours, v.ttlHoursByGroup, hours);
  }

  lemma PendingIsStripped()
    ensures Stripped("pending")
  {
  }

  lemma VendKeepsInv(family: Family, s: System, v: VendRequest)
    requires Inv(family, s)
    ensures Inv(family, VendStep(family, s, v))
  {
    hide RecordInv; hide Fold; hide Keyed; hide EffectOf; hide ToEvent; hide VendedRecord; hide Normal; hide Strip;
    hide Trim; hide ResolveTtl;
    var id := NextId(s.world, VendPlace(v).repo);
    var prNumber := if v.opensPr then id.number else 0;
    var r := VendedRecord(v, prNumber, s.now);
    var effect := EffectOf(family, ToEvent(family, r, REGISTER));
    var s' := VendStep(family, s, v);
    VendedIsNew(family, v, prNumber, s.now);
    OpenPrExtends(s.world, s.world, id.repo, v.gitBranch, Adds(VendPlace(v).path));
    assert KeepsPrs(s.world, s'.world);
    WorldStepKeepsInv(family, s, s.(world := s'.world));
    if Registrable(family, r) {
      FoldAppend(family, s.log, ToEvent(family, r, REGISTER));
      forall k | k in Fold(family, s'.log)
        ensures RecordInv(s'.world, s'.now, s'.births, k, Fold(family, s'.log)[k])
      {
        if effect.Put? && k == effect.key {
          FreshRecordInv(s'.world, s.now, s'.births, k, effect.record);
        } else {
          OtherBirthsDoNotMatter(s'.world, s.now, s.births, s'.births, k, Fold(family, s.log)[k]);
        }
      }
    }
  }

  lemma FreshRecordInv(w: World, now: int, births: map<string, Birth>, key: string, r: Record)
    requires key in births && births[key].at == now && r.vendedAt == Some(now)
    requires r.expiresAt == ExpiryOf(births[key].ttlHours, now) && Norm(r.status) != "expired"
    ensures RecordInv(w, now, births, key, r)
  {
    hide Norm; hide Location;
  }

  lemma OtherBirthsDoNotMatter(
      w: World, now: int, births: map<string, Birth>, births': map<string, Birth>, key: string, r: Record)
    requires RecordInv(w, now, births, key, r)
    requires key in births ==> key in births' && births'[key] == births[key]
    ensures RecordInv(w, now, births', key, r)
  {
    hide Norm; hide Location;
  }

  // ----- What a reclaim run may change -----

  /** A result about a registered record, with the reason its worklist gave. */
  ghost predicate Warranted(call: Call, w: World, w': World, current: map<string, Record>, result: Result) {
    var r := result.subject;
    && Justified(call, w, w', result)
    && Key(call.family, r) in current && current[Key(call.family, r)] == r
    && match result.mode
       case RegistryFinalize => HasOpenReview(r)
       case AutoReclaim => IsEligible(r.group, call.config.auto) && IsExpired(r, call.request.now)
       case DecommissionReview =>
         !IsEligible(r.group, call.config.auto) && IsExpired(r, call.request.now) && !HasOpenReview(r)
  }

  lemma RunIsWarranted(call: Call, log: seq<Payload>, w: World)
    requires Sane(w)
    ensures var s := Run(call, log, w);
      Extends(w, s.world) && forall r | r in s.results :: Warranted(call, w, s.world, Fold(call.family, log), r)
  {
    var records := Snapshot(call.family, log);
    var jobs := Jobs(call, records);
    JobMembers(call, records);
    SnapshotMembers(call.family, log);
    hide IsListing; hide Keyed; hide Fold; hide Normal; hide IsEligible; hide HasOpenReview; hide Location;
    hide MatchesFilter;
    SweepAccounts(call, jobs, log, w);
    SweepJustified(call, jobs, log, w);
    hide Sweep; hide Justified; hide AllEntries; hide PendingJobs; hide AutoJobs; hide ReviewJobs; hide Settled;
    hide Extends;
    var s := Run(call, log, w);
    forall r | r in s.results ensures Warranted(call, w, s.world, Fold(call.family, log), r) {
      var i :| 0 <= i < |s.results| && s.results[i] == r;
      assert jobs[i] in jobs;
    }
  }

  /** Whatever a run changed about a registered record, one of its results warrants the change. */
  lemma ChangeIsWarranted(call: Call, log: seq<Payload>, w: World, key: string)
    requires Sane(w) && key in Fold(call.family, log)
    requires var after := Fold(call.family, Run(call, log, w).log);
      key !in after || after[key] != Fold(call.family, log)[key]
    ensures var s := Run(call, log, w);
      exists r | r in s.results ::
        && (if key in Fold(call.family, s.log) then Marks(call, r, key) else Drops(call.family, r, key))
        && r.subject == Fold(call.family, log)[key]
        && Warranted(call, w, s.world, Fold(call.family, log), r)
  {
    hide Warranted; hide Fold; hide Keyed; hide Run; hide Drops; hide Marks;
    NoResurrection(call, log, w);
    RunIsWarranted(call, log, w);
    var s := Run(call, log, w);
    var gone := key !in Fold(call.family, s.log);
    var r :| r in s.results && if gone then Drops(call.family, r, key) else Marks(call, r, key);
    SubjectIsCurrent(call, w, s.world, Fold(call.family, log), r, key);
  }

  lemma SubjectIsCurrent(call: Call, w: World, w': World, current: map<string, Record>, r: Result, key: string)
    requires Warranted(call, w, w', current, r) && (Drops(call.family, r, key) || Marks(call, r, key))
    ensures key in current && r.subject == current[key]
  {
  }

  /** Whatever the host replies, a run opens pull requests for registered expired records only. */
  lemma RunOpensForExpired(call: Call, log: seq<Payload>, w: World, id: PrId) returns (job: Job)
    requires Sane(w) && id !in w.prs && id in Run(call, log, w).world.prs
    ensures job in Jobs(call, Snapshot(call.family, log)) && IsPrFor(call, job, id, Run(call, log, w).world.prs[id])
    ensures var current := Fold(call.family, log);
      && Key(call.family, job.record) in current && current[Key(call.family, job.record)] == job.record
      && IsExpired(job.record, call.request.now)
  {
    var records := Snapshot(call.family, log);
    JobMembers(call, records);
    SnapshotMembers(call.family, log);
    hide Keyed; hide Fold; hide Normal; hide IsEligible; hide HasOpenReview; hide Location; hide Sweep; hide Sane;
    hide IsRemovalOf; hide MatchesFilter; hide PendingJobs; hide AutoJobs; hide ReviewJobs;
    SweepOpensForJobs(call, Jobs(call, records), log, w, id);
    job :| job in Jobs(call, records) && IsPrFor(call, job, id, Run(call, log, w).world.prs[id]);
  }

  lemma ReclaimKeepsInv(family: Family, s: System, call: Call)
    requires Inv(family, s) && call.family == family && call.request.now == s.now
    ensures var end := Run(call, s.log, s.world);
      Inv(family, s.(log := end.log, world := end.world))
  {
    hide Fold; hide Keyed; hide Run; hide Warranted; hide RecordInv; hide Extends;
    var end := Run(call, s.log, s.world);
    var s' := s.(log := end.log, world := end.world);
    var before, after := Fold(family, s.log), Fold(family, end.log);
    NoResurrection(call, s.log, s.world);
    RunIsWarranted(call, s.log, s.world);
    ExtendsKeepsPrs(s.world, end.world);
    forall k | k in after ensures RecordInv(s'.world, s'.now, s'.births, k, after[k]) {
      RecordInvLater(s.world, s'.world, s.now, s.now, s.births, k, before[k]);
      if after[k] != before[k] {
        var r :| r in end.results && Marks(call, r, k);
        MarkedRecordInv(call, s.world, end.world, s.births, before, r, k);
      }
    }
  }

  lemma ExtendsKeepsPrs(w: World, w': World)
    requires Extends(w, w')
    ensures KeepsPrs(w, w') && Sane(w')
  {
  }

  lemma MarkedRecordInv(
      call: Call, w: World, w': World, births: map<string, Birth>, before: map<string, Record>, result: Result,
      key: string)
    requires Marks(call, result, key) && Warranted(call, w, w', before, result)
    requires key in before && RecordInv(w', call.request.now, births, key, before[key])
    ensures RecordInv(w', call.request.now, births, key, MarkedBy(before[key], result, call.request.now))
  {
    hide Strip; hide Trim; hide Norm; hide IsEligible;
  }

  lemma OpenOtherKeepsInv(family: Family, s: System, repo: string, branch: string, purpose: Purpose)
    requires Inv(family, s)
    ensures Inv(family, s.(world := OpenPr(s.world, repo, branch, purpose)))
  {
    hide Fold; hide Keyed; hide RecordInv;
    OpenPrExtends(s.world, s.world, repo, branch, purpose);
    WorldStepKeepsInv(family, s, s.(world := OpenPr(s.world, repo, branch, purpose)));
  }

  lemma InvIsSane(family: Family, s: System)
    requires Inv(family, s)
    ensures Sane(s.world)
  {
    hide Sane;
  }

  lemma NextKeepsInv(family: Family, s: System, a: Action)
    requires Inv(family, s)
    ensures Inv(family, Next(family, s, a))
  {
    hide Fold; hide Keyed; hide Run; hide VendStep; hide Inv;
    match a {
      case Vend(v) => VendKeepsInv(family, s, v);
      case ReclaimRun(_, _, _, _, _, _) => ReclaimKeepsInv(family, s, CallOf(family, s, a));
      case OpenOther(repo, branch, purpose) => OpenOtherKeepsInv(family, s, repo, branch, purpose);
      case _ =>
        InvIsSane(family, s);
        WorldStepKeepsInv(family, s, Next(family, s, a));
    }
  }

  lemma {:induction false} EveryHistoryKeepsInv(family: Family, s: System, actions: seq<Action>)
    requires Initial(s)
    ensures Inv(family, Exec(family, s, actions))
  {
    hide Next; hide RecordInv;
    if actions != [] {
      hide Inv;
      EveryHistoryKeepsInv(family, s, actions[..|actions| - 1]);
      NextKeepsInv(family, Exec(family, s, actions[..|actions| - 1]), actions[|actions| - 1]);
    }
  }

  // ----- Safety over every history -----

  /** The registered record was vended with a positive TTL, and at least that many hours ago. */
  ghost predicate HasOutlived(s: System, key: string, r: Record) {
    && key in s.births
    && r.vendedAt == Some(s.births[key].at)
    && s.births[key].ttlHours.Some?
    && s.births[key].ttlHours.value > 0
    && s.now >= s.births[key].at + SECONDS_PER_HOUR * s.births[key].ttlHours.value
  }

  lemma ExpiredHasOutlived(family: Family, s: System, key: string)
    requires Inv(family, s) && key in Fold(family, s.log)
    requires var r := Fold(family, s.log)[key]; IsExpired(r, s.now) || HasOpenReview(r)
    ensures HasOutlived(s, key, Fold(family, s.log)[key])
  {
    hide Fold; hide Keyed; hide Norm; hide Location; hide RecordedPr; hide Sane;
  }

  /** The action drops or changes what is registered under the key. */
  ghost predicate ChangedBy(family: Family, s: System, a: Action, key: string) {
    var before, after := Fold(family, s.log), Fold(family, Next(family, s, a).log);
    key in before && (key !in after || after[key] != before[key])
  }

  lemma ChangedHasOutlived(family: Family, s: System, a: Action, key: string)
    requires Inv(family, s) && a.ReclaimRun? && ChangedBy(family, s, a, key)
    ensures HasOutlived(s, key, Fold(family, s.log)[key])
  {
    hide Fold; hide Keyed; hide Run; hide IsEligible; hide Justified; hide Location; hide RecordedPr; hide Norm;
    hide IsExpired; hide HasOpenReview; hide RecordInv; hide HasOutlived;
    ChangeIsWarranted(CallOf(family, s, a), s.log, s.world, key);
    ExpiredHasOutlived(family, s, key);
  }

  lemma OpenedForOutlived(family: Family, s: System, a: Action, id: PrId)
    requires Inv(family, s) && a.ReclaimRun? && id !in s.world.prs && id in Next(family, s, a).world.prs
    ensures var before := Fold(family, s.log);
      exists key | key in before ::
        HasOutlived(s, key, before[key]) && IsRemovalOf(a.config, before[key], id, Next(family, s, a).world.prs[id])
  {
    hide Fold; hide Keyed; hide Run; hide IsRemovalOf; hide IsExpired; hide HasOutlived; hide Sane; hide RecordInv;
    var job := RunOpensForExpired(CallOf(family, s, a), s.log, s.world, id);
    ExpiredHasOutlived(family, s, Key(family, job.record));
  }

  /**
   TTL safety. However the registry came about and whatever the host replies, a run drops or changes
   only records whose TTL has run out, and opens pull requests only to remove the paths of such records.
   */
  lemma TtlSafety(family: Family, start: System, actions: seq<Action>, a: Action)
    requires Initial(start) && a.ReclaimRun?
    ensures var s := Exec(family, start, actions);
      forall key | ChangedBy(family, s, a, key) :: HasOutlived(s, key, Fold(family, s.log)[key])
    ensures var s := Exec(family, start, actions);
      var before, prs := Fold(family, s.log), Next(family, s, a).world.prs;
      forall id | id in prs && id !in s.world.prs ::
        exists key | key in before ::
          HasOutlived(s, key, before[key]) && IsRemovalOf(a.config, before[key], id, prs[id])
  {
    hide Exec; hide Fold; hide Keyed; hide Next; hide IsRemovalOf; hide Inv; hide HasOutlived;
    EveryHistoryKeepsInv(family, start, actions);
    var s := Exec(family, start, actions);
    forall key | ChangedBy(family, s, a, key) ensures HasOutlived(s, key, Fold(family, s.log)[key]) {
      ChangedHasOutlived(family, s, a, key);
    }
    forall id | id in Next(family, s, a).world.prs && id !in s.world.prs
      ensures exists key | key in Fold(family, s.log) ::
        && HasOutlived(s, key, Fold(family, s.log)[key])
        && IsRemovalOf(a.config, Fold(family, s.log)[key], id, Next(family, s, a).world.prs[id])
    {
      OpenedForOutlived(family, s, a, id);
    }
  }

  /**
   A run must not be interleaved with a vend: if a key is vended anew after the run has read its
   record, the decommission entry that the run appends for that record drops the new one.
   */
  lemma InterleavedVendIsLost(family: Family, s: System, v: VendRequest, key: string)
    requires ChangedBy(family, s, Vend(v), key)
    ensures var s' := Next(family, s, Vend(v));
      && key in Fold(family, s'.log) && !HasOutlived(s', key, Fold(family, s'.log)[key])
      && key !in Fold(family, s'.log + [Decommissioned(family, Fold(family, s.log)[key])])
  {
    hide Fold; hide EffectOf; hide ToEvent; hide VendedRecord; hide Normal; hide ResolveTtl; hide Registrable;
    hide VendPlace;
    var s' := Next(family, s, Vend(v));
    var prNumber := if v.opensPr then NextId(s.world, VendPlace(v).repo).number else 0;
    VendedIsNew(family, v, prNumber, s.now);
    FoldAppend(family, s.log, ToEvent(family, VendedRecord(v, prNumber, s.now), REGISTER));
    var r := Fold(family, s.log)[key];
    ReadAfterWrite(family, s'.log, r);
  }

  /**
   Review safety. A record whose group the run does not reclaim automatically leaves the registry
   only if the decommission pull request recorded on it, which removes its own path and was never
   its vend pull request, has been merged, or if its path was already absent.
   */
  lemma ReviewSafety(family: Family, start: System, actions: seq<Action>, a: Action, key: string)
    requires Initial(start) && a.ReclaimRun?
    ensures var s := Exec(family, start, actions);
      var before, after := Fold(family, s.log), Fold(family, Next(family, s, a).log);
      key in before && key !in after && !IsEligible(before[key].group, a.config.auto) ==>
        || (&& HasOpenReview(before[key])
            && RecordedPr(before[key]) in s.world.prs
            && s.world.prs[RecordedPr(before[key])].state == Merged
            && s.world.prs[RecordedPr(before[key])].purpose == Removes(Location(before[key]).path))
        || Location(before[key]) !in s.world.paths
  {
    hide Exec; hide Fold; hide Keyed; hide Run; hide IsEligible; hide Location; hide RecordedPr; hide Norm;
    hide HasOpenReview;
    EveryHistoryKeepsInv(family, start, actions);
    var s := Exec(family, start, actions);
    var before, after := Fold(family, s.log), Fold(family, Next(family, s, a).log);
    if key in before && key !in after {
      ChangeIsWarranted(CallOf(family, s, a), s.log, s.world, key);
    }
  }
}
