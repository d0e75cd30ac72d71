/**
 Which records a run works on, told from the fields of record and request, and that the name and kind
 of a request protect all others.
 */
module Selection {
  import opened Text
  import opened Records
  import opened Registry
  import opened GitOps
  import opened Reclaim
  import opened ReclaimTheorems
  import opened Histories

  /** The request names the record: by its name, if it gives one, and a component also by its kind. */
  predicate IsAskedFor(call: Call, r: Record) {
    && (call.request.name != "" ==> r.name == Strip(call.request.name))
    && (call.family == Components && call.request.kind != "" ==> r.group == Strip(call.request.kind))
  }

  /** The grounds on which a record is worked on, in each of the three ways. */
  predicate HasGrounds(call: Call, mode: Mode, r: Record) {
    var marked := Norm(r.status) == "expired" && r.prNumber > 0;
    var due := r.expiresAt.Some? && r.expiresAt.value <= call.request.now;
    match mode
    case RegistryFinalize => marked
    case AutoReclaim => due && IsEligible(r.group, call.config.auto)
    case DecommissionReview =>
      && due && !marked && !IsEligible(r.group, call.config.auto)
      && (call.config.configured == {} || IsEligible(r.group, call.config.configured))
  }

  lemma SelectedIff(call: Call, records: seq<Record>, job: Job)
    requires job.record in records ==> Strip(job.record.group) != ""
    ensures job in Jobs(call, records) <==>
      job.record in records && IsAskedFor(call, job.record) && HasGrounds(call, job.mode, job.record)
  {
    JobMembers(call, records);
    var pending, auto, review := PendingJobs(call, records), AutoJobs(call, records), ReviewJobs(call, records);
    hide PendingJobs; hide AutoJobs; hide ReviewJobs; hide IsEligible; hide ReviewGroups; hide ObservedGroups;
    hide Norm; hide Strip;
    assert job in Jobs(call, records) <==> job in pending || job in auto || job in review;
    hide Jobs;
    if job.record in records {
      ReviewEligibility(job.record, records, call.config.auto, call.config.configured);
    }
  }

  /** A run works on exactly the registered records that are asked for, on exactly the grounds they give. */
  lemma WorksOnIff(call: Call, log: seq<Payload>, job: Job)
    ensures job in Jobs(call, Snapshot(call.family, log)) <==>
      && Key(call.family, job.record) in Fold(call.family, log)
      && Fold(call.family, log)[Key(call.family, job.record)] == job.record
      && IsAskedFor(call, job.record) && HasGrounds(call, job.mode, job.record)
  {
    hide IsListing; hide Keyed; hide Fold; hide Jobs; hide Norm; hide IsAskedFor; hide HasGrounds;
    SnapshotMembers(call.family, log);
    SelectedIff(call, Snapshot(call.family, log), job);
  }

  /** Finalizations come first, then automatic reclaims, then reviews, and each of the three by key. */
  lemma JobsInOrder(call: Call, log: seq<Payload>, i: nat, j: nat)
    requires i < j < |Jobs(call, Snapshot(call.family, log))|
    ensures var jobs := Jobs(call, Snapshot(call.family, log));
      match (jobs[i].mode, jobs[j].mode)
      case (RegistryFinalize, AutoReclaim) => true
      case (RegistryFinalize, DecommissionReview) => true
      case (AutoReclaim, DecommissionReview) => true
      case (early, late) => early == late && Before(Key(call.family, jobs[i].record), Key(call.family, jobs[j].record))
  {
    hide IsListing; hide Keyed; hide Fold; hide Key; hide Before; hide Select;
    var records := Snapshot(call.family, log);
    SnapshotMembers(call.family, log);
    JobMembers(call, records);
    SelectKeepsOrder(call.family, RegistryFinalize, r => IsPending(call, r), records);
    SelectKeepsOrder(call.family, AutoReclaim, r => IsAuto(call, r), records);
    SelectKeepsOrder(
      call.family, DecommissionReview, r => IsForReview(call, ReviewGroupsFor(call, records), r), records);
    var pending, auto, review := PendingJobs(call, records), AutoJobs(call, records), ReviewJobs(call, records);
    hide PendingJobs; hide AutoJobs; hide ReviewJobs;
    assert forall k | 0 <= k < |pending| :: pending[k] in pending;
    assert forall k | 0 <= k < |auto| :: auto[k] in auto;
    assert forall k | 0 <= k < |review| :: review[k] in review;
  }

  /** What a named run that selects nothing is told: what the first record that is asked for lacks. */
  lemma DiagnosisIff(call: Call, records: seq<Record>, i: nat)
    requires i <= |records| && forall j | 0 <= j < i :: !IsAskedFor(call, records[j])
    requires i < |records| ==> IsAskedFor(call, records[i]) && Strip(records[i].group) != ""
    ensures Diagnose(call, records) ==
      if i == |records| then Raised(NotRegistered)
      else
        var r := records[i];
        if r.expiresAt.None? || call.request.now < r.expiresAt.value then Raised(NotExpired)
        else if Norm(r.status) == "expired" && r.prNumber > 0 then Raised(UnderReview)
        else if IsEligible(r.group, call.config.auto) || call.config.configured == {}
          || IsEligible(r.group, call.config.configured) then Returned
        else Raised(NotEligible)
  {
    FirstMatchIsFirst(call, records);
    hide IsEligible; hide ReviewGroups; hide ObservedGroups; hide Norm; hide Strip; hide FirstMatch;
    assert forall r :: MatchesFilter(call, r) <==> IsAskedFor(call, r);
    hide MatchesFilter; hide IsAskedFor;
    if i < |records| {
      ReviewEligibility(records[i], records, call.config.auto, call.config.configured);
    }
  }

  /**
   The filters protect: every result is about a record that is asked for, every other record keeps
   what is registered for it, and no pull request is opened but for records that are asked for.
   */
  lemma FiltersProtect(call: Call, log: seq<Payload>, w: World)
    requires Sane(w)
    ensures var s := Run(call, log, w);
      var before, after := Fold(call.family, log), Fold(call.family, s.log);
      && (forall r | r in s.results :: IsAskedFor(call, r.subject))
      && (forall key | key in before && !IsAskedFor(call, before[key]) :: key in after && after[key] == before[key])
      && (forall id | id in s.world.prs && id !in w.prs ::
            exists key | key in before ::
              IsAskedFor(call, before[key]) && IsRemovalOf(call.config, before[key], id, s.world.prs[id]))
  {
    hide IsListing; hide Keyed; hide Fold; hide Jobs; hide IsAskedFor; hide HasGrounds; hide Sweep; hide Sane;
    hide Warranted; hide IsRemovalOf; hide Key;
    var jobs := Jobs(call, Snapshot(call.family, log));
    SweepAccounts(call, jobs, log, w);
    hide AllEntries; hide Settled;
    var s := Run(call, log, w);
    var before, after := Fold(call.family, log), Fold(call.family, s.log);
    forall r | r in s.results ensures IsAskedFor(call, r.subject) {
      var i :| 0 <= i < |s.results| && s.results[i] == r;
      WorksOnIff(call, log, jobs[i]);
    }
    forall key | key in before && !IsAskedFor(call, before[key]) ensures key in after && after[key] == before[key] {
      if key !in after || after[key] != before[key] {
        ChangeIsWarranted(call, log, w, key);
      }
    }
    forall id | id in s.world.prs && id !in w.prs
      ensures exists key | key in before ::
        IsAskedFor(call, before[key]) && IsRemovalOf(call.config, before[key], id, s.world.prs[id])
    {
      var job := RunOpensForExpired(call, log, w, id);
      WorksOnIff(call, log, job);
      assert IsRemovalOf(call.config, before[Key(call.family, job.record)], id, s.world.prs[id]);
    }
  }
}
