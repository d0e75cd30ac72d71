/**
 The reclaim orchestrator over one registry file and one Git host, step by step.
 */
module ReclaimRun {
  import opened Text
  import opened Records
  import opened Sorting
  import opened Registry
  import opened GitOps
  import opened Reclaim

  function Tagged(mode: Mode, records: seq<Record>): seq<Job> {
    seq(|records|, i requires 0 <= i < |records| => Job(mode, records[i]))
  }

  // ----- Worklists -----

  function Picked(jobs: seq<Job>): seq<Record> {
    seq(|jobs|, i requires 0 <= i < |jobs| => jobs[i].record)
  }

  method ListPendingReviews(call: Call, records: seq<Record>) returns (eligible: seq<Record>)
    ensures eligible == Sorted(ByKey(call.family), Picked(PendingJobs(call, records)))
  {
    hide MatchesFilter; hide HasOpenReview; hide Sorted;
    eligible := [];
    ghost var keep := r => IsPending(call, r);
    for i := 0 to |records|
      invariant eligible == Picked(Select(RegistryFinalize, keep, records[..i]))
    {
      assert records[..i + 1][..i] == records[..i];
      if MatchesFilter(call, records[i]) && HasOpenReview(records[i]) {
        eligible := eligible + [records[i]];
      }
    }
    assert records[..|records|] == records;
    eligible := Sort(ByKey(call.family), eligible);
  }

  method ListExpired(call: Call, records: seq<Record>) returns (eligible: seq<Record>)
    ensures eligible == Sorted(ByKey(call.family), Picked(AutoJobs(call, records)))
  {
    hide MatchesFilter; hide IsEligible; hide IsExpired; hide Sorted;
    eligible := [];
    ghost var keep := r => IsAuto(call, r);
    for i := 0 to |records|
      invariant eligible == Picked(Select(AutoReclaim, keep, records[..i]))
    {
      assert records[..i + 1][..i] == records[..i];
      var r := records[i];
      if !MatchesFilter(call, r) { continue; }
      if !IsEligible(r.group, call.config.auto) { continue; }
      if !IsExpired(r, call.request.now) { continue; }
      eligible := eligible + [r];
    }
    assert records[..|records|] == records;
    eligible := Sort(ByKey(call.family), eligible);
  }

  method ListExpiredForReview(call: Call, records: seq<Record>) returns (eligible: seq<Record>)
    ensures eligible == Sorted(ByKey(call.family), Picked(ReviewJobs(call, records)))
  {
    hide MatchesFilter; hide IsEligible; hide IsExpired; hide HasOpenReview; hide Sorted; hide ReviewGroups;
    eligible := [];
    var review := ReviewGroupsFor(call, records);
    ghost var keep := r => IsForReview(call, ReviewGroupsFor(call, records), r);
    for i := 0 to |records|
      invariant eligible == Picked(Select(DecommissionReview, keep, records[..i]))
    {
      assert records[..i + 1][..i] == records[..i];
      var r := records[i];
      if !MatchesFilter(call, r) { continue; }
      if IsEligible(r.group, call.config.auto) { continue; }
      if !IsEligible(r.group, review) { continue; }
      if !IsExpired(r, call.request.now) { continue; }
      if HasOpenReview(r) { continue; }
      eligible := eligible + [r];
    }
    assert records[..|records|] == records;
    eligible := Sort(ByKey(call.family), eligible);
  }

  /** From a listing the worklists come in order, so they are the job lists of the run. */
  lemma SelectionIsSorted(family: Family, mode: Mode, keep: Record -> bool, records: seq<Record>)
    requires SortedByKey(family, records)
    ensures var jobs := Select(mode, keep, records);
      Tagged(mode, Sorted(ByKey(family), Picked(jobs))) == jobs
  {
    var jobs := Select(mode, keep, records);
    SelectKeepsOrder(family, mode, keep, records);
    SelectMembers(mode, keep, records);
    hide Select; hide Before; hide Key;
    assert forall i | 0 <= i < |jobs| :: jobs[i] in jobs && Picked(jobs)[i] == jobs[i].record;
    StrictIsOrder(ByKey(family), Picked(jobs));
    SortedFixes(ByKey(family), Picked(jobs));
  }

  lemma WorklistsAreJobs(call: Call, records: seq<Record>)
    requires SortedByKey(call.family, records)
    ensures var key := ByKey(call.family);
      && Tagged(RegistryFinalize, Sorted(key, Picked(PendingJobs(call, records)))) == PendingJobs(call, records)
      && Tagged(AutoReclaim, Sorted(key, Picked(AutoJobs(call, records)))) == AutoJobs(call, records)
      && Tagged(DecommissionReview, Sorted(key, Picked(ReviewJobs(call, records)))) == ReviewJobs(call, records)
  {
    hide Select; hide Tagged; hide Sorted; hide Picked; hide SortedByKey;
    SelectionIsSorted(call.family, RegistryFinalize, r => IsPending(call, r), records);
    SelectionIsSorted(call.family, AutoReclaim, r => IsAuto(call, r), records);
    SelectionIsSorted(
      call.family, DecommissionReview, r => IsForReview(call, ReviewGroupsFor(call, records), r), records);
  }

  // ----- One record -----

  method ValidateRecordFields(r: Record) returns (missing: Option<Reason>)
    ensures missing == MissingField(r)
  {
    var repo := Strip(r.gitopsRepo);
    var path := Trim(IsSlash, Strip(r.gitopsPath));
    if repo == "" { return Some(NoRepo); }
    if path == "" { return Some(NoPath); }
    return None;
  }

  method FinalizeMergedDecommission(call: Call, reply: Reply, r: Record, registry: RegistryFile, host: Host)
    returns (attempt: Attempt)
    requires registry.family == call.family
    modifies registry
    ensures Turn(registry.log, host.world, attempt) == FinalizeTurn(call, reply, r, old(registry.log), host.world)
  {
    var missing := ValidateRecordFields(r);
    if missing.Some? { return Refused(missing.value); }
    if reply.fault == CrashEarly { return Aborted; }
    var state := host.ResolveMergeState(r, reply);
    if state == IsOpen {
      return Done(Result(r, RegistryFinalize, false, true, StillOpen, r.gitBranch, r.prUrl, r.prNumber, true));
    }
    if state == IsClosed {
      return Done(Result(r, RegistryFinalize, false, true, ClosedUnmerged, r.gitBranch, r.prUrl, r.prNumber, true));
    }
    if state != IsMerged { return Refused(StateUnknown); }
    if call.request.dryRun {
      return Done(Result(r, RegistryFinalize, false, false, NotSkipped, r.gitBranch, r.prUrl, r.prNumber, true));
    }
    var ok := registry.Decommission(r);
    if !ok { return Aborted; }
    attempt := Done(Result(r, RegistryFinalize, true, false, NotSkipped, r.gitBranch, r.prUrl, r.prNumber, true));
  }

  method ReclaimResource(call: Call, reply: Reply, r: Record, registry: RegistryFile, host: Host)
    returns (attempt: Attempt)
    requires registry.family == call.family
    modifies registry, host
    ensures Turn(registry.log, host.world, attempt)
         == DecommissionTurn(call, AutoReclaim, reply, r, old(registry.log), old(host.world))
  {
    hide Strip; hide Trim; hide HasOpenPr; hide ToEvent;
    var missing := ValidateRecordFields(r);
    if missing.Some? { return Refused(missing.value); }
    if reply.fault == CrashEarly { return Aborted; }
    var branch := call.config.branchOf(r.name);
    if call.request.dryRun {
      return Done(Result(r, AutoReclaim, false, false, NotSkipped, branch, "", 0, false));
    }
    if !call.request.token { return Refused(NoToken); }
    var outcome := host.ExecuteDecommissionPr(r, branch, reply);
    match outcome {
      case NotOpened(refusal) => return Refused(HostRefused(refusal));
      case Failed => return Aborted;
      case PathAbsent =>
        var ok := registry.Decommission(r);
        if !ok { return Aborted; }
        return Done(Result(r, AutoReclaim, true, false, NotSkipped, branch, "", 0, false));
      case Opened(number, url) =>
        var ok := registry.Decommission(r);
        if !ok { return Aborted; }
        return Done(Result(r, AutoReclaim, true, false, NotSkipped, branch, url, number, false));
    }
  }

  method RequestDecommissionReview(call: Call, reply: Reply, r: Record, registry: RegistryFile, host: Host)
    returns (attempt: Attempt)
    requires registry.family == call.family
    modifies registry, host
    ensures Turn(registry.log, host.world, attempt)
         == DecommissionTurn(call, DecommissionReview, reply, r, old(registry.log), old(host.world))
  {
    hide Strip; hide Trim; hide HasOpenPr; hide ToEvent;
    var missing := ValidateRecordFields(r);
    if missing.Some? { return Refused(missing.value); }
    if reply.fault == CrashEarly { return Aborted; }
    var branch := call.config.branchOf(r.name);
    if call.request.dryRun {
      return Done(Result(r, DecommissionReview, false, false, NotSkipped, branch, "", 0, true));
    }
    if !call.request.token { return Refused(NoToken); }
    var outcome := host.ExecuteDecommissionPr(r, branch, reply);
    match outcome {
      case NotOpened(refusal) => return Refused(HostRefused(refusal));
      case Failed => return Aborted;
      case PathAbsent =>
        var ok := registry.Decommission(r);
        if !ok { return Aborted; }
        return Done(Result(r, DecommissionReview, true, false, NotSkipped, branch, "", 0, false));
      case Opened(number, url) =>
        var stamped := registry.MarkExpired(r, url, number, branch, call.request.now);
        if stamped.None? { return Aborted; }
        return Done(Result(r, DecommissionReview, false, false, NotSkipped, branch, url, number, true));
    }
  }

  // ----- The three loops -----

  lemma {:induction false} SweepConcat(call: Call, early: seq<Job>, late: seq<Job>, s: State)
    ensures Sweep(call, early + late, s) == Sweep(call, late, Sweep(call, early, s))
  {
    if late == [] {
      assert early + late == early;
    } else {
      assert (early + late)[..|early + late| - 1] == early + late[..|late| - 1];
      SweepConcat(call, early, late[..|late| - 1], s);
    }
  }

  lemma {:induction false} SweepStaysCrashed(call: Call, jobs: seq<Job>, s: State)
    requires s.crashed
    ensures Sweep(call, jobs, s) == s
  {
    if jobs != [] {
      SweepStaysCrashed(call, jobs[..|jobs| - 1], s);
    }
  }

  /** One more record of a worklist; a crash there is the end of the whole list. */
  lemma SweepTakes(call: Call, mode: Mode, records: seq<Record>, i: nat, s: State)
    requires i < |records|
    ensures var next := Step(call, Job(mode, records[i]), Sweep(call, Tagged(mode, records[..i]), s));
      && Sweep(call, Tagged(mode, records[..i + 1]), s) == next
      && (next.crashed ==> Sweep(call, Tagged(mode, records), s) == next)
  {
    var done, rest := Tagged(mode, records[..i + 1]), Tagged(mode, records[i + 1..]);
    assert done[..i] == Tagged(mode, records[..i]);
    assert Tagged(mode, records) == done + rest;
    SweepConcat(call, done, rest, s);
    if Sweep(call, done, s).crashed {
      SweepStaysCrashed(call, rest, Sweep(call, done, s));
    }
  }

  method FinalizePending(call: Call, pending: seq<Record>, registry: RegistryFile, host: Host)
    returns (results: seq<Result>, crashed: bool)
    requires registry.family == call.family
    modifies registry
    ensures State(registry.log, host.world, results, crashed)
         == Sweep(call, Tagged(RegistryFinalize, pending), State(old(registry.log), host.world, [], false))
  {
    results, crashed := [], false;
    hide FinalizeTurn; hide DecommissionTurn;
    ghost var start := State(registry.log, host.world, [], false);
    for i := 0 to |pending|
      invariant !crashed
      invariant State(registry.log, host.world, results, crashed)
             == Sweep(call, Tagged(RegistryFinalize, pending[..i]), start)
    {
      SweepTakes(call, RegistryFinalize, pending, i, start);
      var r := pending[i];
      if !call.request.token {
        results := results +
          [Result(r, RegistryFinalize, false, true, NoToken, r.gitBranch, r.prUrl, r.prNumber, true)];
      } else {
        var attempt := FinalizeMergedDecommission(call, call.replies(|results|), r, registry, host);
        match attempt {
          case Done(result) => results := results + [result];
          case Refused(reason) =>
            results := results + [Result(r, RegistryFinalize, false, true, reason, "", "", 0, false)];
          case Aborted => crashed := true; return;
        }
      }
    }
    assert pending[..|pending|] == pending;
  }

  method ReclaimExpiredAuto(call: Call, expired: seq<Record>, registry: RegistryFile, host: Host, earlier: seq<Result>)
    returns (results: seq<Result>, crashed: bool)
    requires registry.family == call.family
    modifies registry, host
    ensures State(registry.log, host.world, results, crashed)
         == Sweep(call, Tagged(AutoReclaim, expired), State(old(registry.log), old(host.world), earlier, false))
  {
    results, crashed := earlier, false;
    hide FinalizeTurn; hide DecommissionTurn;
    ghost var start := State(registry.log, host.world, earlier, false);
    for i := 0 to |expired|
      invariant !crashed
      invariant State(registry.log, host.world, results, crashed)
             == Sweep(call, Tagged(AutoReclaim, expired[..i]), start)
    {
      SweepTakes(call, AutoReclaim, expired, i, start);
      var attempt := ReclaimResource(call, call.replies(|results|), expired[i], registry, host);
      match attempt {
        case Done(result) => results := results + [result];
        case Refused(reason) =>
          results := results + [Result(expired[i], AutoReclaim, false, true, reason, "", "", 0, false)];
        case Aborted => crashed := true; return;
      }
    }
    assert expired[..|expired|] == expired;
  }

  method RequestReviews(call: Call, expired: seq<Record>, registry: RegistryFile, host: Host, earlier: seq<Result>)
    returns (results: seq<Result>, crashed: bool)
    requires registry.family == call.family
    modifies registry, host
    ensures State(registry.log, host.world, results, crashed)
         == Sweep(call, Tagged(DecommissionReview, expired), State(old(registry.log), old(host.world), earlier, false))
  {
    results, crashed := earlier, false;
    hide FinalizeTurn; hide DecommissionTurn;
    ghost var start := State(registry.log, host.world, earlier, false);
    for i := 0 to |expired|
      invariant !crashed
      invariant State(registry.log, host.world, results, crashed)
             == Sweep(call, Tagged(DecommissionReview, expired[..i]), start)
    {
      SweepTakes(call, DecommissionReview, expired, i, start);
      var attempt := RequestDecommissionReview(call, call.replies(|results|), expired[i], registry, host);
      match attempt {
        case Done(result) => results := results + [result];
        case Refused(reason) =>
          results := results + [Result(expired[i], DecommissionReview, false, true, reason, "", "", 0, true)];
        case Aborted => crashed := true; return;
      }
    }
    assert expired[..|expired|] == expired;
  }

  // ----- The orchestrator -----

  /** `next(item for item in records if ...)`, then the reasons in order. */
  method ValidateFilter(call: Call, records: seq<Record>) returns (ending: Ending)
    ensures ending == Diagnose(call, records)
  {
    var i := 0;
    while i < |records| && !MatchesFilter(call, records[i])
      invariant i <= |records|
      invariant FirstMatch(call, records[i..]) == FirstMatch(call, records)
    {
      assert records[i..][1..] == records[i + 1..];
      i := i + 1;
    }
    if i == |records| { return Raised(NotRegistered); }
    var match_ := records[i];
    if !IsExpired(match_, call.request.now) { return Raised(NotExpired); }
    if HasOpenReview(match_) { return Raised(UnderReview); }
    var auto := IsEligible(match_.group, call.config.auto);
    var review := IsEligible(match_.group, ReviewGroupsFor(call, records));
    if !auto && !review { return Raised(NotEligible); }
    return Returned;
  }

  method ReclaimExpired(call: Call, registry: RegistryFile, host: Host)
    returns (results: seq<Result>, ending: Ending)
    requires registry.family == call.family
    modifies registry, host
    ensures var s := Run(call, old(registry.log), old(host.world));
      && registry.log == s.log && host.world == s.world && results == s.results
      && ending == EndingOf(call, Snapshot(call.family, old(registry.log)), s)
  {
    hide Fold; hide Keyed; hide Step; hide SortedByKey;
    hide PendingJobs; hide AutoJobs; hide ReviewJobs;
    var records := registry.Read();
    SnapshotMembers(call.family, registry.log);
    hide IsListing;
    WorklistsAreJobs(call, records);
    hide Sorted; hide Picked;
    var pending := ListPendingReviews(call, records);
    ghost var start := State(registry.log, host.world, [], false);
    ghost var afterPending := Sweep(call, PendingJobs(call, records), start);
    ghost var afterAuto := Sweep(call, AutoJobs(call, records), afterPending);
    SweepConcat(call, PendingJobs(call, records), AutoJobs(call, records), start);
    SweepConcat(call, PendingJobs(call, records) + AutoJobs(call, records), ReviewJobs(call, records), start);
    if afterPending.crashed { SweepStaysCrashed(call, AutoJobs(call, records), afterPending); }
    if afterAuto.crashed { SweepStaysCrashed(call, ReviewJobs(call, records), afterAuto); }
    hide Tagged; hide Sweep;
    var crashed;
    results, crashed := FinalizePending(call, pending, registry, host);
    if crashed {
      return results, Crashed;
    }
    var auto := ListExpired(call, records);
    var review := ListExpiredForReview(call, records);
    results, crashed := ReclaimExpiredAuto(call, auto, registry, host, results);
    if crashed {
      return results, Crashed;
    }
    results, crashed := RequestReviews(call, review, registry, host, results);
    if crashed {
      return results, Crashed;
    }
    ending := Returned;
    if call.request.name != "" && auto == [] && review == [] {
      ending := ValidateFilter(call, records);
    }
  }
}
