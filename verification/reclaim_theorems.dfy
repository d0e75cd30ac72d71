/**
 What every reclaim run guarantees about the registry, whatever the Git host answers.
 */
module ReclaimTheorems {
  import opened Text
  import opened Records
  import opened Registry
  import opened GitOps
  import opened Reclaim

  // ----- The plan of a run -----

  /** Jobs work on registered records, and a review job never shares its key with an earlier job. */
  ghost predicate WellPlanned(family: Family, jobs: seq<Job>, current: map<string, Record>) {
    && (forall job | job in jobs ::
          && Key(family, job.record) in current
          && current[Key(family, job.record)] == job.record
          && Normal(family, job.record))
    && (forall i, j | 0 <= i < j < |jobs| && jobs[j].mode == DecommissionReview ::
          Key(family, jobs[i].record) != Key(family, jobs[j].record))
  }

  lemma JobsAreWellPlanned(call: Call, log: seq<Payload>)
    ensures WellPlanned(call.family, Jobs(call, Snapshot(call.family, log)), Fold(call.family, log))
  {
    hide Normal; hide IsListing; hide Keyed; hide Fold; hide Select; hide IsPending; hide IsAuto; hide IsForReview;
    hide Before;
    var records := Snapshot(call.family, log);
    var early, review := PendingJobs(call, records) + AutoJobs(call, records), ReviewJobs(call, records);
    SnapshotMembers(call.family, log);
    JobMembers(call, records);
    SelectKeepsOrder(
      call.family, DecommissionReview, r => IsForReview(call, ReviewGroupsFor(call, records), r), records);
    forall job | job in early ensures job.mode != DecommissionReview {
      assert job in PendingJobs(call, records) || job in AutoJobs(call, records);
    }
    forall job, next | job in early && next in review
      ensures Key(call.family, job.record) != Key(call.family, next.record)
    {
      EarlyJobsAreNotForReview(call, log, job, next);
    }
    hide PendingJobs; hide AutoJobs;
    ReviewKeysAreNew(call.family, early, review);
    assert forall job | job in early + review :: job in early || job in review;
  }

  lemma ReviewKeysAreNew(family: Family, early: seq<Job>, review: seq<Job>)
    requires forall job | job in early :: job.mode != DecommissionReview
    requires forall i, j | 0 <= i < j < |review| :: Before(Key(family, review[i].record), Key(family, review[j].record))
    requires forall job, next | job in early && next in review :: Key(family, job.record) != Key(family, next.record)
    ensures var jobs := early + review;
      forall i, j | 0 <= i < j < |jobs| && jobs[j].mode == DecommissionReview ::
        Key(family, jobs[i].record) != Key(family, jobs[j].record)
  {
    hide Key;
    var jobs := early + review;
    forall i, j | 0 <= i < j < |jobs| && jobs[j].mode == DecommissionReview
      ensures Key(family, jobs[i].record) != Key(family, jobs[j].record)
    {
      if j >= |early| {
        assert jobs[j] in review;
        var key := Key(family, jobs[j].record);
        BeforeIsStrictOrder(key, key, key);
        if i < |early| { assert jobs[i] in early; }
      }
    }
  }

  lemma EarlyJobsAreNotForReview(call: Call, log: seq<Payload>, early: Job, job: Job)
    requires var records := Snapshot(call.family, log);
      early in PendingJobs(call, records) + AutoJobs(call, records) && job in ReviewJobs(call, records)
    ensures Key(call.family, early.record) != Key(call.family, job.record)
  {
    var records := Snapshot(call.family, log);
    SnapshotMembers(call.family, log);
    JobMembers(call, records);
    assert early in PendingJobs(call, records) || early in AutoJobs(call, records);
  }

  // ----- The registry after a run -----

  predicate Drops(family: Family, result: Result, key: string) {
    result.reclaimed && Key(family, result.subject) == key
  }

  predicate Marks(call: Call, result: Result, key: string) {
    !call.request.dryRun && IsMark(result) && Key(call.family, result.subject) == key
  }

  /**
   The results alone determine the registry: the dropped keys are gone, each marked key holds its
   old record with the new status and pull request, and every other key holds its old record.
   */
  ghost predicate Explains(call: Call, before: map<string, Record>, results: seq<Result>, after: map<string, Record>) {
    && (forall k :: k in after <==> k in before && forall r | r in results :: !Drops(call.family, r, k))
    && (forall k, r | k in after && r in results && Marks(call, r, k) ::
          after[k] == MarkedBy(before[k], r, call.request.now))
    && (forall k | k in after && (forall r | r in results :: !Marks(call, r, k)) :: after[k] == before[k])
  }

  lemma ExplainsGrows(
    call: Call, before: map<string, Record>, results: seq<Result>, result: Result, m: map<string, Record>)
    requires var key := Key(call.family, result.subject);
      key in before && before[key] == result.subject
    requires Explains(call, before, results, m)
    requires IsMark(result) ==>
      forall r | r in results :: Key(call.family, r.subject) != Key(call.family, result.subject)
    ensures Explains(call, before, results + [result], Updated(call, result, m))
  {
    hide MarkedBy; hide Key; hide IsMark;
    var after, all := Updated(call, result, m), results + [result];
    assert forall r :: r in all <==> r in results || r == result;
    DropsGrow(call, before, results, result, m);
    hide Drops;
    assert Marks(call, result, Key(call.family, result.subject)) ==>
        forall r | r in results :: !Marks(call, r, Key(call.family, result.subject));
    forall k, r | k in after && r in all && Marks(call, r, k)
      ensures after[k] == MarkedBy(before[k], r, call.request.now)
    {
    }
    forall k | k in after && (forall r | r in all :: !Marks(call, r, k)) ensures after[k] == before[k] {
      assert !Marks(call, result, k);
      assert forall r | r in results :: r in all && !Marks(call, r, k);
    }
  }

  lemma DropsGrow(
    call: Call, before: map<string, Record>, results: seq<Result>, result: Result, m: map<string, Record>)
    requires Key(call.family, result.subject) in before
    requires forall k :: k in m <==> k in before && forall r | r in results :: !Drops(call.family, r, k)
    requires IsMark(result) ==>
      forall r | r in results :: Key(call.family, r.subject) != Key(call.family, result.subject)
    ensures forall k :: k in Updated(call, result, m) <==>
      k in before && forall r | r in results + [result] :: !Drops(call.family, r, k)
  {
    hide Key; hide MarkedBy;
    forall k ensures (forall r | r in results + [result] :: !Drops(call.family, r, k)) <==>
        (forall r | r in results :: !Drops(call.family, r, k)) && !Drops(call.family, result, k)
    {
      assert result in results + [result] && forall r | r in results :: r in results + [result];
    }
  }

  function Updated(call: Call, result: Result, m: map<string, Record>): map<string, Record> {
    var key := Key(call.family, result.subject);
    if result.reclaimed then m - {key}
    else if Marks(call, result, key) then m[key := MarkedBy(result.subject, result, call.request.now)]
    else m
  }

  lemma ExplainOneMore(
    call: Call, before: map<string, Record>, results: seq<Result>, result: Result,
    log: seq<Payload>)
    requires var key := Key(call.family, result.subject);
      key in before && before[key] == result.subject && Normal(call.family, result.subject)
    requires Explains(call, before, results, Fold(call.family, log))
    requires result.mode == DecommissionReview ==>
      forall r | r in results :: Key(call.family, r.subject) != Key(call.family, result.subject)
    requires call.request.dryRun ==> !result.reclaimed
    requires Settled(call, result)
    ensures Explains(call, before, results + [result], Fold(call.family, log + EntriesOf(call, result)))
  {
    hide Fold; hide Keyed; hide Explains; hide Normal; hide ToEvent; hide Expired; hide Stamped;
    var marked := MarkedBy(result.subject, result, call.request.now);
    assert log + [] == log;
    ExplainsGrows(call, before, results, result, Fold(call.family, log));
    if !call.request.dryRun && result.reclaimed {
      ReadAfterWrite(call.family, log, result.subject);
    } else if !call.request.dryRun && IsMark(result) {
      ExpiredIsNormal(call.family, result.subject, result.prUrl, result.prNumber, result.gitBranch, call.request.now);
      ReadAfterWrite(call.family, log, marked);
    }
  }

  lemma WellPlannedPrefix(family: Family, jobs: seq<Job>, current: map<string, Record>)
    requires jobs != [] && WellPlanned(family, jobs, current)
    ensures WellPlanned(family, jobs[..|jobs| - 1], current)
  {
    hide Key; hide Normal;
    assert forall job | job in jobs[..|jobs| - 1] :: job in jobs;
  }

  lemma {:induction false} SweepExplains(call: Call, jobs: seq<Job>, log: seq<Payload>, w: World)
    requires WellPlanned(call.family, jobs, Fold(call.family, log))
    ensures var s := Sweep(call, jobs, State(log, w, [], false));
      Explains(call, Fold(call.family, log), s.results, Fold(call.family, s.log))
  {
    if jobs != [] {
      hide Explains; hide Sweep; hide Fold;
      WellPlannedPrefix(call.family, jobs, Fold(call.family, log));
      hide WellPlanned; hide Keyed;
      SweepExplains(call, jobs[..|jobs| - 1], log, w);
      StepExplains(call, jobs, log, w);
    } else {
      hide Fold;
    }
  }

  lemma StepExplains(call: Call, jobs: seq<Job>, log: seq<Payload>, w: World)
    requires jobs != [] && WellPlanned(call.family, jobs, Fold(call.family, log))
    requires var s := Sweep(call, jobs[..|jobs| - 1], State(log, w, [], false));
      Explains(call, Fold(call.family, log), s.results, Fold(call.family, s.log))
    ensures var s := Sweep(call, jobs, State(log, w, [], false));
      Explains(call, Fold(call.family, log), s.results, Fold(call.family, s.log))
  {
    hide Step; hide Fold; hide Explains; hide EntriesOf; hide AllEntries; hide Key; hide Keyed; hide Settled;
    hide Normal;
    var n := |jobs| - 1;
    var s := Sweep(call, jobs[..n], State(log, w, [], false));
    assert Sweep(call, jobs, State(log, w, [], false)) == Step(call, jobs[n], s);
    hide Sweep;
    SweepAccounts(call, jobs[..n], log, w);
    if s.crashed {
      CrashedStays(call, jobs[n], s);
    } else {
      StepAccounts(call, jobs[n], s);
      var t := Step(call, jobs[n], s);
      if !t.crashed {
        var result := t.results[n];
        assert t.results == s.results + [result];
        assert jobs[n] in jobs;
        forall r | r in s.results && result.mode == DecommissionReview
          ensures Key(call.family, r.subject) != Key(call.family, result.subject)
        {
          var i :| 0 <= i < n && s.results[i] == r;
          assert r.subject == jobs[i].record;
        }
        ExplainOneMore(call, Fold(call.family, log), s.results, result, s.log);
      }
    }
  }

  /**
   No run resurrects a record from its stale snapshot. However the run ends, and even when one
   record is processed twice, the folded log is the old registry changed exactly as the results say.
   */
  lemma NoResurrection(call: Call, log: seq<Payload>, w: World)
    ensures var s := Run(call, log, w);
      Explains(call, Fold(call.family, log), s.results, Fold(call.family, s.log))
  {
    JobsAreWellPlanned(call, log);
    SweepExplains(call, Jobs(call, Snapshot(call.family, log)), log, w);
  }

  // ----- Accounting -----

  function CountEntries(event: string, log: seq<Payload>): nat {
    if log == [] then 0
    else CountEntries(event, log[..|log| - 1]) + if Get(log[|log| - 1], Event, "") == event then 1 else 0
  }

  predicate IsReclaimed(r: Result) { r.reclaimed }

  predicate IsSkipped(r: Result) { r.skipped }

  function CountResults(p: Result -> bool, results: seq<Result>): nat {
    if results == [] then 0
    else CountResults(p, results[..|results| - 1]) + if p(results[|results| - 1]) then 1 else 0
  }

  lemma {:induction false} CountEntriesAppend(event: string, log: seq<Payload>, more: seq<Payload>)
    ensures CountEntries(event, log + more) == CountEntries(event, log) + CountEntries(event, more)
  {
    hide Get;
    if more == [] {
      assert log + more == log;
    } else {
      assert (log + more)[..|log + more| - 1] == log + more[..|more| - 1];
      CountEntriesAppend(event, log, more[..|more| - 1]);
    }
  }

  lemma {:induction false} EntriesCounted(call: Call, results: seq<Result>)
    requires forall r | r in results :: Settled(call, r)
    requires call.request.dryRun ==> forall r | r in results :: !r.reclaimed
    ensures CountEntries(DECOMMISSION, AllEntries(call, results)) == CountResults(IsReclaimed, results)
    ensures CountEntries(REGISTER, AllEntries(call, results)) ==
      if call.request.dryRun then 0 else CountResults(IsMark, results)
    ensures call.request.dryRun ==> AllEntries(call, results) == []
    ensures !call.request.dryRun ==>
      |results| == CountResults(IsReclaimed, results) + CountResults(IsSkipped, results) + CountResults(IsMark, results)
    ensures |AllEntries(call, results)| ==
      CountEntries(DECOMMISSION, AllEntries(call, results)) + CountEntries(REGISTER, AllEntries(call, results))
  {
    hide CountEntries; hide EntriesOf; hide Settled; hide IsMark;
    if results == [] {
      NothingCounted(DECOMMISSION);
      NothingCounted(REGISTER);
    } else {
      var n := |results| - 1;
      assert forall r | r in results[..n] :: r in results;
      assert results[n] in results;
      EntriesCounted(call, results[..n]);
      EntryCounted(call, results[n]);
      CountEntriesAppend(DECOMMISSION, AllEntries(call, results[..n]), EntriesOf(call, results[n]));
      CountEntriesAppend(REGISTER, AllEntries(call, results[..n]), EntriesOf(call, results[n]));
    }
  }

  lemma NothingCounted(event: string)
    ensures CountEntries(event, []) == 0
  {
  }

  lemma EntryCounted(call: Call, result: Result)
    requires Settled(call, result)
    requires call.request.dryRun ==> !result.reclaimed
    ensures var entries := EntriesOf(call, result);
      && |entries| == CountEntries(DECOMMISSION, entries) + CountEntries(REGISTER, entries)
      && CountEntries(DECOMMISSION, entries) == (if result.reclaimed then 1 else 0)
      && CountEntries(REGISTER, entries) == (if !call.request.dryRun && IsMark(result) then 1 else 0)
      && (call.request.dryRun ==> entries == [])
    ensures call.request.dryRun || result.reclaimed || result.skipped || IsMark(result)
    ensures !(result.reclaimed && (result.skipped || IsMark(result))) && !(result.skipped && IsMark(result))
  {
    hide Get; hide ToEvent; hide MarkedBy; hide Strip; hide Normal;
    DefaultsAreStripped();
    RoundTrip(call.family, result.subject, DECOMMISSION);
    RoundTrip(call.family, MarkedBy(result.subject, result, call.request.now), REGISTER);
  }

  // The figures of a run's summary, and what they leave out.

  predicate IsFinalized(r: Result) { r.mode == RegistryFinalize && r.reclaimed }

  predicate IsReviewed(r: Result) { r.mode == DecommissionReview && !r.skipped }

  predicate IsAutoReclaimed(r: Result) { r.mode == AutoReclaim && r.reclaimed }

  /** A review request that found the path absent. */
  predicate IsReviewRemoved(r: Result) { r.mode == DecommissionReview && r.reclaimed }

  datatype Summary = Summary(count: nat, reclaimed: nat, decommissionReview: nat, finalized: nat, skipped: nat)

  function SummaryOf(results: seq<Result>): Summary {
    Summary(|results|, CountResults(IsReclaimed, results), CountResults(IsReviewed, results),
            CountResults(IsFinalized, results), CountResults(IsSkipped, results))
  }

  lemma {:induction false} FiguresAddUp(call: Call, results: seq<Result>)
    requires forall i | 0 <= i < |results| :: Settled(call, results[i])
    ensures CountResults(IsReclaimed, results) ==
      CountResults(IsFinalized, results) + CountResults(IsAutoReclaimed, results)
      + CountResults(IsReviewRemoved, results)
    ensures !call.request.dryRun ==>
      CountResults(IsReviewed, results) == CountResults(IsMark, results) + CountResults(IsReviewRemoved, results)
  {
    if results != [] {
      FiguresAddUp(call, results[..|results| - 1]);
    }
  }

  /**
   A run that returns has one result for every listed record. Whatever the ending, it has appended
   as many decommission entries as its summary reports reclaimed: the finalized ones, the automatic
   ones, and the reviews whose path was absent. It has appended as many register entries as reviews it
   reports, less those removed, and a dry run has changed neither the log nor the world.
   */
  lemma RunAccounting(call: Call, log: seq<Payload>, w: World)
    ensures var s := Run(call, log, w);
      var records := Snapshot(call.family, log);
      && |s.results| <= |PendingJobs(call, records)| + |AutoJobs(call, records)| + |ReviewJobs(call, records)|
      && (!s.crashed ==>
            |s.results| == |PendingJobs(call, records)| + |AutoJobs(call, records)| + |ReviewJobs(call, records)|)
      && log <= s.log
      && var appended, summary := s.log[|log|..], SummaryOf(s.results);
      && var removed := CountResults(IsReviewRemoved, s.results);
      && CountEntries(DECOMMISSION, appended) == summary.reclaimed
      && summary.reclaimed == summary.finalized + CountResults(IsAutoReclaimed, s.results) + removed
      && CountEntries(REGISTER, appended) == (if call.request.dryRun then 0 else summary.decommissionReview - removed)
      && (call.request.dryRun ||
          summary.count == summary.reclaimed + summary.skipped + summary.decommissionReview - removed)
      && |appended| == CountEntries(DECOMMISSION, appended) + CountEntries(REGISTER, appended)
      && (call.request.dryRun ==> s.log == log && s.world == w && forall r | r in s.results :: !r.reclaimed)
  {
    hide IsListing; hide Keyed; hide Sweep; hide AllEntries; hide CountEntries; hide CountResults;
    hide PendingJobs; hide AutoJobs; hide ReviewJobs;
    var jobs := Jobs(call, Snapshot(call.family, log));
    var s := Run(call, log, w);
    SweepAccounts(call, jobs, log, w);
    EntriesCounted(call, s.results);
    FiguresAddUp(call, s.results);
    assert s.log[|log|..] == AllEntries(call, s.results);
  }

  // ----- Named runs -----

  /** What a diagnosis claims about a record that the filter selects. */
  predicate Describes(call: Call, records: seq<Record>, diagnosis: Diagnosis, r: Record) {
    match diagnosis
    case NotRegistered => false
    case NotExpired => !IsExpired(r, call.request.now)
    case UnderReview => IsExpired(r, call.request.now) && HasOpenReview(r)
    case NotEligible =>
      && IsExpired(r, call.request.now) && !HasOpenReview(r)
      && !IsEligible(r.group, call.config.auto) && !IsEligible(r.group, ReviewGroupsFor(call, records))
  }

  lemma {:induction false} FirstMatchIsFirst(call: Call, records: seq<Record>)
    ensures match FirstMatch(call, records)
      case None => forall r | r in records :: !MatchesFilter(call, r)
      case Some(r) => exists i | 0 <= i < |records| ::
        records[i] == r && MatchesFilter(call, r) && forall j | 0 <= j < i :: !MatchesFilter(call, records[j])
  {
    hide MatchesFilter;
    if records != [] {
      var rest := records[1..];
      FirstMatchIsFirst(call, rest);
      assert records == [records[0]] + rest;
      if !MatchesFilter(call, records[0]) && FirstMatch(call, rest).Some? {
        var i :| 0 <= i < |rest| && rest[i] == FirstMatch(call, rest).value
          && forall j | 0 <= j < i :: !MatchesFilter(call, rest[j]);
        assert records[i + 1] == rest[i];
        assert forall j | 1 <= j < i + 1 :: records[j] == rest[j - 1];
      }
    }
  }

  /**
   A named run that selects nothing for reclaim or review always raises, and truthfully: nothing
   registered matches, or a matching record is as described. An environment name matches at most
   one record, so there the description fits every match.
   */
  lemma NamedRunIsDiagnosed(call: Call, log: seq<Payload>)
    requires var records := Snapshot(call.family, log);
      call.request.name != "" && AutoJobs(call, records) == [] && ReviewJobs(call, records) == []
    ensures var records := Snapshot(call.family, log);
      var ending := Diagnose(call, records);
      && ending.Raised?
      && (ending.diagnosis == NotRegistered <==> forall r | r in records :: !MatchesFilter(call, r))
      && (ending.diagnosis != NotRegistered ==>
          exists r | r in records :: MatchesFilter(call, r) && Describes(call, records, ending.diagnosis, r))
      && (call.family == Environments ==>
          forall r | r in records && MatchesFilter(call, r) :: Describes(call, records, ending.diagnosis, r))
  {
    var records := Snapshot(call.family, log);
    SnapshotMembers(call.family, log);
    FirstMatchIsFirst(call, records);
    JobMembers(call, records);
    hide IsEligible; hide IsListing; hide Keyed; hide Fold; hide AutoJobs; hide ReviewJobs; hide PendingJobs;
    hide Strip; hide Normal; hide IsExpired; hide HasOpenReview; hide FirstMatch; hide ReviewGroupsFor;
    var first := FirstMatch(call, records);
    if first.Some? {
      var r := first.value;
      assert Job(AutoReclaim, r) !in AutoJobs(call, records);
      assert Job(DecommissionReview, r) !in ReviewJobs(call, records);
      if call.family == Environments {
        forall x | x in records && MatchesFilter(call, x) ensures x == r {
          assert Key(call.family, x) == Key(call.family, r);
        }
      }
    }
  }

  // ----- Raising runs -----

  /** The reply to the `i`-th pending review is an error that ends a run. */
  predicate Crashes(call: Call, i: nat, r: Record) {
    call.request.token && MissingField(r) == None && call.replies(i).fault == CrashEarly
  }

  /** The `i`-th pending review of a live run is complete, and its pull request found merged. */
  predicate Finalizes(call: Call, w: World, i: nat, r: Record) {
    && !call.request.dryRun && call.request.token
    && MissingField(r) == None && MergeStateOf(r, call.replies(i), w) == IsMerged
  }

  /** The decommission entries of the pending reviews that are finalized. */
  function FinalizedEntries(call: Call, w: World, pending: seq<Job>): seq<Payload> {
    if pending == [] then []
    else
      var n := |pending| - 1;
      FinalizedEntries(call, w, pending[..n]) +
      if Finalizes(call, w, n, pending[n].record) then [Decommissioned(call.family, pending[n].record)] else []
  }

  lemma FinalizeStep(call: Call, job: Job, s: State)
    requires !s.crashed && job.mode == RegistryFinalize && Registrable(call.family, job.record)
    ensures var i, t := |s.results|, Step(call, job, s);
      && t.world == s.world
      && (t.crashed <==> Crashes(call, i, job.record))
      && (!t.crashed ==>
            && |t.results| == i + 1
            && t.log == s.log +
                 if Finalizes(call, s.world, i, job.record) then [Decommissioned(call.family, job.record)] else [])
  {
    hide Strip; hide Trim; hide ToEvent; hide DecommissionTurn; hide MissingField; hide MergeStateOf; hide Registrable;
    assert s.log + [] == s.log;
  }

  /** The finalize loop leaves the host alone and drops exactly what is merged, unless a reply ends it. */
  lemma {:induction false} FinalizeSweep(call: Call, pending: seq<Job>, log: seq<Payload>, w: World)
    requires forall job | job in pending :: job.mode == RegistryFinalize && Registrable(call.family, job.record)
    ensures var s := Sweep(call, pending, State(log, w, [], false));
      && (s.crashed <==> exists i :: 0 <= i < |pending| && Crashes(call, i, pending[i].record))
      && s.world == w
      && (!s.crashed ==> |s.results| == |pending| && s.log == log + FinalizedEntries(call, w, pending))
  {
    hide Step; hide Crashes; hide Finalizes; hide Registrable; hide Decommissioned;
    if pending == [] {
      assert log + [] == log;
    } else {
      var n := |pending| - 1;
      var s := Sweep(call, pending[..n], State(log, w, [], false));
      assert pending[n] in pending && forall job | job in pending[..n] :: job in pending;
      FinalizeSweep(call, pending[..n], log, w);
      if s.crashed {
        CrashedStays(call, pending[n], s);
      } else {
        FinalizeStep(call, pending[n], s);
      }
    }
  }

  lemma {:induction false} NothingFinalized(call: Call, w: World, pending: seq<Job>)
    ensures FinalizedEntries(call, w, pending) == [] <==>
      forall i | 0 <= i < |pending| :: !Finalizes(call, w, i, pending[i].record)
  {
    hide Finalizes; hide Decommissioned;
    if pending != [] {
      NothingFinalized(call, w, pending[..|pending| - 1]);
    }
  }

  /** A named run that selects nothing for reclaim or review is its finalize loop. */
  lemma IdleRunOnlyFinalizes(call: Call, log: seq<Payload>, w: World)
    requires var records := Snapshot(call.family, log);
      AutoJobs(call, records) == [] && ReviewJobs(call, records) == []
    ensures var pending, s := PendingJobs(call, Snapshot(call.family, log)), Run(call, log, w);
      && (s.crashed <==> exists i :: 0 <= i < |pending| && Crashes(call, i, pending[i].record))
      && s.world == w
      && (!s.crashed ==> s.log == log + FinalizedEntries(call, w, pending))
  {
    var records := Snapshot(call.family, log);
    JobMembers(call, records);
    SnapshotMembers(call.family, log);
    hide IsListing; hide Keyed; hide Fold; hide Select; hide IsPending;
    var pending := PendingJobs(call, records);
    forall job | job in pending ensures job.mode == RegistryFinalize && Registrable(call.family, job.record) {
      assert Normal(call.family, job.record);
    }
    hide Normal; hide Registrable; hide PendingJobs; hide Sweep; hide AutoJobs; hide ReviewJobs;
    assert pending + [] + [] == pending;
    FinalizeSweep(call, pending, log, w);
  }

  /**
   A run raises exactly when it is named, selects nothing for reclaim or review, and no reply about a
   pending review ends it before.
   */
  lemma RaisesIff(call: Call, log: seq<Payload>, w: World)
    ensures var records := Snapshot(call.family, log);
      var pending := PendingJobs(call, records);
      EndingOf(call, records, Run(call, log, w)).Raised? <==>
        && call.request.name != "" && AutoJobs(call, records) == [] && ReviewJobs(call, records) == []
        && forall i | 0 <= i < |pending| :: !Crashes(call, i, pending[i].record)
  {
    hide Run; hide PendingJobs; hide AutoJobs; hide ReviewJobs; hide Crashes; hide Diagnose; hide IsListing; hide Fold;
    var records := Snapshot(call.family, log);
    if call.request.name != "" && AutoJobs(call, records) == [] && ReviewJobs(call, records) == [] {
      IdleRunOnlyFinalizes(call, log, w);
      NamedRunIsDiagnosed(call, log);
    }
  }

  /**
   What a raising run has done: it left the host alone and dropped the pending reviews found merged.
   So raising leaves the log unchanged if and only if none of them was.
   */
  lemma RaisingKeepsLogIff(call: Call, log: seq<Payload>, w: World)
    requires EndingOf(call, Snapshot(call.family, log), Run(call, log, w)).Raised?
    ensures var pending, s := PendingJobs(call, Snapshot(call.family, log)), Run(call, log, w);
      && s.world == w && s.log == log + FinalizedEntries(call, w, pending)
      && (s.log == log <==> forall i | 0 <= i < |pending| :: !Finalizes(call, w, i, pending[i].record))
  {
    hide Run; hide PendingJobs; hide AutoJobs; hide ReviewJobs; hide Crashes; hide Finalizes; hide Diagnose;
    hide IsListing; hide Fold; hide FinalizedEntries;
    var pending := PendingJobs(call, Snapshot(call.family, log));
    IdleRunOnlyFinalizes(call, log, w);
    NothingFinalized(call, w, pending);
    var entries := FinalizedEntries(call, w, pending);
    assert log + entries == log <==> entries == [] by { assert |log + entries| == |log| + |entries|; }
  }

  lemma OneMatchOneJob(call: Call, log: seq<Payload>, mode: Mode, keep: Record -> bool, r: Record)
    requires r in Snapshot(call.family, log)
    requires forall x | x in Snapshot(call.family, log) && keep(x) :: x == r
    ensures Select(mode, keep, Snapshot(call.family, log)) == if keep(r) then [Job(mode, r)] else []
  {
    var records := Snapshot(call.family, log);
    SnapshotMembers(call.family, log);
    SelectMembers(mode, keep, records);
    SelectKeepsOrder(call.family, mode, keep, records);
    hide Select;
    AtMostOneJob(call.family, Select(mode, keep, records), Job(mode, r), keep(r));
  }

  lemma AtMostOneJob(family: Family, jobs: seq<Job>, job: Job, kept: bool)
    requires forall i, j | 0 <= i < j < |jobs| :: Before(Key(family, jobs[i].record), Key(family, jobs[j].record))
    requires forall x :: x in jobs <==> x == job && kept
    ensures jobs == if kept then [job] else []
  {
    forall i | 0 <= i < |jobs| ensures jobs[i] == job && kept {
      assert jobs[i] in jobs;
    }
    if |jobs| >= 2 {
      assert Before(Key(family, jobs[0].record), Key(family, jobs[1].record));
      BeforeIsStrictOrder(Key(family, job.record), Key(family, job.record), Key(family, job.record));
      assert false;
    }
    assert kept ==> job in jobs;
    assert |jobs| == 1 ==> jobs == [jobs[0]];
  }

  /**
   An instance of `RaisingKeepsLogIff`: a live run named on an environment whose recorded decommission
   pull request is merged drops the environment first and then raises.
   */
  lemma FinalizesThenRaises(call: Call, log: seq<Payload>, w: World, r: Record)
    requires call.family == Environments && !call.request.dryRun && call.request.token
    requires r in Snapshot(call.family, log) && call.request.name == r.name
    requires HasOpenReview(r) && !IsEligible(r.group, call.config.auto) && MissingField(r) == None
    requires RecordedPr(r) in w.prs && w.prs[RecordedPr(r)].state == Merged
    requires call.replies(0).fault == NoFault
    ensures var s := Run(call, log, w);
      && s.log == log + [Decommissioned(call.family, r)]
      && Fold(call.family, s.log) == Fold(call.family, log) - {r.name}
      && EndingOf(call, Snapshot(call.family, log), s).Raised?
  {
    hide IsListing; hide Keyed; hide Fold; hide Normal; hide Run; hide MissingField; hide IsEligible;
    hide HasOpenReview;
    hide PendingJobs; hide AutoJobs; hide ReviewJobs; hide EndingOf; hide RecordedPr; hide FinalizedEntries;
    hide Finalizes; hide Crashes; hide Decommissioned;
    SnapshotMembers(call.family, log);
    NormalIsNamed(call.family, r);
    OnlyItsFinalize(call, log, r);
    MergedIsFound(call, w, r);
    OneFinalized(call, w, r);
    RaisesIff(call, log, w);
    RaisingKeepsLogIff(call, log, w);
    DecommissionDrops(log, r);
  }

  lemma DecommissionDrops(log: seq<Payload>, r: Record)
    requires Normal(Environments, r)
    ensures Fold(Environments, log + [Decommissioned(Environments, r)]) == Fold(Environments, log) - {r.name}
  {
    hide Fold; hide Normal; hide ToEvent; hide EffectOf;
    ReadAfterWrite(Environments, log, r);
  }

  lemma MergedIsFound(call: Call, w: World, r: Record)
    requires !call.request.dryRun && call.request.token
    requires HasOpenReview(r) && MissingField(r) == None
    requires RecordedPr(r) in w.prs && w.prs[RecordedPr(r)].state == Merged
    requires call.replies(0).fault == NoFault
    ensures Finalizes(call, w, 0, r) && !Crashes(call, 0, r)
  {
    hide Strip; hide Norm;
  }

  lemma OneFinalized(call: Call, w: World, r: Record)
    requires Finalizes(call, w, 0, r)
    ensures FinalizedEntries(call, w, [Job(RegistryFinalize, r)]) == [Decommissioned(call.family, r)]
  {
    hide Finalizes; hide Decommissioned;
    assert [Job(RegistryFinalize, r)][..0] == [];
  }

  lemma OnlyItsFinalize(call: Call, log: seq<Payload>, r: Record)
    requires call.family == Environments
    requires r in Snapshot(call.family, log) && call.request.name == r.name
    requires HasOpenReview(r) && !IsEligible(r.group, call.config.auto)
    ensures var records := Snapshot(call.family, log);
      && PendingJobs(call, records) == [Job(RegistryFinalize, r)]
      && AutoJobs(call, records) == [] && ReviewJobs(call, records) == []
  {
    hide IsEligible; hide IsListing; hide Keyed; hide Fold; hide Select; hide Trim; hide Clean; hide Norm;
    var records := Snapshot(call.family, log);
    SnapshotMembers(call.family, log);
    forall x | x in records && MatchesFilter(call, x) ensures x == r {
      assert Key(call.family, x) == Key(call.family, r);
    }
    OneMatchOneJob(call, log, RegistryFinalize, x => IsPending(call, x), r);
    OneMatchOneJob(call, log, AutoReclaim, x => IsAuto(call, x), r);
    OneMatchOneJob(call, log, DecommissionReview, x => IsForReview(call, ReviewGroupsFor(call, records), x), r);
  }
}
