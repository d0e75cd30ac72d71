/**
 One fault-free run in closed form: what becomes of each registered record, told from the registry
 and the world the run starts from.
 */
module FaultFreeRuns {
  import opened Text
  import opened Records
  import opened Registry
  import opened GitOps
  import opened Reclaim
  import opened ReclaimTheorems
  import opened Histories
  import opened FaultFreeSweeps

  predicate IsDue(call: Call, r: Record) { IsExpired(r, call.request.now) }

  predicate IsAutomatic(call: Call, r: Record) { IsEligible(r.group, call.config.auto) }

  /** The run tries to open a decommission pull request for the record. */
  predicate Attempted(call: Call, r: Record) {
    IsDue(call, r) && (IsAutomatic(call, r) || !HasOpenReview(r))
  }

  /** The order in which a run attempts records: automatic ones first, each group by key. */
  predicate Precedes(call: Call, r: Record, s: Record) {
    if IsAutomatic(call, r) == IsAutomatic(call, s) then Before(Key(call.family, r), Key(call.family, s))
    else IsAutomatic(call, r)
  }

  /** An attempt at `other`, if it opens its pull request, takes the branch that `r` needs later. */
  predicate InTheWay(call: Call, w: World, other: Record, r: Record) {
    && Attempted(call, other) && Precedes(call, other, r)
    && LaneOf(call, other) == LaneOf(call, r) && Location(other) in w.paths
  }

  /** When the turn of `r` comes, its branch has an open pull request already. */
  predicate Blocked(call: Call, registered: map<string, Record>, w: World, r: Record) {
    Taken(w, LaneOf(call, r)) || exists k | k in registered :: InTheWay(call, w, registered[k], r)
  }

  /** No faults, complete GitOps fields and no configured review groups. */
  ghost predicate Ready(call: Call, registered: map<string, Record>, w: World) {
    && FaultFree(call) && Sane(w) && call.config.configured == {}
    && (forall k | k in registered && (IsDue(call, registered[k]) || HasOpenReview(registered[k])) ::
          MissingField(registered[k]) == None)
  }

  /** A registered record in the worklist it belongs to. */
  ghost predicate IsJob(call: Call, registered: map<string, Record>, job: Job) {
    && Key(call.family, job.record) in registered && registered[Key(call.family, job.record)] == job.record
    && match job.mode
       case RegistryFinalize => HasOpenReview(job.record)
       case AutoReclaim => IsDue(call, job.record) && IsAutomatic(call, job.record)
       case DecommissionReview =>
         IsDue(call, job.record) && !IsAutomatic(call, job.record) && !HasOpenReview(job.record)
  }

  /** The jobs of an unfiltered run without configured review groups. */
  lemma UnfilteredJobs(call: Call, log: seq<Payload>)
    requires FaultFree(call) && call.config.configured == {}
    ensures forall job :: job in Jobs(call, Snapshot(call.family, log)) <==> IsJob(call, Fold(call.family, log), job)
  {
    var records := Snapshot(call.family, log);
    SnapshotMembers(call.family, log);
    JobMembers(call, records);
    hide IsListing; hide Keyed; hide Fold; hide IsEligible; hide HasOpenReview; hide Select; hide ReviewGroups;
    hide ObservedGroups;
    hide PendingJobs; hide AutoJobs; hide ReviewJobs;
    forall r | r in records
      ensures IsEligible(r.group, ReviewGroupsFor(call, records)) <==> !IsEligible(r.group, call.config.auto)
    {
      ReviewEligibility(r, records, call.config.auto, call.config.configured);
    }
    var pending, auto, review := PendingJobs(call, records), AutoJobs(call, records), ReviewJobs(call, records);
    assert forall job :: job in pending + auto + review <==> job in pending || job in auto || job in review;
  }

  lemma ReadyIsWorkable(call: Call, log: seq<Payload>, w: World)
    requires Ready(call, Fold(call.family, log), w)
    ensures Workable(call, Jobs(call, Snapshot(call.family, log)))
  {
    hide Fold; hide IsListing; hide Jobs; hide LaneOf; hide MissingField; hide HasOpenReview; hide IsAutomatic;
    hide IsDue; hide Sane;
    var jobs, registered := Jobs(call, Snapshot(call.family, log)), Fold(call.family, log);
    UnfilteredJobs(call, log);
    JobsAreWellPlanned(call, log);
    hide FaultFree;
    forall job | job in jobs
      ensures MissingField(job.record) == None && Registrable(call.family, job.record)
      ensures OpensPr(job) || HasOpenReview(job.record)
    {
      assert Normal(call.family, job.record);
    }
  }

  lemma PrecedesIsAsymmetric(call: Call, r: Record, s: Record)
    ensures !(Precedes(call, r, s) && Precedes(call, s, r))
  {
    hide IsAutomatic; hide Key;
    var j, k := Key(call.family, r), Key(call.family, s);
    BeforeIsStrictOrder(j, k, j);
  }

  /** Of two jobs that open pull requests the one that comes first precedes the other. */
  lemma JobsAreOrdered(call: Call, log: seq<Payload>, i: nat, j: nat)
    requires var jobs := Jobs(call, Snapshot(call.family, log));
      i < j < |jobs| && OpensPr(jobs[i]) && OpensPr(jobs[j])
    ensures var jobs := Jobs(call, Snapshot(call.family, log));
      Precedes(call, jobs[i].record, jobs[j].record)
  {
    hide Fold; hide IsListing; hide Select; hide IsEligible; hide Key; hide Before; hide SortedByKey;
    hide HasOpenReview; hide MatchesFilter;
    var records := Snapshot(call.family, log);
    SnapshotMembers(call.family, log);
    JobMembers(call, records);
    SelectKeepsOrder(call.family, AutoReclaim, r => IsAuto(call, r), records);
    SelectKeepsOrder(
      call.family, DecommissionReview, r => IsForReview(call, ReviewGroupsFor(call, records), r), records);
    OrderOfAttempts(call, PendingJobs(call, records), AutoJobs(call, records), ReviewJobs(call, records), i, j);
  }

  lemma OrderOfAttempts(call: Call, pending: seq<Job>, auto: seq<Job>, review: seq<Job>, i: nat, j: nat)
    requires forall x | 0 <= x < |pending| :: !OpensPr(pending[x])
    requires forall job | job in auto :: IsAutomatic(call, job.record)
    requires forall job | job in review :: !IsAutomatic(call, job.record)
    requires forall x, y | 0 <= x < y < |auto| ::
      Before(Key(call.family, auto[x].record), Key(call.family, auto[y].record))
    requires forall x, y | 0 <= x < y < |review| ::
      Before(Key(call.family, review[x].record), Key(call.family, review[y].record))
    requires var jobs := pending + auto + review;
      i < j < |jobs| && OpensPr(jobs[i]) && OpensPr(jobs[j])
    ensures var jobs := pending + auto + review;
      Precedes(call, jobs[i].record, jobs[j].record)
  {
    hide Key; hide Before; hide IsAutomatic;
    var p, a := |pending|, |pending| + |auto|;
    var jobs := pending + auto + review;
    assert p <= i;
    assert p <= i < a ==> jobs[i] == auto[i - p] && jobs[i] in auto;
    assert p <= j < a ==> jobs[j] == auto[j - p] && jobs[j] in auto;
    assert a <= i ==> jobs[i] == review[i - a] && jobs[i] in review;
    assert a <= j ==> jobs[j] == review[j - a] && jobs[j] in review;
  }

  /** Being blocked can be told from the registry and the world the run starts from. */
  lemma BlockedJob(call: Call, log: seq<Payload>, w: World, i: nat)
    requires Ready(call, Fold(call.family, log), w)
    requires var jobs := Jobs(call, Snapshot(call.family, log));
      i < |jobs| && OpensPr(jobs[i])
    ensures var jobs := Jobs(call, Snapshot(call.family, log));
      LastBlocked(call, w, jobs[..i + 1]) <==> Blocked(call, Fold(call.family, log), w, jobs[i].record)
  {
    hide Fold; hide Jobs; hide Ready; hide LaneOf; hide Taken; hide InTheWay; hide Claimed; hide OpensPr; hide Keyed;
    var jobs, registered := Jobs(call, Snapshot(call.family, log)), Fold(call.family, log);
    var lane := LaneOf(call, jobs[i].record);
    assert jobs[..i + 1][..i] == jobs[..i];
    if Claimed(call, w, jobs[..i], lane) {
      var k := ClaimedIsInTheWay(call, log, w, i);
    }
    forall k | k in registered && InTheWay(call, w, registered[k], jobs[i].record)
      ensures Claimed(call, w, jobs[..i], lane)
    {
      InTheWayIsClaimed(call, log, w, i, k);
    }
  }

  lemma ClaimedIsInTheWay(call: Call, log: seq<Payload>, w: World, i: nat) returns (k: string)
    requires Ready(call, Fold(call.family, log), w)
    requires var jobs := Jobs(call, Snapshot(call.family, log));
      i < |jobs| && OpensPr(jobs[i]) && Claimed(call, w, jobs[..i], LaneOf(call, jobs[i].record))
    ensures k in Fold(call.family, log)
    ensures InTheWay(call, w, Fold(call.family, log)[k], Jobs(call, Snapshot(call.family, log))[i].record)
  {
    hide Fold; hide IsListing; hide Jobs; hide IsEligible; hide Key; hide Precedes; hide HasOpenReview; hide IsDue;
    hide LaneOf; hide Location; hide Taken; hide Keyed;
    var jobs, registered := Jobs(call, Snapshot(call.family, log)), Fold(call.family, log);
    var lane := LaneOf(call, jobs[i].record);
    ReadyJobs(call, log, w);
    hide Ready;
    var job :| job in jobs[..i] && OpensPr(job) && LaneOf(call, job.record) == lane
      && Location(job.record) in w.paths;
    var j :| 0 <= j < i && jobs[..i][j] == job;
    assert jobs[j] in jobs && IsJob(call, registered, jobs[j]);
    JobsAreOrdered(call, log, j, i);
    k := Key(call.family, job.record);
  }

  lemma InTheWayIsClaimed(call: Call, log: seq<Payload>, w: World, i: nat, k: string)
    requires Ready(call, Fold(call.family, log), w) && k in Fold(call.family, log)
    requires var jobs := Jobs(call, Snapshot(call.family, log));
      i < |jobs| && OpensPr(jobs[i]) && InTheWay(call, w, Fold(call.family, log)[k], jobs[i].record)
    ensures var jobs := Jobs(call, Snapshot(call.family, log));
      Claimed(call, w, jobs[..i], LaneOf(call, jobs[i].record))
  {
    hide Fold; hide IsListing; hide Jobs; hide IsEligible; hide Key; hide Precedes; hide HasOpenReview; hide IsDue;
    hide LaneOf; hide Location; hide Taken; hide Normal; hide Keyed;
    var jobs, r := Jobs(call, Snapshot(call.family, log)), Fold(call.family, log)[k];
    ReadyJobs(call, log, w);
    FoldIsKeyed(call.family, log, k);
    hide Ready;
    var job := Job(if IsAutomatic(call, r) then AutoReclaim else DecommissionReview, r);
    assert IsJob(call, Fold(call.family, log), job);
    var j :| 0 <= j < |jobs| && jobs[j] == job;
    PrecedesIsAsymmetric(call, r, jobs[i].record);
    if i < j { JobsAreOrdered(call, log, i, j); }
    assert i != j;
    assert jobs[..i][j] == job;
  }

  ghost predicate HasAnswer(w: World, blocked: bool, job: Job, results: seq<Result>) {
    exists r | r in results :: Expected(w, blocked, job, r)
  }

  /** Jobs and results of a fault-free run answer each other. */
  lemma RunAnswers(call: Call, log: seq<Payload>, w: World)
    requires Ready(call, Fold(call.family, log), w)
    ensures var s := Run(call, log, w);
      var jobs, registered := Jobs(call, Snapshot(call.family, log)), Fold(call.family, log);
      && !s.crashed
      && (forall job | job in jobs :: HasAnswer(w, Blocked(call, registered, w, job.record), job, s.results))
      && (forall r | r in s.results :: var job := Job(r.mode, r.subject);
            job in jobs && Expected(w, Blocked(call, registered, w, job.record), job, r))
  {
    ReadyIsWorkable(call, log, w);
    var jobs, registered := Jobs(call, Snapshot(call.family, log)), Fold(call.family, log);
    SweepIsExpected(call, jobs, log, w);
    SweepAccounts(call, jobs, log, w);
    var s := Run(call, log, w);
    hide Fold; hide IsListing; hide Jobs; hide Sweep; hide Workable; hide Ready; hide Blocked; hide LastBlocked;
    hide Settled; hide AllEntries;
    forall i | 0 <= i < |jobs|
      ensures Expected(w, Blocked(call, registered, w, jobs[i].record), jobs[i], s.results[i])
    {
      if OpensPr(jobs[i]) {
        BlockedJob(call, log, w, i);
      }
    }
    hide Expected;
    forall job | job in jobs ensures HasAnswer(w, Blocked(call, registered, w, job.record), job, s.results) {
      var i :| 0 <= i < |jobs| && jobs[i] == job;
      assert s.results[i] in s.results && Expected(w, Blocked(call, registered, w, job.record), job, s.results[i]);
    }
    forall r | r in s.results
      ensures var job := Job(r.mode, r.subject);
        job in jobs && Expected(w, Blocked(call, registered, w, job.record), job, r)
    {
      var i :| 0 <= i < |jobs| && s.results[i] == r;
      assert jobs[i] == Job(r.mode, r.subject);
    }
  }

  predicate Finalized(w: World, r: Record) {
    HasOpenReview(r) && RecordedPr(r) in w.prs && w.prs[RecordedPr(r)].state == Merged
  }

  /** What a fault-free run removes. */
  predicate Leaves(call: Call, w: World, blocked: bool, r: Record) {
    || Finalized(w, r)
    || (IsDue(call, r) && !blocked &&
        (IsAutomatic(call, r) || (!HasOpenReview(r) && Location(r) !in w.paths)))
  }

  /** What a fault-free run puts under review. */
  predicate GoesUnderReview(call: Call, w: World, blocked: bool, r: Record) {
    IsDue(call, r) && !IsAutomatic(call, r) && !HasOpenReview(r) && !blocked && Location(r) in w.paths
  }

  /** The record `r` after it went under review: the same resource, with an open pull request for its path. */
  ghost predicate UnderReviewAs(call: Call, w': World, r: Record, r': Record) {
    && HasOpenReview(r') && Location(r') == Location(r)
    && r'.name == r.name && r'.group == r.group && r'.expiresAt == r.expiresAt
    && RecordedPr(r') in w'.prs
    && w'.prs[RecordedPr(r')] == PullRequest(call.config.branchOf(r.name), Open, Removes(Location(r).path))
  }

  /** What `RunAnswers` and `RunIsWarranted` say about one result. */
  ghost predicate Answer(call: Call, w: World, w': World, before: map<string, Record>, r: Result) {
    && Warranted(call, w, w', before, r)
    && Expected(w, Blocked(call, before, w, r.subject), Job(r.mode, r.subject), r)
  }

  /** The results of a fault-free run for the jobs of one record. */
  ghost predicate Answered(call: Call, w: World, blocked: bool, registered: Record, results: seq<Result>) {
    && (HasOpenReview(registered) ==>
          HasAnswer(w, blocked, Job(RegistryFinalize, registered), results))
    && (IsDue(call, registered) && IsAutomatic(call, registered) ==>
          HasAnswer(w, blocked, Job(AutoReclaim, registered), results))
    && (IsDue(call, registered) && !IsAutomatic(call, registered) && !HasOpenReview(registered) ==>
          HasAnswer(w, blocked, Job(DecommissionReview, registered), results))
  }

  lemma LeavesMeansDropped(call: Call, w: World, blocked: bool, record: Record, results: seq<Result>)
    requires Answered(call, w, blocked, record, results) && Leaves(call, w, blocked, record)
    ensures exists r | r in results :: Drops(call.family, r, Key(call.family, record))
  {
    hide Location; hide RecordedPr; hide HasOpenReview; hide IsEligible; hide Key;
    var mode := if Finalized(w, record) then RegistryFinalize
                else if IsAutomatic(call, record) then AutoReclaim else DecommissionReview;
    var r :| r in results && Expected(w, blocked, Job(mode, record), r);
    assert Drops(call.family, r, Key(call.family, record));
  }

  lemma DroppedMeansLeaves(call: Call, w: World, w': World, before: map<string, Record>, r: Result)
    requires Answer(call, w, w', before, r) && r.reclaimed
    ensures Leaves(call, w, Blocked(call, before, w, r.subject), r.subject)
  {
    hide Blocked; hide Location; hide RecordedPr; hide HasOpenReview; hide IsEligible; hide Key;
  }

  lemma MarkedMeansUnderReview(call: Call, w: World, w': World, before: map<string, Record>, r: Result)
    requires Answer(call, w, w', before, r) && IsMark(r) && Normal(call.family, r.subject)
    ensures GoesUnderReview(call, w, Blocked(call, before, w, r.subject), r.subject)
    ensures UnderReviewAs(call, w', r.subject, MarkedBy(r.subject, r, call.request.now))
  {
    hide Blocked; hide Location; hide HasOpenReview; hide IsEligible; hide Key; hide Norm; hide Strip; hide Normal;
    ExpiredIsNormal(call.family, r.subject, r.prUrl, r.prNumber, r.gitBranch, call.request.now);
    MarkedKeepsPlace(r.subject, r, call.request.now);
  }

  lemma MarkedKeepsPlace(r: Record, result: Result, now: int)
    ensures Location(MarkedBy(r, result, now)) == Location(r)
    ensures RecordedPr(MarkedBy(r, result, now)) == PrId(Location(r).repo, result.prNumber)
  {
    hide Strip; hide Trim;
  }

  lemma UnderReviewMeansMarked(call: Call, w: World, blocked: bool, record: Record, results: seq<Result>)
    requires !call.request.dryRun && Answered(call, w, blocked, record, results)
    requires GoesUnderReview(call, w, blocked, record)
    ensures exists r | r in results :: Marks(call, r, Key(call.family, record)) && r.subject == record
  {
    hide Location; hide RecordedPr; hide HasOpenReview; hide IsEligible; hide Key;
    var r :| r in results && Expected(w, blocked, Job(DecommissionReview, record), r);
    assert Marks(call, r, Key(call.family, record));
  }

  /** What a fault-free run has made of a registered record. */
  ghost predicate InClosedForm(
      call: Call, before: map<string, Record>, w: World, w': World, after: map<string, Record>, key: string)
    requires key in before
  {
    var r, blocked := before[key], Blocked(call, before, w, before[key]);
    && (key in after <==> !Leaves(call, w, blocked, r))
    && (key in after ==>
          if GoesUnderReview(call, w, blocked, r) then UnderReviewAs(call, w', r, after[key]) else after[key] == r)
  }

  lemma KeyAfterRun(
      call: Call, w: World, w': World, before: map<string, Record>, results: seq<Result>, after: map<string, Record>,
      key: string)
    requires Keyed(call.family, before) && !call.request.dryRun
    requires key in before && Answered(call, w, Blocked(call, before, w, before[key]), before[key], results)
    requires forall r | r in results :: Answer(call, w, w', before, r)
    requires Explains(call, before, results, after)
    ensures InClosedForm(call, before, w, w', after, key)
  {
    hide Leaves; hide GoesUnderReview; hide UnderReviewAs; hide Answered; hide Expected; hide Justified;
    hide Normal; hide MarkedBy;
    hide HasOpenReview; hide IsEligible; hide Key; hide Blocked;
    var blocked := Blocked(call, before, w, before[key]);
    if Leaves(call, w, blocked, before[key]) {
      LeavesMeansDropped(call, w, blocked, before[key], results);
    }
    if key !in after {
      var r :| r in results && Drops(call.family, r, key);
      DroppedMeansLeaves(call, w, w', before, r);
    } else {
      if GoesUnderReview(call, w, blocked, before[key]) {
        UnderReviewMeansMarked(call, w, blocked, before[key], results);
        var r :| r in results && Marks(call, r, Key(call.family, before[key])) && r.subject == before[key];
        MarkedMeansUnderReview(call, w, w', before, r);
      } else if after[key] != before[key] {
        var r :| r in results && Marks(call, r, key);
        MarkedMeansUnderReview(call, w, w', before, r);
      }
    }
  }

  /** A fault-free run in closed form, key by key: nothing new appears, and every record is accounted for. */
  lemma FaultFreeRun(call: Call, log: seq<Payload>, w: World)
    requires Ready(call, Fold(call.family, log), w)
    ensures var s := Run(call, log, w);
      var before, after := Fold(call.family, log), Fold(call.family, s.log);
      && !s.crashed
      && (forall k | k in after :: k in before)
      && (forall k | k in before :: InClosedForm(call, before, w, s.world, after, k))
  {
    hide Fold; hide Keyed; hide IsListing; hide Jobs; hide Run; hide InClosedForm; hide Blocked;
    var s := Run(call, log, w);
    var before, after := Fold(call.family, log), Fold(call.family, s.log);
    RunAnswers(call, log, w);
    RunIsWarranted(call, log, w);
    NoResurrection(call, log, w);
    hide Expected; hide Warranted; hide Extends; hide HasAnswer;
    forall k | k in before ensures InClosedForm(call, before, w, s.world, after, k) {
      RecordIsAnswered(call, log, w, k);
      hide Answered; hide Ready; hide Explains;
      KeyAfterRun(call, w, s.world, before, s.results, after, k);
    }
    hide Ready;
  }

  lemma FoldIsKeyed(family: Family, log: seq<Payload>, key: string)
    requires key in Fold(family, log)
    ensures Key(family, Fold(family, log)[key]) == key && Normal(family, Fold(family, log)[key])
  {
  }

  lemma ReadyJobs(call: Call, log: seq<Payload>, w: World)
    requires Ready(call, Fold(call.family, log), w)
    ensures forall job :: job in Jobs(call, Snapshot(call.family, log)) <==> IsJob(call, Fold(call.family, log), job)
  {
    UnfilteredJobs(call, log);
  }

  lemma RecordIsAnswered(call: Call, log: seq<Payload>, w: World, key: string)
    requires Ready(call, Fold(call.family, log), w) && key in Fold(call.family, log)
    ensures var r := Fold(call.family, log)[key];
      Answered(call, w, Blocked(call, Fold(call.family, log), w, r), r, Run(call, log, w).results)
  {
    hide Fold; hide IsListing; hide Jobs; hide Run; hide Expected; hide HasOpenReview; hide IsAutomatic;
    hide IsDue; hide Ready; hide Normal; hide Keyed; hide HasAnswer; hide Blocked;
    RunAnswers(call, log, w);
    ReadyJobs(call, log, w);
    FoldIsKeyed(call.family, log, key);
    var r := Fold(call.family, log)[key];
    assert HasOpenReview(r) ==> IsJob(call, Fold(call.family, log), Job(RegistryFinalize, r));
    assert IsDue(call, r) && IsAutomatic(call, r) ==> IsJob(call, Fold(call.family, log), Job(AutoReclaim, r));
    assert IsDue(call, r) && !IsAutomatic(call, r) && !HasOpenReview(r)
      ==> IsJob(call, Fold(call.family, log), Job(DecommissionReview, r));
  }
}
