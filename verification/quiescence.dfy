/**
 A run that has done all it was asked to leaves nothing for a second run to write.
 */
module Quiescence {
  import opened Text
  import opened Records
  import opened Registry
  import opened GitOps
  import opened Reclaim
  import opened ReclaimTheorems
  import opened Histories

  /** The run returned and skipped nothing. */
  ghost predicate Thorough(s: State) {
    !s.crashed && forall r | r in s.results :: !r.skipped
  }

  /** Every pull request that was open is open still. */
  ghost predicate StayOpen(w: World, w': World) {
    forall id | id in w.prs && w.prs[id].state == Open :: id in w'.prs && w'.prs[id] == w.prs[id]
  }

  /** The same call once more, with any replies. */
  ghost predicate SameCall(again: Call, call: Call) {
    again.family == call.family && again.config == call.config && again.request == call.request
  }

  /** A finalization of an open pull request, or an attempt at a taken branch. */
  predicate IsIdle(call: Call, w: World, job: Job) {
    if job.mode == RegistryFinalize then
      RecordedPr(job.record) in w.prs && w.prs[RecordedPr(job.record)].state == Open
    else Taken(w, LaneOf(call, job.record))
  }

  // ----- A run over idle jobs -----

  lemma {:induction false} SweepWritesNothing(call: Call, jobs: seq<Job>, log: seq<Payload>, w: World)
    requires forall job | job in jobs :: IsIdle(call, w, job)
    ensures var s := Sweep(call, jobs, State(log, w, [], false));
      s.log == log && s.world == w
  {
    if jobs != [] {
      hide Step; hide IsIdle;
      var n := |jobs| - 1;
      assert jobs[n] in jobs && forall job | job in jobs[..n] :: job in jobs;
      SweepWritesNothing(call, jobs[..n], log, w);
      StepWritesNothing(call, jobs[n], Sweep(call, jobs[..n], State(log, w, [], false)));
    }
  }

  lemma StepWritesNothing(call: Call, job: Job, s: State)
    requires IsIdle(call, s.world, job)
    ensures Step(call, job, s).log == s.log && Step(call, job, s).world == s.world
  {
    hide Location; hide Strip; hide ToEvent; hide HasOpenPr; hide OpenPr; hide MissingField; hide Registrable;
  }

  // ----- A mark takes its branch -----

  ghost predicate MarksTakeBranches(call: Call, w: World, results: seq<Result>) {
    forall i | 0 <= i < |results| && IsMark(results[i]) :: Taken(w, LaneOf(call, results[i].subject))
  }

  lemma StepTakesBranch(call: Call, job: Job, s: State)
    requires !s.crashed && !call.request.dryRun
    ensures var t := Step(call, job, s);
      !t.crashed ==>
        && |t.results| == |s.results| + 1
        && (IsMark(t.results[|s.results|]) ==> Taken(t.world, LaneOf(call, t.results[|s.results|].subject)))
  {
    hide Strip; hide Trim; hide ToEvent; hide OpenPr; hide MissingField; hide Location; hide Registrable;
    hide MergeStateOf;
    hide MarkedBy;
    var place, branch := Location(job.record), call.config.branchOf(job.record.name);
    OpenPrRecords(s.world, place.repo, branch, Removes(place.path));
  }

  lemma BranchStaysTaken(call: Call, w: World, w': World, r: Record)
    requires forall id | id in w.prs && w.prs[id].state == Open :: id in w'.prs && w'.prs[id] == w.prs[id]
    requires Taken(w, LaneOf(call, r))
    ensures Taken(w', LaneOf(call, r))
  {
    hide Location;
    var repo, branch := Location(r).repo, call.config.branchOf(r.name);
    var id :| id in w.prs && id.repo == repo && w.prs[id].branch == branch && w.prs[id].state == Open;
    assert id in w'.prs && w'.prs[id] == w.prs[id];
  }

  /** Every mark of a live run, numbered or not, leaves an open pull request on its branch. */
  lemma {:induction false} SweepTakesBranches(call: Call, jobs: seq<Job>, log: seq<Payload>, w: World)
    requires Sane(w) && !call.request.dryRun
    ensures var s := Sweep(call, jobs, State(log, w, [], false));
      MarksTakeBranches(call, s.world, s.results)
  {
    if jobs != [] {
      hide Step; hide Extends; hide Sane; hide Justified; hide MarksTakeBranches;
      var n := |jobs| - 1;
      var s := Sweep(call, jobs[..n], State(log, w, [], false));
      SweepTakesBranches(call, jobs[..n], log, w);
      SweepJustified(call, jobs[..n], log, w);
      if s.crashed {
        CrashedStays(call, jobs[n], s);
      } else {
        StepKeepsMarks(call, jobs[n], w, s);
      }
    }
  }

  lemma StepKeepsMarks(call: Call, job: Job, w: World, s: State)
    requires !s.crashed && !call.request.dryRun && Extends(w, s.world) && MarksTakeBranches(call, s.world, s.results)
    ensures var t := Step(call, job, s);
      MarksTakeBranches(call, t.world, t.results)
  {
    hide Step; hide Extends; hide Justified; hide IsMark; hide LaneOf; hide Settled; hide EntriesOf;
    StepTakesBranch(call, job, s);
    StepJustified(call, job, w, s);
    StepAccounts(call, job, s);
    var t := Step(call, job, s);
    forall i | 0 <= i < |s.results| && IsMark(s.results[i])
      ensures Taken(t.world, LaneOf(call, s.results[i].subject))
    {
      BranchStaysTaken(call, s.world, t.world, s.results[i].subject);
    }
    assert forall i | 0 <= i < |s.results| :: t.results[i] == s.results[i];
  }

  // ----- What the first run has left to do -----

  ghost predicate HasResult(job: Job, results: seq<Result>) {
    exists r | r in results :: r.mode == job.mode && r.subject == job.record
  }

  lemma JobsHaveResults(call: Call, log: seq<Payload>, w: World)
    requires !Run(call, log, w).crashed
    ensures forall job | job in Jobs(call, Snapshot(call.family, log)) :: HasResult(job, Run(call, log, w).results)
    ensures forall r | r in Run(call, log, w).results :: Settled(call, r)
  {
    hide Jobs; hide IsListing; hide Fold; hide Sweep; hide Settled; hide AllEntries;
    var jobs, s := Jobs(call, Snapshot(call.family, log)), Run(call, log, w);
    SweepAccounts(call, jobs, log, w);
    forall job | job in jobs ensures HasResult(job, s.results) {
      var i :| 0 <= i < |jobs| && jobs[i] == job;
      assert s.results[i] in s.results;
    }
  }

  /** A record that the first run left as it was is in none of its worklists. */
  lemma TreatedIsChanged(
    call: Call, before: map<string, Record>, results: seq<Result>, after: map<string, Record>, job: Job)
    requires Explains(call, before, results, after) && !call.request.dryRun
    requires forall r | r in results :: Settled(call, r) && !r.skipped
    requires HasResult(job, results)
    requires Key(call.family, job.record) in after
    ensures exists r | r in results :: Marks(call, r, Key(call.family, job.record))
  {
    hide Key; hide MarkedBy;
    var r :| r in results && r.mode == job.mode && r.subject == job.record;
    assert !Drops(call.family, r, Key(call.family, job.record));
    assert Marks(call, r, Key(call.family, job.record));
  }

  /** Whether a job is due does not depend on the other records registered. */
  lemma JobOutlivesOthers(call: Call, again: Call, log: seq<Payload>, log': seq<Payload>, job: Job)
    requires SameCall(again, call)
    requires job in Jobs(again, Snapshot(call.family, log')) && job.record in Snapshot(call.family, log)
    ensures job in Jobs(call, Snapshot(call.family, log))
  {
    hide Fold; hide IsListing; hide Select; hide IsEligible; hide HasOpenReview; hide Norm; hide Normal;
    hide ReviewGroups; hide ObservedGroups;
    var records, records' := Snapshot(call.family, log), Snapshot(call.family, log');
    var r := job.record;
    JobMembers(call, records);
    JobMembers(again, records');
    hide PendingJobs; hide AutoJobs; hide ReviewJobs;
    assert job in PendingJobs(again, records')
      || job in AutoJobs(again, records') || job in ReviewJobs(again, records');
    GroupIsNamed(call.family, log, r);
    ReviewEligibility(r, records, call.config.auto, call.config.configured);
    ReviewEligibility(r, records', call.config.auto, call.config.configured);
    assert job in PendingJobs(call, records) || job in AutoJobs(call, records) || job in ReviewJobs(call, records);
  }

  lemma GroupIsNamed(family: Family, log: seq<Payload>, r: Record)
    requires r in Snapshot(family, log)
    ensures Strip(r.group) != ""
  {
    SnapshotMembers(family, log);
  }

  /** Nothing is left to do for a marked record: its pull request is open, and so its branch is taken. */
  lemma MarkedIsIdle(
    call: Call, again: Call, log: seq<Payload>, w: World, w1: World, w': World, before: map<string, Record>,
    result: Result, job: Job)
    requires SameCall(again, call) && StayOpen(w1, w')
    requires Warranted(call, w, w1, before, result) && IsMark(result) && Taken(w1, LaneOf(call, result.subject))
    requires job.record == MarkedBy(result.subject, result, call.request.now) && Normal(call.family, result.subject)
    requires job in Jobs(again, Snapshot(call.family, log))
    ensures IsIdle(again, w', job)
  {
    hide Fold; hide IsListing; hide Select; hide IsEligible; hide Norm; hide Normal; hide MatchesFilter; hide Strip;
    hide Trim; hide HasOpenReview; hide HasOpenPr;
    var records := Snapshot(call.family, log);
    JobMembers(again, records);
    ExpiredIsNormal(call.family, result.subject, result.prUrl, result.prNumber, result.gitBranch, call.request.now);
    hide PendingJobs; hide AutoJobs; hide ReviewJobs;
    BranchStaysTaken(call, w1, w', result.subject);
    assert job in PendingJobs(again, records) || job in AutoJobs(again, records) || job in ReviewJobs(again, records);
    assert RecordedPr(job.record) == PrId(Location(result.subject).repo, result.prNumber);
  }

  /** The record of a second-run job was registered before, and changed by the first run if at all. */
  lemma SecondRunJob(call: Call, again: Call, log: seq<Payload>, w: World, w': World, job: Job)
    requires Sane(w) && !call.request.dryRun && Thorough(Run(call, log, w)) && StayOpen(Run(call, log, w).world, w')
    requires SameCall(again, call)
    requires job in Jobs(again, Snapshot(call.family, Run(call, log, w).log))
    ensures IsIdle(again, w', job)
  {
    hide Fold; hide Keyed; hide IsListing; hide Jobs; hide Run; hide Warranted; hide Settled; hide MarkedBy;
    hide Normal;
    hide Extends; hide StayOpen; hide IsIdle; hide Key; hide Explains; hide HasResult; hide LaneOf;
    var s := Run(call, log, w);
    var before, after := Fold(call.family, log), Fold(call.family, s.log);
    var key := Key(call.family, job.record);
    NoResurrection(call, log, w);
    RunIsWarranted(call, log, w);
    JobsHaveResults(call, log, w);
    RunTakesBranches(call, log, w);
    JobIsRegistered(again, s.log, job);
    UnmarkedIsUnchanged(call, before, s.results, after, key);
    if forall r | r in s.results :: !Marks(call, r, key) {
      JobRecordIsListed(call.family, log, job.record);
      JobOutlivesOthers(call, again, log, s.log, job);
      TreatedIsChanged(call, before, s.results, after, job);
    } else {
      var result :| result in s.results && Marks(call, result, key);
      SubjectIsCurrent(call, w, s.world, before, result, key);
      JobRecordIsNormal(call.family, log, key);
      MarksMeansMark(call, result, key);
      hide Marks; hide IsMark;
      MarkedIsIdle(call, again, s.log, w, s.world, w', before, result, job);
    }
  }

  lemma RunTakesBranches(call: Call, log: seq<Payload>, w: World)
    requires Sane(w) && !call.request.dryRun
    ensures var s := Run(call, log, w);
      forall r | r in s.results && IsMark(r) :: Taken(s.world, LaneOf(call, r.subject))
  {
    hide IsListing; hide Fold; hide Sweep; hide Jobs; hide IsMark; hide LaneOf;
    SweepTakesBranches(call, Jobs(call, Snapshot(call.family, log)), log, w);
  }

  lemma MarksMeansMark(call: Call, result: Result, key: string)
    requires Marks(call, result, key)
    ensures IsMark(result)
  {
  }

  lemma UnmarkedIsUnchanged(
      call: Call, before: map<string, Record>, results: seq<Result>, after: map<string, Record>, key: string)
    requires Explains(call, before, results, after) && key in after
    ensures key in before
    ensures (forall r | r in results :: !Marks(call, r, key)) ==> after[key] == before[key]
    ensures forall r | r in results && Marks(call, r, key) :: after[key] == MarkedBy(before[key], r, call.request.now)
  {
    hide Marks; hide Drops; hide MarkedBy;
  }

  lemma JobIsRegistered(call: Call, log: seq<Payload>, job: Job)
    requires job in Jobs(call, Snapshot(call.family, log))
    ensures var key := Key(call.family, job.record);
      key in Fold(call.family, log) && Fold(call.family, log)[key] == job.record
  {
    hide IsListing; hide Keyed; hide Fold; hide Jobs; hide Key; hide Normal;
    JobsAreWellPlanned(call, log);
  }

  lemma JobRecordIsListed(family: Family, log: seq<Payload>, r: Record)
    requires Key(family, r) in Fold(family, log) && Fold(family, log)[Key(family, r)] == r
    ensures r in Snapshot(family, log)
  {
    SnapshotMembers(family, log);
  }

  lemma JobRecordIsNormal(family: Family, log: seq<Payload>, key: string)
    requires key in Fold(family, log)
    ensures Normal(family, Fold(family, log)[key])
  {
  }

  /**
   Quiescence. After a live run that skipped nothing, and as long as no open pull request is closed
   or merged, running again at the same time with the same settings appends no entry and opens no
   pull request, whatever the host replies the second time.
   */
  lemma SecondRunIsSilent(call: Call, again: Call, log: seq<Payload>, w: World, w': World)
    requires Sane(w) && !call.request.dryRun && Thorough(Run(call, log, w)) && StayOpen(Run(call, log, w).world, w')
    requires SameCall(again, call)
    ensures var s := Run(call, log, w);
      Run(again, s.log, w').log == s.log && Run(again, s.log, w').world == w'
  {
    hide IsListing; hide Fold; hide Sweep; hide Jobs; hide IsIdle; hide Thorough; hide StayOpen; hide Sane;
    var s := Run(call, log, w);
    var jobs := Jobs(again, Snapshot(call.family, s.log));
    forall job | job in jobs ensures IsIdle(again, w', job) {
      SecondRunJob(call, again, log, w, w', job);
    }
    SweepWritesNothing(again, jobs, s.log, w');
  }
}
