/**
 Sweeps on a host that never fails: every result and every pull request, decided by the jobs and
 the world the sweep started from.
 */
module FaultFreeSweeps {
  import opened Text
  import opened Records
  import opened Registry
  import opened GitOps
  import opened Reclaim
  import opened Histories

  // ----- Fault-free runs -----

  /** A live, unfiltered run with a token, on a host that never fails. */
  ghost predicate FaultFree(call: Call) {
    && !call.request.dryRun && call.request.token && call.request.name == "" && call.request.kind == ""
    && forall n: nat :: call.replies(n).fault == NoFault
  }

  /** The lane is held by an open pull request that is not about decommissioning. */
  predicate HeldByOther(w: World, lane: Lane) {
    exists id | id in w.prs ::
      id.repo == lane.repo && w.prs[id].branch == lane.branch && w.prs[id].state == Open && !w.prs[id].purpose.Removes?
  }

  predicate OpensPr(job: Job) { job.mode != RegistryFinalize }

  lemma AttemptOutcome(call: Call, job: Job, s: State)
    requires FaultFree(call) && !s.crashed && OpensPr(job)
    requires MissingField(job.record) == None && Registrable(call.family, job.record)
    ensures var t := Step(call, job, s);
      var taken := Taken(s.world, LaneOf(call, job.record));
      && !t.crashed && |t.results| == |s.results| + 1
      && var r := t.results[|s.results|];
      && (r.skipped <==> taken)
      && (r.reclaimed <==> !taken && (job.mode == AutoReclaim || Location(job.record) !in s.world.paths))
      && (r.prNumber > 0 <==> !taken && Location(job.record) in s.world.paths)
  {
    hide Strip; hide Trim; hide HasOpenPr; hide ToEvent; hide OpenPr; hide FinalizeTurn; hide Location;
  }

  lemma FinalizeOutcome(call: Call, job: Job, s: State)
    requires FaultFree(call) && !s.crashed && !OpensPr(job) && HasOpenReview(job.record)
    requires MissingField(job.record) == None && Registrable(call.family, job.record)
    ensures var t := Step(call, job, s);
      && !t.crashed && |t.results| == |s.results| + 1
      && (t.results[|s.results|].reclaimed <==>
            RecordedPr(job.record) in s.world.prs && s.world.prs[RecordedPr(job.record)].state == Merged)
  {
    hide Strip; hide Trim; hide Norm; hide ToEvent; hide DecommissionTurn;
  }

  /** A fault-free step opens a pull request exactly when its lane is free and its path is there. */
  lemma WorldOfStep(call: Call, job: Job, s: State)
    requires FaultFree(call) && !s.crashed && MissingField(job.record) == None
    ensures var lane, place := LaneOf(call, job.record), Location(job.record);
      Step(call, job, s).world ==
        if OpensPr(job) && !Taken(s.world, lane) && place in s.world.paths
        then OpenPr(s.world, lane.repo, lane.branch, Removes(place.path)) else s.world
  {
    hide Strip; hide Trim; hide HasOpenPr; hide ToEvent; hide OpenPr;
  }

  lemma OpenPrTakesLane(w: World, lane: Lane, purpose: Purpose, other: Lane)
    requires Sane(w)
    ensures Taken(OpenPr(w, lane.repo, lane.branch, purpose), other) <==> other == lane || Taken(w, other)
  {
    var w' := OpenPr(w, lane.repo, lane.branch, purpose);
    OpenPrRecords(w, lane.repo, lane.branch, purpose);
    if Taken(w, other) {
      var id :| id in w.prs && id.repo == other.repo && w.prs[id].branch == other.branch && w.prs[id].state == Open;
      assert id in w'.prs && w'.prs[id] == w.prs[id];
    }
    if Taken(w', other) {
      var id :| id in w'.prs && id.repo == other.repo && w'.prs[id].branch == other.branch && w'.prs[id].state == Open;
      assert id == NextId(w, lane.repo) || (id in w.prs && w'.prs[id] == w.prs[id]);
    }
  }

  /** Jobs a fault-free run can carry out. */
  ghost predicate Workable(call: Call, jobs: seq<Job>) {
    forall job | job in jobs :: CanWork(call, job)
  }

  predicate CanWork(call: Call, job: Job) {
    && MissingField(job.record) == None && Registrable(call.family, job.record)
    && (OpensPr(job) || HasOpenReview(job.record))
  }

  /** Some job opens a pull request on the lane if it comes up with the lane free. */
  ghost predicate Claimed(call: Call, w: World, jobs: seq<Job>, lane: Lane) {
    exists job | job in jobs :: OpensPr(job) && LaneOf(call, job.record) == lane && Location(job.record) in w.paths
  }

  /** The lane of the last job is taken when its turn comes. */
  ghost predicate LastBlocked(call: Call, w: World, jobs: seq<Job>)
    requires jobs != []
  {
    var lane := LaneOf(call, jobs[|jobs| - 1].record);
    Taken(w, lane) || Claimed(call, w, jobs[..|jobs| - 1], lane)
  }

  lemma {:induction false} LaneAfterSweep(call: Call, jobs: seq<Job>, log: seq<Payload>, w: World, lane: Lane)
    requires FaultFree(call) && Sane(w) && Workable(call, jobs)
    ensures var s := Sweep(call, jobs, State(log, w, [], false));
      && !s.crashed && Extends(w, s.world)
      && (Taken(s.world, lane) <==> Taken(w, lane) || Claimed(call, w, jobs, lane))
  {
    SweepJustified(call, jobs, log, w);
    if jobs != [] {
      var n := |jobs| - 1;
      var s := Sweep(call, jobs[..n], State(log, w, [], false));
      assert jobs[n] in jobs && forall job | job in jobs[..n] :: job in jobs;
      LaneAfterSweep(call, jobs[..n], log, w, lane);
      StepKeepsGoing(call, jobs[n], s);
      hide FaultFree; hide CanWork; hide Workable; hide Location; hide LaneOf; hide OpensPr; hide Sane;
      var mine, place := LaneOf(call, jobs[n].record), Location(jobs[n].record);
      WorldOfStep(call, jobs[n], s);
      hide Step;
      ExtendsKeepsPrs(w, s.world);
      OpenPrTakesLane(s.world, mine, Removes(place.path), lane);
      hide Taken; hide OpenPr;
      ClaimsGrow(call, w, jobs, lane);
    }
  }

  lemma StepKeepsGoing(call: Call, job: Job, s: State)
    requires FaultFree(call) && !s.crashed && CanWork(call, job)
    ensures !Step(call, job, s).crashed && MissingField(job.record) == None
  {
    hide Taken; hide LaneOf; hide Location;
    if OpensPr(job) {
      AttemptOutcome(call, job, s);
    } else {
      FinalizeOutcome(call, job, s);
    }
  }

  lemma ClaimsGrow(call: Call, w: World, jobs: seq<Job>, lane: Lane)
    requires jobs != []
    ensures var last := jobs[|jobs| - 1];
      Claimed(call, w, jobs, lane) <==>
        || Claimed(call, w, jobs[..|jobs| - 1], lane)
        || (OpensPr(last) && LaneOf(call, last.record) == lane && Location(last.record) in w.paths)
  {
    hide LaneOf; hide Location; hide OpensPr;
    assert jobs == jobs[..|jobs| - 1] + [jobs[|jobs| - 1]];
    assert forall job :: job in jobs <==> job in jobs[..|jobs| - 1] || job == jobs[|jobs| - 1];
  }

  /** The result that a fault-free run must give for a job whose lane is blocked or not at its turn. */
  ghost predicate Expected(w: World, blocked: bool, job: Job, result: Result) {
    var present := Location(job.record) in w.paths;
    && result.subject == job.record && result.mode == job.mode
    && if OpensPr(job) then
         && (result.skipped <==> blocked)
         && (result.reclaimed <==> !blocked && (job.mode == AutoReclaim || !present))
         && (result.prNumber > 0 <==> !blocked && present)
       else
         result.reclaimed <==>
           RecordedPr(job.record) in w.prs && w.prs[RecordedPr(job.record)].state == Merged
  }

  lemma StepIsExpected(call: Call, job: Job, w: World, s: State)
    requires FaultFree(call) && !s.crashed && Extends(w, s.world) && CanWork(call, job)
    ensures var t := Step(call, job, s);
      && !t.crashed && |t.results| == |s.results| + 1
      && Expected(w, Taken(s.world, LaneOf(call, job.record)), job, t.results[|s.results|])
  {
    hide Step; hide Taken; hide LaneOf; hide Location; hide RecordedPr; hide HasOpenReview; hide FaultFree;
    hide MissingField;
    StepAccounts(call, job, s);
    if OpensPr(job) {
      AttemptOutcome(call, job, s);
    } else {
      FinalizeOutcome(call, job, s);
    }
  }

  ghost predicate AllExpected(call: Call, w: World, jobs: seq<Job>, results: seq<Result>) {
    && |results| == |jobs|
    && forall i | 0 <= i < |jobs| :: Expected(w, LastBlocked(call, w, jobs[..i + 1]), jobs[i], results[i])
  }

  lemma AllExpectedGrows(call: Call, w: World, jobs: seq<Job>, results: seq<Result>, more: seq<Result>)
    requires jobs != [] && AllExpected(call, w, jobs[..|jobs| - 1], results)
    requires |more| == |results| + 1 && more[..|results|] == results
    requires Expected(w, LastBlocked(call, w, jobs), jobs[|jobs| - 1], more[|results|])
    ensures AllExpected(call, w, jobs, more)
  {
    hide Expected; hide LastBlocked;
    assert jobs[..|jobs|] == jobs;
    forall i | 0 <= i < |results|
      ensures Expected(w, LastBlocked(call, w, jobs[..i + 1]), jobs[i], more[i])
    {
      assert jobs[..|jobs| - 1][..i + 1] == jobs[..i + 1];
      assert more[i] == results[i] && jobs[i] == jobs[..|jobs| - 1][i];
    }
  }

  lemma {:induction false} SweepIsExpected(call: Call, jobs: seq<Job>, log: seq<Payload>, w: World)
    requires FaultFree(call) && Sane(w) && Workable(call, jobs)
    ensures var s := Sweep(call, jobs, State(log, w, [], false));
      !s.crashed && AllExpected(call, w, jobs, s.results)
  {
    if jobs != [] {
      hide Step; hide FaultFree; hide Expected; hide Sane; hide Settled; hide EntriesOf; hide AllExpected;
      hide CanWork; hide LaneOf; hide Taken; hide Extends; hide Claimed;
      var n := |jobs| - 1;
      var s := Sweep(call, jobs[..n], State(log, w, [], false));
      assert jobs[n] in jobs && forall job | job in jobs[..n] :: job in jobs;
      SweepIsExpected(call, jobs[..n], log, w);
      LaneAfterSweep(call, jobs[..n], log, w, LaneOf(call, jobs[n].record));
      StepIsExpected(call, jobs[n], w, s);
      StepAccounts(call, jobs[n], s);
      AllExpectedGrows(call, w, jobs, s.results, Step(call, jobs[n], s).results);
    }
  }

  ghost predicate IsOpenedFor(call: Call, jobs: seq<Job>, w: World, id: PrId, pr: PullRequest, i: nat) {
    && i < |jobs| && OpensPr(jobs[i])
    && !LastBlocked(call, w, jobs[..i + 1])
    && id.repo == Location(jobs[i].record).repo
    && pr.purpose == Removes(Location(jobs[i].record).path)
  }

  ghost predicate OpenedFor(call: Call, jobs: seq<Job>, w: World, id: PrId, pr: PullRequest) {
    exists i | 0 <= i < |jobs| :: IsOpenedFor(call, jobs, w, id, pr, i)
  }

  /** Every pull request a fault-free sweep opens removes the path of a job that was not blocked. */
  lemma {:induction false} SweepOpensOwnPrs(call: Call, jobs: seq<Job>, log: seq<Payload>, w: World)
    requires FaultFree(call) && Sane(w) && Workable(call, jobs)
    ensures var w' := Sweep(call, jobs, State(log, w, [], false)).world;
      forall id | id in w'.prs && id !in w.prs :: OpenedFor(call, jobs, w, id, w'.prs[id])
  {
    if jobs != [] {
      hide Step; hide LaneOf; hide Taken; hide Sane; hide Extends; hide FaultFree; hide CanWork; hide OpenedFor;
      hide LastBlocked;
      var n := |jobs| - 1;
      assert jobs[n] in jobs && forall job | job in jobs[..n] :: job in jobs;
      SweepOpensOwnPrs(call, jobs[..n], log, w);
      var w' := Sweep(call, jobs, State(log, w, [], false)).world;
      forall id | id in w'.prs && id !in w.prs ensures OpenedFor(call, jobs, w, id, w'.prs[id]) {
        StepOpensOwnPr(call, jobs, log, w, id);
      }
    }
  }

  lemma StepOpensOwnPr(call: Call, jobs: seq<Job>, log: seq<Payload>, w: World, id: PrId)
    requires FaultFree(call) && Sane(w) && Workable(call, jobs) && jobs != []
    requires var s := Sweep(call, jobs[..|jobs| - 1], State(log, w, [], false));
      && id in Step(call, jobs[|jobs| - 1], s).world.prs
      && (id in s.world.prs ==> OpenedFor(call, jobs[..|jobs| - 1], w, id, s.world.prs[id]))
    ensures var s := Sweep(call, jobs[..|jobs| - 1], State(log, w, [], false));
      OpenedFor(call, jobs, w, id, Step(call, jobs[|jobs| - 1], s).world.prs[id])
  {
    hide Step; hide Location; hide Taken; hide Sane; hide Extends; hide OpensPr; hide FaultFree; hide CanWork;
    hide Claimed; hide Sweep;
    var n := |jobs| - 1;
    var s := Sweep(call, jobs[..n], State(log, w, [], false));
    assert jobs[n] in jobs && forall job | job in jobs[..n] :: job in jobs;
    LaneAfterSweep(call, jobs[..n], log, w, LaneOf(call, jobs[n].record));
    StepKeepsGoing(call, jobs[n], s);
    WorldOfStep(call, jobs[n], s);
    hide Workable;
    var w' := Step(call, jobs[n], s).world;
    assert jobs[..n + 1] == jobs;
    if id in s.world.prs && w'.prs[id] == s.world.prs[id] {
      EarlierOpenedFor(call, jobs, w, id, s.world.prs[id]);
    } else {
      assert IsOpenedFor(call, jobs, w, id, w'.prs[id], n);
    }
  }

  lemma EarlierOpenedFor(call: Call, jobs: seq<Job>, w: World, id: PrId, pr: PullRequest)
    requires jobs != [] && OpenedFor(call, jobs[..|jobs| - 1], w, id, pr)
    ensures OpenedFor(call, jobs, w, id, pr)
  {
    hide LastBlocked; hide Location; hide OpensPr;
    var n := |jobs| - 1;
    var i :| 0 <= i < n && IsOpenedFor(call, jobs[..n], w, id, pr, i);
    assert jobs[..n][..i + 1] == jobs[..i + 1];
    assert IsOpenedFor(call, jobs, w, id, pr, i);
  }
}
