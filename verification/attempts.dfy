/**
 What a run does with one record, told from the request, the host and its reply, and what it never
 does: act without a token, or on a record that does not say where it lives.
 */
module Attempts {
  import opened Text
  import opened Records
  import opened Registry
  import opened GitOps
  import opened Reclaim
  import opened Histories

  // ----- Where a record lives -----

  predicate AllSpaces(s: string) { forall i | 0 <= i < |s| :: IsSpace(s[i]) }

  predicate AllSlashes(s: string) { forall i | 0 <= i < |s| :: s[i] == '/' }

  /** The path without the space around it, and without the slashes around what is then left. */
  lemma LocationIs(r: Record, before: string, opening: string, path: string, closing: string, after: string)
    requires r.gitopsPath == before + (opening + path + closing) + after
    requires AllSpaces(before) && AllSpaces(after) && AllSlashes(opening) && AllSlashes(closing)
    requires Stripped(opening + path + closing) && Clean(IsSlash, path)
    ensures Location(r).path == path && Location(r).repo == Strip(r.gitopsRepo)
  {
    hide Strip;
    TrimPadded(IsSpace, before, opening + path + closing, after);
    assert Strip(r.gitopsPath) == opening + path + closing by { StripIsTrim(r.gitopsPath); }
    TrimPadded(IsSlash, opening, path, closing);
  }

  lemma StripIsTrim(s: string)
    ensures Strip(s) == Trim(IsSpace, s)
  {
  }

  /** The record says in which repository and where in it the resource lives. */
  predicate SaysWhere(r: Record) {
    Location(r).repo != "" && Location(r).path != ""
  }

  // ----- One attempt -----

  predicate IsLive(call: Call) { !call.request.dryRun && call.request.token }

  predicate FindsOpenPr(w: World, repo: string, branch: string) {
    exists id | id in w.prs :: id.repo == repo && w.prs[id].branch == branch && w.prs[id].state == Open
  }

  /** The attempt gets as far as looking for the path. */
  predicate LooksForPath(call: Call, job: Job, s: State) {
    && IsLive(call) && call.replies(|s.results|).fault != CrashEarly && call.replies(|s.results|).fault != CloneFails
    && !FindsOpenPr(s.world, Location(job.record).repo, call.config.branchOf(job.record.name))
  }

  predicate FindsPathGone(call: Call, job: Job, s: State) {
    LooksForPath(call, job, s) && Location(job.record) !in s.world.paths
  }

  predicate FindsPath(call: Call, job: Job, s: State) {
    LooksForPath(call, job, s) && Location(job.record) in s.world.paths
  }

  predicate OpensIt(call: Call, job: Job, s: State) {
    FindsPath(call, job, s) && call.replies(|s.results|).fault != NothingToCommit
  }

  predicate IsRefusedByRegistry(call: Call, r: Record) {
    r.name == "" || (call.family == Components && r.group == "")
  }

  /** What happens outside: one pull request that removes the path, or nothing. */
  ghost predicate ChangesWorld(call: Call, job: Job, s: State, w': World) {
    var place := Location(job.record);
    if OpensIt(call, job, s) then
      && w'.paths == s.world.paths
      && w'.prs == s.world.prs[NextId(s.world, place.repo) :=
                     PullRequest(call.config.branchOf(job.record.name), Open, Removes(place.path))]
    else w' == s.world
  }

  /** Why the record was left alone, if it was. */
  ghost predicate GivesReason(call: Call, job: Job, s: State, reason: Reason) {
    var fault := call.replies(|s.results|).fault;
    var blocked := FindsOpenPr(s.world, Location(job.record).repo, call.config.branchOf(job.record.name));
    && (reason == NoToken <==> !call.request.dryRun && !call.request.token)
    && (reason == HostRefused(CloneFailed) <==> IsLive(call) && fault == CloneFails)
    && (reason == HostRefused(BranchTaken) <==> IsLive(call) && fault != CloneFails && blocked)
    && (reason == HostRefused(NoChanges) <==> FindsPath(call, job, s) && fault == NothingToCommit)
    && (reason in {NotSkipped, NoToken} || reason.HostRefused?)
  }

  /** What is reported, and what is written down. */
  ghost predicate Reports(call: Call, job: Job, s: State, t: State) {
    var r, reply, place := job.record, call.replies(|s.results|), Location(job.record);
    && |t.results| == |s.results| + 1 && t.results[..|s.results|] == s.results
    && var result := t.results[|s.results|];
    && result.subject == r && result.mode == job.mode
    && GivesReason(call, job, s, result.reason) && (result.skipped <==> result.reason != NotSkipped)
    && (result.reclaimed <==>
          FindsPathGone(call, job, s) || (OpensIt(call, job, s) && job.mode == AutoReclaim))
    && result.gitBranch == (if result.skipped then "" else call.config.branchOf(r.name))
    && (result.draft <==> job.mode == DecommissionReview && !result.reclaimed)
    && result.prUrl == (if OpensIt(call, job, s) then reply.url else "")
    && result.prNumber ==
         (if OpensIt(call, job, s) && reply.fault != Unnumbered then NextId(s.world, place.repo).number else 0)
    && t.log == s.log +
         if result.reclaimed then [ToEvent(call.family, r, DECOMMISSION)]
         else if OpensIt(call, job, s) then [ToEvent(call.family, UnderReview(call, r, result), REGISTER)]
         else []
  }

  /** The record as it is registered while its pull request is reviewed. */
  function UnderReview(call: Call, r: Record, result: Result): Record {
    r.(status := "expired", prUrl := Strip(result.prUrl), prNumber := result.prNumber,
       gitBranch := if Strip(result.gitBranch) == "" then r.gitBranch else Strip(result.gitBranch),
       vendedAt := if r.vendedAt.Some? then r.vendedAt else Some(call.request.now))
  }

  /** An attempt at a record that says where it lives: what ends the run, what is opened, and what is reported. */
  lemma AttemptOutcome(call: Call, job: Job, s: State)
    requires !s.crashed && job.mode != RegistryFinalize && SaysWhere(job.record)
    ensures var t := Step(call, job, s);
      var fault := call.replies(|s.results|).fault;
      && ChangesWorld(call, job, s, t.world)
      && (t.crashed <==>
            || fault == CrashEarly
            || (OpensIt(call, job, s) && fault == CrashAfterOpen)
            || ((OpensIt(call, job, s) || FindsPathGone(call, job, s)) && IsRefusedByRegistry(call, job.record)))
      && (if t.crashed then t.log == s.log && t.results == s.results else Reports(call, job, s, t))
  {
    hide Strip; hide Trim; hide ToEvent; hide Location;
    var t := Step(call, job, s);
    assert s.log + [] == s.log;
    assert HasOpenPr(s.world, Location(job.record).repo, call.config.branchOf(job.record.name)) <==>
        FindsOpenPr(s.world, Location(job.record).repo, call.config.branchOf(job.record.name));
    hide HasOpenPr; hide FindsOpenPr;
  }

  // ----- One finalization -----

  /** The recorded pull request, if the host shows it. */
  predicate Shows(call: Call, s: State, r: Record, state: PrState) {
    && r.prNumber > 0 && call.replies(|s.results|).fault != LookupFails
    && PrId(Strip(r.gitopsRepo), r.prNumber) in s.world.prs
    && s.world.prs[PrId(Strip(r.gitopsRepo), r.prNumber)].state == state
  }

  /** The finalization of a pending review: decided by what the host shows of its pull request. */
  lemma FinalizeOutcome(call: Call, job: Job, s: State)
    requires !s.crashed && job.mode == RegistryFinalize && SaysWhere(job.record) && call.request.token
    ensures var t, r := Step(call, job, s), job.record;
      var merged := Shows(call, s, r, Merged);
      && t.world == s.world
      && (t.crashed <==>
            || call.replies(|s.results|).fault == CrashEarly
            || (merged && !call.request.dryRun && IsRefusedByRegistry(call, r)))
      && (t.crashed ==> t.log == s.log && t.results == s.results)
      && (!t.crashed ==>
            && |t.results| == |s.results| + 1 && t.results[..|s.results|] == s.results
            && var result := t.results[|s.results|];
            && result.subject == r && result.mode == RegistryFinalize
            && (result.gitBranch, result.prUrl, result.prNumber, result.draft) ==
                 (if result.reason == StateUnknown then ("", "", 0, false)
                  else (r.gitBranch, r.prUrl, r.prNumber, true))
            && (result.reclaimed <==> merged && !call.request.dryRun)
            && (result.skipped <==> !merged)
            && (result.reason == StillOpen <==> Shows(call, s, r, Open))
            && (result.reason == ClosedUnmerged <==> Shows(call, s, r, Closed))
            && (result.reason == NotSkipped <==> merged)
            && result.reason in {StillOpen, ClosedUnmerged, StateUnknown, NotSkipped}
            && t.log == s.log + if result.reclaimed then [ToEvent(call.family, r, DECOMMISSION)] else [])
  {
    hide Strip; hide Trim; hide ToEvent;
    assert s.log + [] == s.log;
  }

  /** Without a token a pending review is reported as skipped, with its pull request, and even in a dry run. */
  lemma FinalizeNeedsToken(call: Call, job: Job, s: State)
    requires !s.crashed && job.mode == RegistryFinalize && !call.request.token
    ensures var t, r := Step(call, job, s), job.record;
      && t.log == s.log && t.world == s.world && !t.crashed
      && t.results == s.results + [
        Result(r, RegistryFinalize, false, true, NoToken, r.gitBranch, r.prUrl, r.prNumber, true)]
  {
  }

  // ----- What a run never does -----

  ghost predicate OnlySkips(s: State, t: State) {
    && t.log == s.log && t.world == s.world
    && (!t.crashed ==>
          |t.results| == |s.results| + 1 && t.results[..|s.results|] == s.results && t.results[|s.results|].skipped)
    && (t.crashed ==> t.results == s.results)
  }

  lemma StepWithoutToken(call: Call, job: Job, s: State)
    requires !s.crashed && !call.request.dryRun && !call.request.token
    ensures OnlySkips(s, Step(call, job, s))
  {
    hide Strip; hide Trim; hide ToEvent; hide HasOpenPr;
  }

  lemma StepWithoutPlace(call: Call, job: Job, s: State)
    requires !s.crashed && !SaysWhere(job.record)
    ensures OnlySkips(s, Step(call, job, s))
  {
    hide Strip; hide Trim; hide ToEvent; hide HasOpenPr;
  }

  lemma {:induction false} SweepWithoutToken(call: Call, jobs: seq<Job>, s: State)
    requires !call.request.dryRun && !call.request.token && s.results == []
    ensures var t := Sweep(call, jobs, s);
      t.log == s.log && t.world == s.world && forall r | r in t.results :: r.skipped
  {
    if jobs != [] {
      hide Step;
      var n := |jobs| - 1;
      SweepWithoutToken(call, jobs[..n], s);
      var t := Sweep(call, jobs[..n], s);
      if t.crashed {
        CrashedStays(call, jobs[n], t);
      } else {
        StepWithoutToken(call, jobs[n], t);
        OneMoreSkipped(t.results, Step(call, jobs[n], t).results);
      }
    }
  }

  lemma OneMoreSkipped(results: seq<Result>, more: seq<Result>)
    requires forall r | r in results :: r.skipped
    requires more == results || (|more| == |results| + 1 && more[..|results|] == results && more[|results|].skipped)
    ensures forall r | r in more :: r.skipped
  {
    assert more == results || more == results + [more[|results|]];
  }

  /** A live run without a token does nothing, whatever the log, the host and its replies: it reports all as skipped. */
  lemma WithoutTokenNothingHappens(call: Call, log: seq<Payload>, w: World)
    requires !call.request.dryRun && !call.request.token
    ensures var s := Run(call, log, w);
      s.log == log && s.world == w && forall r | r in s.results :: r.skipped
  {
    hide Jobs;
    SweepWithoutToken(call, Jobs(call, Snapshot(call.family, log)), State(log, w, [], false));
  }

  lemma {:induction false} SweepSkipsPlaceless(call: Call, jobs: seq<Job>, log: seq<Payload>, w: World)
    ensures forall r | r in Sweep(call, jobs, State(log, w, [], false)).results && !SaysWhere(r.subject) :: r.skipped
  {
    if jobs != [] {
      hide Step; hide SaysWhere;
      var n := |jobs| - 1;
      SweepSkipsPlaceless(call, jobs[..n], log, w);
      var s := Sweep(call, jobs[..n], State(log, w, [], false));
      if s.crashed {
        CrashedStays(call, jobs[n], s);
      } else {
        StepAccounts(call, jobs[n], s);
        if !SaysWhere(jobs[n].record) { StepWithoutPlace(call, jobs[n], s); }
        var t := Step(call, jobs[n], s);
        assert !t.crashed ==> t.results == s.results + [t.results[|s.results|]];
      }
    }
  }

  /** A record that does not say where it lives stays as it is: no run drops it, marks it or opens anything for it. */
  lemma PlacelessRecordsStay(call: Call, log: seq<Payload>, w: World, key: string)
    requires Sane(w) && key in Fold(call.family, log) && !SaysWhere(Fold(call.family, log)[key])
    ensures var s := Run(call, log, w);
      && key in Fold(call.family, s.log) && Fold(call.family, s.log)[key] == Fold(call.family, log)[key]
      && forall r | r in s.results && r.subject == Fold(call.family, log)[key] :: r.skipped
    ensures var prs := Run(call, log, w).world.prs;
      forall id | id in prs && id !in w.prs :: prs[id].purpose.Removes? && id.repo != "" && prs[id].purpose.path != ""
  {
    hide Fold; hide Keyed; hide Sweep; hide Jobs; hide SaysWhere; hide Warranted; hide Sane; hide IsListing;
    SweepSkipsPlaceless(call, Jobs(call, Snapshot(call.family, log)), log, w);
    var s := Run(call, log, w);
    var current, after := Fold(call.family, log), Fold(call.family, s.log);
    SweepAccounts(call, Jobs(call, Snapshot(call.family, log)), log, w);
    if key !in after || after[key] != current[key] {
      ChangeIsWarranted(call, log, w, key);
    }
    hide Run;
    forall id | id in s.world.prs && id !in w.prs
      ensures s.world.prs[id].purpose.Removes? && id.repo != "" && s.world.prs[id].purpose.path != ""
    {
      var job := RunOpensForExpired(call, log, w, id);
    }
  }
}
