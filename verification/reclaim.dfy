/**
 What one reclaim run does to the registry log and to the Git host, as a function of the log, the
 host and its replies, and what every run guarantees.
 */
module Reclaim {
  import opened Text
  import opened Records
  import opened Registry
  import opened GitOps

  datatype Config = Config(auto: set<string>, configured: set<string>, branchOf: string -> string)

  /** Empty filters select everything; only components are filtered by kind. */
  datatype Request = Request(dryRun: bool, token: bool, name: string, kind: string, now: int)

  /** One call of the orchestrator, with the host's reply to the n-th record it processes. */
  datatype Call = Call(family: Family, config: Config, request: Request, replies: nat -> Reply)

  datatype Mode = RegistryFinalize | AutoReclaim | DecommissionReview

  datatype Reason =
    | NotSkipped | StillOpen | ClosedUnmerged | StateUnknown | NoRepo | NoPath | NoToken | HostRefused(refusal: Refusal)

  /** `subject` is the record the result reports on, as the run read it. */
  datatype Result = Result(
    subject: Record,
    mode: Mode,
    reclaimed: bool,
    skipped: bool,
    reason: Reason,
    gitBranch: string,
    prUrl: string,
    prNumber: int,
    draft: bool)

  /** The repository and branch on which a decommission pull request for a record is opened. */
  datatype Lane = Lane(repo: string, branch: string)

  function LaneOf(call: Call, r: Record): Lane {
    Lane(Location(r).repo, call.config.branchOf(r.name))
  }

  predicate Taken(w: World, lane: Lane) {
    HasOpenPr(w, lane.repo, lane.branch)
  }

  // ----- Worklists -----

  predicate MatchesFilter(call: Call, r: Record) {
    && (call.request.name == "" || r.name == Strip(call.request.name))
    && (call.family == Environments || call.request.kind == "" || r.group == Strip(call.request.kind))
  }

  function ReviewGroupsFor(call: Call, records: seq<Record>): set<string> {
    ReviewGroups(call.config.auto, call.config.configured, ObservedGroups(records))
  }

  predicate IsPending(call: Call, r: Record) {
    MatchesFilter(call, r) && HasOpenReview(r)
  }

  predicate IsAuto(call: Call, r: Record) {
    && MatchesFilter(call, r)
    && IsEligible(r.group, call.config.auto)
    && IsExpired(r, call.request.now)
  }

  predicate IsForReview(call: Call, review: set<string>, r: Record) {
    && MatchesFilter(call, r)
    && !IsEligible(r.group, call.config.auto)
    && IsEligible(r.group, review)
    && IsExpired(r, call.request.now)
    && !HasOpenReview(r)
  }

  datatype Job = Job(mode: Mode, record: Record)

  function Select(mode: Mode, keep: Record -> bool, records: seq<Record>): seq<Job> {
    if records == [] then []
    else
      var last := records[|records| - 1];
      Select(mode, keep, records[..|records| - 1]) + if keep(last) then [Job(mode, last)] else []
  }

  function PendingJobs(call: Call, records: seq<Record>): seq<Job> {
    Select(RegistryFinalize, r => IsPending(call, r), records)
  }

  function AutoJobs(call: Call, records: seq<Record>): seq<Job> {
    Select(AutoReclaim, r => IsAuto(call, r), records)
  }

  function ReviewJobs(call: Call, records: seq<Record>): seq<Job> {
    Select(DecommissionReview, r => IsForReview(call, ReviewGroupsFor(call, records), r), records)
  }

  /** The three worklists in the order they are processed. */
  function Jobs(call: Call, records: seq<Record>): seq<Job> {
    PendingJobs(call, records) + AutoJobs(call, records) + ReviewJobs(call, records)
  }

  // ----- One record -----

  datatype Attempt = Done(result: Result) | Refused(reason: Reason) | Aborted

  datatype Turn = Turn(log: seq<Payload>, world: World, attempt: Attempt)

  function MissingField(r: Record): Option<Reason> {
    if Location(r).repo == "" then Some(NoRepo)
    else if Location(r).path == "" then Some(NoPath)
    else None
  }

  function Decommissioned(family: Family, r: Record): Payload { ToEvent(family, r, DECOMMISSION) }

  /** `finalize_merged_decommission`. */
  function FinalizeTurn(call: Call, reply: Reply, r: Record, log: seq<Payload>, w: World): Turn {
    var report := (reclaimed: bool, reason: Reason) =>
      Done(Result(
        r, RegistryFinalize, reclaimed, reason != NotSkipped, reason, r.gitBranch, r.prUrl, r.prNumber, true));
    if MissingField(r).Some? then Turn(log, w, Refused(MissingField(r).value))
    else if reply.fault == CrashEarly then Turn(log, w, Aborted)
    else match MergeStateOf(r, reply, w)
      case IsOpen => Turn(log, w, report(false, StillOpen))
      case IsClosed => Turn(log, w, report(false, ClosedUnmerged))
      case Unknown => Turn(log, w, Refused(StateUnknown))
      case IsMerged =>
        if call.request.dryRun then Turn(log, w, report(false, NotSkipped))
        else if !Registrable(call.family, r) then Turn(log, w, Aborted)
        else Turn(log + [Decommissioned(call.family, r)], w, report(true, NotSkipped))
  }

  /** The record that stays registered while its decommission pull request is reviewed. */
  function MarkedBy(r: Record, result: Result, now: int): Record {
    Stamped(Expired(r, result.prUrl, result.prNumber, result.gitBranch), now)
  }

  /** `reclaim_environment` and `request_decommission_review`. */
  function DecommissionTurn(call: Call, mode: Mode, reply: Reply, r: Record, log: seq<Payload>, w: World): Turn {
    var review := mode == DecommissionReview;
    var branch := call.config.branchOf(r.name);
    if MissingField(r).Some? then Turn(log, w, Refused(MissingField(r).value))
    else if reply.fault == CrashEarly then Turn(log, w, Aborted)
    else if call.request.dryRun then
      Turn(log, w, Done(Result(r, mode, false, false, NotSkipped, branch, "", 0, review)))
    else if !call.request.token then Turn(log, w, Refused(NoToken))
    else
      var (w', outcome) := DecommissionPr(Location(r), branch, reply, w);
      if outcome.NotOpened? then Turn(log, w', Refused(HostRefused(outcome.refusal)))
      else if outcome.Failed? || !Registrable(call.family, r) then Turn(log, w', Aborted)
      else if outcome.PathAbsent? then
        Turn(log + [Decommissioned(call.family, r)], w',
             Done(Result(r, mode, true, false, NotSkipped, branch, "", 0, false)))
      else
        var result := Result(r, mode, !review, false, NotSkipped, branch, outcome.url, outcome.number, review);
        Turn(log + [if review then ToEvent(call.family, MarkedBy(r, result, call.request.now), REGISTER)
                    else Decommissioned(call.family, r)],
             w', Done(result))
  }

  // ----- The run -----

  datatype State = State(log: seq<Payload>, world: World, results: seq<Result>, crashed: bool)

  function SkippedResult(job: Job, reason: Reason): Result {
    Result(job.record, job.mode, false, true, reason, "", "", 0, job.mode == DecommissionReview)
  }

  function WithoutToken(r: Record): Result {
    Result(r, RegistryFinalize, false, true, NoToken, r.gitBranch, r.prUrl, r.prNumber, true)
  }

  function TurnFor(call: Call, job: Job, s: State): Turn {
    var reply := call.replies(|s.results|);
    if job.mode == RegistryFinalize then FinalizeTurn(call, reply, job.record, s.log, s.world)
    else DecommissionTurn(call, job.mode, reply, job.record, s.log, s.world)
  }

  /** Refusals become skipped results; any other error ends the run where it stands. */
  function Settle(job: Job, turn: Turn, s: State): State {
    match turn.attempt
    case Done(result) => State(turn.log, turn.world, s.results + [result], false)
    case Refused(reason) => State(turn.log, turn.world, s.results + [SkippedResult(job, reason)], false)
    case Aborted => State(turn.log, turn.world, s.results, true)
  }

  function Step(call: Call, job: Job, s: State): State {
    if s.crashed then s
    else if job.mode == RegistryFinalize && !call.request.token then
      s.(results := s.results + [WithoutToken(job.record)])
    else Settle(job, TurnFor(call, job, s), s)
  }

  function Sweep(call: Call, jobs: seq<Job>, s: State): State {
    if jobs == [] then s
    else Step(call, jobs[|jobs| - 1], Sweep(call, jobs[..|jobs| - 1], s))
  }

  datatype Diagnosis = NotRegistered | NotExpired | UnderReview | NotEligible

  datatype Ending = Returned | Raised(diagnosis: Diagnosis) | Crashed

  /** The first record that a name filter, with its kind filter, singles out. */
  function FirstMatch(call: Call, records: seq<Record>): Option<Record> {
    if records == [] then None
    else if MatchesFilter(call, records[0]) then Some(records[0])
    else FirstMatch(call, records[1..])
  }

  /** `_validate_stack_filter`; falling through returns normally. */
  function Diagnose(call: Call, records: seq<Record>): Ending {
    match FirstMatch(call, records)
    case None => Raised(NotRegistered)
    case Some(r) =>
      if !IsExpired(r, call.request.now) then Raised(NotExpired)
      else if HasOpenReview(r) then Raised(UnderReview)
      else if !IsEligible(r.group, call.config.auto) && !IsEligible(r.group, ReviewGroupsFor(call, records))
      then Raised(NotEligible)
      else Returned
  }

  function EndingOf(call: Call, records: seq<Record>, s: State): Ending {
    if s.crashed then Crashed
    else if call.request.name != "" && AutoJobs(call, records) == [] && ReviewJobs(call, records) == []
    then Diagnose(call, records)
    else Returned
  }

  /** A whole run from a log and a world. */
  ghost function Run(call: Call, log: seq<Payload>, w: World): State {
    Sweep(call, Jobs(call, Snapshot(call.family, log)), State(log, w, [], false))
  }

  // ----- Worklist theorems -----

  lemma {:induction false} SelectMembers(mode: Mode, keep: Record -> bool, records: seq<Record>)
    ensures forall job :: job in Select(mode, keep, records) <==>
      job.mode == mode && job.record in records && keep(job.record)
  {
    if records != [] {
      var n := |records| - 1;
      SelectMembers(mode, keep, records[..n]);
      assert records == records[..n] + [records[n]];
    }
  }

  lemma {:induction false} SelectKeepsOrder(family: Family, mode: Mode, keep: Record -> bool, records: seq<Record>)
    requires SortedByKey(family, records)
    ensures forall i, j | 0 <= i < j < |Select(mode, keep, records)| ::
      Before(Key(family, Select(mode, keep, records)[i].record), Key(family, Select(mode, keep, records)[j].record))
  {
    if records != [] {
      var n := |records| - 1;
      var earlier := Select(mode, keep, records[..n]);
      SelectKeepsOrder(family, mode, keep, records[..n]);
      SelectMembers(mode, keep, records[..n]);
      forall i | 0 <= i < |earlier| ensures Before(Key(family, earlier[i].record), Key(family, records[n])) {
        assert earlier[i] in earlier;
      }
    }
  }

  /** Which records the three worklists hold. */
  lemma JobMembers(call: Call, records: seq<Record>)
    ensures forall job :: job in PendingJobs(call, records) <==>
      job.mode == RegistryFinalize && job.record in records && IsPending(call, job.record)
    ensures forall job :: job in AutoJobs(call, records) <==>
      job.mode == AutoReclaim && job.record in records && IsAuto(call, job.record)
    ensures forall job :: job in ReviewJobs(call, records) <==>
      && job.mode == DecommissionReview && job.record in records
      && IsForReview(call, ReviewGroupsFor(call, records), job.record)
  {
    SelectMembers(RegistryFinalize, r => IsPending(call, r), records);
    SelectMembers(AutoReclaim, r => IsAuto(call, r), records);
    SelectMembers(DecommissionReview, r => IsForReview(call, ReviewGroupsFor(call, records), r), records);
  }

  /**
   A record under review is never put up for review again, automatic reclaim and review exclude
   each other, and without configured review groups every expired record that the filter selects
   and that has no open review is in exactly one of the two.
   */
  lemma WorklistCoverage(call: Call, log: seq<Payload>, r: Record)
    requires r in Snapshot(call.family, log)
    ensures var records := Snapshot(call.family, log);
      var review := Job(DecommissionReview, r) in ReviewJobs(call, records);
      var auto := Job(AutoReclaim, r) in AutoJobs(call, records);
      var pending := Job(RegistryFinalize, r) in PendingJobs(call, records);
      && !(auto && review)
      && !(pending && review)
      && (call.config.configured == {} && IsExpired(r, call.request.now) && !HasOpenReview(r) ==>
          (auto || review <==> MatchesFilter(call, r)))
  {
    var records := Snapshot(call.family, log);
    JobMembers(call, records);
    SnapshotMembers(call.family, log);
    assert Strip(r.group) != "";
    hide IsListing; hide Fold; hide Keyed; hide Normal; hide Select;
    ReviewEligibility(r, records, call.config.auto, call.config.configured);
  }

  // ----- Run theorems -----

  /** A live review result that neither skipped nor removed its record left it marked. */
  predicate IsMark(result: Result) {
    result.mode == DecommissionReview && !result.skipped && !result.reclaimed
  }

  /** The log entries that a live result accounts for. */
  function EntriesOf(call: Call, result: Result): seq<Payload> {
    if call.request.dryRun then []
    else if result.reclaimed then [Decommissioned(call.family, result.subject)]
    else if IsMark(result) then [ToEvent(call.family, MarkedBy(result.subject, result, call.request.now), REGISTER)]
    else []
  }

  function AllEntries(call: Call, results: seq<Result>): seq<Payload> {
    if results == [] then []
    else AllEntries(call, results[..|results| - 1]) + EntriesOf(call, results[|results| - 1])
  }

  /** Results answer jobs one for one and explain every entry the run has appended. */
  ghost predicate Accounts(call: Call, jobs: seq<Job>, log: seq<Payload>, w: World, s: State) {
    && |s.results| <= |jobs|
    && (!s.crashed ==> |s.results| == |jobs|)
    && (forall i | 0 <= i < |s.results| :: s.results[i].subject == jobs[i].record && s.results[i].mode == jobs[i].mode)
    && s.log == log + AllEntries(call, s.results)
    && (call.request.dryRun ==> s.world == w && forall r | r in s.results :: !r.reclaimed)
    && (forall r | r in s.results :: Settled(call, r))
  }

  /** A result never both reclaims and skips, and a live one reclaims, skips or marks. */
  predicate Settled(call: Call, r: Result) {
    !(r.reclaimed && r.skipped) && (call.request.dryRun || r.reclaimed || r.skipped || IsMark(r))
  }

  /** One more result that accounts for what was written, or a crash that wrote nothing. */
  ghost predicate OneMore(call: Call, job: Job, s: State, t: State) {
    if t.crashed then t.log == s.log && t.results == s.results && (call.request.dryRun ==> t.world == s.world)
    else
      && |t.results| == |s.results| + 1
      && t.results[..|s.results|] == s.results
      && var r := t.results[|s.results|];
      && r.subject == job.record && r.mode == job.mode
      && Settled(call, r)
      && t.log == s.log + EntriesOf(call, r)
      && (call.request.dryRun ==> t.world == s.world && !r.reclaimed)
  }

  lemma FinalizeAccounts(call: Call, job: Job, s: State)
    requires !s.crashed && job.mode == RegistryFinalize
    ensures OneMore(call, job, s, Step(call, job, s))
  {
    hide Strip; hide Trim; hide ToEvent; hide DecommissionTurn; hide MarkedBy; hide MissingField;
    hide MergeStateOf; hide Registrable;
    assert s.log + [] == s.log;
  }

  lemma AttemptAccounts(call: Call, job: Job, s: State)
    requires !s.crashed && job.mode != RegistryFinalize
    ensures OneMore(call, job, s, Step(call, job, s))
  {
    hide Strip; hide Trim; hide DecommissionPr; hide ToEvent; hide FinalizeTurn; hide MarkedBy; hide MissingField;
    hide Registrable;
    assert s.log + [] == s.log;
  }

  /** One step adds one result that accounts for what it wrote, or crashes without writing. */
  lemma StepAccounts(call: Call, job: Job, s: State)
    requires !s.crashed
    ensures OneMore(call, job, s, Step(call, job, s))
  {
    hide Step; hide OneMore;
    if job.mode == RegistryFinalize {
      FinalizeAccounts(call, job, s);
    } else {
      AttemptAccounts(call, job, s);
    }
  }

  lemma {:induction false} SweepAccounts(call: Call, jobs: seq<Job>, log: seq<Payload>, w: World)
    ensures Accounts(call, jobs, log, w, Sweep(call, jobs, State(log, w, [], false)))
  {
    if jobs != [] {
      hide Step; hide Accounts; hide OneMore;
      var n := |jobs| - 1;
      var s := Sweep(call, jobs[..n], State(log, w, [], false));
      SweepAccounts(call, jobs[..n], log, w);
      if s.crashed {
        CrashedStays(call, jobs[n], s);
      } else {
        StepAccounts(call, jobs[n], s);
      }
      AccountsGrow(call, jobs, log, w, s, Step(call, jobs[n], s));
    }
  }

  lemma AccountsGrow(call: Call, jobs: seq<Job>, log: seq<Payload>, w: World, s: State, t: State)
    requires jobs != [] && Accounts(call, jobs[..|jobs| - 1], log, w, s)
    requires if s.crashed then t == s else OneMore(call, jobs[|jobs| - 1], s, t)
    ensures Accounts(call, jobs, log, w, t)
  {
    hide Settled; hide EntriesOf;
    if t.crashed {
      hide AllEntries;
    } else {
      var n := |jobs| - 1;
      var result := t.results[n];
      assert t.results == s.results + [result];
      assert AllEntries(call, t.results) == AllEntries(call, s.results) + EntriesOf(call, result);
      hide AllEntries;
    }
  }

  lemma CrashedStays(call: Call, job: Job, s: State)
    requires s.crashed
    ensures Step(call, job, s) == s
  {
  }
}
