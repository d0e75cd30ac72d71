/**
 The outside world of a reclaim run: pull requests on a Git host, and the paths present on the
 base branch of the GitOps repositories.
 */
module GitOps {
  import opened Text
  import opened Records

  datatype PrState = Open | Closed | Merged

  /** What merging a pull request does to the base branch. */
  datatype Purpose = Removes(path: string) | Adds(path: string) | Unrelated

  datatype PrId = PrId(repo: string, number: int)

  datatype PullRequest = PullRequest(branch: string, state: PrState, purpose: Purpose)

  datatype Place = Place(repo: string, path: string)

  /** `numbered` is the last pull request number handed out in each repository. */
  datatype World = World(prs: map<PrId, PullRequest>, numbered: map<string, nat>, paths: set<Place>)

  function LastNumber(w: World, repo: string): nat {
    if repo in w.numbered then w.numbered[repo] else 0
  }

  /** Every pull request carries a number that its repository has handed out. */
  ghost predicate Sane(w: World) {
    forall id | id in w.prs :: 0 < id.number <= LastNumber(w, id.repo)
  }

  function NextId(w: World, repo: string): PrId {
    PrId(repo, LastNumber(w, repo) + 1)
  }

  function OpenPr(w: World, repo: string, branch: string, purpose: Purpose): World {
    var id := NextId(w, repo);
    w.(prs := w.prs[id := PullRequest(branch, Open, purpose)], numbered := w.numbered[repo := id.number])
  }

  predicate HasOpenPr(w: World, repo: string, branch: string) {
    exists id | id in w.prs :: id.repo == repo && w.prs[id].branch == branch && w.prs[id].state == Open
  }

  /** What a run can do to the world: open pull requests under fresh numbers. */
  ghost predicate Extends(w: World, w': World) {
    && Sane(w')
    && w'.paths == w.paths
    && (forall id | id in w.prs :: id in w'.prs && w'.prs[id] == w.prs[id])
    && (forall id | id in w'.prs :: id in w.prs || w'.prs[id].state == Open)
  }

  lemma OpenPrExtends(w: World, w1: World, repo: string, branch: string, purpose: Purpose)
    requires Extends(w, w1)
    ensures Extends(w, OpenPr(w1, repo, branch, purpose))
    ensures NextId(w1, repo) !in w1.prs
    ensures var w2 := OpenPr(w1, repo, branch, purpose);
      forall id | id in w1.prs :: id in w2.prs && w2.prs[id] == w1.prs[id]
  {
  }

  /** `gitops_repo.strip()` and `gitops_path.strip().strip("/")`. */
  function Location(r: Record): Place {
    Place(Strip(r.gitopsRepo), Trim(IsSlash, Strip(r.gitopsPath)))
  }

  function RecordedPr(r: Record): PrId {
    PrId(Strip(r.gitopsRepo), r.prNumber)
  }

  // ----- What can go wrong with one call -----

  /**
   How the outside world answers one record of a run. `LookupFails` hides the state of a pull
   request, `CloneFails` and `NothingToCommit` are refusals the run survives, `CrashEarly` and
   `CrashAfterOpen` are errors that end it, and `Unnumbered` opens a pull request without
   reporting its number.
   */
  datatype Fault = NoFault | LookupFails | CloneFails | NothingToCommit | CrashEarly | CrashAfterOpen | Unnumbered

  datatype Reply = Reply(fault: Fault, url: string)

  datatype MergeState = IsMerged | IsOpen | IsClosed | Unknown

  /** `resolve_decommission_pull_request_state`. */
  function MergeStateOf(r: Record, reply: Reply, w: World): MergeState {
    if r.prNumber <= 0 || Strip(r.gitopsRepo) == "" || reply.fault == LookupFails || RecordedPr(r) !in w.prs
    then Unknown
    else match w.prs[RecordedPr(r)].state
      case Merged => IsMerged
      case Open => IsOpen
      case Closed => IsClosed
  }

  datatype Refusal = CloneFailed | BranchTaken | NoChanges

  datatype PrOutcome =
    | PathAbsent
    | Opened(number: int, url: string)
    | NotOpened(refusal: Refusal)
    | Failed

  /** `_execute_decommission_pr`: the outcome, and the world it leaves. */
  function DecommissionPr(place: Place, branch: string, reply: Reply, w: World): (World, PrOutcome) {
    if reply.fault == CloneFails then (w, NotOpened(CloneFailed))
    else if HasOpenPr(w, place.repo, branch) then (w, NotOpened(BranchTaken))
    else if place !in w.paths then (w, PathAbsent)
    else if reply.fault == NothingToCommit then (w, NotOpened(NoChanges))
    else
      var w' := OpenPr(w, place.repo, branch, Removes(place.path));
      if reply.fault == CrashAfterOpen then (w', Failed)
      else (w', Opened(if reply.fault == Unnumbered then 0 else NextId(w, place.repo).number, reply.url))
  }

  /** The Git host as the engine sees it: it reads pull requests and opens new ones. */
  class Host {
    var world: World

    constructor (world: World)
      ensures this.world == world
    {
      this.world := world;
    }

    method ResolveMergeState(r: Record, reply: Reply) returns (state: MergeState)
      ensures state == MergeStateOf(r, reply, world)
    {
      if r.prNumber <= 0 { return Unknown; }
      var repo := Strip(r.gitopsRepo);
      if repo == "" { return Unknown; }
      var id := PrId(repo, r.prNumber);
      if reply.fault == LookupFails || id !in world.prs { return Unknown; }
      match world.prs[id].state {
        case Merged => return IsMerged;
        case Open => return IsOpen;
        case Closed => return IsClosed;
      }
    }

    method ExecuteDecommissionPr(r: Record, branch: string, reply: Reply) returns (outcome: PrOutcome)
      modifies this
      ensures (world, outcome) == DecommissionPr(Location(r), branch, reply, old(world))
    {
      var place := Location(r);
      if reply.fault == CloneFails { return NotOpened(CloneFailed); }
      if HasOpenPr(world, place.repo, branch) { return NotOpened(BranchTaken); }
      if place !in world.paths { return PathAbsent; }
      if reply.fault == NothingToCommit { return NotOpened(NoChanges); }
      var number := LastNumber(world, place.repo) + 1;
      world := World(
        world.prs[PrId(place.repo, number) := PullRequest(branch, Open, Removes(place.path))],
        world.numbered[place.repo := number],
        world.paths);
      if reply.fault == CrashAfterOpen { return Failed; }
      if reply.fault == Unnumbered { number := 0; }
      outcome := Opened(number, reply.url);
    }
  }
}
