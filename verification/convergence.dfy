/**
 Run, merge every open decommission pull request, run again: exactly when nothing expired is left.
 */
module Convergence {
  import opened Text
  import opened Records
  import opened Registry
  import opened GitOps
  import opened Reclaim
  import opened Histories
  import opened FaultFreeSweeps
  import opened FaultFreeRuns

  /** An open pull request removes this path when it is merged. */
  predicate LosesPath(w: World, place: Place) {
    exists id | id in w.prs ::
      id.repo == place.repo && w.prs[id].state == Open && w.prs[id].purpose == Removes(place.path)
  }

  /** Humans merge every open decommission pull request. */
  function MergeDecommissions(w: World): World {
    World(
      map id | id in w.prs ::
        if w.prs[id].state == Open && w.prs[id].purpose.Removes? then w.prs[id].(state := Merged) else w.prs[id],
      w.numbered,
      set place | place in w.paths && !LosesPath(w, place))
  }

  /** By the end of the merge the path is gone: it was absent, or some pull request removes it. */
  ghost predicate PathGoes(call: Call, registered: map<string, Record>, w: World, place: Place) {
    || place !in w.paths
    || LosesPath(w, place)
    || exists k | k in registered :: OpensFor(call, registered, w, registered[k], place)
  }

  /** The first run opens a decommission pull request for the record, on this path. */
  predicate OpensFor(call: Call, registered: map<string, Record>, w: World, r: Record, place: Place) {
    Attempted(call, r) && !Blocked(call, registered, w, r) && Location(r) == place
  }

  /** The first run finds the branch of the record blocked, so the second one tries again. */
  predicate Waits(call: Call, registered: map<string, Record>, w: World, r: Record) {
    Attempted(call, r) && Blocked(call, registered, w, r) && !Finalized(w, r)
  }

  /** Another waiting record on the same branch is tried first and still has a path to remove. */
  ghost predicate InTheWayAgain(call: Call, registered: map<string, Record>, w: World, other: Record, r: Record) {
    && Waits(call, registered, w, other) && Precedes(call, other, r)
    && LaneOf(call, other) == LaneOf(call, r) && !PathGoes(call, registered, w, Location(other))
  }

  /** The branch of the record is blocked in the second run. */
  ghost predicate BlockedAgain(call: Call, registered: map<string, Record>, w: World, r: Record) {
    || HeldByOther(w, LaneOf(call, r))
    || exists k | k in registered :: InTheWayAgain(call, registered, w, registered[k], r)
  }

  /**
   The record survives both runs: its branch is blocked for both of them, or blocked for the first
   one and its path still there for the second, which then only starts a review.
   */
  ghost predicate Stuck(call: Call, registered: map<string, Record>, w: World, r: Record) {
    && IsDue(call, r) && !HasOpenReview(r) && Blocked(call, registered, w, r)
    && (BlockedAgain(call, registered, w, r) || (!IsAutomatic(call, r) && !PathGoes(call, registered, w, Location(r))))
  }

  /** Every recorded decommission pull request is still open or has been merged. */
  ghost predicate NoneClosed(registered: map<string, Record>, w: World) {
    forall k | k in registered && HasOpenReview(registered[k]) ::
      && RecordedPr(registered[k]) in w.prs
      && w.prs[RecordedPr(registered[k])].state != Closed
      && w.prs[RecordedPr(registered[k])].purpose.Removes?
  }

  // ----- Merging one after the other -----

  predicate IsOpenRemoval(w: World, id: PrId) {
    id in w.prs && w.prs[id].state == Open && w.prs[id].purpose.Removes?
  }

  function Merges(ids: seq<PrId>): seq<Action> {
    seq(|ids|, i requires 0 <= i < |ids| => MergePr(ids[i]))
  }

  /** These pull requests have been merged and their paths are gone; all else is as it was. */
  ghost predicate HasMerged(w: World, ids: seq<PrId>, w': World) {
    && w'.prs.Keys == w.prs.Keys && w'.numbered == w.numbered
    && (forall id | id in w.prs :: w'.prs[id] == if id in ids then w.prs[id].(state := Merged) else w.prs[id])
    && (forall place :: place in w'.paths <==> place in w.paths && !IsRemovedBy(w, ids, place))
  }

  ghost predicate IsRemovedBy(w: World, ids: seq<PrId>, place: Place) {
    exists i | 0 <= i < |ids| ::
      ids[i] in w.prs && ids[i].repo == place.repo && w.prs[ids[i]].purpose == Removes(place.path)
  }

  lemma {:induction false} MergesOneByOne(family: Family, s: System, ids: seq<PrId>)
    requires forall i | 0 <= i < |ids| :: IsOpenRemoval(s.world, ids[i])
    ensures var s' := Exec(family, s, Merges(ids));
      s' == s.(world := s'.world) && HasMerged(s.world, ids, s'.world)
  {
    if ids != [] {
      var n := |ids| - 1;
      assert Merges(ids)[..n] == Merges(ids[..n]) && Merges(ids)[n] == MergePr(ids[n]);
      MergesOneByOne(family, s, ids[..n]);
      hide Exec;
      var t := Exec(family, s, Merges(ids[..n]));
      assert Exec(family, s, Merges(ids)) == Next(family, t, MergePr(ids[n])) by { ExecLast(family, s, Merges(ids)); }
      OneMoreMerge(s.world, ids, t.world);
    }
  }

  lemma ExecLast(family: Family, s: System, actions: seq<Action>)
    requires actions != []
    ensures Exec(family, s, actions) ==
      Next(family, Exec(family, s, actions[..|actions| - 1]), actions[|actions| - 1])
  {
    hide Next;
  }

  lemma OneMoreMerge(w: World, ids: seq<PrId>, w': World)
    requires ids != [] && IsOpenRemoval(w, ids[|ids| - 1]) && HasMerged(w, ids[..|ids| - 1], w')
    ensures HasMerged(w, ids, SetPrState(w', ids[|ids| - 1], Merged))
  {
    var n := |ids| - 1;
    assert forall id :: id in ids <==> id in ids[..n] || id == ids[n];
    forall place ensures IsRemovedBy(w, ids, place) <==>
        IsRemovedBy(w, ids[..n], place) || place == Place(ids[n].repo, w.prs[ids[n]].purpose.path)
    {
    }
  }

  /** Merging the open decommission pull requests one after the other, in any order, comes to the same. */
  lemma MergingInTurn(family: Family, s: System, ids: seq<PrId>)
    requires forall id :: id in ids <==> IsOpenRemoval(s.world, id)
    ensures Exec(family, s, Merges(ids)) == s.(world := MergeDecommissions(s.world))
  {
    hide Exec;
    MergesOneByOne(family, s, ids);
    var w, w' := s.world, Exec(family, s, Merges(ids)).world;
    forall place ensures IsRemovedBy(w, ids, place) <==> LosesPath(w, place) {
    }
    assert w'.prs == MergeDecommissions(w).prs && w'.paths == MergeDecommissions(w).paths;
  }

  // ----- The world between the runs -----

  lemma LanesAfterMerge(call: Call, log: seq<Payload>, w: World, lane: Lane)
    requires Ready(call, Fold(call.family, log), w)
    ensures Taken(MergeDecommissions(Run(call, log, w).world), lane) <==> HeldByOther(w, lane)
  {
    hide Fold; hide Keyed; hide IsListing; hide Location; hide LaneOf; hide Jobs; hide Sane; hide LastBlocked;
    hide OpensPr;
    ReadyIsWorkable(call, log, w);
    SweepOpensOwnPrs(call, Jobs(call, Snapshot(call.family, log)), log, w);
    RunIsWarranted(call, log, w);
    hide Sweep; hide Workable; hide Ready; hide Warranted;
    var w1 := Run(call, log, w).world;
    var w2 := MergeDecommissions(w1);
    if Taken(w2, lane) {
      var id :| id in w2.prs && id.repo == lane.repo && w2.prs[id].branch == lane.branch && w2.prs[id].state == Open;
      assert id in w1.prs && w1.prs[id] == w2.prs[id] && !w1.prs[id].purpose.Removes?;
      assert id in w.prs && w.prs[id] == w1.prs[id];
    }
    if HeldByOther(w, lane) {
      var id :| id in w.prs && id.repo == lane.repo && w.prs[id].branch == lane.branch && w.prs[id].state == Open
        && !w.prs[id].purpose.Removes?;
      assert id in w1.prs && w1.prs[id] == w.prs[id];
      assert id in w2.prs && w2.prs[id] == w.prs[id];
    }
  }

  lemma PathsAfterMerge(call: Call, log: seq<Payload>, w: World, place: Place)
    requires Ready(call, Fold(call.family, log), w)
    ensures place in MergeDecommissions(Run(call, log, w).world).paths <==>
      !PathGoes(call, Fold(call.family, log), w, place)
  {
    var w1 := Run(call, log, w).world;
    hide Fold; hide Keyed; hide IsListing; hide Location; hide LaneOf; hide Sane; hide Run; hide IsAutomatic;
    hide IsDue; hide Ready; hide Taken; hide HasOpenReview;
    ReadyIsSane(call, Fold(call.family, log), w);
    RunIsWarranted(call, log, w);
    hide Warranted;
    if LosesPath(w1, place) {
      var id :| id in w1.prs && id.repo == place.repo && w1.prs[id].state == Open
        && w1.prs[id].purpose == Removes(place.path);
      if id !in w.prs { NewPrHasOwner(call, log, w, id); }
    }
    if LosesPath(w, place) {
      var id :| id in w.prs && id.repo == place.repo && w.prs[id].state == Open
        && w.prs[id].purpose == Removes(place.path);
      assert id in w1.prs && w1.prs[id] == w.prs[id];
    }
    forall k | k in Fold(call.family, log) && place in w.paths
      && OpensFor(call, Fold(call.family, log), w, Fold(call.family, log)[k], place)
      ensures LosesPath(w1, place)
    {
      OwnerOpensPr(call, log, w, k);
    }
  }

  /** A pull request opened by the run belongs to a registered record that was not blocked. */
  lemma NewPrHasOwner(call: Call, log: seq<Payload>, w: World, id: PrId)
    requires Ready(call, Fold(call.family, log), w)
    requires id in Run(call, log, w).world.prs && id !in w.prs
    ensures exists k | k in Fold(call.family, log) ::
      && var r := Fold(call.family, log)[k];
      && OpensFor(call, Fold(call.family, log), w, r, Location(r))
      && Location(r).repo == id.repo
      && Run(call, log, w).world.prs[id].purpose == Removes(Location(r).path)
  {
    hide Fold; hide Keyed; hide IsListing; hide Location; hide LaneOf; hide Jobs; hide Sane; hide IsAutomatic;
    hide IsDue; hide HasOpenReview; hide Ready;
    hide LastBlocked; hide Blocked;
    var jobs := Jobs(call, Snapshot(call.family, log));
    ReadyIsWorkable(call, log, w);
    ReadyJobs(call, log, w);
    ReadyIsSane(call, Fold(call.family, log), w);
    SweepOpensOwnPrs(call, jobs, log, w);
    hide Sweep; hide Workable;
    var i :| 0 <= i < |jobs| && IsOpenedFor(call, jobs, w, id, Run(call, log, w).world.prs[id], i);
    BlockedJob(call, log, w, i);
    assert jobs[i] in jobs && IsJob(call, Fold(call.family, log), jobs[i]);
    assert Fold(call.family, log)[Key(call.family, jobs[i].record)] == jobs[i].record;
  }

  lemma ReadyIsSane(call: Call, registered: map<string, Record>, w: World)
    requires Ready(call, registered, w)
    ensures Sane(w) && FaultFree(call) && !call.request.dryRun
  {
  }

  /** A record that is attempted and not blocked gets an open pull request for its path. */
  lemma OwnerOpensPr(call: Call, log: seq<Payload>, w: World, key: string)
    requires Ready(call, Fold(call.family, log), w) && key in Fold(call.family, log)
    requires var r := Fold(call.family, log)[key];
      OpensFor(call, Fold(call.family, log), w, r, Location(r)) && Location(r) in w.paths
    ensures LosesPath(Run(call, log, w).world, Location(Fold(call.family, log)[key]))
  {
    hide Fold; hide Keyed; hide IsListing; hide Location; hide LaneOf; hide Sane; hide IsAutomatic; hide IsDue;
    hide Blocked; hide HasOpenReview; hide Ready; hide Run; hide RecordedPr;
    ReadyIsSane(call, Fold(call.family, log), w);
    RecordIsAnswered(call, log, w, key);
    RunIsWarranted(call, log, w);
    var w1, r := Run(call, log, w).world, Fold(call.family, log)[key];
    var mode := if IsAutomatic(call, r) then AutoReclaim else DecommissionReview;
    var result :| result in Run(call, log, w).results && Expected(w, false, Job(mode, r), result);
    assert Justified(call, w, w1, result);
    var id := PrId(Location(r).repo, result.prNumber);
    assert id in w1.prs && w1.prs[id].state == Open && w1.prs[id].purpose == Removes(Location(r).path);
  }

  // ----- The second run -----

  /** The same call once more, with other replies. */
  ghost predicate Repeats(again: Call, call: Call) {
    && FaultFree(again) && again.family == call.family && again.config == call.config && again.request == call.request
  }

  /** What stays registered after the first run is what was there, or is under review now. */
  lemma WhatStays(
      call: Call, before: map<string, Record>, w: World, w1: World, middle: map<string, Record>, key: string)
    requires key in before && key in middle && InClosedForm(call, before, w, w1, middle, key)
    ensures Location(middle[key]) == Location(before[key])
    ensures middle[key] == before[key]
      || (HasOpenReview(middle[key]) && !IsAutomatic(call, middle[key]) && IsDue(call, before[key]))
  {
    hide HasOpenReview; hide Location; hide IsEligible; hide RecordedPr; hide Blocked; hide Leaves;
  }

  lemma SecondRunIsReady(call: Call, log: seq<Payload>, w: World, again: Call)
    requires Ready(call, Fold(call.family, log), w) && Repeats(again, call)
    ensures Ready(again, Fold(call.family, Run(call, log, w).log), MergeDecommissions(Run(call, log, w).world))
  {
    var s := Run(call, log, w);
    hide Fold; hide Keyed; hide IsListing; hide Run; hide FaultFree; hide HasOpenReview; hide IsEligible;
    hide InClosedForm; hide Warranted;
    RunIsWarranted(call, log, w);
    FaultFreeRun(call, log, w);
    var before, middle := Fold(call.family, log), Fold(call.family, s.log);
    MergeIsSane(s.world);
    hide Location; hide Sane; hide MergeDecommissions; hide Extends;
    forall k | k in middle && (IsDue(again, middle[k]) || HasOpenReview(middle[k]))
      ensures MissingField(middle[k]) == None
    {
      WhatStays(call, before, w, s.world, middle, k);
    }
  }

  /** Being blocked in the second run can be told before the first one. */
  lemma BlockedInSecondRun(call: Call, log: seq<Payload>, w: World, again: Call, r: Record)
    requires Ready(call, Fold(call.family, log), w) && Repeats(again, call)
    ensures var s1 := Run(call, log, w);
      Blocked(again, Fold(call.family, s1.log), MergeDecommissions(s1.world), r) <==>
        BlockedAgain(call, Fold(call.family, log), w, r)
  {
    hide Fold; hide Keyed; hide IsListing; hide Run; hide InClosedForm; hide MergeDecommissions;
    var s1 := Run(call, log, w);
    var w2 := MergeDecommissions(s1.world);
    var before, middle := Fold(call.family, log), Fold(call.family, s1.log);
    FaultFreeRun(call, log, w);
    LanesAfterMerge(call, log, w, LaneOf(call, r));
    hide Ready; hide FaultFree; hide Taken; hide HeldByOther; hide LaneOf; hide InTheWay; hide InTheWayAgain;
    SameLanes(call, again, r);
    forall k | k in before
      ensures k in middle && InTheWay(again, w2, middle[k], r) <==> InTheWayAgain(call, before, w, before[k], r)
    {
      PathsAfterMerge(call, log, w, Location(before[k]));
      WaitsOrGoes(call, again, before, w, s1.world, w2, middle, k, r);
    }
    hide PathGoes;
  }

  lemma SameLanes(call: Call, again: Call, r: Record)
    requires again.config == call.config
    ensures LaneOf(again, r) == LaneOf(call, r)
  {
  }

  lemma WaitsOrGoes(
    call: Call, again: Call, before: map<string, Record>, w: World, w1: World, w2: World, middle: map<string, Record>,
    key: string, r: Record)
    requires again.family == call.family && again.config == call.config && again.request == call.request
    requires key in before && InClosedForm(call, before, w, w1, middle, key)
    requires Location(before[key]) in w2.paths <==> !PathGoes(call, before, w, Location(before[key]))
    ensures key in middle && InTheWay(again, w2, middle[key], r) <==> InTheWayAgain(call, before, w, before[key], r)
  {
    hide PathGoes; hide Blocked; hide Location; hide LaneOf; hide HasOpenReview; hide RecordedPr; hide Key;
    hide IsEligible; hide Before;
    SameLanes(call, again, r);
    SameLanes(call, again, before[key]);
  }

  lemma MergeIsSane(w: World)
    requires Sane(w)
    ensures Sane(MergeDecommissions(w))
  {
  }

  /** A recorded pull request that is open or merged lets the second run finalize its record. */
  lemma OpenReviewIsFinalized(w1: World, r: Record)
    requires HasOpenReview(r) && RecordedPr(r) in w1.prs
    requires w1.prs[RecordedPr(r)].state != Closed && w1.prs[RecordedPr(r)].purpose.Removes?
    ensures Finalized(MergeDecommissions(w1), r)
  {
    hide HasOpenReview; hide RecordedPr; hide LosesPath;
  }

  /** One record through both runs, as the two closed forms and the merge in between say. */
  lemma RecordConverges(
    call: Call, again: Call, registered: map<string, Record>, w: World, w1: World, blockedAgain: bool,
    r: Record, r1: Record, r2: Record)
    requires again.config == call.config && again.request == call.request
    requires Extends(w, w1)
    requires HasOpenReview(r) ==>
      RecordedPr(r) in w.prs && w.prs[RecordedPr(r)].state != Closed && w.prs[RecordedPr(r)].purpose.Removes?
    requires
      if GoesUnderReview(call, w, Blocked(call, registered, w, r), r) then UnderReviewAs(call, w1, r, r1) else r1 == r
    requires r2 == r1 || (!HasOpenReview(r1) && r2.expiresAt == r1.expiresAt)
    requires r1 == r ==> (blockedAgain <==> BlockedAgain(call, registered, w, r))
    requires Location(r) in MergeDecommissions(w1).paths <==> !PathGoes(call, registered, w, Location(r))
    ensures !Leaves(call, w, Blocked(call, registered, w, r), r)
      && !Leaves(again, MergeDecommissions(w1), blockedAgain, r1) && IsDue(call, r2)
      <==> Stuck(call, registered, w, r)
  {
    hide HasOpenReview; hide RecordedPr; hide Location; hide IsEligible; hide MergeDecommissions; hide PathGoes;
    hide Blocked; hide BlockedAgain;
    if HasOpenReview(r1) {
      OpenReviewIsFinalized(w1, r1);
    }
  }

  /** One key through both runs. */
  lemma KeyConverges(call: Call, log: seq<Payload>, w: World, again: Call, key: string)
    requires Ready(call, Fold(call.family, log), w) && NoneClosed(Fold(call.family, log), w) && Repeats(again, call)
    ensures var s1 := Run(call, log, w);
      var s2 := Run(again, s1.log, MergeDecommissions(s1.world));
      var before, after := Fold(call.family, log), Fold(call.family, s2.log);
      key in after && IsDue(call, after[key]) <==>
        key in before && Stuck(call, before, w, before[key])
  {
    hide Fold; hide Keyed; hide IsListing; hide Run; hide FaultFree; hide HasOpenReview; hide Location;
    hide RecordedPr; hide Ready;
    hide Leaves; hide GoesUnderReview; hide Stuck; hide PathGoes; hide MergeDecommissions; hide Warranted;
    hide Extends; hide IsDue;
    hide Blocked; hide BlockedAgain;
    var s1 := Run(call, log, w);
    var w2 := MergeDecommissions(s1.world);
    var s2 := Run(again, s1.log, w2);
    var before, middle, after := Fold(call.family, log), Fold(call.family, s1.log), Fold(call.family, s2.log);
    SecondRunIsReady(call, log, w, again);
    FaultFreeRun(call, log, w);
    FaultFreeRun(again, s1.log, w2);
    ReadyIsSane(call, before, w);
    RunIsWarranted(call, log, w);
    if key in before {
      var r := before[key];
      BlockedInSecondRun(call, log, w, again, r);
      PathsAfterMerge(call, log, w, Location(r));
      if key in middle {
        var blockedAgain := Blocked(again, middle, w2, middle[key]);
        var r2 := if key in after then after[key] else middle[key];
        SecondRunKeepsExpiry(again, middle, w2, s2.world, after, key);
        RecordConverges(call, again, before, w, s1.world, blockedAgain, r, middle[key], r2);
      } else {
        LeavingIsNotStuck(call, before, w, r);
      }
    }
  }

  lemma SecondRunKeepsExpiry(
      again: Call, middle: map<string, Record>, w2: World, w3: World, after: map<string, Record>, key: string)
    requires key in middle && key in after ==> InClosedForm(again, middle, w2, w3, after, key)
    ensures key in middle && key in after ==>
      after[key] == middle[key] || (!HasOpenReview(middle[key]) && after[key].expiresAt == middle[key].expiresAt)
  {
    hide HasOpenReview; hide Location; hide RecordedPr; hide Leaves; hide Blocked; hide IsEligible;
  }

  lemma LeavingIsNotStuck(call: Call, registered: map<string, Record>, w: World, r: Record)
    requires Leaves(call, w, Blocked(call, registered, w, r), r)
    ensures !Stuck(call, registered, w, r)
  {
    hide HasOpenReview; hide Location; hide RecordedPr; hide Blocked; hide PathGoes;
  }

  lemma InvMeansNoneClosed(family: Family, s: System)
    requires Inv(family, s)
    requires forall k | k in Fold(family, s.log) && HasOpenReview(Fold(family, s.log)[k]) ::
      var id := RecordedPr(Fold(family, s.log)[k]);
      id in s.world.prs ==> s.world.prs[id].state != Closed
    ensures NoneClosed(Fold(family, s.log), s.world)
  {
    hide Fold; hide Keyed; hide HasOpenReview; hide RecordedPr; hide Norm; hide Location;
  }

  lemma TwoRunsConverge(call: Call, log: seq<Payload>, w: World, again: Call)
    requires Ready(call, Fold(call.family, log), w) && NoneClosed(Fold(call.family, log), w) && Repeats(again, call)
    ensures var s1 := Run(call, log, w);
      var before := Fold(call.family, log);
      var after := Fold(call.family, Run(again, s1.log, MergeDecommissions(s1.world)).log);
      (forall k | k in after :: !IsDue(call, after[k])) <==>
        (forall k | k in before :: !Stuck(call, before, w, before[k]))
  {
    hide Fold; hide Keyed; hide Run; hide Ready; hide FaultFree; hide Stuck; hide NoneClosed; hide IsDue;
    hide MergeDecommissions;
    var s1 := Run(call, log, w);
    var before := Fold(call.family, log);
    var after := Fold(call.family, Run(again, s1.log, MergeDecommissions(s1.world)).log);
    if !(forall k | k in after :: !IsDue(call, after[k])) {
      var k :| k in after && IsDue(call, after[k]);
      KeyConverges(call, log, w, again, k);
      assert k in before && Stuck(call, before, w, before[k]);
    }
    if !(forall k | k in before :: !Stuck(call, before, w, before[k])) {
      var k :| k in before && Stuck(call, before, w, before[k]);
      KeyConverges(call, log, w, again, k);
      assert k in after && IsDue(call, after[k]);
    }
  }

  /**
   Convergence, exactly. Take any reachable system whose recorded decommission pull requests are
   open or merged, and two fault-free runs at one time with every open decommission pull request
   merged in between. No expired record is left if and only if none was stuck at the start.
   */
  lemma ConvergesIffNothingStuck(family: Family, start: System, actions: seq<Action>, call: Call, again: Call)
    requires Initial(start)
    requires var s := Exec(family, start, actions);
      && call.family == family && call.request.now == s.now
      && Ready(call, Fold(family, s.log), s.world)
      && forall k | k in Fold(family, s.log) && HasOpenReview(Fold(family, s.log)[k]) ::
           var id := RecordedPr(Fold(family, s.log)[k]);
           id in s.world.prs ==> s.world.prs[id].state != Closed
    requires Repeats(again, call)
    ensures var s := Exec(family, start, actions);
      var before := Fold(family, s.log);
      var s1 := Run(call, s.log, s.world);
      var s2 := Run(again, s1.log, MergeDecommissions(s1.world));
      var after := Fold(family, s2.log);
      (forall k | k in after :: !IsExpired(after[k], s.now)) <==>
        (forall k | k in before :: !Stuck(call, before, s.world, before[k]))
  {
    hide Exec; hide Fold; hide Keyed; hide Run; hide Ready; hide FaultFree; hide HasOpenReview; hide Stuck;
    hide RecordedPr; hide Inv;
    hide MergeDecommissions; hide NoneClosed;
    var s := Exec(family, start, actions);
    EveryHistoryKeepsInv(family, start, actions);
    InvMeansNoneClosed(family, s);
    TwoRunsConverge(call, s.log, s.world, again);
  }
}
