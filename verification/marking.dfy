/**
 Between two vends of a resource, at most one decommission review is opened for it.
 */
module Marking {
  import opened Text
  import opened Records
  import opened Registry
  import opened GitOps
  import opened Reclaim
  import opened ReclaimTheorems
  import opened Histories

  /** The entry registers the key as expired. */
  predicate Expires(family: Family, p: Payload, key: string) {
    var effect := EffectOf(family, p);
    effect.Put? && effect.key == key && Norm(effect.record.status) == "expired"
  }

  /** The entry puts the key under review: expired, with a numbered pull request. */
  predicate OpensReview(family: Family, p: Payload, key: string) {
    var effect := EffectOf(family, p);
    effect.Put? && effect.key == key && HasOpenReview(effect.record)
  }

  /** The entry registers the key as anything but expired, as only a vend does. */
  predicate Vends(family: Family, p: Payload, key: string) {
    var effect := EffectOf(family, p);
    effect.Put? && effect.key == key && Norm(effect.record.status) != "expired"
  }

  /** After an entry that opens a review, the key expires again only after a new vend. */
  ghost predicate MarkedOnce(family: Family, log: seq<Payload>) {
    forall key, i, j | 0 <= i < j < |log| && OpensReview(family, log[i], key) && Expires(family, log[j], key) ::
      exists l | i < l < j :: Vends(family, log[l], key)
  }

  /** Writing keeps this as long as nothing under review is written as expired. */
  lemma AppendKeepsMarkedOnce(family: Family, log: seq<Payload>, p: Payload)
    requires MarkedOnce(family, log)
    requires forall key | Expires(family, p, key) ::
      key in Fold(family, log) && !HasOpenReview(Fold(family, log)[key])
    ensures MarkedOnce(family, log + [p])
  {
    hide EffectOf; hide Fold; hide Keyed; hide Norm; hide HasOpenReview; hide Normal;
    var longer := log + [p];
    forall key, i, j | 0 <= i < j < |longer| && OpensReview(family, longer[i], key) && Expires(family, longer[j], key)
      ensures exists l | i < l < j :: Vends(family, longer[l], key)
    {
      if j < |log| {
        var l :| i < l < j && Vends(family, log[l], key);
        assert Vends(family, longer[l], key);
      } else {
        var l := VendSince(family, log, i, key);
        assert Vends(family, longer[l], key);
      }
    }
  }

  /** A key that was put under review and no longer is has been vended since. */
  lemma VendSince(family: Family, log: seq<Payload>, i: nat, key: string) returns (l: nat)
    requires MarkedOnce(family, log)
    requires i < |log| && OpensReview(family, log[i], key)
    requires key in Fold(family, log) && !HasOpenReview(Fold(family, log)[key])
    ensures i < l < |log| && Vends(family, log[l], key)
  {
    hide EffectOf; hide Fold; hide Keyed; hide Norm; hide HasOpenReview; hide Normal;
    var r := Fold(family, log)[key];
    LastWriteWins(family, log, key, r);
    var last :| 0 <= last < |log| && EffectOf(family, log[last]) == Put(key, r)
      && forall j | last < j < |log| :: !Touches(EffectOf(family, log[j]), key);
    assert i <= last by { assert Touches(EffectOf(family, log[i]), key); }
    assert i != last;
    if Vends(family, log[last], key) {
      l := last;
    } else {
      l :| i < l < last && Vends(family, log[l], key);
    }
  }

  lemma {:induction false} SweepKeepsMarkedOnce(call: Call, jobs: seq<Job>, log: seq<Payload>, w: World)
    requires MarkedOnce(call.family, log) && WellPlanned(call.family, jobs, Fold(call.family, log))
    requires forall job | job in jobs && job.mode == DecommissionReview :: !HasOpenReview(job.record)
    ensures MarkedOnce(call.family, Sweep(call, jobs, State(log, w, [], false)).log)
  {
    if jobs != [] {
      hide MarkedOnce; hide Step; hide Sweep; hide Fold; hide HasOpenReview;
      assert forall job | job in jobs[..|jobs| - 1] :: job in jobs;
      SweepKeepsMarkedOnce(call, jobs[..|jobs| - 1], log, w);
      StepKeepsMarkedOnce(call, jobs, log, w);
    }
  }

  lemma StepKeepsMarkedOnce(call: Call, jobs: seq<Job>, log: seq<Payload>, w: World)
    requires jobs != [] && WellPlanned(call.family, jobs, Fold(call.family, log))
    requires var job := jobs[|jobs| - 1]; job.mode == DecommissionReview ==> !HasOpenReview(job.record)
    requires MarkedOnce(call.family, Sweep(call, jobs[..|jobs| - 1], State(log, w, [], false)).log)
    ensures MarkedOnce(call.family, Sweep(call, jobs, State(log, w, [], false)).log)
  {
    hide MarkedOnce; hide Step; hide Fold; hide Keyed; hide HasOpenReview; hide Normal; hide Key;
    hide Explains; hide EntriesOf; hide AllEntries; hide Settled;
    var n := |jobs| - 1;
    var start := State(log, w, [], false);
    var s := Sweep(call, jobs[..n], start);
    assert jobs[n] in jobs;
    assert forall job | job in jobs[..n] :: job in jobs;
    SweepAccounts(call, jobs[..n], log, w);
    SweepExplains(call, jobs[..n], log, w);
    if s.crashed {
      CrashedStays(call, jobs[n], s);
    } else {
      StepAccounts(call, jobs[n], s);
      KeyIsUntouched(call, jobs, Fold(call.family, log), s);
      hide WellPlanned; hide Accounts;
      var t := Step(call, jobs[n], s);
      if !t.crashed {
        EntryKeepsMarkedOnce(call, s.log, t.results[n]);
      }
    }
  }

  /** When a review job comes up, the run has not changed its record yet. */
  lemma KeyIsUntouched(call: Call, jobs: seq<Job>, before: map<string, Record>, s: State)
    requires jobs != [] && WellPlanned(call.family, jobs, before)
    requires |s.results| == |jobs| - 1
    requires forall i | 0 <= i < |s.results| :: s.results[i].subject == jobs[i].record
    requires Explains(call, before, s.results, Fold(call.family, s.log))
    ensures var job := jobs[|jobs| - 1];
      var key := Key(call.family, job.record);
      job.mode == DecommissionReview ==>
        key in Fold(call.family, s.log) && Fold(call.family, s.log)[key] == job.record
  {
    hide Fold; hide Keyed; hide Normal; hide Key;
    var n := |jobs| - 1;
    assert jobs[n] in jobs;
    forall r | r in s.results && jobs[n].mode == DecommissionReview
      ensures Key(call.family, r.subject) != Key(call.family, jobs[n].record)
    {
      var i :| 0 <= i < n && s.results[i] == r;
      assert r.subject == jobs[i].record;
    }
  }

  lemma EntryKeepsMarkedOnce(call: Call, log: seq<Payload>, result: Result)
    requires MarkedOnce(call.family, log) && Normal(call.family, result.subject)
    requires var key := Key(call.family, result.subject);
      IsMark(result) ==> key in Fold(call.family, log) && !HasOpenReview(Fold(call.family, log)[key])
    ensures MarkedOnce(call.family, log + EntriesOf(call, result))
  {
    hide MarkedOnce; hide Fold; hide Keyed; hide Normal; hide ToEvent; hide Expired; hide Stamped;
    hide HasOpenReview; hide Norm;
    assert log + [] == log;
    if !call.request.dryRun && result.reclaimed {
      ReadAfterWrite(call.family, log, result.subject);
      AppendKeepsMarkedOnce(call.family, log, Decommissioned(call.family, result.subject));
    } else if !call.request.dryRun && IsMark(result) {
      var marked := MarkedBy(result.subject, result, call.request.now);
      ExpiredIsNormal(call.family, result.subject, result.prUrl, result.prNumber, result.gitBranch, call.request.now);
      ReadAfterWrite(call.family, log, marked);
      AppendKeepsMarkedOnce(call.family, log, ToEvent(call.family, marked, REGISTER));
    }
  }

  lemma NextKeepsMarkedOnce(family: Family, s: System, a: Action)
    requires MarkedOnce(family, s.log)
    ensures MarkedOnce(family, Next(family, s, a).log)
  {
    hide MarkedOnce; hide Fold; hide Keyed; hide Normal; hide ToEvent; hide HasOpenReview; hide Norm;
    hide IsEligible; hide MatchesFilter;
    match a {
      case Vend(v) =>
        hide EffectOf; hide VendedRecord;
        var prNumber := if v.opensPr then NextId(s.world, VendPlace(v).repo).number else 0;
        VendedIsNew(family, v, prNumber, s.now);
        AppendKeepsMarkedOnce(family, s.log, ToEvent(family, VendedRecord(v, prNumber, s.now), REGISTER));
      case ReclaimRun(_, _, _, _, _, _) =>
        var call := CallOf(family, s, a);
        var records := Snapshot(family, s.log);
        JobMembers(call, records);
        JobsAreWellPlanned(call, s.log);
        hide PendingJobs; hide AutoJobs; hide ReviewJobs; hide WellPlanned; hide IsListing;
        SweepKeepsMarkedOnce(call, Jobs(call, records), s.log, s.world);
      case _ =>
    }
  }

  /**
   In every history, between two entries that mark one resource expired, the first of which opened
   a review, lies a vend of that resource.
   */
  lemma {:induction false} MarkedOnceBetweenVends(family: Family, start: System, actions: seq<Action>)
    requires Initial(start)
    ensures MarkedOnce(family, Exec(family, start, actions).log)
  {
    hide Next; hide Fold; hide Keyed;
    if actions != [] {
      hide MarkedOnce;
      MarkedOnceBetweenVends(family, start, actions[..|actions| - 1]);
      NextKeepsMarkedOnce(family, Exec(family, start, actions[..|actions| - 1]), actions[|actions| - 1]);
    }
  }

  /**
   The condition on the number is needed: a mark ends the duty to review exactly when the host
   reported a positive pull request number for it.
   */
  lemma MarkEndsReviewDuty(call: Call, review: set<string>, r: Record, result: Result)
    requires IsForReview(call, review, r)
    ensures IsForReview(call, review, MarkedBy(r, result, call.request.now)) <==> result.prNumber <= 0
  {
    hide Trim; hide IsEligible;
    DefaultsAreStripped();
    assert Lower("expired") == "expired";
  }
}
