/**
 A history after which two fault-free runs, with every decommission pull request merged in between,
 leave an expired component registered.
 */
module Twins {
  import opened Text
  import opened Records
  import opened Registry
  import opened GitOps
  import opened Reclaim
  import opened Histories
  import opened FaultFreeSweeps
  import opened FaultFreeRuns
  import opened Convergence
  import opened ComponentIdentity

  const REPO := "org/gitops"

  datatype Twin = Bucket | Database

  function KindOf(t: Twin): string { if t.Bucket? then "bucket" else "database" }

  function KeyOf(t: Twin): string { "cmp-" + KindOf(t) + "-web" }

  function PathOf(t: Twin): string { "components/" + KindOf(t) + "/web" }

  function BranchOf(t: Twin): string { "repave/vend/" + KindOf(t) + "-web" }

  /** A component named `web` of either kind, vended for one hour. */
  function VendOf(t: Twin): VendRequest {
    VendRequest("web", KindOf(t), EntityIdFor(KindOf(t), "web"),
                Description("aws", "dev", "ops", "b", "1", "", "", "run"), REPO, PathOf(t), BranchOf(t), "",
                true, false, "ops", 1, [])
  }

  function RecordOf(t: Twin): Record { VendedRecord(VendOf(t), if t.Bucket? then 1 else 2, 0) }

  function EntryOf(t: Twin): Payload { ToEvent(Components, RecordOf(t), REGISTER) }

  function PlaceOf(t: Twin): Place { Place(REPO, PathOf(t)) }

  function Start(): System { System([], World(map[], map[], {}), 0, map[]) }

  /** Both are vended, people merge both vend pull requests, and the hour passes. */
  function History(): seq<Action> {
    [Vend(VendOf(Bucket)), Vend(VendOf(Database)), MergePr(PrId(REPO, 1)), MergePr(PrId(REPO, 2)),
     Tick(SECONDS_PER_HOUR)]
  }

  /** A live run at that time, with no kind reclaimed automatically. */
  function TwinCall(): Call {
    Call(Components, Config({}, {}, name => "repave/reclaim/" + name + "-reclaim"),
         Request(false, true, "", "", SECONDS_PER_HOUR), n => Reply(NoFault, ""))
  }

  function TwinWorld(): World {
    World(map[PrId(REPO, 1) := PullRequest(BranchOf(Bucket), Merged, Adds(PathOf(Bucket))),
              PrId(REPO, 2) := PullRequest(BranchOf(Database), Merged, Adds(PathOf(Database)))],
          map[REPO := 2], {PlaceOf(Bucket), PlaceOf(Database)})
  }

  // ----- The twins -----

  lemma LiteralsAreStripped(t: Twin)
    ensures Stripped(REPO) && Stripped("web") && Stripped(KindOf(t)) && Stripped("ops") && Stripped("aws")
    ensures Stripped("dev") && Stripped("b") && Stripped("1") && Stripped("run")
    ensures Stripped(PathOf(t)) && Stripped(BranchOf(t)) && Clean(IsSlash, PathOf(t))
  {
    assert PathOf(t)[0] == 'c' && PathOf(t)[|PathOf(t)| - 1] == 'b';
    assert BranchOf(t)[0] == 'r' && BranchOf(t)[|BranchOf(t)| - 1] == 'b';
  }

  lemma TwinFacts(t: Twin)
    ensures Normal(Components, RecordOf(t)) && !HasOpenReview(RecordOf(t)) && RecordOf(t).name == "web"
    ensures Location(RecordOf(t)) == VendPlace(VendOf(t)) == PlaceOf(t)
    ensures MissingField(RecordOf(t)) == None
    ensures RecordOf(t).expiresAt == Some(SECONDS_PER_HOUR)
    ensures RecordOf(t).entityId == KeyOf(t) && Registrable(Components, RecordOf(t))
  {
    hide Clean; hide Trim;
    DefaultsAreStripped();
    LiteralsAreStripped(t);
    EntityIdIsStripped(KindOf(t), "web");
    TrimFixes(IsSlash, PathOf(t));
    assert Lower("active")[0] == 'a';
  }

  lemma {:induction false} BeforeBehind(prefix: string, a: string, b: string)
    requires Before(a, b)
    ensures Before(prefix + a, prefix + b)
  {
    if prefix == "" {
      assert prefix + a == a && prefix + b == b;
    } else {
      BeforeBehind(prefix[1..], a, b);
      assert (prefix + a)[1..] == prefix[1..] + a && (prefix + b)[1..] == prefix[1..] + b;
    }
  }

  lemma TwinsDiffer()
    ensures Before(KeyOf(Bucket), KeyOf(Database)) && KeyOf(Bucket) != KeyOf(Database)
    ensures PlaceOf(Bucket) != PlaceOf(Database)
  {
    BeforeBehind("cmp-", "bucket-web", "database-web");
    assert "cmp-" + "bucket-web" == KeyOf(Bucket) && "cmp-" + "database-web" == KeyOf(Database);
    assert |KeyOf(Bucket)| != |KeyOf(Database)| && |PathOf(Bucket)| != |PathOf(Database)|;
  }

  // ----- The history -----

  lemma ExecOne(s: System, actions: seq<Action>, a: Action)
    ensures Exec(Components, s, actions + [a]) == Next(Components, Exec(Components, s, actions), a)
  {
    hide Next;
    assert (actions + [a])[..|actions|] == actions;
  }

  lemma TwinIsVended(s: System, t: Twin)
    requires s.now == 0 && LastNumber(s.world, REPO) == if t.Bucket? then 0 else 1
    ensures var next := VendStep(Components, s, VendOf(t));
      && next.log == s.log + [EntryOf(t)] && next.now == 0
      && next.world == OpenPr(s.world, REPO, BranchOf(t), Adds(PathOf(t)))
  {
    hide Clean; hide Trim; hide Normal; hide Location; hide ToEvent; hide VendedRecord; hide EffectOf; hide OpenPr;
    hide KindOf; hide PathOf; hide BranchOf; hide KeyOf;
    TwinFacts(t);
  }

  lemma HistoryRuns()
    ensures var s := Exec(Components, Start(), History());
      s.log == [EntryOf(Bucket), EntryOf(Database)] && s.world == TwinWorld() && s.now == SECONDS_PER_HOUR
  {
    hide Exec; hide VendStep; hide EntryOf; hide VendOf; hide PathOf; hide BranchOf; hide Run; hide OpenPr;
    hide SetPrState;
    hide TwinWorld;
    var a1, a2, a3, a4 := Vend(VendOf(Bucket)), Vend(VendOf(Database)), MergePr(PrId(REPO, 1)), MergePr(PrId(REPO, 2));
    var a5 := Tick(SECONDS_PER_HOUR);
    ExecNone();
    ExecOne(Start(), [], a1);
    ExecOne(Start(), [a1], a2);
    ExecOne(Start(), [a1, a2], a3);
    ExecOne(Start(), [a1, a2, a3], a4);
    ExecOne(Start(), [a1, a2, a3, a4], a5);
    assert [] + [a1] == [a1] && [a1] + [a2] == [a1, a2] && [a1, a2] + [a3] == [a1, a2, a3];
    assert [a1, a2, a3] + [a4] == [a1, a2, a3, a4] && [a1, a2, a3, a4] + [a5] == History();
    TwinIsVended(Start(), Bucket);
    var s1 := VendStep(Components, Start(), VendOf(Bucket));
    NumberAfterOpen(Start().world, REPO, BranchOf(Bucket), Adds(PathOf(Bucket)));
    TwinIsVended(s1, Database);
    BothMerged();
  }

  lemma NumberAfterOpen(w: World, repo: string, branch: string, purpose: Purpose)
    ensures LastNumber(OpenPr(w, repo, branch, purpose), repo) == LastNumber(w, repo) + 1
  {
  }

  lemma ExecNone()
    ensures Exec(Components, Start(), []) == Start()
  {
  }

  lemma BothMerged()
    ensures var w := OpenPr(Start().world, REPO, BranchOf(Bucket), Adds(PathOf(Bucket)));
      SetPrState(SetPrState(
        OpenPr(w, REPO, BranchOf(Database), Adds(PathOf(Database))), PrId(REPO, 1), Merged), PrId(REPO, 2), Merged)
      == TwinWorld()
  {
    hide PathOf; hide BranchOf;
  }

  // ----- What is left -----

  function Registered(): map<string, Record> {
    map[KeyOf(Bucket) := RecordOf(Bucket), KeyOf(Database) := RecordOf(Database)]
  }

  lemma TwinsAreRegistered()
    ensures Fold(Components, [EntryOf(Bucket), EntryOf(Database)]) == Registered()
  {
    hide Fold; hide Normal; hide Location; hide ToEvent; hide EffectOf; hide RecordOf; hide KeyOf;
    TwinFacts(Bucket);
    TwinFacts(Database);
    var first := [EntryOf(Bucket)];
    assert first == [] + first && [EntryOf(Bucket), EntryOf(Database)] == first + [EntryOf(Database)];
    ReadAfterWrite(Components, [], RecordOf(Bucket));
    ReadAfterWrite(Components, first, RecordOf(Database));
    FoldOfNothing();
  }

  lemma FoldOfNothing()
    ensures Fold(Components, []) == map[]
  {
  }

  lemma TwinWorldIsCalm()
    ensures Sane(TwinWorld()) && PlaceOf(Database) in TwinWorld().paths
    ensures forall id | id in TwinWorld().prs :: TwinWorld().prs[id].state == Merged
  {
    hide PathOf; hide BranchOf; hide PlaceOf;
  }

  lemma OnlyTwins(k: string)
    requires k in Registered()
    ensures Registered()[k] == RecordOf(Bucket) || Registered()[k] == RecordOf(Database)
  {
    hide RecordOf; hide KeyOf;
  }

  lemma TwinsAreReady()
    ensures Ready(TwinCall(), Registered(), TwinWorld()) && NoneClosed(Registered(), TwinWorld())
  {
    hide RecordOf; hide MissingField; hide HasOpenReview; hide Normal; hide PlaceOf; hide Registrable; hide IsDue;
    hide RecordedPr; hide TwinWorld; hide Sane; hide Registered; hide KeyOf; hide Location;
    TwinFacts(Bucket);
    TwinFacts(Database);
    TwinWorldIsCalm();
    forall k | k in Registered() ensures Registered()[k] == RecordOf(Bucket) || Registered()[k] == RecordOf(Database) {
      OnlyTwins(k);
    }
    assert FaultFree(TwinCall()) && TwinCall().config.configured == {};
    hide FaultFree; hide TwinCall;
  }

  /** The bucket comes first and takes the branch that the database needs. */
  lemma BucketIsInTheWay()
    ensures InTheWay(TwinCall(), TwinWorld(), RecordOf(Bucket), RecordOf(Database))
    ensures IsDue(TwinCall(), RecordOf(Database)) && !IsAutomatic(TwinCall(), RecordOf(Database))
  {
    hide Location; hide HasOpenReview; hide Before; hide PathOf; hide BranchOf; hide KeyOf; hide RecordOf; hide PlaceOf;
    hide MissingField; hide Normal; hide Registrable; hide Strip; hide Norm;
    TwinFacts(Bucket);
    TwinFacts(Database);
    TwinsDiffer();
  }

  /** Nothing removes the path of the database: its own attempt is blocked. */
  lemma DatabasePathStays()
    requires Blocked(TwinCall(), Registered(), TwinWorld(), RecordOf(Database))
    ensures !PathGoes(TwinCall(), Registered(), TwinWorld(), PlaceOf(Database))
  {
    hide Location; hide KeyOf; hide RecordOf; hide PlaceOf; hide Blocked; hide Attempted; hide TwinWorld; hide Sane;
    hide MissingField; hide Normal; hide Registrable; hide HasOpenReview; hide TwinCall; hide Registered;
    TwinFacts(Bucket);
    TwinsDiffer();
    TwinWorldIsCalm();
    forall k | k in Registered()
      ensures !OpensFor(TwinCall(), Registered(), TwinWorld(), Registered()[k], PlaceOf(Database))
    {
      OnlyTwins(k);
    }
  }

  lemma DatabaseIsStuck()
    ensures Stuck(TwinCall(), Registered(), TwinWorld(), RecordOf(Database))
  {
    hide Location; hide KeyOf; hide RecordOf; hide PlaceOf; hide TwinCall; hide TwinWorld; hide InTheWay; hide IsDue;
    hide IsAutomatic; hide HasOpenReview; hide Taken; hide LaneOf; hide PathGoes; hide BlockedAgain; hide MissingField;
    hide Normal; hide Registrable;
    TwinFacts(Database);
    TwinsDiffer();
    BucketIsInTheWay();
    assert Registered()[KeyOf(Bucket)] == RecordOf(Bucket);
    DatabasePathStays();
  }

  lemma VendsAreTwins()
    ensures VendsComponents(History())
  {
    forall t ensures GivesId(VendOf(t)) {
      KindIsPlain(t);
    }
    hide GivesId; hide VendOf;
    assert forall a | a in History() && a.Vend? :: a.vend == VendOf(Bucket) || a.vend == VendOf(Database);
  }

  lemma KindIsPlain(t: Twin)
    ensures GivesId(VendOf(t))
  {
    hide EntityIdFor;
    assert Stripped("bucket") && Stripped("database");
    assert forall c | c in "bucket" :: c != '-';
    assert forall c | c in "database" :: c != '-';
  }

  /**
   A bucket and a database of one name share their decommission branch. Vended, merged and expired,
   one of them outlives both runs, although no pull request was open at the start and none is closed.
   */
  lemma TwinSurvives(again: Call)
    requires Repeats(again, TwinCall())
    ensures var s := Exec(Components, Start(), History());
      && Initial(Start()) && VendsComponents(History()) && s.now == TwinCall().request.now
      && Ready(TwinCall(), Fold(Components, s.log), s.world) && NoneClosed(Fold(Components, s.log), s.world)
      && var s1 := Run(TwinCall(), s.log, s.world);
      && var after := Fold(Components, Run(again, s1.log, MergeDecommissions(s1.world)).log);
      && KeyOf(Database) in after && IsExpired(after[KeyOf(Database)], s.now)
  {
    hide Exec; hide Fold; hide Run; hide Ready; hide NoneClosed; hide Stuck; hide EntryOf; hide RecordOf;
    hide TwinWorld;
    hide MergeDecommissions; hide FaultFree; hide VendsComponents; hide History; hide KeyOf;
    HistoryRuns();
    VendsAreTwins();
    TwinsAreRegistered();
    TwinsAreReady();
    DatabaseIsStuck();
    TwinsDiffer();
    var s := Exec(Components, Start(), History());
    KeyConverges(TwinCall(), s.log, s.world, again, KeyOf(Database));
  }
}
