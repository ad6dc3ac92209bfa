/** Both kinds of plans on one mailbox whose database is named like a staging
    directory, so that a companion of a backup can itself be quarantined: what was
    moved first and given back first stands in the way of the rest.
 */
module Accompanied {
  import opened Sql
  import opened Artifacts
  import opened Generations
  import opened Retention
  import opened Manifest
  import opened Quarantine
  import opened RecoveryRuns
  import opened Histories
  import opened BackupRuns
  import opened DatedPair
  import Order
  import Overtaken

  const DATABASE: string := STAGE_PREFIX + "x"
  const AT_1970 := Stamp(1, 6, 0x8180, 1, 10, 0)
  const NOW: int := 3600 * NANOSECONDS
  const ENTRY := Object(Overtaken.FOLDER, Some(Overtaken.INVENTORY))

  function CompanionName(): string { OldName(DATABASE) + "-wal" }

  /** The two backups alone. */
  function Backups(): Scene { Pair(DATABASE, AT_1970) }

  /** The two backups, and a folder where the older one's log would be. */
  function Home(): Directory { Backups().source[CompanionName() := ENTRY] }

  function Here(): Scene { SceneAt(Backups(), map[]) }

  function StagePlan(): Plan { Overtaken.StagePlan(CompanionName(), Backups().binding) }

  /** The staging preview while the folder is there, then the backup preview. */
  function Preview(): (Directory, nat) -> Option<Plan> {
    (d: Directory, t: nat) =>
      if d == Home() then Some(StagePlan())
      else BackupPreview(SceneAt(Here(), d), POLICY, NOW, Order.Listing(d.Keys))
  }

  lemma {:induction false} CompanionText()
    ensures CompanionName() == STAGE_PREFIX + "x.bak.20240101_000000-wal"
  {
  }

  lemma {:induction false} CompanionIsStage()
    ensures IsStageName(CompanionName())
  {
    CompanionText();
    hide CompanionName;
    StageNamed("x.bak.20240101_000000-wal");
  }

  lemma {:induction false} CompanionIsNoBackup()
    ensures CompanionName() in CompanionNames(DATABASE, OldName(DATABASE))
    ensures !Accepts(Mail(DATABASE), CompanionName())
    ensures CompanionName() !in Backups().source
  {
    hide Accepts, Print, CompanionNames, Backup, Unrelated;
    TwoBackups(DATABASE);
    OlderText(Mail(DATABASE));
    LogCompanions(DATABASE, SUFFIX);
    CompanionUnplanned(Mail(DATABASE), OldName(DATABASE), CompanionName());
  }

  lemma EntryMatches(name: string)
    ensures Coherent(ENTRY) && Matches(ENTRY, Overtaken.StageOf(name))
  {
  }

  lemma {:induction false} HomeIsPlausible()
    ensures Backups().(source := Home()).Valid() && Truthful(StagePlan(), Home())
  {
    hide CompanionName, Pair, Coherent, Matches;
    EntryMatches(CompanionName());
    PairIsValid(DATABASE, AT_1970);
    PairIsPlain();
    assert StagePlan().eligible + StagePlan().retained == [Overtaken.StageOf(CompanionName())];
  }

  lemma PairIsPlain()
    ensures Backups().archiveChild == None && Backups().family == Mail(DATABASE)
  {
  }

  lemma {:induction false} PreviewIsTruthful(mailbox: Mailbox)
    requires mailbox.preview == Preview() && mailbox.Here() == Here()
    ensures mailbox.Previews()
  {
    hide Home, Truthful, Mailbox.Permitted, BackupPreview, Scene.Valid;
    HomeIsPlausible();
    UnplannedPermitted(mailbox, StagePlan(), Home());
    forall d, t | d != Home() && mailbox.Plausible(d) && mailbox.preview(d, t).Some?
      ensures Truthful(mailbox.preview(d, t).value, d) && mailbox.Permitted(mailbox.preview(d, t).value, d)
    {
      BackupsFit(mailbox, d);
    }
  }

  lemma {:induction false} BackupsFit(mailbox: Mailbox, d: Directory)
    requires mailbox.Here() == Here() && mailbox.Plausible(d)
    ensures var plan := BackupPreview(SceneAt(Here(), d), POLICY, NOW, Order.Listing(d.Keys));
            plan.Some? ==> Truthful(plan.value, d) && mailbox.Permitted(plan.value, d)
  {
    hide Previewable, PlanOf, Ranked, Truthful, Mailbox.Permitted, Order.Listing, Scene.Valid, Scene.Listed,
         AllReadable, Print;
    var scene := SceneAt(Here(), d);
    ListingLists(scene);
    if Previewable(scene, POLICY, Order.Listing(d.Keys)) {
      BackupPreviewFits(scene, POLICY, NOW, Order.Listing(d.Keys), mailbox);
    }
  }

  lemma {:induction false} TimesFit()
    ensures AllTimesFit(Backups())
  {
    hide Print, Accepts;
  }

  /** What the planner makes of the two backups alone. */
  lemma {:induction false} BackupsMove() returns (plan: Plan)
    ensures Preview()(Backups().source, 0) == Some(plan) && Names(plan.eligible, OldName(DATABASE)) && plan.backups
  {
    hide Print, Previewable, PlanOf, Ranked, Order.Listing, Scene.Valid, Scene.Listed, AllReadable, CompanionName;
    CompanionIsNoBackup();
    ListingLists(Backups());
    PairMoves(DATABASE, AT_1970, NOW, Order.Listing(Backups().source.Keys));
    assert SceneAt(Here(), Backups().source) == Backups();
    PlansAreForBackups(Backups(), POLICY, NOW, Order.Listing(Backups().source.Keys));
    plan := Preview()(Backups().source, 0).value;
  }

  // ----- the commands

  ghost predicate Going(mailbox: Mailbox, ledger: Ledger)
    reads mailbox
  {
    && mailbox.Here() == Here() && mailbox.preview == Preview() && mailbox.Previews() && mailbox.Calm()
    && (forall m :: mailbox.Reopens(m))
    && Held(mailbox, Home(), ledger)
  }

  lemma GoingHolds(mailbox: Mailbox, ledger: Ledger)
    requires Going(mailbox, ledger)
    ensures Held(mailbox, Home(), ledger) && mailbox.Calm() && mailbox.family == Mail(DATABASE)
  {
    hide Held, Mailbox.Calm, Mailbox.Previews, Home, Backups;
    PairIsPlain();
  }

  lemma {:induction false} OnlyTheFolder(w: World)
    requires Conserved(w, Home()) && |w.runs| == 1 && w.runs[0].record.plan == StagePlan()
    requires LocationOf(SidesOf(w, 0), Overtaken.StageOf(CompanionName())) == Some(InQuarantine)
    ensures w.source == Backups().source
  {
    hide Truthful, Backups;
    CompanionIsNoBackup();
    hide CompanionName;
    forall name | name in w.runs[0].content ensures name == CompanionName() {
      HeldIsPlanned(w, Home(), 0, name);
    }
    assert forall name :: name in w.source <==> name in Backups().source;
  }

  const TAKE_FOLDER: Operation := ApplyPlan(true, Some(StagePlan()), 0)
  const GIVE_FOLDER_BACK: Operation := RecoverRun(0, Restore, true, Some(StagePlan()))

  method TakeFolder(mailbox: Mailbox, before: Ledger) returns (after: Ledger)
    requires Going(mailbox, before) && mailbox.runs == [] && mailbox.source == Home()
    modifies mailbox
    ensures Going(mailbox, after) && |mailbox.runs| == 1 && mailbox.runs[0].record.plan == StagePlan()
    ensures mailbox.source == Backups().source
    ensures Follows(mailbox, old(At(mailbox)), At(mailbox), TAKE_FOLDER, Done)
  {
    hide Held, LocationOf, Mailbox.Previews, Settled, Conserved, Journaled, TakenLater, Home, CompanionName, Accepted,
         Backups, IsStageName;
    CompanionIsStage();
    PairIsPlain();
    Overtaken.PlanIsAccepted(mailbox.Here(), CompanionName(), 0);
    var o;
    o, after := Histories.Apply(mailbox, true, Some(StagePlan()), 0, before, Home());
    assert Overtaken.StageOf(CompanionName()) in StagePlan().eligible;
    HeldConserves(mailbox, Home(), after);
    OnlyTheFolder(Now(mailbox));
  }

  method TakeBackups(mailbox: Mailbox, before: Ledger) returns (plan: Plan, after: Ledger)
    requires Going(mailbox, before) && |mailbox.runs| == 1 && mailbox.source == Backups().source
    modifies mailbox
    ensures Going(mailbox, after) && |mailbox.runs| == 2 && mailbox.runs[0] == old(mailbox.runs[0])
    ensures mailbox.runs[1].record.plan == plan && plan.backups && Names(plan.eligible, OldName(DATABASE))
    ensures OldName(DATABASE) in mailbox.runs[1].content
    ensures Follows(mailbox, old(At(mailbox)), At(mailbox), ApplyPlan(true, Some(plan), NOW), Done)
  {
    hide Held, LocationOf, Mailbox.Previews, Home, CompanionName, Accepted, Backups, AllTimesFit, Settled,
         Scene.Valid, BackupPreview, Print, Mailbox.Applicable;
    ghost var expected := BackupsMove();
    plan := mailbox.preview(mailbox.source, mailbox.tick).value;
    CanMove(mailbox, plan);
    var o;
    o, after := Histories.Apply(mailbox, true, Some(plan), NOW, before, Home());
    OldIsThere(mailbox.View(1), plan);
  }

  lemma OldIsThere(s: Sides, plan: Plan)
    requires AllThere(s, plan.eligible, InQuarantine) && Names(plan.eligible, OldName(DATABASE))
    ensures OldName(DATABASE) in s.content
  {
    hide Print;
  }

  lemma {:induction false} CanMove(mailbox: Mailbox, plan: Plan)
    requires mailbox.Here() == Here() && mailbox.preview == Preview()
    requires Preview()(Backups().source, 0) == Some(plan) && plan.eligible != []
    ensures mailbox.preview(Backups().source, mailbox.tick) == Some(plan)
    ensures mailbox.Reopens(RecordOf(plan, NOW)) ==> mailbox.Applicable(Some(plan), Some(plan), NOW)
  {
    hide BackupPreview, Print, AllTimesFit, Scene.Valid, Mailbox.Applicable, CompanionName, Pair;
    CompanionIsNoBackup();
    PairIsValid(DATABASE, AT_1970);
    TimesFit();
    assert SceneAt(Here(), Backups().source) == Backups();
    ApplicableIff(mailbox, Backups().source, POLICY, NOW, NOW, plan);
  }

  lemma {:induction false} FolderIsFree(w: World, scene: Scene)
    requires Conserved(w, Home()) && |w.runs| == 2 && w.runs[0].record.plan == StagePlan()
    requires w.runs[1].record.plan.backups && Accepted(scene, w.runs[1].record) && scene.family == Mail(DATABASE)
    ensures !Blocked(w, 0) && CompanionName() !in w.runs[1].content
  {
    hide Conserved, Accepted, CompanionName, Accepts, Home;
    CompanionIsNoBackup();
    if CompanionName() in w.runs[1].content {
      QuarantinedName(w, Home(), scene, 1, CompanionName());
    }
    forall q | 0 <= q < |w.runs| ensures !Blocks(w, q, 0) {
    }
  }

  lemma {:induction false} FolderIsBack(w: World)
    requires Conserved(w, Home()) && |w.runs| == 2 && w.runs[0].content == map[]
    requires CompanionName() !in w.runs[1].content
    ensures CompanionName() in w.source
  {
    hide CompanionName, Backups, Truthful;
    assert CompanionName() in Home();
  }

  method GiveFolderBack(mailbox: Mailbox, before: Ledger) returns (after: Ledger)
    requires Going(mailbox, before) && |mailbox.runs| == 2 && mailbox.runs[0].record.plan == StagePlan()
    requires mailbox.runs[1].record.plan.backups
    modifies mailbox
    ensures Going(mailbox, after) && |mailbox.runs| == 2 && mailbox.runs[1] == old(mailbox.runs[1])
    ensures mailbox.runs[0].content == map[] && CompanionName() in mailbox.source
    ensures Follows(mailbox, old(At(mailbox)), At(mailbox), GIVE_FOLDER_BACK, Done)
  {
    hide Held, LocationOf, Mailbox.Previews, Settled, CompanionSeen, Journaled, TakenLater, Ready, Home, CompanionName,
         Accepted, Backups, Conserved, Blocked;
    PairIsPlain();
    HeldConserves(mailbox, Home(), before);
    FolderIsFree(Now(mailbox), mailbox.Here());
    StagesUnaccompanied(Now(mailbox), 0, DATABASE);
    HeldSound(mailbox, Home(), before, 0);
    var o;
    o, after := Histories.Recover(mailbox, 0, Restore, true, Some(StagePlan()), before, Home());
    HeldRestored(mailbox, Home(), after, 0);
    HeldConserves(mailbox, Home(), after);
    FolderIsFree(Now(mailbox), mailbox.Here());
    FolderIsBack(Now(mailbox));
  }

  lemma {:induction false} CompanionSpoils(w: World, plan: Plan)
    requires |w.runs| == 2 && w.runs[1].record.plan == plan && plan.backups
    requires Names(plan.eligible, OldName(DATABASE)) && CompanionName() in w.source
    ensures CompanionSeen(w, 1, DATABASE)
  {
    hide CompanionName, CompanionNames, Print;
    CompanionIsNoBackup();
    var a :| a in plan.eligible && a.name == OldName(DATABASE);
    assert HasCompanion(w.source, DATABASE, a.name);
  }

  method Start(written: Record -> nat) returns (mailbox: Mailbox)
    requires forall m :: written(m) <= MAX_MANIFEST_BYTES
    ensures fresh(mailbox) && Going(mailbox, Ledger([], 0)) && At(mailbox) == Moment(World(Home(), []), 0)
  {
    hide Held, Home, CompanionName, Backups, Scene.Valid, Print, Mailbox.Previews, Pair;
    mailbox := new Mailbox(Mail(DATABASE), Here().binding, Here().archiveChild, Here().claim, Preview(),
                           written, (t: nat) => Fine, Home());
    PairIsPlain();
    assert mailbox.Here() == Here();
    PreviewIsTruthful(mailbox);
    HomeIsPlausible();
    Begin(mailbox);
  }

  function Commands(plan: Plan): seq<Operation> {
    [TAKE_FOLDER, ApplyPlan(true, Some(plan), NOW), GIVE_FOLDER_BACK, RecoverRun(1, Restore, true, Some(plan))]
  }

  /** The folder is moved, then the backup; the folder is given back, and now the
      backup cannot be, though nothing goes wrong and no other run holds anything. */
  method Sequence(written: Record -> nat)
    returns (mailbox: Mailbox, plan: Plan, outcomes: seq<Outcome>, ghost moments: seq<Moment>)
    requires forall m :: written(m) <= MAX_MANIFEST_BYTES
    ensures Trace(mailbox, moments, Commands(plan), outcomes) && mailbox.Calm()
    ensures moments[0] == Moment(World(Home(), []), 0) && moments[4] == At(mailbox)
    ensures outcomes[..3] == [Done, Done, Done] && outcomes[3] != Done
    ensures var w := moments[3].world;
            && |w.runs| == 2 && w.runs[0].content == map[] && OldName(DATABASE) in w.runs[1].content
            && !Blocked(w, 1) && CompanionSeen(w, 1, DATABASE) && !mailbox.Sound(SidesOf(w, 1), plan)
  {
    hide Held, Home, CompanionName, Backups, Scene.Valid, Print, Mailbox.Previews, Ready, LocationOf, Pair, Follows,
         Blocked, CompanionSeen, Settled, Trace, Going, Mailbox.Calm;
    mailbox := Start(written);
    ghost var m0 := At(mailbox);
    var ledger := TakeFolder(mailbox, Ledger([], 0));
    ghost var m1 := At(mailbox);
    plan, ledger := TakeBackups(mailbox, ledger);
    ghost var m2 := At(mailbox);
    ledger := GiveFolderBack(mailbox, ledger);
    ghost var m3 := At(mailbox);
    CompanionSpoils(Now(mailbox), plan);
    OnlyHolder(Now(mailbox), 1);
    GoingHolds(mailbox, ledger);
    HeldSound(mailbox, Home(), ledger, 1);
    var refused;
    refused, ledger := RestoreBackups(mailbox, plan, ledger);
    GoingHolds(mailbox, ledger);
    moments, outcomes := [m0, m1, m2, m3, At(mailbox)], [Done, Done, Done, refused];
    FourSteps(mailbox, moments, Commands(plan), outcomes);
  }

  lemma {:induction false} FourSteps(mailbox: Mailbox, moments: seq<Moment>, operations: seq<Operation>,
                                     outcomes: seq<Outcome>)
    requires |moments| == 5 && |operations| == 4 && |outcomes| == 4
    requires Follows(mailbox, moments[0], moments[1], operations[0], outcomes[0])
    requires Follows(mailbox, moments[1], moments[2], operations[1], outcomes[1])
    requires Follows(mailbox, moments[2], moments[3], operations[2], outcomes[2])
    requires Follows(mailbox, moments[3], moments[4], operations[3], outcomes[3])
    ensures Trace(mailbox, moments, operations, outcomes)
  {
    hide Follows;
  }

  method RestoreBackups(mailbox: Mailbox, plan: Plan, before: Ledger) returns (o: Outcome, after: Ledger)
    requires Going(mailbox, before) && |mailbox.runs| == 2 && mailbox.runs[1].record.plan == plan
    modifies mailbox
    ensures Going(mailbox, after)
    ensures Follows(mailbox, old(At(mailbox)), At(mailbox), RecoverRun(1, Restore, true, Some(plan)), o)
    ensures o == Done ==> old(mailbox.Sound(mailbox.View(1), plan))
  {
    hide Held, LocationOf, Ready, Mailbox.Previews, Home, Settled;
    o, after := Histories.Recover(mailbox, 1, Restore, true, Some(plan), before, Home());
  }
}
