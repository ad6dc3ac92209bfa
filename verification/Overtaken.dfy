/** Two runs of the same plan: the first one restored, the second one holding its
    artifacts. The first is refused until the second gives them back.
 */
module Overtaken {
  import opened Sql
  import opened Artifacts
  import opened Generations
  import opened Retention
  import opened Manifest
  import opened Quarantine
  import opened RecoveryRuns
  import opened Histories
  import opened DatedPair

  const STAGE_NAME: string := STAGE_PREFIX + "1"
  const FOLDER := Stamp(1, 2, 0x41c0, 2, 4096, 10)
  const INVENTORY := Witness(Identity(1, 2), 1, 0, 10, None, None, FolderTree([("", FOLDER)]))
  const STAGE := StageOf(STAGE_NAME)
  const BINDING := Binding("mail", Identity(1, 1), Identity(1, 3), "archive", Identity(1, 4))
  const PLAN := StagePlan(STAGE_NAME, BINDING)
  const FAMILY := Family("mail", true)

  function StageOf(name: string): Artifact {
    Artifact(name, false, [], INVENTORY)
  }

  /** Moving that one staging directory. */
  function StagePlan(name: string, binding: Binding): Plan {
    Plan(false, binding, 3600, 3, 1, None, [StageOf(name)], [])
  }

  /** One staging directory. */
  function Home(): Directory {
    map[STAGE_NAME := Object(FOLDER, Some(INVENTORY))]
  }

  /** The preview of the staging directory, wherever it is present. */
  function StagePreview(): (Directory, nat) -> Option<Plan> {
    (d: Directory, t: nat) => if d == Home() then Some(PLAN) else None
  }

  lemma {:induction false} HomeIsPlausible()
    ensures Scene(FAMILY, BINDING, Home(), None, None).Valid()
    ensures Truthful(PLAN, Home())
  {
  }

  lemma StageNameIsOk()
    ensures IsStageName(STAGE_NAME)
  {
    StageNamed("1");
  }

  lemma StageEntryIsOk(scene: Scene, name: string)
    requires scene.archiveChild == None && IsStageName(name)
    ensures StageOk(scene, false, StageOf(name))
  {
    hide Accepts, FingerprintOk, IsStageName;
  }

  lemma {:induction false} PlanIsAccepted(scene: Scene, name: string, createdAt: int)
    requires scene.archiveChild == None && IsStageName(name) && createdAt >= 0
    ensures Accepted(scene, RecordOf(StagePlan(name, scene.binding), createdAt))
  {
    hide StageOk, Sum, IsStageName;
    StageEntryIsOk(scene, name);
    var plan := StagePlan(name, scene.binding);
    assert plan.eligible + plan.retained == [StageOf(name)];
    SumSingle(StageOf(name), Entries());
    SumSingle(StageOf(name), Sizes());
  }

  /** A calm mailbox of this family, with its history so far. */
  ghost predicate Going(mailbox: Mailbox, ledger: Ledger, runs: nat)
    reads mailbox
  {
    && mailbox.family == FAMILY && mailbox.binding == BINDING && mailbox.archiveChild == None && mailbox.claim == None
    && mailbox.preview == StagePreview() && mailbox.Reopens(RecordOf(PLAN, 0)) && mailbox.Previews() && mailbox.Calm()
    && Held(mailbox, Home(), ledger) && |mailbox.runs| == runs
    && forall r :: 0 <= r < runs ==> mailbox.runs[r].record.plan == PLAN
  }

  lemma CanApply(mailbox: Mailbox, ledger: Ledger, runs: nat)
    requires Going(mailbox, ledger, runs) && mailbox.source == Home()
    ensures mailbox.Applicable(mailbox.preview(mailbox.source, mailbox.tick), Some(PLAN), 0)
  {
    hide Held, Accepted, Home, IsStageName;
    StageNameIsOk();
    PlanIsAccepted(mailbox.Here(), STAGE_NAME, 0);
  }

  const APPLY := ApplyPlan(true, Some(PLAN), 0)

  function Recovery(r: nat, mode: Mode): Operation { RecoverRun(r, mode, true, Some(PLAN)) }

  /** Moving the directory into a new run. */
  method ApplyAgain(mailbox: Mailbox, before: Ledger, ghost runs: nat) returns (after: Ledger)
    requires Going(mailbox, before, runs) && mailbox.source == Home()
    modifies mailbox
    ensures Going(mailbox, after, runs + 1) && mailbox.runs[..runs] == old(mailbox.runs)
    ensures STAGE_NAME in mailbox.runs[runs].content
    ensures Follows(mailbox, old(At(mailbox)), At(mailbox), APPLY, Done)
  {
    hide Held, LocationOf, Mailbox.Applicable, Mailbox.Previews, Home, Settled;
    CanApply(mailbox, before, runs);
    var o;
    o, after := Histories.Apply(mailbox, true, Some(PLAN), 0, before, Home());
    assert STAGE in PLAN.eligible;
    QuarantinedThere(mailbox.View(runs));
  }

  lemma QuarantinedThere(s: Sides)
    ensures LocationOf(s, STAGE) == Some(InQuarantine) ==> STAGE_NAME in s.content
  {
  }

  /** Giving everything in one run back, while no other run holds anything. */
  method RestoreRun(mailbox: Mailbox, before: Ledger, r: nat, ghost runs: nat) returns (after: Ledger)
    requires Going(mailbox, before, runs) && r < runs
    requires forall q :: 0 <= q < runs && q != r ==> mailbox.runs[q].content == map[]
    modifies mailbox
    ensures Going(mailbox, after, runs) && mailbox.source == Home()
    ensures forall q :: 0 <= q < runs ==> mailbox.runs[q].content == map[]
    ensures Follows(mailbox, old(At(mailbox)), At(mailbox), Recovery(r, Restore), Done)
  {
    hide Held, LocationOf, Ready, Mailbox.Previews, Home, Blocked, CompanionSeen, Settled;
    OnlyHolder(Now(mailbox), r);
    StagesUnaccompanied(Now(mailbox), r, FAMILY.database);
    HeldSound(mailbox, Home(), before, r);
    var o;
    o, after := Histories.Recover(mailbox, r, Restore, true, Some(PLAN), before, Home());
    HeldRestored(mailbox, Home(), after, r);
    HeldEmpty(mailbox, Home(), after);
  }

  lemma HeldByTheOther(w: World)
    requires |w.runs| == 2 && w.runs[0].record.plan == PLAN && STAGE_NAME in w.runs[1].content
    ensures Blocked(w, 0)
  {
    assert STAGE in PLAN.eligible;
    assert Planned(PLAN, STAGE_NAME);
    assert Blocks(w, 1, 0);
  }

  /** Resuming a run: done if it is in order, refused if it is not. */
  method ResumeRun(mailbox: Mailbox, before: Ledger, r: nat, ghost runs: nat) returns (o: Outcome, after: Ledger)
    requires Going(mailbox, before, runs) && r < runs
    modifies mailbox
    ensures Going(mailbox, after, runs)
    ensures Follows(mailbox, old(At(mailbox)), At(mailbox), Recovery(r, Resume), o)
    ensures o == Done <==> old(mailbox.Sound(mailbox.View(r), PLAN))
    ensures o != Done ==> SidesOf(Now(mailbox), r) == old(SidesOf(Now(mailbox), r))
    ensures forall q :: 0 <= q < runs && q != r ==> mailbox.runs[q] == old(mailbox.runs)[q]
  {
    hide Held, LocationOf, Ready, Mailbox.Previews, Home, Settled;
    o, after := Histories.Recover(mailbox, r, Resume, true, Some(PLAN), before, Home());
  }

  method Start(written: Record -> nat) returns (mailbox: Mailbox)
    requires written(RecordOf(PLAN, 0)) <= MAX_MANIFEST_BYTES
    ensures fresh(mailbox) && Going(mailbox, Ledger([], 0), 0) && At(mailbox) == Moment(World(Home(), []), 0)
  {
    hide Held, Truthful, Scene.Valid, Home, Mailbox.Previews;
    mailbox := new Mailbox(FAMILY, BINDING, None, None, StagePreview(), written, (t: nat) => Fine, Home());
    HomeIsPlausible();
    Begin(mailbox);
    StagesPreview(mailbox);
  }

  const COMMANDS: seq<Operation> :=
    [APPLY, Recovery(0, Restore), APPLY, Recovery(0, Resume), Recovery(1, Restore), Recovery(0, Resume)]

  /** Apply, restore, apply again: resuming the first run is then refused, for the second
      holds its directory; once the second is restored, it succeeds. */
  method Sequence(written: Record -> nat)
    returns (mailbox: Mailbox, outcomes: seq<Outcome>, ghost moments: seq<Moment>)
    requires written(RecordOf(PLAN, 0)) <= MAX_MANIFEST_BYTES
    ensures Trace(mailbox, moments, COMMANDS, outcomes) && mailbox.Calm()
    ensures moments[0] == Moment(World(Home(), []), 0) && moments[6] == At(mailbox)
    ensures outcomes[..3] == [Done, Done, Done] && outcomes[3] != Done && outcomes[4..] == [Done, Done]
    ensures var w := moments[3].world;
            |w.runs| == 2 && Blocked(w, 0) && !mailbox.Sound(SidesOf(w, 0), PLAN)
  {
    hide Held, Accepted, Truthful, Scene.Valid, LocationOf, Ready, Home, Blocked, Follows, Mailbox.Previews,
         CompanionSeen, Going, Mailbox.Calm, Trace;
    mailbox := Start(written);
    ghost var m0 := At(mailbox);
    var ledger := ApplyAgain(mailbox, Ledger([], 0), 0);
    ghost var m1 := At(mailbox);
    ledger := RestoreRun(mailbox, ledger, 0, 1);
    ghost var m2 := At(mailbox);
    ledger := ApplyAgain(mailbox, ledger, 1);
    ghost var m3 := At(mailbox);
    GoingHolds(mailbox, ledger, 2);
    HeldByTheOther(Now(mailbox));
    HeldSound(mailbox, Home(), ledger, 0);
    var refused, resumed;
    refused, ledger := ResumeRun(mailbox, ledger, 0, 2);
    ghost var m4 := At(mailbox);
    ledger := RestoreRun(mailbox, ledger, 1, 2);
    ghost var m5 := At(mailbox);
    GoingHolds(mailbox, ledger, 2);
    OnlyHolder(Now(mailbox), 0);
    StagesUnaccompanied(Now(mailbox), 0, FAMILY.database);
    HeldSound(mailbox, Home(), ledger, 0);
    resumed, ledger := ResumeRun(mailbox, ledger, 0, 2);
    GoingHolds(mailbox, ledger, 2);
    moments := [m0, m1, m2, m3, m4, m5, At(mailbox)];
    outcomes := [Done, Done, Done, refused, Done, resumed];
    SixSteps(mailbox, moments, outcomes);
  }

  lemma GoingHolds(mailbox: Mailbox, ledger: Ledger, runs: nat)
    requires Going(mailbox, ledger, runs)
    ensures Held(mailbox, Home(), ledger) && mailbox.Calm() && |mailbox.runs| == runs && mailbox.family == FAMILY
    ensures forall r :: 0 <= r < runs ==> mailbox.runs[r].record.plan == PLAN
  {
    hide Held, Mailbox.Calm, Mailbox.Previews, Home;
  }

  lemma {:induction false} SixSteps(mailbox: Mailbox, moments: seq<Moment>, outcomes: seq<Outcome>)
    requires |moments| == 7 && |outcomes| == 6
    requires Follows(mailbox, moments[0], moments[1], COMMANDS[0], outcomes[0])
    requires Follows(mailbox, moments[1], moments[2], COMMANDS[1], outcomes[1])
    requires Follows(mailbox, moments[2], moments[3], COMMANDS[2], outcomes[2])
    requires Follows(mailbox, moments[3], moments[4], COMMANDS[3], outcomes[3])
    requires Follows(mailbox, moments[4], moments[5], COMMANDS[4], outcomes[4])
    requires Follows(mailbox, moments[5], moments[6], COMMANDS[5], outcomes[5])
    ensures Trace(mailbox, moments, COMMANDS, outcomes)
  {
    hide Follows;
  }

  lemma StagesPreview(mailbox: Mailbox)
    requires mailbox.preview == StagePreview()
    ensures mailbox.Previews()
  {
    HomeIsPlausible();
  }
}
