/** Histories of the rotated-backup quarantine with its own planner: no assumption
    about previews is left, and an apply succeeds under an exact condition.
 */
module BackupRuns {
  import opened Sql
  import opened Artifacts
  import opened Generations
  import opened Retention
  import opened Manifest
  import opened Quarantine
  import opened Histories
  import Order
  import DatedPair
  import EarlyTime

  /** What the preview sees of a directory. */
  function SceneAt(mailbox: Scene, d: Directory): Scene {
    mailbox.(source := d)
  }

  /** The planner as it runs at each command: under that command's policy it lists the
      directory it finds. */
  function Planner(mailbox: Scene, policies: nat -> Policy, clock: nat -> int): (Directory, nat) -> Option<Plan> {
    (d: Directory, t: nat) => BackupPreview(SceneAt(mailbox, d), policies(t), clock(t), Order.Listing(d.Keys))
  }

  predicate PlannedBy(mailbox: Mailbox, d: Directory, t: nat, policy: Policy, now: int) {
    mailbox.preview(d, t) == BackupPreview(SceneAt(mailbox.Here(), d), policy, now, Order.Listing(d.Keys))
  }

  lemma ListingLists(scene: Scene)
    ensures scene.Listed(Order.Listing(scene.source.Keys))
  {
  }

  /** The planner's plans record what it saw, and select nothing claimed or accompanied. */
  lemma {:induction false} BackupPreviewFits(scene: Scene, policy: Policy, now: int, listing: seq<string>,
                                             mailbox: Mailbox)
    requires scene.Valid() && scene.Listed(listing) && Previewable(scene, policy, listing)
    requires mailbox.family == scene.family && mailbox.claim == scene.claim
    ensures AllReadable(scene, Ranked(scene.family, listing))
    ensures var plan := PlanOf(scene, policy, now, Ranked(scene.family, listing));
            Truthful(plan, scene.source) && mailbox.Permitted(plan, scene.source)
  {
    hide Truthful, Ranked, HasCompanion, MatchesClaim, AllReadable, NewerBackups, Order.Sort, Chosen, Order.Increasing;
    PlanSelects(scene, policy, now, listing);
    var plan := PlanOf(scene, policy, now, Ranked(scene.family, listing));
    forall a | a in plan.eligible
      ensures !MatchesClaim(a.evidence, mailbox.claim) && !HasCompanion(scene.source, mailbox.family.database, a.name)
    {
      assert Names(plan.eligible, a.name) && Describes(scene, a);
    }
  }

  /** The backup planner is a truthful preview on every plausible directory. */
  lemma {:induction false} PlannerPreviews(mailbox: Mailbox, policies: nat -> Policy, clock: nat -> int)
    requires mailbox.preview == Planner(mailbox.Here(), policies, clock)
    ensures mailbox.Previews()
  {
    hide Previewable, PlanOf, Ranked, Truthful, Mailbox.Permitted, Order.Listing, Scene.Valid, Scene.Listed,
         AllReadable;
    forall d, t | mailbox.Plausible(d) && mailbox.preview(d, t).Some?
      ensures Truthful(mailbox.preview(d, t).value, d) && mailbox.Permitted(mailbox.preview(d, t).value, d)
    {
      var scene := SceneAt(mailbox.Here(), d);
      ListingLists(scene);
      BackupPreviewFits(scene, policies(t), clock(t), Order.Listing(d.Keys), mailbox);
    }
  }

  /** Any history of backup commands is carried out and can then be undone, once the
      faults are over: nothing is assumed of names or previews. */
  method UndoBackups(mailbox: Mailbox, policies: nat -> Policy, clock: nat -> int, operations: seq<Operation>,
                     before: Ledger, ghost origin: Directory, ghost last: nat)
    returns (outcomes: seq<Outcome>, after: Ledger, ghost moments: seq<Moment>)
    requires mailbox.preview == Planner(mailbox.Here(), policies, clock) && Held(mailbox, origin, before)
    requires forall t :: t >= last ==> mailbox.faults(t) == Fine
    modifies mailbox
    ensures Trace(mailbox, moments, operations, outcomes) && moments[0] == old(At(mailbox))
    ensures Held(mailbox, origin, after)
    ensures mailbox.source == origin && forall r :: 0 <= r < |mailbox.runs| ==> mailbox.runs[r].content == map[]
  {
    hide Held, Trace, Mailbox.Previews, OneKind;
    PlannerPreviews(mailbox, policies, clock);
    PlannerIsOneKind(mailbox, policies, clock);
    outcomes, after, moments := Session(mailbox, operations, before, origin);
    after := Unwind(mailbox, after, origin, last);
  }

  lemma {:induction false} PlannerIsOneKind(mailbox: Mailbox, policies: nat -> Policy, clock: nat -> int)
    requires mailbox.preview == Planner(mailbox.Here(), policies, clock)
    ensures OneKind(mailbox)
  {
    hide BackupPreview;
    forall d, t | mailbox.preview(d, t).Some? ensures mailbox.preview(d, t).value.backups {
      PlansAreForBackups(SceneAt(mailbox.Here(), d), policies(t), clock(t), Order.Listing(d.Keys));
    }
  }

  /** When the planner's current plan can be applied. */
  lemma {:induction false} ApplicableIff(mailbox: Mailbox, d: Directory, policy: Policy, now: int, createdAt: int,
                                         plan: Plan)
    requires mailbox.Plausible(d) && createdAt >= 0 && createdAt >= now
    requires BackupPreview(SceneAt(mailbox.Here(), d), policy, now, Order.Listing(d.Keys)) == Some(plan)
    ensures mailbox.Applicable(Some(plan), Some(plan), createdAt)
            <==> plan.eligible == []
                 || (mailbox.Reopens(RecordOf(plan, createdAt)) && AllTimesFit(SceneAt(mailbox.Here(), d)))
  {
    hide Previewable, PlanOf, Ranked, Order.Listing, Scene.Valid, Scene.Listed, AllReadable, Accepted, AllTimesFit;
    var scene := SceneAt(mailbox.Here(), d);
    ListingLists(scene);
    PlanPassesCheck(scene, policy, now, createdAt, Order.Listing(d.Keys));
    PlansAreForBackups(scene, policy, now, Order.Listing(d.Keys));
    AcceptedIgnoresSource(scene, map[], RecordOf(plan, createdAt));
  }

  lemma PlansAreForBackups(scene: Scene, policy: Policy, now: int, listing: seq<string>)
    ensures BackupPreview(scene, policy, now, listing).Some? ==>
            BackupPreview(scene, policy, now, listing).value.backups
  {
    hide Previewable, Ranked, Chosen, Order.Sort;
  }

  /** Offline and agreed, a fresh backup preview at whose steps nothing fails is applied
      exactly when it has nothing to move, or its manifest is short enough and all
      candidates' times fit. */
  method ApplyBackups(mailbox: Mailbox, policy: Policy, now: int, createdAt: int, plan: Plan,
                      before: Ledger, ghost origin: Directory)
    returns (o: Outcome, after: Ledger)
    requires Held(mailbox, origin, before) && mailbox.Previews()
    requires createdAt >= 0 && createdAt >= now
    requires PlannedBy(mailbox, mailbox.source, mailbox.tick, policy, now)
    requires mailbox.preview(mailbox.source, mailbox.tick) == Some(plan)
    modifies mailbox
    ensures Held(mailbox, origin, after)
    ensures Applied(mailbox, old(At(mailbox)), At(mailbox), true, Some(plan), createdAt, o)
    ensures var may := plan.eligible == []
                       || (mailbox.written(RecordOf(plan, createdAt)) <= 8_388_608
                           && AllTimesFit(SceneAt(mailbox.Here(), old(mailbox.source))));
            && (o == Done ==> may)
            && (mailbox.Quiet(old(mailbox.tick), mailbox.tick) && may ==> o == Done)
  {
    hide Held, Scene.Valid, AllTimesFit, Mailbox.Applicable;
    HeldPlausible(mailbox, origin, before);
    ApplicableIff(mailbox, mailbox.source, policy, now, createdAt, plan);
    o, after := Histories.Apply(mailbox, true, Some(plan), createdAt, before, origin);
  }

  /** The directory with a backup from before 1970: its preview has something to move,
      nothing ever fails, and no apply of it can succeed. */
  method EarlyApply(written: Record -> nat) returns (mailbox: Mailbox, plan: Plan)
    ensures var m := Moment(World(EarlyTime.EarlyScene().source, []), 0);
            && At(mailbox) == m && mailbox.Calm() && Held(mailbox, m.world.source, Ledger([], 0))
            && mailbox.preview(m.world.source, m.tick) == Some(plan) && plan.eligible != []
            && forall createdAt :: createdAt >= 3600 * NANOSECONDS ==>
                 !MayApply(mailbox, m, true, Some(plan), createdAt)
  {
    hide Scene.Valid, Held, AllTimesFit, Accepted, Previewable, PlanOf, AllReadable, Ranked;
    var scene := EarlyTime.EarlyScene();
    var here := SceneAt(scene, map[]);
    var now := 3600 * NANOSECONDS;
    mailbox := new Mailbox(scene.family, scene.binding, scene.archiveChild, scene.claim,
                           Planner(here, (t: nat) => DatedPair.POLICY, (t: nat) => 3600 * NANOSECONDS), written,
                           (t: nat) => Fine, scene.source);
    ListingLists(scene);
    EarlyTime.EarlyTimeIsRefused(now, now, Order.Listing(scene.source.Keys));
    var preview := mailbox.preview(mailbox.source, mailbox.tick);
    assert preview == BackupPreview(scene, DatedPair.POLICY, now, Order.Listing(scene.source.Keys)) by {
      assert SceneAt(here, scene.source) == scene;
    }
    plan := preview.value;
    forall createdAt | createdAt >= 3600 * NANOSECONDS ensures !Accepted(mailbox.Here(), RecordOf(plan, createdAt)) {
      EarlyTime.EarlyTimeIsRefused(now, createdAt, Order.Listing(scene.source.Keys));
      PlansAreForBackups(scene, DatedPair.POLICY, now, Order.Listing(scene.source.Keys));
      AcceptedIgnoresSource(scene, map[], RecordOf(plan, createdAt));
    }
    DatedPair.PairIsValid("mail", EarlyTime.BEFORE_1970);
    Begin(mailbox);
  }
}
