/** Whole histories of the quarantine: any sequence of apply, resume, restore and
    inspection, each of which may fail or crash at any of its steps.
 */
module Histories {
  import opened Sql
  import opened Artifacts
  import opened Generations
  import opened Retention
  import opened Manifest
  import opened Quarantine
  import opened RecoveryRuns

  /** One command: apply with the plan the operator agreed to, or a recovery of
      one of the recorded runs. */
  datatype Operation =
    | ApplyPlan(offline: bool, expected: Option<Plan>, createdAt: int)
    | RecoverRun(run: nat, mode: Mode, offline: bool, agreed: Option<Plan>)

  ghost function Now(mailbox: Mailbox): World
    reads mailbox
  {
    World(mailbox.source, mailbox.runs)
  }

  /** When each run last took something in, as the operator can tell from the
      action logs. */
  datatype Ledger = Ledger(stamps: seq<nat>, clock: nat)

  /** Directories and runs, and how far the stream of faults has been used up. */
  datatype Moment = Moment(world: World, tick: nat)

  ghost function At(mailbox: Mailbox): Moment
    reads mailbox
  {
    Moment(Now(mailbox), mailbox.tick)
  }

  // ----- what one command may do

  /** A recovery may move its run: it is agreed and in order. */
  ghost predicate MayRecover(mailbox: Mailbox, w: World, r: nat, mode: Mode, offline: bool, agreed: Option<Plan>)
    requires r < |w.runs|
  {
    var plan := w.runs[r].record.plan;
    mailbox.Sound(SidesOf(w, r), plan) && (mode == Inspect || (offline && agreed == Some(plan)))
  }

  ghost predicate Settled(s: Sides, t: Sides, artifacts: seq<Artifact>, to: Place) {
    exists k :: 0 <= k <= |artifacts| && t == After(s, artifacts[..k], to)
  }

  ghost predicate AllThere(s: Sides, artifacts: seq<Artifact>, to: Place) {
    forall a :: a in artifacts ==> LocationOf(s, a) == Some(to)
  }

  ghost predicate OnlyRunChanged(w: World, v: World, r: nat)
    requires r < |w.runs|
  {
    && |v.runs| == |w.runs| && v.runs[r].record == w.runs[r].record && w.runs[r].log <= v.runs[r].log
    && forall i :: 0 <= i < |w.runs| && i != r ==> v.runs[i] == w.runs[i]
  }

  /** From one moment to the next by a recovery of run `r`: some first part of its plan
      has been moved, nothing unless it may be; and when none of its steps fails, it
      succeeds exactly if it may. */
  ghost predicate Recovered(mailbox: Mailbox, m: Moment, n: Moment, r: nat, mode: Mode, offline: bool,
                            agreed: Option<Plan>, o: Outcome)
    requires r < |m.world.runs|
  {
    && m.tick <= n.tick && OnlyRunChanged(m.world, n.world, r)
    && var s, t := SidesOf(m.world, r), SidesOf(n.world, r);
       var artifacts := m.world.runs[r].record.plan.eligible;
       var may := MayRecover(mailbox, m.world, r, mode, offline, agreed);
       && Settled(s, t, artifacts, Destination(mode))
       && (t != s ==> may && mode != Inspect)
       && (o == Done ==> may && (mode != Inspect ==> AllThere(t, artifacts, Destination(mode))))
       && (mailbox.Quiet(m.tick, n.tick) && may ==> o == Done)
  }

  /** An apply may create its run: the plan is agreed, current, and not refused. */
  ghost predicate MayApply(mailbox: Mailbox, m: Moment, offline: bool, expected: Option<Plan>, createdAt: int) {
    offline && mailbox.Applicable(mailbox.preview(m.world.source, m.tick), expected, createdAt)
  }

  /** From one moment to the next by an apply: nothing, or a new run with some first
      part of its plan moved; and when none of its steps fails, success exactly if it
      may. */
  ghost predicate Applied(mailbox: Mailbox, m: Moment, n: Moment, offline: bool, expected: Option<Plan>,
                          createdAt: int, o: Outcome)
  {
    var w, v := m.world, n.world;
    var may := MayApply(mailbox, m, offline, expected, createdAt);
    && m.tick <= n.tick && (o == Done ==> may) && (mailbox.Quiet(m.tick, n.tick) && may ==> o == Done)
    && if v.runs == w.runs then v == w && (o == Done ==> expected.value.eligible == [])
       else
         && may && expected.value.eligible != []
         && |v.runs| == |w.runs| + 1 && v.runs[..|w.runs|] == w.runs
         && v.runs[|w.runs|].record == RecordOf(expected.value, createdAt)
         && Settled(Sides(w.source, map[]), SidesOf(v, |w.runs|), expected.value.eligible, InQuarantine)
         && (o == Done ==> AllThere(SidesOf(v, |w.runs|), expected.value.eligible, InQuarantine))
  }

  ghost predicate Follows(mailbox: Mailbox, m: Moment, n: Moment, operation: Operation, o: Outcome) {
    match operation
    case ApplyPlan(offline, expected, createdAt) => Applied(mailbox, m, n, offline, expected, createdAt, o)
    case RecoverRun(r, mode, offline, agreed) =>
      if r < |m.world.runs| then Recovered(mailbox, m, n, r, mode, offline, agreed, o) else n == m && o == Failed
  }

  // ----- what every history keeps

  /** No staging run can put a companion of run `r`'s backups back: the database is
      not named like a staging directory, or there was no such run before. */
  predicate Undisturbed(database: string, runs: seq<Run>, r: nat)
    requires r < |runs|
  {
    Unrelated(database) || !runs[r].record.plan.backups || forall q :: 0 <= q < r ==> runs[q].record.plan.backups
  }

  ghost predicate Previewed(mailbox: Mailbox, plan: Plan) {
    exists d, t :: mailbox.preview(d, t) == Some(plan)
  }

  /** What is known of a recorded run: its manifest was accepted and can be read again,
      its plan was a preview that selected nothing claimed, and undisturbed it would
      still be permitted where all began. */
  ghost predicate RunFits(mailbox: Mailbox, origin: Directory, runs: seq<Run>, r: nat)
    requires r < |runs|
  {
    && Accepted(mailbox.Here(), runs[r].record) && mailbox.Reopens(runs[r].record)
    && Previewed(mailbox, runs[r].record.plan) && mailbox.Unclaimed(runs[r].record.plan)
    && (Undisturbed(mailbox.family.database, runs, r) ==> mailbox.Permitted(runs[r].record.plan, origin))
  }

  /** The invariant of every history that started from `origin` with no run. */
  ghost predicate Held(mailbox: Mailbox, origin: Directory, ledger: Ledger)
    reads mailbox
  {
    && mailbox.Plausible(origin) && Conserved(Now(mailbox), origin) && Journaled(Now(mailbox))
    && TakenLater(Now(mailbox), ledger.stamps, ledger.clock)
    && forall r :: 0 <= r < |mailbox.runs| ==> RunFits(mailbox, origin, mailbox.runs, r)
  }

  /** Only the records matter for that, and only those up to the run. */
  lemma {:induction false} StillFit(mailbox: Mailbox, origin: Directory, before: seq<Run>, after: seq<Run>)
    requires |before| <= |after| && forall r :: 0 <= r < |before| ==> RunFits(mailbox, origin, before, r)
    requires forall r :: 0 <= r < |before| ==> after[r].record == before[r].record
    ensures forall r :: 0 <= r < |before| ==> RunFits(mailbox, origin, after, r)
  {
    hide Accepted, Previewed, Mailbox.Permitted, Mailbox.Unclaimed, Unrelated;
    forall r | 0 <= r < |before| ensures RunFits(mailbox, origin, after, r) {
      assert RunFits(mailbox, origin, before, r);
    }
  }

  // ----- one command

  lemma {:induction false} RecoveredHolds(w: World, v: World, origin: Directory, r: nat, k: nat, to: Place)
    requires Conserved(w, origin) && Journaled(w)
    requires r < |w.runs| == |v.runs| && v.runs[r].record == w.runs[r].record && w.runs[r].log <= v.runs[r].log
    requires forall i :: 0 <= i < |w.runs| && i != r ==> v.runs[i] == w.runs[i]
    requires k <= |w.runs[r].record.plan.eligible|
    requires SidesOf(v, r) == After(SidesOf(w, r), w.runs[r].record.plan.eligible[..k], to)
    requires forall name :: name in v.runs[r].content && name !in w.runs[r].content ==> Intent(name) in v.runs[r].log
    ensures Conserved(v, origin) && Journaled(v)
  {
    hide Conserved, After;
    AfterConserves(w, r, k, to, origin);
    SameDirectories(WithSides(w, r, SidesOf(v, r)), v, origin);
  }

  lemma {:induction false} AfterRestoreShrinks(s: Sides, artifacts: seq<Artifact>)
    ensures After(s, artifacts, InSource).content.Keys <= s.content.Keys
  {
    if artifacts != [] {
      AfterRestoreShrinks(s, artifacts[..|artifacts| - 1]);
    }
  }

  lemma SourceIsPlausible(mailbox: Mailbox, w: World, origin: Directory)
    requires mailbox.Plausible(origin) && Conserved(w, origin)
    ensures mailbox.Plausible(w.source)
  {
    hide Coherent, RunsOriginal, Complete, Apart, PlansTruthful;
  }

  /** How a recovery changes the order in which runs took things. */
  lemma {:induction false} RecoveredLedger(w: World, v: World, origin: Directory, r: nat, k: nat, mode: Mode,
                                           ledger: Ledger, mailbox: Mailbox)
    requires Conserved(w, origin) && TakenLater(w, ledger.stamps, ledger.clock)
    requires r < |w.runs| == |v.runs| && v.runs[r].record == w.runs[r].record
    requires forall i :: 0 <= i < |w.runs| && i != r ==> v.runs[i] == w.runs[i]
    requires k <= |w.runs[r].record.plan.eligible|
    requires SidesOf(v, r) == After(SidesOf(w, r), w.runs[r].record.plan.eligible[..k], Destination(mode))
    requires !mailbox.Sound(SidesOf(w, r), w.runs[r].record.plan) ==> SidesOf(v, r) == SidesOf(w, r)
    requires AllCoherent(origin)
    ensures var took := mode != Restore && v.runs[r].content != w.runs[r].content;
            TakenLater(v, if took then ledger.stamps[r := ledger.clock] else ledger.stamps, ledger.clock + 1)
  {
    hide Conserved, TakenLater, After, Ready, AllCoherent;
    if mode == Restore {
      AfterRestoreShrinks(SidesOf(w, r), w.runs[r].record.plan.eligible[..k]);
      GivingBack(w, v, ledger.stamps, ledger.clock);
    } else if v.runs[r].content != w.runs[r].content {
      InOrder(w, origin, r, mailbox);
      SoundIsUnblocked(w, origin, r, mailbox);
      Taking(w, v, ledger.stamps, ledger.clock, r);
    } else {
      GivingBack(w, v, ledger.stamps, ledger.clock);
    }
  }

  /** A recovery, whatever happens during it. */
  method Recover(mailbox: Mailbox, r: nat, mode: Mode, offline: bool, expected: Option<Plan>,
                 before: Ledger, ghost origin: Directory)
    returns (o: Outcome, after: Ledger)
    requires Held(mailbox, origin, before) && r < |mailbox.runs|
    modifies mailbox
    ensures Held(mailbox, origin, after)
    ensures Recovered(mailbox, old(At(mailbox)), At(mailbox), r, mode, offline, expected, o)
    ensures old(mailbox.Calm()) ==> mailbox.Calm()
    ensures mode == Restore ==> after.stamps == before.stamps
  {
    hide Conserved, Journaled, After, Accepted, LocationOf, Ready, TakenLater, Scene.Valid;
    ghost var was := Now(mailbox);
    assert RunFits(mailbox, origin, was.runs, r);
    var content := mailbox.runs[r].content;
    ghost var moved;
    o, moved := mailbox.Recover(r, mode, offline, expected);
    var took := mode != Restore && mailbox.runs[r].content != content;
    LedgerFits(was, before);
    StillFit(mailbox, origin, was.runs, mailbox.runs);
    after := Ledger(if took then before.stamps[r := before.clock] else before.stamps, before.clock + 1);
    RecoveredHolds(was, Now(mailbox), origin, r, moved, Destination(mode));
    OriginIsCoherent(mailbox, origin);
    RecoveredLedger(was, Now(mailbox), origin, r, moved, mode, before, mailbox);
  }

  lemma OriginIsCoherent(mailbox: Mailbox, origin: Directory)
    requires mailbox.Plausible(origin)
    ensures AllCoherent(origin)
  {
  }

  lemma LedgerFits(w: World, ledger: Ledger)
    requires TakenLater(w, ledger.stamps, ledger.clock)
    ensures |ledger.stamps| == |w.runs|
  {
  }

  // ----- a new run

  lemma AcceptedName(scene: Scene, m: Record, a: Artifact)
    requires Accepted(scene, m) && a in m.plan.eligible
    ensures if m.plan.backups then Accepts(scene.family, a.name) else IsStageName(a.name)
  {
    hide FingerprintOk, Accepts, IsStageName;
    assert a in m.plan.eligible + m.plan.retained;
    assert StageOk(scene, m.backups, a);
  }

  lemma {:induction false} QuarantinedName(w: World, origin: Directory, scene: Scene, q: nat, name: string)
    requires Conserved(w, origin) && q < |w.runs| && name in w.runs[q].content
    requires Accepted(scene, w.runs[q].record)
    ensures if w.runs[q].record.plan.backups then Accepts(scene.family, name) else IsStageName(name)
  {
    hide Accepted, Accepts, IsStageName, Truthful;
    HeldIsPlanned(w, origin, q, name);
    var a :| a in w.runs[q].record.plan.eligible && a.name == name;
    AcceptedName(scene, w.runs[q].record, a);
  }

  /** Companions are never planned, so none can come back from another run. */
  lemma {:induction false} PermittedAtOrigin(w: World, origin: Directory, mailbox: Mailbox, record: Record)
    requires Conserved(w, origin) && Accepted(mailbox.Here(), record) && mailbox.Permitted(record.plan, w.source)
    requires forall q :: 0 <= q < |w.runs| ==> Accepted(mailbox.Here(), w.runs[q].record)
    requires Unrelated(mailbox.family.database) || forall q :: 0 <= q < |w.runs| ==> w.runs[q].record.plan.backups
    ensures mailbox.Permitted(record.plan, origin)
  {
    hide Accepted, Accepts, IsStageName, Truthful, CompanionNames, MatchesClaim, Unrelated;
    if record.plan.backups {
      forall a, c | a in record.plan.eligible && c in CompanionNames(mailbox.family.database, a.name)
        ensures c !in origin
      {
        AcceptedName(mailbox.Here(), record, a);
        assert !HasCompanion(w.source, mailbox.family.database, a.name);
        forall q | 0 <= q < |w.runs| ensures c !in w.runs[q].content {
          CompanionUnplanned(mailbox.family, a.name, c);
          if c in w.runs[q].content {
            QuarantinedName(w, origin, mailbox.Here(), q, c);
          }
        }
        assert !InSomeRun(w, c);
      }
    }
  }

  lemma {:induction false} NewRunFits(w: World, origin: Directory, mailbox: Mailbox, record: Record, runs: seq<Run>)
    requires Conserved(w, origin) && Accepted(mailbox.Here(), record) && mailbox.Permitted(record.plan, w.source)
    requires forall q :: 0 <= q < |w.runs| ==> RunFits(mailbox, origin, w.runs, q)
    requires mailbox.Reopens(record) && Previewed(mailbox, record.plan)
    requires |runs| == |w.runs| + 1 && runs[..|w.runs|] == w.runs && runs[|w.runs|].record == record
    ensures RunFits(mailbox, origin, runs, |w.runs|)
  {
    hide Accepted, Unrelated, Previewed, Conserved, Mailbox.Permitted, Mailbox.Unclaimed;
    UnplannedPermitted(mailbox, record.plan, origin);
    PermittedIsUnclaimed(mailbox, record.plan, w.source);
    forall q | 0 <= q < |w.runs| ensures Accepted(mailbox.Here(), w.runs[q].record) && runs[q] == w.runs[q] {
      assert RunFits(mailbox, origin, w.runs, q);
    }
    if Unrelated(mailbox.family.database) || forall q :: 0 <= q < |w.runs| ==> w.runs[q].record.plan.backups {
      PermittedAtOrigin(w, origin, mailbox, record);
    }
  }

  lemma PermittedIsUnclaimed(mailbox: Mailbox, plan: Plan, d: Directory)
    ensures mailbox.Permitted(plan, d) ==> mailbox.Unclaimed(plan)
  {
  }

  /** Only backups have companions and a claim. */
  lemma UnplannedPermitted(mailbox: Mailbox, plan: Plan, d: Directory)
    ensures !plan.backups ==> mailbox.Permitted(plan, d)
  {
  }

  lemma NewRunJournaled(w: World, record: Record)
    requires Journaled(w)
    ensures Journaled(WithRun(w, record))
  {
  }

  lemma {:induction false} AppliedLedger(w: World, v: World, origin: Directory, record: Record, k: nat, ledger: Ledger)
    requires Conserved(w, origin) && Truthful(record.plan, w.source) && TakenLater(w, ledger.stamps, ledger.clock)
    requires |v.runs| == |w.runs| + 1 && v.runs[..|w.runs|] == w.runs && v.runs[|w.runs|].record == record
    ensures TakenLater(v, ledger.stamps + [ledger.clock + 1], ledger.clock + 2)
  {
    hide Conserved, Truthful, TakenLater, Blocked;
    var created := WithRun(w, record);
    NewRunUnblocked(w, record, origin, ledger.stamps, ledger.clock);
    LedgerFits(w, ledger);
    assert (ledger.stamps + [ledger.clock])[|w.runs| := ledger.clock + 1] == ledger.stamps + [ledger.clock + 1];
    Taking(created, v, ledger.stamps + [ledger.clock], ledger.clock + 1, |w.runs|);
  }

  /** An apply, whatever happens during it. */
  method Apply(mailbox: Mailbox, offline: bool, expected: Option<Plan>, createdAt: int, before: Ledger,
               ghost origin: Directory)
    returns (o: Outcome, after: Ledger)
    requires Held(mailbox, origin, before) && mailbox.Previews()
    modifies mailbox
    ensures Held(mailbox, origin, after)
    ensures Applied(mailbox, old(At(mailbox)), At(mailbox), offline, expected, createdAt, o)
    ensures old(mailbox.Calm()) ==> mailbox.Calm()
  {
    hide Conserved, Journaled, After, Accepted, LocationOf, Truthful, TakenLater, Mailbox.Permitted, Scene.Valid,
         Unrelated;
    ghost var was := Now(mailbox);
    var count := |mailbox.runs|;
    SourceIsPlausible(mailbox, was, origin);
    ghost var moved;
    o, moved := mailbox.Apply(offline, expected, createdAt);
    if |mailbox.runs| == count {
      after := before;
    } else {
      after := Ledger(before.stamps + [before.clock + 1], before.clock + 2);
      ghost var r := |was.runs|;
      ghost var record := mailbox.runs[r].record;
      NewRunConserves(was, record, origin);
      NewRunJournaled(was, record);
      RecoveredHolds(WithRun(was, record), Now(mailbox), origin, r, moved, InQuarantine);
      AppliedLedger(was, Now(mailbox), origin, record, moved, before);
      StillFit(mailbox, origin, was.runs, mailbox.runs);
      NewRunFits(was, origin, mailbox, record, mailbox.runs);
    }
  }

  // ----- any number of commands

  lemma Begin(mailbox: Mailbox)
    requires mailbox.runs == [] && mailbox.Plausible(mailbox.source)
    ensures Held(mailbox, mailbox.source, Ledger([], 0))
  {
  }

  /** The moments between the commands of a history. */
  ghost predicate Trace(mailbox: Mailbox, moments: seq<Moment>, operations: seq<Operation>, outcomes: seq<Outcome>) {
    && |moments| == |operations| + 1 && |outcomes| == |operations|
    && forall i :: 0 <= i < |operations| ==>
         Follows(mailbox, moments[i], moments[i + 1], operations[i], outcomes[i])
  }

  /** Any sequence of commands, failing and crashing anywhere, is carried out one after
      the other; at no moment between them is anything lost, copied, replaced or left
      without its intent record. */
  method Session(mailbox: Mailbox, operations: seq<Operation>, before: Ledger, ghost origin: Directory)
    returns (outcomes: seq<Outcome>, after: Ledger, ghost moments: seq<Moment>)
    requires mailbox.Previews() && Held(mailbox, origin, before)
    modifies mailbox
    ensures Held(mailbox, origin, after)
    ensures Trace(mailbox, moments, operations, outcomes)
    ensures moments[0] == old(At(mailbox)) && moments[|operations|] == At(mailbox)
    ensures forall m :: m in moments ==> Conserved(m.world, origin) && Journaled(m.world)
  {
    hide Held, Scene.Valid, Follows, Conserved, Journaled;
    outcomes, after, moments := [], before, [At(mailbox)];
    HeldConserves(mailbox, origin, before);
    for i := 0 to |operations|
      invariant Held(mailbox, origin, after)
      invariant Trace(mailbox, moments, operations[..i], outcomes)
      invariant moments[0] == old(At(mailbox)) && moments[i] == At(mailbox)
      invariant forall m :: m in moments ==> Conserved(m.world, origin) && Journaled(m.world)
    {
      var o;
      o, after := Execute(mailbox, operations[i], after, origin);
      HeldConserves(mailbox, origin, after);
      TraceNext(mailbox, moments, operations, outcomes, i, At(mailbox), o);
      outcomes, moments := outcomes + [o], moments + [At(mailbox)];
    }
    assert operations[..|operations|] == operations;
  }

  lemma {:induction false} TraceNext(mailbox: Mailbox, moments: seq<Moment>, operations: seq<Operation>,
                                     outcomes: seq<Outcome>, i: nat, m: Moment, o: Outcome)
    requires i < |operations| && Trace(mailbox, moments, operations[..i], outcomes)
    requires Follows(mailbox, moments[i], m, operations[i], o)
    ensures Trace(mailbox, moments + [m], operations[..i + 1], outcomes + [o])
  {
    hide Follows;
    forall k | 0 <= k < i + 1
      ensures Follows(mailbox, (moments + [m])[k], (moments + [m])[k + 1], operations[..i + 1][k], (outcomes + [o])[k])
    {
      assert k < i ==> operations[..i][k] == operations[k];
    }
  }

  method Execute(mailbox: Mailbox, operation: Operation, before: Ledger, ghost origin: Directory)
    returns (o: Outcome, after: Ledger)
    requires mailbox.Previews() && Held(mailbox, origin, before)
    modifies mailbox
    ensures Held(mailbox, origin, after)
    ensures Follows(mailbox, old(At(mailbox)), At(mailbox), operation, o)
  {
    hide Held, Recovered, Applied, Mailbox.Previews;
    match operation
    case ApplyPlan(offline, expected, createdAt) =>
      o, after := Apply(mailbox, offline, expected, createdAt, before, origin);
    case RecoverRun(r, mode, offline, agreed) =>
      if r < |mailbox.runs| {
        o, after := Recover(mailbox, r, mode, offline, agreed, before, origin);
      } else {
        o, after := Failed, before;
      }
  }

  lemma HeldConserves(mailbox: Mailbox, origin: Directory, ledger: Ledger)
    requires Held(mailbox, origin, ledger)
    ensures Conserved(Now(mailbox), origin) && Journaled(Now(mailbox))
    ensures mailbox.Plausible(origin) && AllCoherent(origin)
    ensures |ledger.stamps| == |mailbox.runs| && TakenLater(Now(mailbox), ledger.stamps, ledger.clock)
    ensures forall r :: 0 <= r < |mailbox.runs| ==>
              Accepted(mailbox.Here(), mailbox.runs[r].record) && mailbox.Unclaimed(mailbox.runs[r].record.plan)
  {
    hide Conserved, Journaled, Accepted, Mailbox.Permitted, Mailbox.Unclaimed;
    forall r | 0 <= r < |mailbox.runs|
      ensures Accepted(mailbox.Here(), mailbox.runs[r].record) && mailbox.Unclaimed(mailbox.runs[r].record.plan)
    {
      assert RunFits(mailbox, origin, mailbox.runs, r);
    }
  }

  /** When a run of this history is in order. */
  lemma {:induction false} HeldSound(mailbox: Mailbox, origin: Directory, ledger: Ledger, r: nat)
    requires Held(mailbox, origin, ledger) && r < |mailbox.runs|
    ensures mailbox.Sound(mailbox.View(r), mailbox.runs[r].record.plan)
            <==> !Blocked(Now(mailbox), r) && !CompanionSeen(Now(mailbox), r, mailbox.family.database)
    ensures Undisturbed(mailbox.family.database, mailbox.runs, r) ==>
              !CompanionSeen(Now(mailbox), r, mailbox.family.database)
  {
    hide Conserved, Journaled, TakenLater, Accepted, Ready, Mailbox.Permitted, Blocked, CompanionSeen;
    HeldConserves(mailbox, origin, ledger);
    assert RunFits(mailbox, origin, mailbox.runs, r);
    SoundIff(Now(mailbox), origin, r, mailbox);
    if Undisturbed(mailbox.family.database, mailbox.runs, r) {
      PermittedIsAlone(Now(mailbox), origin, r, mailbox);
    }
  }

  /** A mailbox with one recorded run, however often it was interrupted: a resume or
      restore at whose steps nothing fails succeeds, the resume leaving exactly the
      planned artifacts in quarantine, the restore giving the original directory back. */
  method Finish(mailbox: Mailbox, restore: bool, before: Ledger, ghost origin: Directory)
    returns (o: Outcome, after: Ledger)
    requires Held(mailbox, origin, before) && |mailbox.runs| == 1
    modifies mailbox
    ensures Held(mailbox, origin, after) && |mailbox.runs| == 1
    ensures mailbox.runs[0].record == old(mailbox.runs[0].record)
    ensures mailbox.Quiet(old(mailbox.tick), mailbox.tick) ==> o == Done
    ensures o == Done && restore ==> mailbox.source == origin && mailbox.runs[0].content == map[]
    ensures o == Done && !restore ==>
              forall name :: name in mailbox.runs[0].content <==> Planned(mailbox.runs[0].record.plan, name)
  {
    hide Held, LocationOf, Ready, Planned, Settled, Blocked, CompanionSeen, Conserved, Journaled, TakenLater, Accepted,
         Mailbox.Quiet;
    HeldSound(mailbox, origin, before, 0);
    OnlyHolder(Now(mailbox), 0);
    var mode := if restore then Restore else Resume;
    o, after := Recover(mailbox, 0, mode, true, Some(mailbox.runs[0].record.plan), before, origin);
    if o == Done {
      HeldConserves(mailbox, origin, after);
      AllAt(Now(mailbox), origin, 0, Destination(mode));
      if restore {
        AllRestored(Now(mailbox), origin);
      }
    }
  }

  // ----- undoing everything

  /** Restored in the reverse order of last moves, run `r` will find no companion of its
      backups: none is in the source, nor in a run that is restored before it. */
  ghost predicate RunClear(w: World, stamps: seq<nat>, database: string, r: nat)
    requires |stamps| == |w.runs| && r < |w.runs|
  {
    w.runs[r].content != map[] && w.runs[r].record.plan.backups ==>
      forall a :: a in w.runs[r].record.plan.eligible ==>
        && !HasCompanion(w.source, database, a.name)
        && forall q :: 0 <= q < |w.runs| && stamps[q] > stamps[r] ==>
             !HasCompanion(w.runs[q].content, database, a.name)
  }

  ghost predicate Clear(w: World, stamps: seq<nat>, database: string)
    requires |stamps| == |w.runs|
  {
    forall r :: 0 <= r < |w.runs| ==> RunClear(w, stamps, database, r)
  }

  /** Run `r` is the one to restore next. */
  ghost predicate Next(runs: seq<Run>, stamps: seq<nat>, r: nat)
    requires |stamps| == |runs| && r < |runs|
  {
    runs[r].content != map[]
    && forall q :: 0 <= q < |runs| && runs[q].content != map[] ==> stamps[q] <= stamps[r]
  }

  /** Some of run `r` is back in the source, and nothing else has changed place. */
  ghost predicate GivenBack(w: World, v: World, r: nat)
    requires r < |w.runs| == |v.runs|
  {
    && (forall q :: 0 <= q < |w.runs| ==> v.runs[q].record == w.runs[q].record)
    && (forall q :: 0 <= q < |w.runs| && q != r ==> v.runs[q].content == w.runs[q].content)
    && w.source.Keys <= v.source.Keys && v.runs[r].content.Keys <= w.runs[r].content.Keys
    && v.source.Keys + v.runs[r].content.Keys == w.source.Keys + w.runs[r].content.Keys
  }

  lemma {:induction false} AfterGivesBack(s: Sides, artifacts: seq<Artifact>)
    ensures var t := After(s, artifacts, InSource);
            && s.source.Keys <= t.source.Keys && t.content.Keys <= s.content.Keys
            && t.source.Keys + t.content.Keys == s.source.Keys + s.content.Keys
  {
    hide Settle;
    if artifacts != [] {
      var before := After(s, artifacts[..|artifacts| - 1], InSource);
      AfterGivesBack(s, artifacts[..|artifacts| - 1]);
      SettleGivesBack(before, artifacts[|artifacts| - 1]);
    }
  }

  lemma SettleGivesBack(s: Sides, a: Artifact)
    ensures var t := Settle(s, a, InSource);
            && s.source.Keys <= t.source.Keys && t.content.Keys <= s.content.Keys
            && t.source.Keys + t.content.Keys == s.source.Keys + s.content.Keys
  {
  }

  lemma {:induction false} RestoreGivesBack(mailbox: Mailbox, m: Moment, n: Moment, r: nat, agreed: Option<Plan>,
                                            o: Outcome)
    requires r < |m.world.runs| && Recovered(mailbox, m, n, r, Restore, true, agreed, o)
    ensures |n.world.runs| == |m.world.runs| && GivenBack(m.world, n.world, r)
  {
    hide After, MayRecover, AllThere, Mailbox.Quiet;
    var artifacts := m.world.runs[r].record.plan.eligible;
    var k :| 0 <= k <= |artifacts| && SidesOf(n.world, r) == After(SidesOf(m.world, r), artifacts[..k], InSource);
    AfterGivesBack(SidesOf(m.world, r), artifacts[..k]);
  }

  /** What a run holds is no companion of its own backups. */
  lemma {:induction false} NoOwnCompanion(w: World, origin: Directory, scene: Scene, r: nat, a: Artifact)
    requires Conserved(w, origin) && r < |w.runs| && Accepted(scene, w.runs[r].record)
    requires w.runs[r].record.plan.backups && a in w.runs[r].record.plan.eligible
    ensures !HasCompanion(w.runs[r].content, scene.family.database, a.name)
  {
    hide Conserved, Accepted, Accepts, CompanionNames;
    AcceptedName(scene, w.runs[r].record, a);
    forall c | c in CompanionNames(scene.family.database, a.name) ensures c !in w.runs[r].content {
      CompanionUnplanned(scene.family, a.name, c);
      if c in w.runs[r].content {
        QuarantinedName(w, origin, scene, r, c);
      }
    }
  }

  /** The next run to restore finds a companion exactly when it is not clear. */
  lemma {:induction false} NextClear(w: World, origin: Directory, scene: Scene, stamps: seq<nat>, r: nat)
    requires Conserved(w, origin) && |stamps| == |w.runs| && r < |w.runs| && Next(w.runs, stamps, r)
    requires Accepted(scene, w.runs[r].record)
    ensures CompanionSeen(w, r, scene.family.database) <==> !RunClear(w, stamps, scene.family.database, r)
  {
    hide Conserved, Accepted, CompanionNames;
    var database := scene.family.database;
    forall a | a in w.runs[r].record.plan.eligible && w.runs[r].record.plan.backups
      ensures !HasCompanion(w.runs[r].content, database, a.name)
      ensures forall q :: 0 <= q < |w.runs| && stamps[q] > stamps[r] ==>
                !HasCompanion(w.runs[q].content, database, a.name)
    {
      NoOwnCompanion(w, origin, scene, r, a);
      forall q | 0 <= q < |w.runs| && stamps[q] > stamps[r] ensures !HasCompanion(w.runs[q].content, database, a.name) {
        assert w.runs[q].content == map[];
      }
    }
  }

  lemma HasCompanionIn(d: Directory, e: Directory, f: Directory, database: string, name: string)
    requires d.Keys == e.Keys + f.Keys
    ensures HasCompanion(d, database, name) <==> HasCompanion(e, database, name) || HasCompanion(f, database, name)
  {
    hide CompanionNames;
    assert forall c :: c in d <==> c in d.Keys;
    assert forall c :: c in e <==> c in e.Keys;
    assert forall c :: c in f <==> c in f.Keys;
  }

  /** Restoring the next run, wholly or in part, changes nothing for the others. */
  lemma {:induction false} OthersClear(w: World, v: World, stamps: seq<nat>, database: string, r: nat, s: nat)
    requires |stamps| == |w.runs| == |v.runs| && r < |w.runs| && s < |w.runs| && s != r
    requires Next(w.runs, stamps, r) && GivenBack(w, v, r)
    requires forall p, q :: 0 <= p < q < |stamps| ==> stamps[p] != stamps[q]
    ensures RunClear(w, stamps, database, s) <==> RunClear(v, stamps, database, s)
  {
    hide HasCompanion;
    if w.runs[s].content != map[] && w.runs[s].record.plan.backups {
      assert stamps[s] < stamps[r];
      forall a | a in w.runs[s].record.plan.eligible
        ensures HasCompanion(w.source, database, a.name) || HasCompanion(w.runs[r].content, database, a.name)
                <==> HasCompanion(v.source, database, a.name) || HasCompanion(v.runs[r].content, database, a.name)
      {
        var all := map c | c in w.source.Keys + w.runs[r].content.Keys
          :: if c in w.source then w.source[c] else w.runs[r].content[c];
        HasCompanionIn(all, w.source, w.runs[r].content, database, a.name);
        HasCompanionIn(all, v.source, v.runs[r].content, database, a.name);
      }
      SplitClear(w, stamps, database, r, s);
      SplitClear(v, stamps, database, r, s);
    }
  }

  /** A later run counts like the source. */
  lemma {:induction false} SplitClear(w: World, stamps: seq<nat>, database: string, r: nat, s: nat)
    requires |stamps| == |w.runs| && r < |w.runs| && s < |w.runs| && stamps[s] < stamps[r]
    requires w.runs[s].content != map[] && w.runs[s].record.plan.backups
    ensures RunClear(w, stamps, database, s) <==>
            forall a :: a in w.runs[s].record.plan.eligible ==>
              && !(HasCompanion(w.source, database, a.name) || HasCompanion(w.runs[r].content, database, a.name))
              && forall q :: 0 <= q < |w.runs| && q != r && stamps[q] > stamps[s] ==>
                   !HasCompanion(w.runs[q].content, database, a.name)
  {
    hide HasCompanion;
  }

  /** Restoring the next run keeps the rest clear, and shows that it was. */
  lemma {:induction false} ClearNext(w: World, v: World, origin: Directory, scene: Scene, stamps: seq<nat>, r: nat)
    requires Conserved(w, origin) && |stamps| == |w.runs| == |v.runs| && r < |w.runs| && Next(w.runs, stamps, r)
    requires GivenBack(w, v, r) && Accepted(scene, w.runs[r].record)
    requires forall p, q :: 0 <= p < q < |stamps| ==> stamps[p] != stamps[q]
    ensures var database := scene.family.database;
            && (Clear(w, stamps, database) ==> Clear(v, stamps, database))
            && (Clear(v, stamps, database) && RunClear(w, stamps, database, r) ==> Clear(w, stamps, database))
  {
    hide Conserved, Accepted, RunClear, GivenBack, Next;
    var database := scene.family.database;
    forall s | 0 <= s < |w.runs| && s != r
      ensures RunClear(w, stamps, database, s) <==> RunClear(v, stamps, database, s)
    {
      OthersClear(w, v, stamps, database, r, s);
    }
    OwnClear(w, v, origin, scene, stamps, r);
  }

  lemma {:induction false} OwnClear(w: World, v: World, origin: Directory, scene: Scene, stamps: seq<nat>, r: nat)
    requires Conserved(w, origin) && |stamps| == |w.runs| == |v.runs| && r < |w.runs| && Next(w.runs, stamps, r)
    requires GivenBack(w, v, r) && Accepted(scene, w.runs[r].record)
    ensures RunClear(w, stamps, scene.family.database, r) ==> RunClear(v, stamps, scene.family.database, r)
  {
    hide Conserved, Accepted, CompanionNames;
    var database := scene.family.database;
    forall a | a in w.runs[r].record.plan.eligible && w.runs[r].record.plan.backups
               && !HasCompanion(w.source, database, a.name)
      ensures !HasCompanion(v.source, database, a.name)
    {
      NoOwnCompanion(w, origin, scene, r, a);
      forall c | c in CompanionNames(database, a.name) ensures c !in v.source {
        assert c !in w.source.Keys + w.runs[r].content.Keys;
        assert c !in v.source.Keys;
      }
    }
  }

  lemma NothingHeldIsClear(w: World, stamps: seq<nat>, database: string)
    requires |stamps| == |w.runs| && forall r :: 0 <= r < |w.runs| ==> w.runs[r].content == map[]
    ensures Clear(w, stamps, database)
  {
  }

  function Holding(runs: seq<Run>): nat {
    if runs == [] then 0
    else Holding(runs[..|runs| - 1]) + if runs[|runs| - 1].content == map[] then 0 else 1
  }

  lemma {:induction false} HoldingDrops(runs: seq<Run>, r: nat, run: Run)
    requires r < |runs| && runs[r].content != map[] && run.content == map[]
    ensures Holding(runs[r := run]) < Holding(runs)
  {
    var last := |runs| - 1;
    if r == last {
      assert runs[r := run][..last] == runs[..last];
    } else {
      HoldingDrops(runs[..last], r, run);
      assert runs[r := run][..last] == runs[..last][r := run];
    }
  }

  /** The run that took something last, if any holds anything. */
  ghost predicate IsLatest(runs: seq<Run>, stamps: seq<nat>, n: nat, latest: Option<nat>)
    requires n <= |runs| == |stamps|
  {
    if latest.None? then forall q :: 0 <= q < n ==> runs[q].content == map[]
    else
      && 0 <= latest.value < n && runs[latest.value].content != map[]
      && forall q :: 0 <= q < n && runs[q].content != map[] ==> stamps[q] <= stamps[latest.value]
  }

  method LatestHolding(runs: seq<Run>, stamps: seq<nat>) returns (latest: Option<nat>)
    requires |stamps| == |runs|
    ensures IsLatest(runs, stamps, |runs|, latest)
  {
    latest := None;
    for i := 0 to |runs|
      invariant IsLatest(runs, stamps, i, latest)
    {
      if runs[i].content != map[] && (latest.None? || stamps[latest.value] <= stamps[i]) {
        latest := Some(i);
      }
    }
  }

  /** One restore of the run that took something last: it is in order exactly when it
      is clear, and keeps clear what was clear. */
  method RestoreNext(mailbox: Mailbox, r: nat, before: Ledger, ghost origin: Directory)
    returns (o: Outcome, after: Ledger)
    requires Held(mailbox, origin, before)
    requires r < |mailbox.runs| == |before.stamps| && Next(mailbox.runs, before.stamps, r)
    modifies mailbox
    ensures Held(mailbox, origin, after) && after.stamps == before.stamps
    ensures |mailbox.runs| == old(|mailbox.runs|) && mailbox.tick >= old(mailbox.tick)
    ensures forall q :: 0 <= q < |mailbox.runs| && q != r ==> mailbox.runs[q] == old(mailbox.runs)[q]
    ensures var database := mailbox.family.database;
            var clear := old(RunClear(Now(mailbox), before.stamps, database, r));
            && (o == Done ==> clear && mailbox.runs[r].content == map[])
            && (mailbox.Quiet(old(mailbox.tick), mailbox.tick) && clear ==> o == Done)
            && (old(Clear(Now(mailbox), before.stamps, database)) ==> Clear(Now(mailbox), before.stamps, database))
            && (o == Done && Clear(Now(mailbox), before.stamps, database) ==>
                  old(Clear(Now(mailbox), before.stamps, database)))
  {
    hide Held, LocationOf, Ready, Settled, Blocked, CompanionSeen, Conserved, Journaled, Accepted, RunClear, Clear,
         Mailbox.Quiet, Mailbox.Unclaimed, GivenBack;
    ghost var m := At(mailbox);
    HeldConserves(mailbox, origin, before);
    LatestIsUnblocked(Now(mailbox), before.stamps, before.clock, r);
    HeldSound(mailbox, origin, before, r);
    NextClear(Now(mailbox), origin, mailbox.Here(), before.stamps, r);
    o, after := Recover(mailbox, r, Restore, true, Some(mailbox.runs[r].record.plan), before, origin);
    RestoreGivesBack(mailbox, m, At(mailbox), r, Some(m.world.runs[r].record.plan), o);
    ClearNext(m.world, Now(mailbox), origin, mailbox.Here(), before.stamps, r);
    if o == Done {
      HeldRestored(mailbox, origin, after, r);
    }
  }

  /** Restoring in the reverse order of last moves: when nothing fails it gives the
      original directory back exactly if the way is clear, which can be read off the
      directories beforehand; and whatever fails, a clear way stays clear. */
  method RestoreAll(mailbox: Mailbox, before: Ledger, ghost origin: Directory) returns (o: Outcome, after: Ledger)
    requires Held(mailbox, origin, before) && |before.stamps| == |mailbox.runs|
    modifies mailbox
    ensures Held(mailbox, origin, after) && after.stamps == before.stamps
    ensures |mailbox.runs| == old(|mailbox.runs|) && mailbox.tick >= old(mailbox.tick)
    ensures var clear := old(Clear(Now(mailbox), before.stamps, mailbox.family.database));
            && (o == Done ==> clear)
            && (mailbox.Quiet(old(mailbox.tick), mailbox.tick) && clear ==> o == Done)
            && (clear ==> Clear(Now(mailbox), before.stamps, mailbox.family.database))
    ensures o == Done ==>
              mailbox.source == origin && forall r :: 0 <= r < |mailbox.runs| ==> mailbox.runs[r].content == map[]
  {
    hide Held, RunClear;
    o, after := Done, before;
    var latest := LatestHolding(mailbox.runs, after.stamps);
    while latest.Some?
      invariant Held(mailbox, origin, after) && after.stamps == before.stamps && o == Done
      invariant |mailbox.runs| == old(|mailbox.runs|) == |before.stamps| && mailbox.tick >= old(mailbox.tick)
      invariant old(Clear(Now(mailbox), before.stamps, mailbox.family.database))
                <==> Clear(Now(mailbox), before.stamps, mailbox.family.database)
      invariant IsLatest(mailbox.runs, before.stamps, |mailbox.runs|, latest)
      decreases Holding(mailbox.runs)
    {
      var r := latest.value;
      ghost var runs := mailbox.runs;
      o, after := RestoreNext(mailbox, r, after, origin);
      if o != Done {
        return;
      }
      HoldingDrops(runs, r, mailbox.runs[r]);
      assert mailbox.runs == runs[r := mailbox.runs[r]];
      latest := LatestHolding(mailbox.runs, after.stamps);
    }
    NothingHeldIsClear(Now(mailbox), before.stamps, mailbox.family.database);
    HeldEmpty(mailbox, origin, after);
  }

  lemma HeldPlausible(mailbox: Mailbox, origin: Directory, ledger: Ledger)
    requires Held(mailbox, origin, ledger)
    ensures mailbox.Plausible(mailbox.source)
  {
    hide Conserved, Journaled, TakenLater, Accepted, Scene.Valid;
    SourceIsPlausible(mailbox, Now(mailbox), origin);
  }

  lemma HeldRestored(mailbox: Mailbox, origin: Directory, ledger: Ledger, r: nat)
    requires Held(mailbox, origin, ledger) && r < |mailbox.runs|
    requires AllThere(mailbox.View(r), mailbox.runs[r].record.plan.eligible, InSource)
    ensures mailbox.runs[r].content == map[]
  {
    hide Held, Conserved, Journaled, Accepted, LocationOf, TakenLater;
    HeldConserves(mailbox, origin, ledger);
    AllAt(Now(mailbox), origin, r, InSource);
  }

  lemma HeldEmpty(mailbox: Mailbox, origin: Directory, ledger: Ledger)
    requires Held(mailbox, origin, ledger)
    requires forall q :: 0 <= q < |mailbox.runs| ==> mailbox.runs[q].content == map[]
    ensures mailbox.source == origin
  {
    hide Conserved, Journaled, Accepted, Mailbox.Permitted, TakenLater;
    AllRestored(Now(mailbox), origin);
  }

  /** Trying again until the faults are over: `last` is when. */
  method KeepRestoring(mailbox: Mailbox, before: Ledger, ghost origin: Directory, ghost last: nat)
    returns (after: Ledger)
    requires Held(mailbox, origin, before) && |before.stamps| == |mailbox.runs|
    requires Clear(Now(mailbox), before.stamps, mailbox.family.database)
    requires forall t :: t >= last ==> mailbox.faults(t) == Fine
    modifies mailbox
    ensures Held(mailbox, origin, after) && |mailbox.runs| == old(|mailbox.runs|)
    ensures mailbox.source == origin && forall r :: 0 <= r < |mailbox.runs| ==> mailbox.runs[r].content == map[]
  {
    hide Held, Clear;
    var o;
    o, after := RestoreAll(mailbox, before, origin);
    while o != Done
      invariant Held(mailbox, origin, after) && |after.stamps| == |mailbox.runs| == old(|mailbox.runs|)
      invariant Clear(Now(mailbox), after.stamps, mailbox.family.database)
      invariant o == Done ==>
                  mailbox.source == origin && forall r :: 0 <= r < |mailbox.runs| ==> mailbox.runs[r].content == map[]
      decreases if mailbox.tick < last then last - mailbox.tick else 0, if o == Done then 0 else 1
    {
      o, after := RestoreAll(mailbox, after, origin);
    }
  }

  /** The planner previews either backups or staging directories, not both. */
  ghost predicate OneKind(mailbox: Mailbox) {
    forall d, t, e, u ::
      mailbox.preview(d, t).Some? && mailbox.preview(e, u).Some? ==>
        mailbox.preview(d, t).value.backups == mailbox.preview(e, u).value.backups
  }

  lemma {:induction false} HeldUndisturbed(mailbox: Mailbox, origin: Directory, ledger: Ledger, r: nat)
    requires Held(mailbox, origin, ledger) && (Unrelated(mailbox.family.database) || OneKind(mailbox))
    requires r < |mailbox.runs|
    ensures Undisturbed(mailbox.family.database, mailbox.runs, r)
  {
    hide Conserved, Journaled, TakenLater, Accepted, Mailbox.Permitted, Mailbox.Unclaimed, Unrelated, Scene.Valid;
    assert RunFits(mailbox, origin, mailbox.runs, r);
    forall q | 0 <= q < |mailbox.runs| && OneKind(mailbox)
      ensures mailbox.runs[q].record.plan.backups == mailbox.runs[r].record.plan.backups
    {
      assert RunFits(mailbox, origin, mailbox.runs, q);
    }
  }

  lemma {:induction false} PermittedIsClear(w: World, origin: Directory, mailbox: Mailbox, stamps: seq<nat>, r: nat)
    requires Conserved(w, origin) && |stamps| == |w.runs| && r < |w.runs|
    requires mailbox.Permitted(w.runs[r].record.plan, origin)
    ensures RunClear(w, stamps, mailbox.family.database, r)
  {
    hide CompanionNames, Truthful, Complete, Apart;
  }

  /** With one kind of plan, or a database whose companions cannot be staging
      directories, the way is always clear. */
  lemma {:induction false} HeldClear(mailbox: Mailbox, origin: Directory, ledger: Ledger)
    requires Held(mailbox, origin, ledger) && (Unrelated(mailbox.family.database) || OneKind(mailbox))
    ensures |ledger.stamps| == |mailbox.runs| && Clear(Now(mailbox), ledger.stamps, mailbox.family.database)
  {
    hide Conserved, Journaled, TakenLater, Accepted, Mailbox.Permitted, Mailbox.Unclaimed, Unrelated, OneKind, RunClear,
         Undisturbed;
    HeldConserves(mailbox, origin, ledger);
    forall r | 0 <= r < |mailbox.runs| ensures RunClear(Now(mailbox), ledger.stamps, mailbox.family.database, r) {
      assert RunFits(mailbox, origin, mailbox.runs, r);
      HeldUndisturbed(mailbox, origin, ledger, r);
      PermittedIsClear(Now(mailbox), origin, mailbox, ledger.stamps, r);
    }
  }

  /** After any history, once the faults are over, everything can be undone: with one
      kind of plan, or a database whose companions cannot be staging directories. */
  method Unwind(mailbox: Mailbox, before: Ledger, ghost origin: Directory, ghost last: nat) returns (after: Ledger)
    requires Held(mailbox, origin, before) && (Unrelated(mailbox.family.database) || OneKind(mailbox))
    requires forall t :: t >= last ==> mailbox.faults(t) == Fine
    modifies mailbox
    ensures Held(mailbox, origin, after) && |mailbox.runs| == old(|mailbox.runs|)
    ensures mailbox.source == origin && forall r :: 0 <= r < |mailbox.runs| ==> mailbox.runs[r].content == map[]
  {
    hide Held, Unrelated, OneKind, Clear;
    HeldClear(mailbox, origin, before);
    after := KeepRestoring(mailbox, before, origin, last);
  }
}
