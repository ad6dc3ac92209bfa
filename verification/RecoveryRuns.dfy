/** What moves conserve, over any number of recorded runs, and when a run is in
    order: exactly when no other run holds something it needs.
 */
module RecoveryRuns {
  import opened Sql
  import opened Artifacts
  import opened Retention
  import opened Manifest
  import opened Quarantine

  predicate Planned(plan: Plan, name: string) {
    exists a :: a in plan.eligible && a.name == name
  }

  /** Every original entry is, unchanged, in exactly one place: the source, or the
      one run that planned it. Nothing else is anywhere. */
  ghost predicate Conserved(w: World, origin: Directory) {
    SourceOriginal(w, origin) && RunsOriginal(w, origin) && Apart(w) && Complete(w, origin) && PlansTruthful(w, origin)
  }

  ghost predicate SourceOriginal(w: World, origin: Directory) {
    forall name :: name in w.source ==> name in origin && w.source[name] == origin[name]
  }

  ghost predicate RunsOriginal(w: World, origin: Directory) {
    forall r, name :: 0 <= r < |w.runs| && name in w.runs[r].content ==>
      name in origin && w.runs[r].content[name] == origin[name] && name !in w.source
      && Planned(w.runs[r].record.plan, name)
  }

  ghost predicate Apart(w: World) {
    forall r, q, name :: 0 <= r < |w.runs| && 0 <= q < |w.runs| && r != q && name in w.runs[r].content ==>
      name !in w.runs[q].content
  }

  ghost predicate Complete(w: World, origin: Directory) {
    forall name :: name in origin ==> name in w.source || InSomeRun(w, name)
  }

  ghost predicate PlansTruthful(w: World, origin: Directory) {
    forall r :: 0 <= r < |w.runs| ==> Truthful(w.runs[r].record.plan, origin)
  }

  ghost predicate InSomeRun(w: World, name: string) {
    exists r :: 0 <= r < |w.runs| && name in w.runs[r].content
  }

  /** No artifact is in quarantine without a journaled intent. */
  ghost predicate Journaled(w: World) {
    forall r, name :: 0 <= r < |w.runs| && name in w.runs[r].content ==> Intent(name) in w.runs[r].log
  }

  function SidesOf(w: World, r: nat): Sides
    requires r < |w.runs|
  {
    Sides(w.source, w.runs[r].content)
  }

  /** The world with other directories for run `r`. */
  function WithSides(w: World, r: nat, s: Sides): World
    requires r < |w.runs|
  {
    World(s.source, w.runs[r := w.runs[r].(content := s.content)])
  }

  lemma {:induction false} SettleComplete(w: World, r: nat, a: Artifact, to: Place, origin: Directory)
    requires Complete(w, origin) && r < |w.runs|
    ensures Complete(WithSides(w, r, Settle(SidesOf(w, r), a, to)), origin)
  {
    hide Settle;
    SettleShape(SidesOf(w, r), a, to);
    var v := WithSides(w, r, Settle(SidesOf(w, r), a, to));
    forall name | name in origin ensures name in v.source || InSomeRun(v, name) {
      if name in v.runs[r].content {
        assert InSomeRun(v, name);
      } else if name !in v.source {
        var q :| 0 <= q < |w.runs| && name in w.runs[q].content;
        assert name in v.runs[q].content;
      }
    }
  }

  lemma {:induction false} SettleApart(w: World, r: nat, a: Artifact, to: Place, origin: Directory)
    requires RunsOriginal(w, origin) && Apart(w) && r < |w.runs|
    ensures Apart(WithSides(w, r, Settle(SidesOf(w, r), a, to)))
  {
    hide Settle, Planned;
    SettleShape(SidesOf(w, r), a, to);
  }

  lemma {:induction false} SettleConserves(w: World, r: nat, a: Artifact, to: Place, origin: Directory)
    requires Conserved(w, origin) && r < |w.runs| && a in w.runs[r].record.plan.eligible
    ensures Conserved(WithSides(w, r, Settle(SidesOf(w, r), a, to)), origin)
  {
    hide Truthful, Settle, Complete, Apart;
    SettleComplete(w, r, a, to, origin);
    SettleApart(w, r, a, to, origin);
    SettleRuns(w, r, a, to, origin);
    SettleShape(SidesOf(w, r), a, to);
  }

  lemma {:induction false} SettleRuns(w: World, r: nat, a: Artifact, to: Place, origin: Directory)
    requires SourceOriginal(w, origin) && RunsOriginal(w, origin) && Apart(w)
    requires r < |w.runs| && a in w.runs[r].record.plan.eligible
    ensures RunsOriginal(WithSides(w, r, Settle(SidesOf(w, r), a, to)), origin)
  {
    hide Settle, Planned;
    SettleShape(SidesOf(w, r), a, to);
    PlannedName(w.runs[r].record.plan, a);
    var v := WithSides(w, r, Settle(SidesOf(w, r), a, to));
    forall q, name | 0 <= q < |v.runs| && name in v.runs[q].content
      ensures name in origin && v.runs[q].content[name] == origin[name] && name !in v.source
              && Planned(v.runs[q].record.plan, name)
    {
      if name in w.runs[q].content {
        HeldIsPlanned(w, origin, q, name);
        assert a.name in w.runs[r].content && q != r ==> a.name !in w.runs[q].content;
      }
    }
  }

  lemma PlannedName(plan: Plan, a: Artifact)
    requires a in plan.eligible
    ensures Planned(plan, a.name)
  {
  }

  /** The rename as set arithmetic, whichever way it goes. */
  lemma {:induction false} SettleShape(s: Sides, a: Artifact, to: Place)
    ensures var t := Settle(s, a, to);
            || t == s
            || (a.name in s.source && a.name !in s.content
                && t == Sides(s.source - {a.name}, s.content[a.name := s.source[a.name]]))
            || (a.name in s.content && a.name !in s.source
                && t == Sides(s.source[a.name := s.content[a.name]], s.content - {a.name}))
  {
  }

  lemma {:induction false} AfterConserves(w: World, r: nat, k: nat, to: Place, origin: Directory)
    requires Conserved(w, origin) && r < |w.runs| && k <= |w.runs[r].record.plan.eligible|
    ensures Conserved(WithSides(w, r, After(SidesOf(w, r), w.runs[r].record.plan.eligible[..k], to)), origin)
    decreases k
  {
    hide Conserved, Settle;
    var artifacts := w.runs[r].record.plan.eligible;
    if k == 0 {
      assert artifacts[..0] == [];
      assert WithSides(w, r, SidesOf(w, r)) == w;
    } else {
      AfterConserves(w, r, k - 1, to, origin);
      AfterNext(SidesOf(w, r), artifacts, k - 1, to);
      var before := WithSides(w, r, After(SidesOf(w, r), artifacts[..k - 1], to));
      SettleConserves(before, r, artifacts[k - 1], to, origin);
      assert WithSides(before, r, Settle(SidesOf(before, r), artifacts[k - 1], to))
             == WithSides(w, r, After(SidesOf(w, r), artifacts[..k], to));
    }
  }

  /** Logs are not part of what is conserved. */
  lemma SameDirectories(w: World, v: World, origin: Directory)
    requires Conserved(w, origin) && v.source == w.source && |v.runs| == |w.runs|
    requires forall r :: 0 <= r < |w.runs| ==>
             v.runs[r].content == w.runs[r].content && v.runs[r].record == w.runs[r].record
    ensures Conserved(v, origin)
  {
    hide Truthful;
    forall name | name in origin ensures name in v.source || InSomeRun(v, name) {
      if name !in w.source {
        var q :| 0 <= q < |w.runs| && name in w.runs[q].content;
        assert name in v.runs[q].content;
      }
    }
  }

  function WithRun(w: World, record: Record): World {
    World(w.source, w.runs + [Run(record, map[], [])])
  }

  lemma {:induction false} NewRunComplete(w: World, record: Record, origin: Directory)
    requires Complete(w, origin)
    ensures Complete(WithRun(w, record), origin)
  {
    var v := WithRun(w, record);
    forall name | name in origin ensures name in v.source || InSomeRun(v, name) {
      if name !in w.source {
        var q :| 0 <= q < |w.runs| && name in w.runs[q].content;
        assert name in v.runs[q].content;
      }
    }
  }

  lemma {:induction false} NewRunTruthful(w: World, record: Record, origin: Directory)
    requires PlansTruthful(w, origin) && SourceOriginal(w, origin) && Truthful(record.plan, w.source)
    ensures PlansTruthful(WithRun(w, record), origin)
  {
    hide Truthful;
    TruthfulOrigin(record.plan, w.source, origin);
  }

  lemma {:induction false} NewRunOriginal(w: World, record: Record, origin: Directory)
    requires RunsOriginal(w, origin) && Apart(w)
    ensures RunsOriginal(WithRun(w, record), origin) && Apart(WithRun(w, record))
  {
    hide Planned;
    var v := WithRun(w, record);
    assert v.runs[|w.runs|].content == map[];
    forall r, name | 0 <= r < |v.runs| && name in v.runs[r].content
      ensures name in origin && v.runs[r].content[name] == origin[name] && name !in v.source
              && Planned(v.runs[r].record.plan, name)
    {
      assert v.runs[r] == w.runs[r];
      HeldIsPlanned(w, origin, r, name);
    }
    forall r, q, name | 0 <= r < |v.runs| && 0 <= q < |v.runs| && r != q && name in v.runs[r].content
      ensures name !in v.runs[q].content
    {
      assert v.runs[r] == w.runs[r];
      assert q < |w.runs| ==> v.runs[q] == w.runs[q] && name !in w.runs[q].content;
    }
  }

  lemma {:induction false} NewRunConserves(w: World, record: Record, origin: Directory)
    requires Conserved(w, origin) && Truthful(record.plan, w.source)
    ensures Conserved(WithRun(w, record), origin)
  {
    hide Truthful, RunsOriginal, Complete, PlansTruthful, Apart;
    NewRunComplete(w, record, origin);
    NewRunTruthful(w, record, origin);
    NewRunOriginal(w, record, origin);
  }

  lemma TruthfulOrigin(plan: Plan, d: Directory, origin: Directory)
    requires Truthful(plan, d) && forall name :: name in d ==> name in origin && d[name] == origin[name]
    ensures Truthful(plan, origin)
  {
  }

  // ----- what conservation says

  /** Each planned artifact is in exactly one place, with its recorded identity. */
  lemma {:induction false} PlannedOnce(w: World, origin: Directory, r: nat, a: Artifact)
    requires Conserved(w, origin) && r < |w.runs| && a in w.runs[r].record.plan.eligible
    ensures a.name in w.source <==> !InSomeRun(w, a.name)
    ensures a.name in w.source ==> Matches(w.source[a.name], a)
    ensures forall q :: 0 <= q < |w.runs| && a.name in w.runs[q].content ==>
              && Matches(w.runs[q].content[a.name], a)
              && forall p :: 0 <= p < |w.runs| && p != q ==> a.name !in w.runs[p].content
  {
    hide Matches;
    assert a in w.runs[r].record.plan.eligible + w.runs[r].record.plan.retained;
  }

  lemma {:induction false} AllRestored(w: World, origin: Directory)
    requires Conserved(w, origin)
    requires forall r :: 0 <= r < |w.runs| ==> w.runs[r].content == map[]
    ensures w.source == origin
  {
    hide Truthful;
    assert w.source.Keys == origin.Keys;
  }

  lemma HeldIsPlanned(w: World, origin: Directory, r: nat, name: string)
    requires RunsOriginal(w, origin) && r < |w.runs| && name in w.runs[r].content
    ensures Planned(w.runs[r].record.plan, name) && name in origin && w.runs[r].content[name] == origin[name]
    ensures name !in w.source
  {
    hide Planned;
  }

  /** A successful resume holds exactly the plan; a successful restore nothing. */
  lemma {:induction false} AllAt(w: World, origin: Directory, r: nat, to: Place)
    requires Conserved(w, origin) && r < |w.runs|
    requires forall a :: a in w.runs[r].record.plan.eligible ==> LocationOf(SidesOf(w, r), a) == Some(to)
    ensures to == InQuarantine ==> forall name :: name in w.runs[r].content <==> Planned(w.runs[r].record.plan, name)
    ensures to == InSource ==> w.runs[r].content == map[]
  {
    hide Truthful, Recorded;
    var s := SidesOf(w, r);
    var plan := w.runs[r].record.plan;
    forall name | Planned(plan, name) ensures to == InQuarantine ==> name in s.content {
      var a :| a in plan.eligible && a.name == name;
      assert LocationOf(s, a) == Some(to);
    }
    forall name | Planned(plan, name) ensures to == InSource ==> name !in s.content {
      var a :| a in plan.eligible && a.name == name;
      assert LocationOf(s, a) == Some(to);
    }
    forall name | name in w.runs[r].content ensures Planned(plan, name) {
      HeldIsPlanned(w, origin, r, name);
    }
    assert to == InSource ==> w.runs[r].content.Keys == {};
  }

  lemma {:induction false} RecordedStamp(d: Directory, plan: Plan, a: Artifact)
    requires AllCoherent(d) && Truthful(plan, d) && plan.backups && a in plan.eligible + plan.retained
    ensures Some(d[a.name].stamp) == a.evidence.file
  {
    assert Coherent(d[a.name]);
  }

  /** When a run is in order: exactly when none of its artifacts lies in another
      run and, for backups, its claim, its keep set and its companions check out. */
  lemma {:induction false} InOrder(w: World, origin: Directory, r: nat, mailbox: Mailbox)
    requires Conserved(w, origin) && AllCoherent(origin) && r < |w.runs|
    ensures var plan := w.runs[r].record.plan;
            var s := SidesOf(w, r);
            mailbox.Sound(s, plan) <==>
              && (forall a :: a in plan.eligible ==> a.name in s.source || a.name in s.content)
              && (plan.backups ==>
                    && mailbox.claim == plan.claim
                    && (forall a :: a in plan.retained ==> a.name in s.source)
                    && (forall a :: a in plan.eligible ==> Unharmed(s, mailbox.family, plan, a)))
  {
    hide Unharmed, Coherent;
    var plan := w.runs[r].record.plan;
    var s := SidesOf(w, r);
    forall a | a in plan.eligible ensures Intact(s, a) <==> a.name in s.source || a.name in s.content {
      assert a in plan.eligible + plan.retained;
    }
    if plan.backups {
      forall a | a in plan.retained && a.name in s.source ensures Kept(s, a) {
        assert a in plan.eligible + plan.retained;
        RecordedStamp(origin, plan, a);
      }
    }
  }

  /** A name a run needs where it can see it: its own artifacts, and for backups
      also the ones it retains. */
  predicate Needed(plan: Plan, name: string) {
    Planned(plan, name) || (plan.backups && exists a :: a in plan.retained && a.name == name)
  }

  /** Run `q` holds something that run `r` needs. */
  ghost predicate Blocks(w: World, q: nat, r: nat)
    requires q < |w.runs| && r < |w.runs|
  {
    q != r && exists name :: name in w.runs[q].content && Needed(w.runs[r].record.plan, name)
  }

  ghost predicate Blocked(w: World, r: nat)
    requires r < |w.runs|
  {
    exists q :: 0 <= q < |w.runs| && Blocks(w, q, r)
  }

  lemma OnlyHolder(w: World, r: nat)
    requires r < |w.runs|
    requires forall q :: 0 <= q < |w.runs| && q != r ==> w.runs[q].content == map[]
    ensures !Blocked(w, r)
  {
    forall q | 0 <= q < |w.runs| ensures !Blocks(w, q, r) {
    }
  }

  lemma {:induction false} NeededInOrigin(w: World, origin: Directory, r: nat, a: Artifact)
    requires Conserved(w, origin) && r < |w.runs|
    requires a in w.runs[r].record.plan.eligible + w.runs[r].record.plan.retained
    ensures a.name in origin
  {
    hide Matches;
  }

  lemma {:induction false} UnblockedIsHere(w: World, origin: Directory, r: nat, name: string)
    requires Conserved(w, origin) && r < |w.runs| && name in origin
    requires Needed(w.runs[r].record.plan, name) && !Blocked(w, r)
    ensures name in w.source || name in w.runs[r].content
  {
    hide Needed, Truthful;
    if name !in w.source {
      assert InSomeRun(w, name);
      forall q | 0 <= q < |w.runs| && name in w.runs[q].content ensures q == r {
        assert !Blocks(w, q, r);
      }
    }
  }

  lemma {:induction false} RetainedUnplanned(plan: Plan, a: Artifact)
    requires DistinctNames(plan.eligible + plan.retained) && a in plan.retained
    ensures !Planned(plan, a.name)
  {
    forall b | b in plan.eligible ensures b.name != a.name {
      NamesApart(plan, b);
    }
  }

  /** A companion of one of the run's backups lies where the run looks for it. */
  ghost predicate CompanionSeen(w: World, r: nat, database: string)
    requires r < |w.runs|
  {
    w.runs[r].record.plan.backups
    && exists a :: a in w.runs[r].record.plan.eligible
         && (HasCompanion(w.source, database, a.name) || HasCompanion(w.runs[r].content, database, a.name))
  }

  lemma StagesUnaccompanied(w: World, r: nat, database: string)
    requires r < |w.runs| && !w.runs[r].record.plan.backups
    ensures !CompanionSeen(w, r, database)
  {
  }

  /** A run is in order exactly when no other run holds what it needs and no companion
      of its backups has appeared. */
  lemma {:induction false} SoundIff(w: World, origin: Directory, r: nat, mailbox: Mailbox)
    requires Conserved(w, origin) && AllCoherent(origin) && r < |w.runs|
    requires mailbox.Unclaimed(w.runs[r].record.plan)
    ensures mailbox.Sound(SidesOf(w, r), w.runs[r].record.plan)
            <==> !Blocked(w, r) && !CompanionSeen(w, r, mailbox.family.database)
  {
    hide Conserved, Ready, AllCoherent, Blocked, HasCompanion;
    InOrder(w, origin, r, mailbox);
    if mailbox.Sound(SidesOf(w, r), w.runs[r].record.plan) {
      SoundIsUnblocked(w, origin, r, mailbox);
    } else if !Blocked(w, r) && !CompanionSeen(w, r, mailbox.family.database) {
      UnblockedIsSound(w, origin, r, mailbox);
    }
  }

  /** A run that was permitted where all began is in order exactly when no other run
      holds what it needs. */
  lemma {:induction false} SoundIffUnblocked(w: World, origin: Directory, r: nat, mailbox: Mailbox)
    requires Conserved(w, origin) && AllCoherent(origin) && r < |w.runs|
    requires mailbox.Permitted(w.runs[r].record.plan, origin)
    ensures mailbox.Sound(SidesOf(w, r), w.runs[r].record.plan) <==> !Blocked(w, r)
  {
    hide Conserved, Ready, AllCoherent, Blocked;
    SoundIff(w, origin, r, mailbox);
    PermittedIsAlone(w, origin, r, mailbox);
  }

  lemma {:induction false} PermittedIsAlone(w: World, origin: Directory, r: nat, mailbox: Mailbox)
    requires Conserved(w, origin) && r < |w.runs| && mailbox.Permitted(w.runs[r].record.plan, origin)
    ensures !CompanionSeen(w, r, mailbox.family.database)
  {
    hide CompanionNames, Truthful, Complete, Apart;
  }

  lemma {:induction false} SoundIsUnblocked(w: World, origin: Directory, r: nat, mailbox: Mailbox)
    requires Conserved(w, origin) && r < |w.runs|
    requires var plan := w.runs[r].record.plan;
             && (forall a :: a in plan.eligible ==> a.name in w.source || a.name in w.runs[r].content)
             && (plan.backups ==> forall a :: a in plan.retained ==> a.name in w.source)
    ensures !Blocked(w, r)
  {
    hide Truthful;
    forall q | 0 <= q < |w.runs| ensures !Blocks(w, q, r) {
    }
  }

  lemma {:induction false} UnblockedIsSound(w: World, origin: Directory, r: nat, mailbox: Mailbox)
    requires Conserved(w, origin) && AllCoherent(origin) && r < |w.runs| && !Blocked(w, r)
    requires mailbox.Unclaimed(w.runs[r].record.plan) && !CompanionSeen(w, r, mailbox.family.database)
    ensures mailbox.Sound(SidesOf(w, r), w.runs[r].record.plan)
  {
    hide Conserved, Ready, AllCoherent, Blocked, MatchesClaim, HasCompanion;
    var plan := w.runs[r].record.plan;
    InOrder(w, origin, r, mailbox);
    forall a | a in plan.eligible ensures a.name in w.source || a.name in w.runs[r].content {
      NeededInOrigin(w, origin, r, a);
      UnblockedIsHere(w, origin, r, a.name);
    }
    forall a | a in plan.retained && plan.backups ensures a.name in w.source {
      NeededInOrigin(w, origin, r, a);
      UnblockedIsHere(w, origin, r, a.name);
      RetainedStays(w, origin, r, a);
    }
  }

  lemma {:induction false} RetainedStays(w: World, origin: Directory, r: nat, a: Artifact)
    requires Conserved(w, origin) && r < |w.runs| && a in w.runs[r].record.plan.retained
    ensures a.name !in w.runs[r].content
  {
    hide Matches;
    RetainedUnplanned(w.runs[r].record.plan, a);
    if a.name in w.runs[r].content {
      HeldIsPlanned(w, origin, r, a.name);
    }
  }

  // ----- the order in which runs took things

  /** `stamps[r]` is when run `r` last took something into quarantine, no two of them
      at once: a run that holds what another needs took it later. */
  ghost predicate TakenLater(w: World, stamps: seq<nat>, clock: nat) {
    && |stamps| == |w.runs| && (forall r :: 0 <= r < |stamps| ==> stamps[r] < clock)
    && (forall q, r :: 0 <= q < r < |stamps| ==> stamps[q] != stamps[r])
    && forall q, r :: 0 <= q < |w.runs| && 0 <= r < |w.runs| && Blocks(w, q, r) ==> stamps[r] < stamps[q]
  }

  /** Giving things back blocks nobody. */
  lemma {:induction false} GivingBack(w: World, v: World, stamps: seq<nat>, clock: nat)
    requires TakenLater(w, stamps, clock) && |v.runs| == |w.runs|
    requires forall r :: 0 <= r < |w.runs| ==>
               v.runs[r].content.Keys <= w.runs[r].content.Keys && v.runs[r].record == w.runs[r].record
    ensures TakenLater(v, stamps, clock + 1)
  {
    hide Needed;
    forall q, r | 0 <= q < |v.runs| && 0 <= r < |v.runs| && Blocks(v, q, r) ensures Blocks(w, q, r) {
    }
  }

  /** A run that takes something is in order when it does, so nobody blocks it and
      whoever it blocks took earlier. */
  lemma {:induction false} Taking(w: World, v: World, stamps: seq<nat>, clock: nat, r: nat)
    requires TakenLater(w, stamps, clock) && |v.runs| == |w.runs| && r < |w.runs| && !Blocked(w, r)
    requires forall i :: 0 <= i < |w.runs| ==> v.runs[i].record == w.runs[i].record
    requires forall i :: 0 <= i < |w.runs| && i != r ==> v.runs[i].content == w.runs[i].content
    ensures TakenLater(v, stamps[r := clock], clock + 1)
  {
    hide Needed;
    forall p, q | 0 <= p < |v.runs| && 0 <= q < |v.runs| && Blocks(v, p, q) && p != r
      ensures Blocks(w, p, q) && q != r
    {
    }
  }

  lemma {:induction false} NewRunUnblocked(w: World, record: Record, origin: Directory, stamps: seq<nat>, clock: nat)
    requires Conserved(w, origin) && Truthful(record.plan, w.source) && TakenLater(w, stamps, clock)
    ensures !Blocked(WithRun(w, record), |w.runs|)
    ensures TakenLater(WithRun(w, record), stamps + [clock], clock + 1)
  {
    hide Matches;
    var v := WithRun(w, record);
    var last := |w.runs|;
    forall name | Needed(record.plan, name) ensures name in w.source {
    }
    forall q | 0 <= q < |v.runs| ensures !Blocks(v, q, last) && (q != last ==> v.runs[q] == w.runs[q]) {
    }
    forall q, r | 0 <= q < |v.runs| && 0 <= r < |v.runs| && Blocks(v, q, r)
      ensures (stamps + [clock])[r] < (stamps + [clock])[q]
    {
      assert r != last && q != last;
      assert Blocks(w, q, r);
    }
  }

  /** The run that took last among those that hold anything is blocked by nobody. */
  lemma {:induction false} LatestIsUnblocked(w: World, stamps: seq<nat>, clock: nat, r: nat)
    requires TakenLater(w, stamps, clock) && r < |w.runs|
    requires forall q :: 0 <= q < |w.runs| && w.runs[q].content != map[] ==> stamps[q] <= stamps[r]
    ensures !Blocked(w, r)
  {
    hide Needed;
    forall q | 0 <= q < |w.runs| ensures !Blocks(w, q, r) {
      assert w.runs[q].content == map[] ==> forall name :: name !in w.runs[q].content;
    }
  }
}
