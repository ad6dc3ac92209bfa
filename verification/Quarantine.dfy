/** The move-only quarantine: apply, resume and restore over a source directory
    and quarantine runs, with an error or a crash possible at every step.

    Directories are maps from name to entry; the no-replace rename is one atomic
    step. Each run keeps its manifest record and its action log.
 */
module Quarantine {
  import opened Sql
  import opened Artifacts
  import opened Generations
  import opened Retention
  import opened Manifest

  datatype Fault = Fine | Error | Crash

  datatype Outcome = Done | Failed | Crashed

  datatype Action = Intent(name: string) | Completed(name: string) | AlreadyPresent(name: string)

  datatype Run = Run(record: Record, content: Directory, log: seq<Action>)

  datatype World = World(source: Directory, runs: seq<Run>)

  /** The two directories one run works on. */
  datatype Sides = Sides(source: Directory, content: Directory)

  datatype Place = InSource | InQuarantine

  datatype Mode = Inspect | Resume | Restore

  predicate Recorded(o: Object, a: Artifact) {
    ProperType(o, a.backup) && IdentityOf(o.stamp) == a.evidence.identity
  }

  /** Where an artifact is; None when a name is taken by something else, or when it
      is in neither place or in both. */
  function LocationOf(s: Sides, a: Artifact): Option<Place> {
    if a.name in s.source && !Recorded(s.source[a.name], a) then None
    else if a.name in s.content && !Recorded(s.content[a.name], a) then None
    else if (a.name in s.source) == (a.name in s.content) then None
    else Some(if a.name in s.source then InSource else InQuarantine)
  }

  function Entry(s: Sides, a: Artifact): Object
    requires LocationOf(s, a).Some?
  {
    if a.name in s.source then s.source[a.name] else s.content[a.name]
  }

  predicate Unharmed(s: Sides, family: Family, plan: Plan, a: Artifact) {
    && !MatchesClaim(a.evidence, plan.claim)
    && !HasCompanion(s.source, family.database, a.name) && !HasCompanion(s.content, family.database, a.name)
  }

  predicate Kept(s: Sides, a: Artifact) {
    a.name in s.source && Some(s.source[a.name].stamp) == a.evidence.file
  }

  /** The retained backups are still there, the metadata claim is unchanged, and
      the selected backups are neither claimed nor accompanied. */
  predicate Protected(s: Sides, family: Family, claim: Option<Claim>, plan: Plan, selected: seq<Artifact>) {
    plan.backups ==>
      && claim == plan.claim
      && (forall a :: a in plan.retained ==> Kept(s, a))
      && (forall a :: a in selected ==> Unharmed(s, family, plan, a))
  }

  predicate Intact(s: Sides, a: Artifact) {
    LocationOf(s, a).Some? && Entry(s, a).evidence == Some(a.evidence)
  }

  /** What inspection of a whole run must find before anything moves. */
  predicate Ready(s: Sides, family: Family, claim: Option<Claim>, plan: Plan) {
    Protected(s, family, claim, plan, plan.eligible) && forall a :: a in plan.eligible ==> Intact(s, a)
  }

  /** In words: in exactly one of the two directories there is an entry of the artifact's
      name, of its type, with its identity and with the very witness recorded for it. */
  ghost predicate LiesAsRecorded(source: Directory, content: Directory, a: Artifact) {
    && (a.name in source <==> a.name !in content)
    && var o := if a.name in source then source[a.name] else content[a.name];
       && o.evidence == Some(a.evidence)
       && o.stamp.device == a.evidence.identity.device && o.stamp.inode == a.evidence.identity.inode
       && (if a.backup then IsRegular(o.stamp.mode) && o.stamp.links == 1 else IsFolder(o.stamp.mode))
  }

  /** In words: for backups, the claim is the planned one, every retained backup is in
      the source with its recorded stamp, and no selected one has the claimed snapshot's
      size and checksum or a companion in either directory. */
  ghost predicate StillAllowed(source: Directory, content: Directory, database: string, claim: Option<Claim>,
                               plan: Plan)
  {
    plan.backups ==>
      && claim == plan.claim
      && (forall a :: a in plan.retained ==> a.name in source && a.evidence.file == Some(source[a.name].stamp))
      && (forall a :: a in plan.eligible ==>
            && (claim.Some? ==> a.evidence.bytes != claim.value.size || a.evidence.content != Some(claim.value.sha))
            && (|database| <= |a.name| ==>
                  !CompanionThere(source, database, a.name) && !CompanionThere(content, database, a.name)))
  }

  ghost predicate AsRecorded(source: Directory, content: Directory, database: string, claim: Option<Claim>, plan: Plan)
  {
    && StillAllowed(source, content, database, claim, plan)
    && forall a :: a in plan.eligible ==> LiesAsRecorded(source, content, a)
  }

  /** Names that begin with the database's, as all accepted ones do. */
  predicate LongNames(database: string, artifacts: seq<Artifact>) {
    forall a :: a in artifacts ==> |database| <= |a.name|
  }

  /** That is what an inspection finds. */
  lemma {:induction false} ReadyMeans(s: Sides, family: Family, claim: Option<Claim>, plan: Plan)
    requires plan.backups ==> LongNames(family.database, plan.eligible)
    ensures Ready(s, family, claim, plan) <==> AsRecorded(s.source, s.content, family.database, claim, plan)
  {
    hide HasCompanion, CompanionThere, IsRegular, IsFolder;
    forall a | a in plan.eligible && plan.backups
      ensures HasCompanion(s.source, family.database, a.name) <==> CompanionThere(s.source, family.database, a.name)
      ensures HasCompanion(s.content, family.database, a.name) <==> CompanionThere(s.content, family.database, a.name)
    {
      CompanionIs(s.source, family.database, a.name);
      CompanionIs(s.content, family.database, a.name);
    }
    forall a | a in plan.eligible ensures Intact(s, a) <==> LiesAsRecorded(s.source, s.content, a) {
    }
  }

  /** The rename, or nothing when the artifact is already there. */
  function Settle(s: Sides, a: Artifact, to: Place): Sides {
    if LocationOf(s, a) == Some(InSource) && to == InQuarantine
    then Sides(s.source - {a.name}, s.content[a.name := s.source[a.name]])
    else if LocationOf(s, a) == Some(InQuarantine) && to == InSource
    then Sides(s.source[a.name := s.content[a.name]], s.content - {a.name})
    else s
  }

  function After(s: Sides, artifacts: seq<Artifact>, to: Place): Sides {
    if artifacts == [] then s
    else Settle(After(s, artifacts[..|artifacts| - 1], to), artifacts[|artifacts| - 1], to)
  }

  // ----- one move

  /** A move takes the artifact along and leaves every other name alone. */
  lemma {:induction false} SettleMoves(s: Sides, a: Artifact, to: Place)
    requires LocationOf(s, a).Some?
    ensures var t := Settle(s, a, to);
            && LocationOf(t, a) == Some(to) && Entry(t, a) == Entry(s, a)
            && t.source.Keys + t.content.Keys == s.source.Keys + s.content.Keys
            && forall name :: name != a.name ==>
                 && (name in t.source <==> name in s.source) && (name in t.content <==> name in s.content)
                 && (name in s.source ==> t.source[name] == s.source[name])
                 && (name in s.content ==> t.content[name] == s.content[name])
  {
  }

  lemma {:induction false} SettleKeepsOthers(s: Sides, a: Artifact, to: Place, b: Artifact)
    requires LocationOf(s, a).Some? && a.name != b.name
    ensures LocationOf(Settle(s, a, to), b) == LocationOf(s, b)
    ensures Intact(Settle(s, a, to), b) == Intact(s, b)
    ensures Kept(Settle(s, a, to), b) == Kept(s, b)
  {
  }

  lemma {:induction false} SettleKeepsUnharmed(s: Sides, a: Artifact, to: Place, family: Family, plan: Plan,
                                               b: Artifact)
    requires LocationOf(s, a).Some?
    ensures Unharmed(Settle(s, a, to), family, plan, b) == Unharmed(s, family, plan, b)
  {
    hide CompanionNames, Recorded;
    var t := Settle(s, a, to);
    SettleMoves(s, a, to);
    var names := CompanionNames(family.database, b.name);
    assert forall c ::
             c in names && (c in s.source || c in s.content) <==> c in names && (c in t.source || c in t.content) by {
      forall c | c in names ensures c in s.source || c in s.content <==> c in t.source || c in t.content {
        assert c in s.source.Keys + s.content.Keys <==> c in t.source.Keys + t.content.Keys;
      }
    }
  }

  lemma {:induction false} SettleKeepsProtected(s: Sides, a: Artifact, to: Place, family: Family, claim: Option<Claim>,
                                                plan: Plan, selected: seq<Artifact>)
    requires LocationOf(s, a).Some? && forall b :: b in plan.retained ==> b.name != a.name
    ensures Protected(Settle(s, a, to), family, claim, plan, selected) == Protected(s, family, claim, plan, selected)
  {
    hide Settle, Unharmed, Kept, LocationOf;
    var t := Settle(s, a, to);
    forall b | b in plan.retained ensures Kept(t, b) == Kept(s, b) {
      SettleKeepsOthers(s, a, to, b);
    }
    forall b | b in selected ensures Unharmed(t, family, plan, b) == Unharmed(s, family, plan, b) {
      SettleKeepsUnharmed(s, a, to, family, plan, b);
    }
  }

  lemma {:induction false} SettleKeepsReady(s: Sides, a: Artifact, to: Place, family: Family, claim: Option<Claim>,
                                            plan: Plan)
    requires DistinctNames(plan.eligible + plan.retained) && a in plan.eligible && Intact(s, a)
    ensures Ready(Settle(s, a, to), family, claim, plan) == Ready(s, family, claim, plan)
  {
    hide Settle, Protected, LocationOf, Entry;
    NamesApart(plan, a);
    SettleKeepsProtected(s, a, to, family, claim, plan, plan.eligible);
    SettleMoves(s, a, to);
    forall b | b in plan.eligible ensures Intact(Settle(s, a, to), b) == Intact(s, b) {
      if a.name == b.name {
        OneEntryPerName(plan, a, b);
      } else {
        SettleKeepsOthers(s, a, to, b);
      }
    }
  }

  lemma NamesApart(plan: Plan, a: Artifact)
    requires DistinctNames(plan.eligible + plan.retained) && a in plan.eligible
    ensures forall b :: b in plan.retained ==> b.name != a.name
  {
    var stages := plan.eligible + plan.retained;
    var i :| 0 <= i < |plan.eligible| && plan.eligible[i] == a;
    forall b | b in plan.retained ensures b.name != a.name {
      var j :| 0 <= j < |plan.retained| && plan.retained[j] == b;
      assert stages[i].name != stages[|plan.eligible| + j].name;
    }
  }

  lemma OneEntryPerName(plan: Plan, a: Artifact, b: Artifact)
    requires DistinctNames(plan.eligible + plan.retained) && a in plan.eligible && b in plan.eligible
    requires a.name == b.name
    ensures a == b
  {
    var stages := plan.eligible + plan.retained;
    var i :| 0 <= i < |plan.eligible| && plan.eligible[i] == a;
    var j :| 0 <= j < |plan.eligible| && plan.eligible[j] == b;
    assert stages[i] == a && stages[j] == b;
    assert i == j;
  }

  lemma {:induction false} AfterKeepsReady(s: Sides, to: Place, family: Family, claim: Option<Claim>, plan: Plan,
                                           k: nat)
    requires DistinctNames(plan.eligible + plan.retained) && k <= |plan.eligible|
    requires Ready(s, family, claim, plan)
    ensures Ready(After(s, plan.eligible[..k], to), family, claim, plan)
    decreases k
  {
    hide Settle, Protected, Intact;
    if k == 0 {
      assert plan.eligible[..0] == [];
    } else {
      AfterKeepsReady(s, to, family, claim, plan, k - 1);
      AfterNext(s, plan.eligible, k - 1, to);
      SettleKeepsReady(After(s, plan.eligible[..k - 1], to), plan.eligible[k - 1], to, family, claim, plan);
    }
  }

  lemma AfterNext(s: Sides, artifacts: seq<Artifact>, k: nat, to: Place)
    requires k < |artifacts|
    ensures After(s, artifacts[..k + 1], to) == Settle(After(s, artifacts[..k], to), artifacts[k], to)
  {
    assert artifacts[..k + 1][..k] == artifacts[..k];
  }

  function Destination(mode: Mode): Place {
    if mode == Restore then InSource else InQuarantine
  }

  function RecordOf(plan: Plan, createdAt: int): Record {
    Record(plan.backups, if plan.backups then QUARANTINE_BACKUPS else QUARANTINE_STAGES, createdAt, plan, plan)
  }

  lemma RecordSays(plan: Plan, createdAt: int)
    ensures RecordOf(plan, createdAt).plan == RecordOf(plan, createdAt).seal == plan
    ensures RecordOf(plan, createdAt).createdAt == createdAt
  {
  }

  const MAX_MANIFEST_BYTES := 8 * 1024 * 1024

  /** One recovery session after another on the same mailbox. `faults` says what
      happens at each step; `preview` is the planner; `written` is how many bytes a
      manifest takes on disk. */
  class Mailbox {
    const family: Family
    const binding: Binding
    const archiveChild: Option<string>
    const claim: Option<Claim>
    const preview: (Directory, nat) -> Option<Plan>
    const written: Record -> nat
    const faults: nat -> Fault
    var source: Directory
    var runs: seq<Run>
    var tick: nat

    constructor (family: Family, binding: Binding, archiveChild: Option<string>, claim: Option<Claim>,
                 preview: (Directory, nat) -> Option<Plan>, written: Record -> nat, faults: nat -> Fault,
                 source: Directory)
      ensures this.family == family && this.claim == claim && this.preview == preview && this.faults == faults
      ensures this.written == written
      ensures this.binding == binding && this.archiveChild == archiveChild
      ensures this.source == source && runs == [] && tick == 0
    {
      this.family, this.binding, this.archiveChild, this.claim := family, binding, archiveChild, claim;
      this.preview, this.written, this.faults := preview, written, faults;
      this.source, this.runs, this.tick := source, [], 0;
    }

    /** Nothing fails from here on. */
    ghost predicate Calm()
      reads `tick
    {
      forall t :: t >= tick ==> faults(t) == Fine
    }

    /** Nothing failed at the steps from one tick to another. */
    ghost predicate Quiet(from: nat, to: nat)
    {
      forall t :: from <= t < to ==> faults(t) == Fine
    }

    /** Manifest checks depend on the mailbox, not on the directory contents. */
    function Here(): Scene
    {
      Scene(family, binding, map[], claim, archiveChild)
    }

    function View(r: nat): Sides
      reads this
      requires r < |runs|
    {
      Sides(source, runs[r].content)
    }

    predicate Sound(s: Sides, plan: Plan)
    {
      Ready(s, family, claim, plan)
    }

    /** The bounded reader of a later recovery can open this manifest. */
    predicate Reopens(record: Record)
    {
      written(record) <= MAX_MANIFEST_BYTES
    }

    method Step() returns (o: Outcome)
      modifies `tick
      ensures tick == old(tick) + 1
      ensures o == match faults(old(tick)) case Fine => Done case Error => Failed case Crash => Crashed
    {
      o := match faults(tick) case Fine => Done case Error => Failed case Crash => Crashed;
      tick := tick + 1;
    }

    method Log(r: nat, action: Action)
      requires r < |runs|
      modifies `runs
      ensures runs == old(runs)[r := old(runs[r]).(log := old(runs[r].log) + [action])]
    {
      runs := runs[r := runs[r].(log := runs[r].log + [action])];
    }

    /** Only run `r` may have changed, and its record not at all. */
    twostate predicate OnlyRun(r: nat)
      reads this
    {
      && |runs| == old(|runs|) && r < |runs|
      && runs[r].record == old(runs)[r].record && old(runs)[r].log <= runs[r].log
      && forall i :: 0 <= i < |runs| && i != r ==> runs[i] == old(runs)[i]
    }

    /** The rename of a journaled move: refused when the target name exists. */
    method RenameNoReplace(r: nat, name: string, to: Place) returns (o: Outcome)
      requires r < |runs|
      modifies `source, `runs
      ensures OnlyRun(r) && runs[r].log == old(runs[r].log)
      ensures var s := old(View(r));
              if to == InQuarantine then
                if name in s.source && name !in s.content
                then o == Done && View(r) == Sides(s.source - {name}, s.content[name := s.source[name]])
                else o == Failed && View(r) == s
              else
                if name in s.content && name !in s.source
                then o == Done && View(r) == Sides(s.source[name := s.content[name]], s.content - {name})
                else o == Failed && View(r) == s
    {
      var content := runs[r].content;
      if to == InQuarantine {
        if name !in source || name in content {
          return Failed;
        }
        runs := runs[r := runs[r].(content := content[name := source[name]])];
        source := source - {name};
      } else {
        if name !in content || name in source {
          return Failed;
        }
        source := source[name := content[name]];
        runs := runs[r := runs[r].(content := content - {name})];
      }
      o := Done;
    }

    /** The journaled rename: first the intent, then one atomic step. */
    method Publish(r: nat, a: Artifact, to: Place) returns (o: Outcome)
      requires r < |runs| && LocationOf(View(r), a).Some? && LocationOf(View(r), a) != Some(to)
      modifies `source, `runs, `tick
      ensures OnlyRun(r) && tick >= old(tick)
      ensures View(r) == old(View(r)) || (View(r) == old(Settle(View(r), a, to)) && Intent(a.name) in runs[r].log)
      ensures o == Done ==> View(r) == old(Settle(View(r), a, to)) && Intent(a.name) in runs[r].log
      ensures Quiet(old(tick), tick) ==> o == Done
    {
      hide LocationOf, Settle;
      SettleIsRename(View(r), a, to);
      o := Step();
      if o != Done {
        return;
      }
      Log(r, Intent(a.name));
      o := Step();
      if o != Done {
        return;
      }
      o := RenameNoReplace(r, a.name, to);
    }

    /** One artifact: check it, journal the intent, rename, check again. Whatever
        goes wrong and wherever, it has either not moved or moved whole, and only
        after its intent was written. */
    method MoveStage(r: nat, a: Artifact, to: Place) returns (o: Outcome)
      requires r < |runs|
      requires forall b :: b in runs[r].record.plan.retained ==> b.name != a.name
      modifies `source, `runs, `tick
      ensures OnlyRun(r) && tick >= old(tick)
      ensures View(r) == old(View(r)) || (old(Intact(View(r), a)) && View(r) == old(Settle(View(r), a, to)))
      ensures View(r) != old(View(r)) ==> Intent(a.name) in runs[r].log
      ensures o == Done ==> old(Intact(View(r), a)) && View(r) == old(Settle(View(r), a, to))
      ensures Quiet(old(tick), tick)
              && old(Intact(View(r), a) && Protected(View(r), family, claim, runs[r].record.plan, [a])) ==>
                o == Done
    {
      hide Protected, LocationOf, Settle, Entry;
      var plan := runs[r].record.plan;
      o := Step();
      if o != Done || !Protected(View(r), family, claim, plan, [a]) {
        return if o == Done then Failed else o;
      }
      o := Step();
      var location := LocationOf(View(r), a);
      if o != Done || location.None? {
        return if o == Done then Failed else o;
      }
      ghost var before := View(r);
      SettleMoves(before, a, to);
      SettleKeepsProtected(before, a, to, family, claim, plan, [a]);
      o := Step();
      if o != Done || !Intact(View(r), a) {
        return if o == Done then Failed else o;
      }
      SettleStays(before, a, to);
      if location != Some(to) {
        o := Publish(r, a, to);
        if o != Done {
          return;
        }
      }
      o := Step();
      if o != Done || !Protected(View(r), family, claim, plan, [a]) || LocationOf(View(r), a) != Some(to) {
        return if o == Done then Failed else o;
      }
      o := Step();
      if o != Done {
        return;
      }
      Log(r, if location == Some(to) then AlreadyPresent(a.name) else Completed(a.name));
    }

    /** All planned artifacts in order, stopping at the first trouble: the first
        `moved` of them have been settled, the others not touched. */
    method MovePlan(r: nat, to: Place) returns (o: Outcome, ghost moved: nat)
      requires r < |runs|
      requires DistinctNames(runs[r].record.plan.eligible + runs[r].record.plan.retained)
      modifies `source, `runs, `tick
      ensures OnlyRun(r) && tick >= old(tick) && moved <= |runs[r].record.plan.eligible|
      ensures View(r) == old(After(View(r), runs[r].record.plan.eligible[..moved], to))
      ensures forall name :: name in runs[r].content && name !in old(runs[r].content) ==> Intent(name) in runs[r].log
      ensures o == Done ==> forall a :: a in runs[r].record.plan.eligible ==> LocationOf(View(r), a) == Some(to)
      ensures Quiet(old(tick), tick) && old(Sound(View(r), runs[r].record.plan)) ==> o == Done
      ensures old(Sound(View(r), runs[r].record.plan)) ==> Sound(View(r), runs[r].record.plan)
    {
      hide Protected, Entry, Settle, LocationOf;
      var plan := runs[r].record.plan;
      ghost var start := View(r);
      moved := 0;
      for i := 0 to |plan.eligible|
        invariant OnlyRun(r) && moved == i && tick >= old(tick)
        invariant View(r) == After(start, plan.eligible[..i], to)
        invariant forall name :: name in runs[r].content && name !in old(runs[r].content) ==>
                  Intent(name) in runs[r].log
        invariant forall k :: 0 <= k < i ==> LocationOf(View(r), plan.eligible[k]) == Some(to)
        invariant Ready(start, family, claim, plan) ==> Ready(View(r), family, claim, plan)
      {
        var a := plan.eligible[i];
        ghost var before := View(r);
        ghost var logged := runs[r].log;
        NamesApart(plan, a);
        AfterNext(start, plan.eligible, i, to);
        if Ready(start, family, claim, plan) {
          AfterKeepsReady(start, to, family, claim, plan, i + 1);
          ReadyProtects(before, family, claim, plan, a);
        }
        o := MoveStage(r, a, to);
        if View(r) != before {
          moved := i + 1;
        }
        MoveJournaled(before, a, to);
        if o != Done {
          return;
        }
        moved := i + 1;
        SettlePlaces(before, plan, i, to);
      }
      o := Done;
    }

    lemma MeansRecorded(r: nat)
      requires r < |runs|
      ensures var plan := runs[r].record.plan;
              (plan.backups ==> LongNames(family.database, plan.eligible)) ==>
                (Sound(View(r), plan) <==> AsRecorded(source, runs[r].content, family.database, claim, plan))
    {
      hide Ready, AsRecorded;
      if runs[r].record.plan.backups ==> LongNames(family.database, runs[r].record.plan.eligible) {
        ReadyMeans(View(r), family, claim, runs[r].record.plan);
      }
    }

    /** Look at every planned artifact; nothing moves. */
    method InspectStages(r: nat) returns (o: Outcome)
      requires r < |runs|
      modifies `tick
      ensures tick >= old(tick)
      ensures o == Done ==> Sound(View(r), runs[r].record.plan)
      ensures Quiet(old(tick), tick) && Sound(View(r), runs[r].record.plan) ==> o == Done
      ensures (runs[r].record.plan.backups ==> LongNames(family.database, runs[r].record.plan.eligible)) ==>
                var recorded := AsRecorded(source, runs[r].content, family.database, claim, runs[r].record.plan);
                (o == Done ==> recorded) && (Quiet(old(tick), tick) && recorded ==> o == Done)
    {
      hide Protected, Intact, AsRecorded;
      MeansRecorded(r);
      var plan := runs[r].record.plan;
      o := Step();
      if o != Done || !Protected(View(r), family, claim, plan, plan.eligible) {
        return if o == Done then Failed else o;
      }
      for i := 0 to |plan.eligible|
        invariant tick >= old(tick)
        invariant forall k :: 0 <= k < i ==> Intact(View(r), plan.eligible[k])
      {
        o := Step();
        if o != Done || !Intact(View(r), plan.eligible[i]) {
          return if o == Done then Failed else o;
        }
      }
      o := Done;
    }

    /** Resume or restore a recorded run. Every artifact is inspected before any is
        moved, so a run that is not in order is refused untouched. */
    method Recover(r: nat, mode: Mode, offline: bool, expected: Option<Plan>) returns (o: Outcome, ghost moved: nat)
      requires r < |runs|
      modifies `source, `runs, `tick
      ensures OnlyRun(r) && tick >= old(tick) && moved <= |runs[r].record.plan.eligible|
      ensures View(r) == old(After(View(r), runs[r].record.plan.eligible[..moved], Destination(mode)))
      ensures forall name :: name in runs[r].content && name !in old(runs[r].content) ==> Intent(name) in runs[r].log
      ensures var plan := old(runs[r].record.plan);
              && (mode == Inspect || !offline || expected != Some(plan) || !old(Sound(View(r), plan)) ==>
                 View(r) == old(View(r)))
              && (o == Done ==> old(Sound(View(r), plan)) && Accepted(Here(), runs[r].record) && Reopens(runs[r].record)
                                && (mode == Inspect || (offline && expected == Some(plan))))
              && (o == Done && mode != Inspect ==>
                    forall a :: a in plan.eligible ==> LocationOf(View(r), a) == Some(Destination(mode)))
              && ((Quiet(old(tick), tick) && Accepted(Here(), runs[r].record) && Reopens(runs[r].record)
                   && old(Sound(View(r), plan)) && (mode == Inspect || (offline && expected == Some(plan)))) ==>
                  o == Done)
      ensures var plan := old(runs[r].record.plan);
              var recorded := old(AsRecorded(source, runs[r].content, family.database, claim, plan));
              && (o == Done ==> recorded && written(runs[r].record) <= 8_388_608)
              && (!recorded ==> View(r) == old(View(r)))
              && (o == Done && mode == Resume ==>
                    forall a :: a in plan.eligible ==> a.name in runs[r].content && a.name !in source)
              && (o == Done && mode == Restore ==>
                    forall a :: a in plan.eligible ==> a.name in source && a.name !in runs[r].content)
              && (Quiet(old(tick), tick) && Accepted(Here(), runs[r].record)
                  && written(runs[r].record) <= 8_388_608
                  && recorded && (mode == Inspect || (offline && expected == Some(plan))) ==>
                    o == Done)
    {
      hide Ready, LocationOf, Accepted, AsRecorded;
      AcceptedLong(Here(), runs[r].record);
      MeansRecorded(r);
      moved := 0;
      NothingMoved(View(r), runs[r].record.plan.eligible, Destination(mode));
      if (mode != Inspect && !offline) || !Reopens(runs[r].record) {
        return Failed, 0;
      }
      var accepted := ValidateManifest(Here(), runs[r].record);
      if !accepted {
        return Failed, 0;
      }
      o := InspectStages(r);
      if o != Done || mode == Inspect {
        return o, 0;
      }
      if expected != Some(runs[r].record.plan) {
        return Failed, 0;
      }
      AcceptedNames(Here(), runs[r].record);
      o, moved := MovePlan(r, Destination(mode));
      PlacesMean(View(r), runs[r].record.plan.eligible, Destination(mode));
      if o == Done {
        o := InspectStages(r);
      }
      o := FinishReceipt(o);
    }

    /** The final receipt: it can still turn success into failure, never the
        other way round. */
    method FinishReceipt(outcome: Outcome) returns (o: Outcome)
      modifies `tick
      ensures tick >= old(tick)
      ensures o == Done ==> outcome == Done
      ensures Quiet(old(tick), tick) ==> o == outcome
    {
      if outcome == Crashed {
        return outcome;
      }
      o := Step();
      if o == Done {
        o := outcome;
      }
    }

    /** Preview again, insist on the plan the operator has seen, write the manifest
        of a new run, then move. */
    method Apply(offline: bool, expected: Option<Plan>, createdAt: int) returns (o: Outcome, ghost moved: nat)
      requires Previews() && Plausible(source)
      modifies `source, `runs, `tick
      ensures tick >= old(tick)
      ensures runs == old(runs) ==> source == old(source)
      ensures runs != old(runs) ==>
                var r := |old(runs)|;
                && |runs| == r + 1 && runs[..r] == old(runs) && offline && expected == Some(runs[r].record.plan)
                && expected == old(preview(source, tick)) && expected.value.eligible != []
                && runs[r].record == RecordOf(expected.value, createdAt)
                && runs[r].record.plan == runs[r].record.seal == expected.value
                && runs[r].record.createdAt == createdAt && written(runs[r].record) <= 8_388_608
                && Accepted(Here(), runs[r].record) && Reopens(runs[r].record)
                && Truthful(runs[r].record.plan, old(source)) && Permitted(runs[r].record.plan, old(source))
                && moved <= |runs[r].record.plan.eligible|
                && View(r) == After(Sides(old(source), map[]), runs[r].record.plan.eligible[..moved], InQuarantine)
                && (forall name :: name in runs[r].content ==> Intent(name) in runs[r].log)
                && (o == Done ==> forall a :: a in runs[r].record.plan.eligible ==>
                   LocationOf(View(r), a) == Some(InQuarantine) && a.name in runs[r].content && a.name !in source)
      ensures o == Done ==>
                offline && Applicable(old(preview(source, tick)), expected, createdAt)
                && (runs == old(runs) <==> expected.value.eligible == [])
      ensures Quiet(old(tick), tick) && offline && Applicable(old(preview(source, tick)), expected, createdAt) ==>
                o == Done
    {
      hide LocationOf, Truthful, Permitted, Unclaimed, Accepted, Plausible, Ready, After, DistinctNames, RecordOf,
           Sound;
      moved := 0;
      if !offline {
        return Failed, 0;
      }
      var plan := preview(source, tick);
      o := Step();
      if o != Done || plan.None? || expected != plan || plan.value.eligible == [] {
        return if o == Done && plan.Some? && expected == plan then Done else if o == Done then Failed else o, 0;
      }
      var record := RecordOf(plan.value, createdAt);
      RecordSays(plan.value, createdAt);
      if !Reopens(record) {
        return Failed, 0;
      }
      var accepted := ValidateManifest(Here(), record);
      if !accepted {
        return Failed, 0;
      }
      o := Step();
      if o != Done {
        return;
      }
      var r := |runs|;
      runs := runs + [Run(record, map[], [])];
      o := Step();
      NothingMoved(View(r), plan.value.eligible, InQuarantine);
      if o != Done {
        return;
      }
      AcceptedNames(Here(), record);
      FreshInOrder(plan.value, source);
      o, moved := MovePlan(r, InQuarantine);
      PlacesMean(View(r), plan.value.eligible, InQuarantine);
      o := FinishReceipt(o);
    }

    /** The agreed plan is the fresh preview, and there is nothing to do or its
        manifest is short enough and accepted by the check. */
    ghost predicate Applicable(latest: Option<Plan>, expected: Option<Plan>, createdAt: int) {
      expected.Some? && latest == expected
      && (expected.value.eligible == []
          || (Reopens(RecordOf(expected.value, createdAt)) && Accepted(Here(), RecordOf(expected.value, createdAt))))
    }

    /** A directory that the operating system can present to this mailbox. */
    ghost predicate Plausible(d: Directory) {
      Scene(family, binding, d, claim, archiveChild).Valid()
    }

    /** What is assumed of the planner: it records what it sees, and selects no
        claimed or accompanied backup. */
    ghost predicate Previews()
    {
      forall d, t :: Plausible(d) && preview(d, t).Some? ==>
        Truthful(preview(d, t).value, d) && Permitted(preview(d, t).value, d)
    }

    /** The plan was made under the present claim and selects nothing claimed. */
    ghost predicate Unclaimed(plan: Plan)
    {
      plan.backups ==>
        plan.claim == claim && forall a :: a in plan.eligible ==> !MatchesClaim(a.evidence, claim)
    }

    ghost predicate Permitted(plan: Plan, d: Directory)
    {
      && Unclaimed(plan)
      && (plan.backups ==> forall a :: a in plan.eligible ==> !HasCompanion(d, family.database, a.name))
    }

    /** A fresh preview is in order. */
    lemma {:induction false} FreshInOrder(plan: Plan, d: Directory)
      requires Plausible(d) && Truthful(plan, d) && Permitted(plan, d)
      ensures Sound(Sides(d, map[]), plan)
    {
      hide CompanionNames, MatchesClaim;
      forall a | a in plan.eligible + plan.retained ensures Matches(d[a.name], a) && Coherent(d[a.name]) {
        assert a.name in d;
      }
      forall a | a in plan.eligible ensures Intact(Sides(d, map[]), a) {
        assert a in plan.eligible + plan.retained;
      }
      forall a | a in plan.retained && plan.backups ensures Kept(Sides(d, map[]), a) {
        assert a in plan.eligible + plan.retained;
      }
    }
  }

  lemma {:induction false} AcceptedLong(scene: Scene, m: Record)
    ensures Accepted(scene, m) && m.plan.backups ==> LongNames(scene.family.database, m.plan.eligible)
  {
    hide FingerprintOk, Accepts, IsStageName, Sum;
    if Accepted(scene, m) && m.plan.backups {
      forall a | a in m.plan.eligible ensures |scene.family.database| <= |a.name| {
        assert a in m.plan.eligible + m.plan.retained;
        assert StageOk(scene, m.backups, a);
        AcceptedStarts(scene.family, a.name);
      }
    }
  }

  lemma PlacesMean(s: Sides, artifacts: seq<Artifact>, to: Place)
    ensures (forall a :: a in artifacts ==> LocationOf(s, a) == Some(to)) ==>
            forall a :: a in artifacts ==>
              && (to == InSource ==> a.name in s.source && a.name !in s.content)
              && (to == InQuarantine ==> a.name in s.content && a.name !in s.source)
  {
  }

  lemma NothingMoved(s: Sides, artifacts: seq<Artifact>, to: Place)
    ensures After(s, artifacts[..0], to) == s
  {
  }

  lemma AcceptedNames(scene: Scene, m: Record)
    requires Accepted(scene, m)
    ensures DistinctNames(m.plan.eligible + m.plan.retained)
  {
  }

  lemma ReadyProtects(s: Sides, family: Family, claim: Option<Claim>, plan: Plan, a: Artifact)
    requires Ready(s, family, claim, plan) && a in plan.eligible
    ensures Protected(s, family, claim, plan, [a]) && Intact(s, a)
  {
  }

  lemma {:induction false} MoveJournaled(s: Sides, a: Artifact, to: Place)
    ensures forall name :: name in Settle(s, a, to).content && name !in s.content ==> name == a.name
  {
  }

  lemma {:induction false} SettlePlaces(s: Sides, plan: Plan, i: nat, to: Place)
    requires i < |plan.eligible| && DistinctNames(plan.eligible + plan.retained)
    requires LocationOf(s, plan.eligible[i]).Some?
    requires forall k :: 0 <= k < i ==> LocationOf(s, plan.eligible[k]) == Some(to)
    ensures forall k :: 0 <= k <= i ==> LocationOf(Settle(s, plan.eligible[i], to), plan.eligible[k]) == Some(to)
  {
    hide Settle, LocationOf;
    SettleMoves(s, plan.eligible[i], to);
    forall k | 0 <= k < i ensures LocationOf(Settle(s, plan.eligible[i], to), plan.eligible[k]) == Some(to) {
      assert (plan.eligible + plan.retained)[k].name != (plan.eligible + plan.retained)[i].name;
      SettleKeepsOthers(s, plan.eligible[i], to, plan.eligible[k]);
    }
  }

  lemma SettleIsRename(s: Sides, a: Artifact, to: Place)
    requires LocationOf(s, a).Some? && LocationOf(s, a) != Some(to)
    ensures to == InQuarantine ==>
              a.name in s.source && a.name !in s.content
              && Settle(s, a, to) == Sides(s.source - {a.name}, s.content[a.name := s.source[a.name]])
    ensures to == InSource ==>
              a.name in s.content && a.name !in s.source
              && Settle(s, a, to) == Sides(s.source[a.name := s.content[a.name]], s.content - {a.name})
  {
  }

  lemma SettleStays(s: Sides, a: Artifact, to: Place)
    ensures LocationOf(s, a) == Some(to) ==> Settle(s, a, to) == s
  {
  }
}
