/** Which rotated backups a plan may select, and the independent manifest check
    that must agree with it.
 */
module Retention {
  import opened Sql
  import opened Artifacts
  import opened Generations
  import Order

  datatype Policy = Policy(minAge: int, keep: int, maxHash: int)

  predicate PolicyOk(policy: Policy) {
    1 <= policy.keep <= MAX_ENTRIES && 0 < policy.maxHash <= MAX_BYTES && 0 <= policy.minAge <= MAX_BYTES
  }

  /** What a preview looks at: the database's directory, listed once in any order,
      the resolved snapshot claim, and the child holding the archive, if any. */
  datatype Scene = Scene(family: Family, binding: Binding, source: Directory, claim: Option<Claim>,
                         archiveChild: Option<string>)
  {
    ghost predicate Valid() {
      && AllCoherent(source)
      && (archiveChild.Some? && archiveChild.value in source ==> IsFolder(source[archiveChild.value].stamp.mode))
    }

    ghost predicate Listed(listing: seq<string>) {
      && (forall name :: name in listing <==> name in source)
      && (forall i, j :: 0 <= i < j < |listing| ==> listing[i] != listing[j])
    }
  }

  function Candidates(family: Family, listing: seq<string>): seq<string> {
    if listing == [] then []
    else
      var last := listing[|listing| - 1];
      Candidates(family, listing[..|listing| - 1]) + if Accepts(family, last) then [last] else []
  }

  predicate Readable(source: Directory, name: string) {
    name in source && SingleFile(source[name]) && source[name].evidence.Some?
  }

  function SizeIn(source: Directory): string -> int {
    name => if name in source then source[name].stamp.size else 0
  }

  function NewestFirst(family: Family): (string, string) -> bool {
    (a, b) => NewerName(family, a, b)
  }

  /** Candidates, newest first. */
  function Ranked(family: Family, listing: seq<string>): seq<string> {
    Order.Sort(Candidates(family, listing), NewestFirst(family))
  }

  function Reasons(scene: Scene, policy: Policy, now: int, rank: nat, name: string): seq<string>
    requires Readable(scene.source, name)
  {
    var w := scene.source[name].evidence.value;
    (if rank < policy.keep then ["newest_keep"] else [])
    + (if now - w.newest < policy.minAge * NANOSECONDS then ["young"] else [])
    + (if MatchesClaim(w, scene.claim) then ["snapshot_metadata_match"] else [])
    + (if HasCompanion(scene.source, scene.family.database, name) then ["companion_state"] else [])
  }

  ghost predicate AllReadable(scene: Scene, names: seq<string>) {
    forall name :: name in names ==> Readable(scene.source, name) && Accepts(scene.family, name)
  }

  function Judge(scene: Scene, policy: Policy, now: int, rank: nat, name: string): Artifact
    requires Readable(scene.source, name) && Accepts(scene.family, name)
  {
    Artifact(name, true, Reasons(scene, policy, now, rank, name), scene.source[name].evidence.value)
  }

  /** The first `n` ranked candidates that are to be retained, or not. */
  function Chosen(scene: Scene, policy: Policy, now: int, ranked: seq<string>, n: nat, retained: bool): seq<Artifact>
    requires n <= |ranked| && AllReadable(scene, ranked)
  {
    if n == 0 then []
    else
      var a := Judge(scene, policy, now, n - 1, ranked[n - 1]);
      Chosen(scene, policy, now, ranked, n - 1, retained) + if (a.reasons != []) == retained then [a] else []
  }

  function PlanOf(scene: Scene, policy: Policy, now: int, ranked: seq<string>): Plan
    requires AllReadable(scene, ranked)
  {
    Plan(true, scene.binding, policy.minAge, policy.keep, policy.maxHash, scene.claim,
         Order.Sort(Chosen(scene, policy, now, ranked, |ranked|, false), ByName),
         Order.Sort(Chosen(scene, policy, now, ranked, |ranked|, true), ByName))
  }

  /** When a preview is possible at all. */
  predicate Previewable(scene: Scene, policy: Policy, listing: seq<string>) {
    var names := Candidates(scene.family, listing);
    && PolicyOk(policy) && |listing| <= MAX_ENTRIES
    && (forall name :: name in names ==> Readable(scene.source, name))
    && Sum(names, SizeIn(scene.source)) <= policy.maxHash
  }

  // ----- the candidates

  lemma {:induction false} CandidatesAre(family: Family, listing: seq<string>)
    ensures forall name :: name in Candidates(family, listing) <==> name in listing && Accepts(family, name)
    ensures |Candidates(family, listing)| <= |listing|
  {
    hide Parse;
    if listing != [] {
      CandidatesAre(family, listing[..|listing| - 1]);
      assert listing == listing[..|listing| - 1] + [listing[|listing| - 1]];
    }
  }

  ghost predicate Distinct(names: seq<string>) {
    forall i, j :: 0 <= i < j < |names| ==> names[i] != names[j]
  }

  lemma {:induction false} CandidatesDistinct(family: Family, listing: seq<string>)
    requires Distinct(listing)
    ensures Distinct(Candidates(family, listing))
  {
    hide Parse;
    if listing != [] {
      var before := listing[..|listing| - 1];
      CandidatesDistinct(family, before);
      CandidatesAre(family, before);
    }
  }

  lemma {:induction false} NewerIsStrict(family: Family)
    ensures Order.Strict(NewestFirst(family))
  {
    hide Older, Parse;
    forall x: string, y: string | NewerName(family, x, y) ensures !NewerName(family, y, x) {
      OlderStrict(Parse(family, x).value, Parse(family, y).value, Parse(family, x).value);
      OlderStrict(Parse(family, y).value, Parse(family, x).value, Parse(family, x).value);
    }
    forall x: string, y: string, z: string | NewerName(family, x, y) && NewerName(family, y, z)
      ensures NewerName(family, x, z)
    {
      OlderStrict(Parse(family, z).value, Parse(family, y).value, Parse(family, x).value);
    }
  }

  lemma {:induction false} NamesComparable(family: Family, names: seq<string>)
    requires Distinct(names) && forall name :: name in names ==> Accepts(family, name)
    ensures Order.NoTies(names, NewestFirst(family))
  {
    hide NewerName, Accepts;
    forall i, j | 0 <= i < j < |names|
      ensures NewerName(family, names[i], names[j]) || NewerName(family, names[j], names[i])
    {
      NamesDiffer(family, names[i], names[j]);
    }
  }

  ghost function Newer(family: Family, names: seq<string>, name: string): set<string> {
    set other | other in names && NewerName(family, other, name)
  }

  /** Sorted by generation, newest first, a name's position is the number of newer names. */
  lemma {:induction false} RankIsNewer(family: Family, names: seq<string>, k: nat)
    requires Distinct(names) && forall name :: name in names ==> Accepts(family, name)
    requires var ranked := Order.Sort(names, NewestFirst(family)); k < |ranked|
    ensures var ranked := Order.Sort(names, NewestFirst(family));
            && |ranked| == |names| && ranked[k] in names && |Newer(family, names, ranked[k])| == k
            && Distinct(ranked)
  {
    hide NewerName, Accepts, Order.Sort;
    var newer := NewestFirst(family);
    var ranked := Order.Sort(names, newer);
    NewerIsStrict(family);
    NamesComparable(family, names);
    Order.SortIncreasing(names, newer);
    Order.SortMembers(names, newer);
    Order.IndexIsRank(ranked, k, newer);
    assert Newer(family, names, ranked[k]) == Order.Members(ranked[..k]);
    IncreasingDistinct(family, ranked);
  }

  lemma IncreasingDistinct(family: Family, ranked: seq<string>)
    requires Order.Increasing(ranked, NewestFirst(family))
    ensures Distinct(ranked)
  {
    hide Older, Parse;
    NewerIsStrict(family);
  }

  // ----- the plan

  lemma {:induction false} RankedAre(scene: Scene, policy: Policy, listing: seq<string>)
    requires scene.Listed(listing) && Previewable(scene, policy, listing)
    ensures var ranked := Ranked(scene.family, listing);
            && AllReadable(scene, ranked) && Distinct(ranked)
            && (forall name :: name in ranked <==> name in scene.source && Accepts(scene.family, name))
            && forall k :: 0 <= k < |ranked| ==> |NewerBackups(scene, ranked[k])| == k
  {
    hide Accepts, NewerName, Order.Sort;
    var names := Candidates(scene.family, listing);
    var ranked := Ranked(scene.family, listing);
    CandidatesAre(scene.family, listing);
    CandidatesDistinct(scene.family, listing);
    Order.SortMembers(names, NewestFirst(scene.family));
    forall k | 0 <= k < |ranked| ensures |NewerBackups(scene, ranked[k])| == k && Distinct(ranked) {
      RankIsNewer(scene.family, names, k);
      assert NewerBackups(scene, ranked[k]) == Newer(scene.family, names, ranked[k]);
    }
  }

  lemma {:induction false} RankedReadable(scene: Scene, policy: Policy, listing: seq<string>)
    requires Previewable(scene, policy, listing)
    ensures AllReadable(scene, Ranked(scene.family, listing))
  {
    hide Accepts, NewerName, Order.Sort, Readable;
    CandidatesAre(scene.family, listing);
    Order.SortMembers(Candidates(scene.family, listing), NewestFirst(scene.family));
  }

  /** The backups in the directory that are newer than this one. */
  ghost function NewerBackups(scene: Scene, name: string): set<string> {
    set other | other in scene.source && Accepts(scene.family, other) && NewerName(scene.family, other, name)
  }

  /** What makes a backup surplus. */
  ghost predicate Surplus(scene: Scene, policy: Policy, now: int, name: string) {
    && Readable(scene.source, name) && Accepts(scene.family, name)
    && |NewerBackups(scene, name)| >= policy.keep
    && now - scene.source[name].stamp.mtime >= policy.minAge * NANOSECONDS
    && !MatchesClaim(scene.source[name].evidence.value, scene.claim)
    && !HasCompanion(scene.source, scene.family.database, name)
  }

  lemma {:induction false} ReasonsAre(scene: Scene, policy: Policy, now: int, rank: nat, name: string)
    requires scene.Valid() && Readable(scene.source, name) && Accepts(scene.family, name)
    requires rank == |NewerBackups(scene, name)|
    ensures Judge(scene, policy, now, rank, name).reasons == [] <==> Surplus(scene, policy, now, name)
  {
    hide Accepts, NewerBackups, HasCompanion, MatchesClaim;
    assert Coherent(scene.source[name]);
  }

  lemma {:induction false} ChosenAre(scene: Scene, policy: Policy, now: int, ranked: seq<string>, n: nat,
                                     retained: bool)
    requires n <= |ranked| && AllReadable(scene, ranked) && Distinct(ranked)
    ensures var chosen := Chosen(scene, policy, now, ranked, n, retained);
            && (forall a :: a in chosen ==>
                  exists k :: 0 <= k < n && a == Judge(scene, policy, now, k, ranked[k])
                    && (a.reasons != []) == retained)
            && (forall k :: 0 <= k < n && (Judge(scene, policy, now, k, ranked[k]).reasons != []) == retained ==>
                  Judge(scene, policy, now, k, ranked[k]) in chosen)
            && DistinctNames(chosen)
  {
    hide Reasons, Readable, Accepts;
    if n > 0 {
      ChosenAre(scene, policy, now, ranked, n - 1, retained);
      var before := Chosen(scene, policy, now, ranked, n - 1, retained);
      forall i | 0 <= i < |before| ensures before[i].name != ranked[n - 1] {
        assert before[i] in before;
      }
    }
  }

  lemma {:induction false} ByNameIsStrict()
    ensures Order.Strict(ByName)
  {
    forall x: Artifact, y: Artifact | ByName(x, y) ensures !ByName(y, x) {
      Order.LessTotal(x.name, y.name);
    }
    forall x: Artifact, y: Artifact, z: Artifact | ByName(x, y) && ByName(y, z) ensures ByName(x, z) {
      Order.LessTransitive(x.name, y.name, z.name);
    }
  }

  lemma {:induction false} SortByName(artifacts: seq<Artifact>)
    requires DistinctNames(artifacts)
    ensures Order.Increasing(Order.Sort(artifacts, ByName), ByName)
    ensures DistinctNames(Order.Sort(artifacts, ByName))
    ensures forall a :: a in Order.Sort(artifacts, ByName) <==> a in artifacts
  {
    hide Order.Sort, Order.Less;
    ByNameIsStrict();
    forall i, j | 0 <= i < j < |artifacts|
      ensures ByName(artifacts[i], artifacts[j]) || ByName(artifacts[j], artifacts[i])
    {
      Order.LessTotal(artifacts[i].name, artifacts[j].name);
    }
    Order.SortIncreasing(artifacts, ByName);
    Order.SortMembers(artifacts, ByName);
    var sorted := Order.Sort(artifacts, ByName);
    forall i, j | 0 <= i < j < |sorted| ensures sorted[i].name != sorted[j].name {
      assert ByName(sorted[i], sorted[j]);
      Order.LessTotal(sorted[i].name, sorted[j].name);
    }
  }

  ghost predicate Names(artifacts: seq<Artifact>, name: string) {
    exists a :: a in artifacts && a.name == name
  }

  /** A plan entry as this directory would have it. */
  ghost predicate Describes(scene: Scene, a: Artifact) {
    && Readable(scene.source, a.name) && Accepts(scene.family, a.name)
    && a.backup && a.evidence == scene.source[a.name].evidence.value
  }

  ghost predicate Candidate(scene: Scene, name: string) {
    name in scene.source && Accepts(scene.family, name)
  }

  lemma {:induction false} ChosenSelects(scene: Scene, policy: Policy, now: int, listing: seq<string>, retained: bool)
    requires scene.Valid() && scene.Listed(listing) && Previewable(scene, policy, listing)
    requires AllReadable(scene, Ranked(scene.family, listing))
    ensures var ranked := Ranked(scene.family, listing);
            var sorted := Order.Sort(Chosen(scene, policy, now, ranked, |ranked|, retained), ByName);
            && Order.Increasing(sorted, ByName) && DistinctNames(sorted)
            && (forall a :: a in sorted ==>
                  Describes(scene, a) && (a.reasons != []) == retained
                    && Surplus(scene, policy, now, a.name) == !retained)
            && (forall name :: Candidate(scene, name) && Surplus(scene, policy, now, name) == !retained ==>
               Names(sorted, name))
  {
    hide Accepts, Readable, NewerBackups, Surplus, Order.Sort, Coherent, Reasons, Chosen, Previewable, ByName;
    var ranked := Ranked(scene.family, listing);
    RankedAre(scene, policy, listing);
    ChosenAre(scene, policy, now, ranked, |ranked|, retained);
    var chosen := Chosen(scene, policy, now, ranked, |ranked|, retained);
    SortByName(chosen);
    var sorted := Order.Sort(chosen, ByName);
    forall k | 0 <= k < |ranked|
      ensures Judge(scene, policy, now, k, ranked[k]).reasons == [] <==> Surplus(scene, policy, now, ranked[k])
    {
      ReasonsAre(scene, policy, now, k, ranked[k]);
    }
    forall name | Candidate(scene, name) && Surplus(scene, policy, now, name) == !retained ensures Names(sorted, name) {
      var k :| 0 <= k < |ranked| && ranked[k] == name;
      var a := Judge(scene, policy, now, k, ranked[k]);
      assert a in sorted && a.name == name;
    }
  }

  // ----- the plan in words

  /** Why a backup stays: too few newer ones, not old enough, the size and checksum of
      the claimed snapshot, or a companion beside it. */
  ghost predicate ReasonsMean(scene: Scene, policy: Policy, now: int, a: Artifact) {
    var w, database := a.evidence, scene.family.database;
    && ("newest_keep" in a.reasons <==> |NewerBackups(scene, a.name)| < policy.keep)
    && ("young" in a.reasons <==> now - w.newest < policy.minAge * 1_000_000_000)
    && ("snapshot_metadata_match" in a.reasons <==>
          scene.claim.Some? && w.bytes == scene.claim.value.size && w.content == Some(scene.claim.value.sha))
    && ("companion_state" in a.reasons <==>
          |database| <= |a.name| && CompanionThere(scene.source, database, a.name))
    && forall r :: r in a.reasons ==>
         r == "newest_keep" || r == "young" || r == "snapshot_metadata_match" || r == "companion_state"
  }

  lemma {:induction false} FourReasons(keep: bool, young: bool, claimed: bool, accompanied: bool)
    ensures var reasons := (if keep then ["newest_keep"] else []) + (if young then ["young"] else [])
                           + (if claimed then ["snapshot_metadata_match"] else [])
                           + (if accompanied then ["companion_state"] else []);
            && ("newest_keep" in reasons <==> keep) && ("young" in reasons <==> young)
            && ("snapshot_metadata_match" in reasons <==> claimed) && ("companion_state" in reasons <==> accompanied)
            && forall r :: r in reasons ==>
                 r == "newest_keep" || r == "young" || r == "snapshot_metadata_match" || r == "companion_state"
  {
    assert "newest_keep"[0] == 'n' && "young"[0] == 'y' && "snapshot_metadata_match"[0] == 's'
           && "companion_state"[0] == 'c';
  }

  lemma {:induction false} JudgedMean(scene: Scene, policy: Policy, now: int, rank: nat, name: string)
    requires Readable(scene.source, name) && Accepts(scene.family, name)
    requires rank == |NewerBackups(scene, name)|
    ensures ReasonsMean(scene, policy, now, Judge(scene, policy, now, rank, name))
  {
    hide Parse, Accepts, NewerBackups, HasCompanion, CompanionThere;
    var w := scene.source[name].evidence.value;
    AcceptedStarts(scene.family, name);
    CompanionIs(scene.source, scene.family.database, name);
    FourReasons(rank < policy.keep, now - w.newest < policy.minAge * NANOSECONDS, MatchesClaim(w, scene.claim),
                HasCompanion(scene.source, scene.family.database, name));
  }

  lemma {:induction false} ChosenMean(scene: Scene, policy: Policy, now: int, listing: seq<string>, retained: bool)
    requires scene.Listed(listing) && Previewable(scene, policy, listing)
    requires AllReadable(scene, Ranked(scene.family, listing))
    ensures var ranked := Ranked(scene.family, listing);
            forall a :: a in Order.Sort(Chosen(scene, policy, now, ranked, |ranked|, retained), ByName) ==>
              ReasonsMean(scene, policy, now, a)
  {
    hide Accepts, Readable, NewerBackups, Order.Sort, Reasons, Chosen, Previewable, ByName, ReasonsMean;
    var ranked := Ranked(scene.family, listing);
    RankedAre(scene, policy, listing);
    ChosenAre(scene, policy, now, ranked, |ranked|, retained);
    SortByName(Chosen(scene, policy, now, ranked, |ranked|, retained));
    forall k | 0 <= k < |ranked| ensures ReasonsMean(scene, policy, now, Judge(scene, policy, now, k, ranked[k])) {
      JudgedMean(scene, policy, now, k, ranked[k]);
    }
  }

  ghost predicate NamesAscend(artifacts: seq<Artifact>) {
    forall i, j :: 0 <= i < j < |artifacts| ==> Order.EarlierText(artifacts[i].name, artifacts[j].name)
  }

  /** In words: a plan records the policy, the claim and every backup once, as it is and
      in the order of the names; selected are those without a reason to stay. */
  ghost predicate IsPlan(scene: Scene, policy: Policy, now: int, plan: Plan) {
    && plan.backups && plan.binding == scene.binding && plan.claim == scene.claim
    && plan.minAge == policy.minAge && plan.keep == policy.keep && plan.maxHash == policy.maxHash
    && DistinctNames(plan.eligible + plan.retained)
    && (forall name :: Candidate(scene, name) <==> Names(plan.eligible, name) || Names(plan.retained, name))
    && (forall a :: a in plan.eligible + plan.retained ==>
          && a.backup && a.name in scene.source && scene.source[a.name].evidence == Some(a.evidence)
          && ReasonsMean(scene, policy, now, a))
    && (forall a :: a in plan.eligible ==> a.reasons == []) && (forall a :: a in plan.retained ==> a.reasons != [])
    && NamesAscend(plan.eligible) && NamesAscend(plan.retained)
  }

  lemma ByNameAscends(artifacts: seq<Artifact>)
    requires Order.Increasing(artifacts, ByName)
    ensures NamesAscend(artifacts)
  {
    forall i, j | 0 <= i < j < |artifacts| ensures Order.EarlierText(artifacts[i].name, artifacts[j].name) {
      Order.LessIsEarlier(artifacts[i].name, artifacts[j].name);
    }
  }

  lemma {:induction false} PlanIsMeant(scene: Scene, policy: Policy, now: int, listing: seq<string>)
    requires scene.Valid() && scene.Listed(listing) && Previewable(scene, policy, listing)
    requires AllReadable(scene, Ranked(scene.family, listing))
    ensures IsPlan(scene, policy, now, PlanOf(scene, policy, now, Ranked(scene.family, listing)))
  {
    hide Accepts, NewerBackups, HasCompanion, Order.Sort, Coherent, Reasons, Chosen, Previewable, Order.Increasing,
         Ranked, ReasonsMean, NamesAscend, Surplus;
    PlanSelects(scene, policy, now, listing);
    ChosenMean(scene, policy, now, listing, false);
    ChosenMean(scene, policy, now, listing, true);
    var plan := PlanOf(scene, policy, now, Ranked(scene.family, listing));
    ByNameAscends(plan.eligible);
    ByNameAscends(plan.retained);
    forall name ensures Candidate(scene, name) <==> Names(plan.eligible, name) || Names(plan.retained, name) {
      SurplusIsCandidate(scene, policy, now, name);
    }
  }

  lemma SurplusIsCandidate(scene: Scene, policy: Policy, now: int, name: string)
    ensures Surplus(scene, policy, now, name) ==> Candidate(scene, name)
  {
  }

  /** In words: when a preview is not refused. */
  ghost predicate MayPreview(scene: Scene, policy: Policy, listing: seq<string>) {
    && 1 <= policy.keep <= 16_384 && 0 < policy.maxHash <= 0xffff_ffff_ffff_ffff
    && 0 <= policy.minAge <= 0xffff_ffff_ffff_ffff && |listing| <= 16_384
    && (forall name :: Candidate(scene, name) ==>
          && IsRegular(scene.source[name].stamp.mode) && scene.source[name].stamp.links == 1
          && scene.source[name].evidence.Some?)
    && Sum(Candidates(scene.family, listing), SizeIn(scene.source)) <= policy.maxHash
  }

  lemma {:induction false} PreviewableMeans(scene: Scene, policy: Policy, listing: seq<string>)
    requires scene.Listed(listing)
    ensures Previewable(scene, policy, listing) <==> MayPreview(scene, policy, listing)
  {
    hide Accepts, Sum, Candidates, IsRegular;
    CandidatesAre(scene.family, listing);
  }

  /** A preview splits the backups: what it selects is exactly the surplus, what it
      retains is all the rest, and every entry is recorded as it is. A selected
      backup has at least `keep` newer ones, is old enough, is not the one bound by
      the snapshot metadata, and has no companion files. */
  lemma {:induction false} PlanSelects(scene: Scene, policy: Policy, now: int, listing: seq<string>)
    requires scene.Valid() && scene.Listed(listing) && Previewable(scene, policy, listing)
    ensures AllReadable(scene, Ranked(scene.family, listing))
    ensures var plan := PlanOf(scene, policy, now, Ranked(scene.family, listing));
            && (forall name :: Names(plan.eligible, name) <==> Surplus(scene, policy, now, name))
            && (forall name ::
                  Names(plan.retained, name) <==> Candidate(scene, name) && !Surplus(scene, policy, now, name))
            && (forall a :: a in plan.eligible ==> Describes(scene, a) && a.reasons == [])
            && (forall a :: a in plan.retained ==> Describes(scene, a) && a.reasons != [])
            && Truthful(plan, scene.source)
            && Order.Increasing(plan.eligible, ByName) && Order.Increasing(plan.retained, ByName)
            && (forall a :: a in plan.eligible ==>
                  && |NewerBackups(scene, a.name)| >= policy.keep
                  && now - a.evidence.newest >= policy.minAge * 1_000_000_000
                  && (scene.claim.Some? ==>
                        a.evidence.bytes != scene.claim.value.size
                        || a.evidence.content != Some(scene.claim.value.sha)))
            && (forall a :: a in plan.retained ==>
                  ("snapshot_metadata_match" in a.reasons <==>
                   scene.claim.Some? && a.evidence.bytes == scene.claim.value.size
                   && a.evidence.content == Some(scene.claim.value.sha)))
  {
    hide Accepts, NewerBackups, HasCompanion, Order.Sort, Coherent, Reasons, Chosen, Previewable, Order.Increasing,
         Ranked, CompanionThere;
    RankedAre(scene, policy, listing);
    ChosenSelects(scene, policy, now, listing, false);
    ChosenSelects(scene, policy, now, listing, true);
    ChosenMean(scene, policy, now, listing, false);
    ChosenMean(scene, policy, now, listing, true);
    var plan := PlanOf(scene, policy, now, Ranked(scene.family, listing));
    assert forall a :: a in plan.eligible || a in plan.retained ==> ReasonsMean(scene, policy, now, a);
    forall a, b | a in plan.eligible && b in plan.retained ensures a.name != b.name {
      assert Surplus(scene, policy, now, a.name) != Surplus(scene, policy, now, b.name);
    }
    DistinctAppend(plan.eligible, plan.retained);
    forall a | a in plan.eligible + plan.retained ensures a.name in scene.source && Matches(scene.source[a.name], a) {
      assert Describes(scene, a);
      DescribedMatches(scene, a);
    }
  }

  lemma DistinctAppend(a: seq<Artifact>, b: seq<Artifact>)
    requires DistinctNames(a) && DistinctNames(b)
    requires forall x, y :: x in a && y in b ==> x.name != y.name
    ensures DistinctNames(a + b)
  {
  }

  lemma DescribedMatches(scene: Scene, a: Artifact)
    requires scene.Valid() && Describes(scene, a)
    ensures Matches(scene.source[a.name], a)
  {
    assert Coherent(scene.source[a.name]);
  }

  // ----- the preview

  /** Limits on directory entries and on payload bytes read. */
  class Budget {
    var remaining: int
    var hashRemaining: int

    constructor (entries: int, hashBytes: int)
      ensures remaining == entries && hashRemaining == hashBytes
    {
      remaining, hashRemaining := entries, hashBytes;
    }

    method Visit() returns (ok: bool)
      modifies `remaining
      ensures ok <==> old(remaining) > 0
      ensures remaining == if ok then old(remaining) - 1 else old(remaining)
    {
      if remaining <= 0 {
        return false;
      }
      remaining := remaining - 1;
      ok := true;
    }

    method Hash(size: int) returns (ok: bool)
      modifies `hashRemaining
      ensures ok <==> 0 <= size <= old(hashRemaining)
      ensures hashRemaining == if ok then old(hashRemaining) - size else old(hashRemaining)
    {
      if size < 0 || size > hashRemaining {
        return false;
      }
      hashRemaining := hashRemaining - size;
      ok := true;
    }
  }

  lemma {:induction false} CandidatesStep(scene: Scene, listing: seq<string>, i: nat)
    requires i < |listing|
    ensures var before, after := Candidates(scene.family, listing[..i]), Candidates(scene.family, listing[..i + 1]);
            && after == before + (if Accepts(scene.family, listing[i]) then [listing[i]] else [])
            && Sum(after, SizeIn(scene.source)) == Sum(before, SizeIn(scene.source))
               + if Accepts(scene.family, listing[i]) then SizeIn(scene.source)(listing[i]) else 0
  {
    hide Accepts, SizeIn;
    var before := Candidates(scene.family, listing[..i]);
    assert listing[..i + 1][..i] == listing[..i];
    if Accepts(scene.family, listing[i]) {
      SumAppend(before, [listing[i]], SizeIn(scene.source));
      SumSingle(listing[i], SizeIn(scene.source));
    } else {
      assert before + [] == before;
    }
  }

  lemma {:induction false} SizesPrefix(scene: Scene, listing: seq<string>, i: nat)
    requires scene.Valid() && i <= |listing|
    ensures Candidates(scene.family, listing[..i]) <= Candidates(scene.family, listing)
    ensures Sum(Candidates(scene.family, listing[..i]), SizeIn(scene.source))
            <= Sum(Candidates(scene.family, listing), SizeIn(scene.source))
    decreases |listing|
  {
    hide Parse;
    if i == |listing| {
      assert listing[..i] == listing;
    } else {
      var before := listing[..|listing| - 1];
      var last := listing[|listing| - 1];
      SizesPrefix(scene, before, i);
      assert before[..i] == listing[..i];
      assert last in scene.source ==> Coherent(scene.source[last]);
      CandidatesStep(scene, listing, |listing| - 1);
      assert listing[..|listing| - 1 + 1] == listing;
    }
  }

  /** Read every entry of the directory within the budgets; any candidate that is
      not a readable regular file refuses the whole preview. */
  method ReadCandidates(scene: Scene, policy: Policy, listing: seq<string>) returns (names: Option<seq<string>>)
    requires scene.Valid() && scene.Listed(listing) && PolicyOk(policy)
    ensures names == if Previewable(scene, policy, listing) then Some(Candidates(scene.family, listing)) else None
  {
    hide Accepts, Coherent, Readable, Sum, Candidates;
    NoCandidates(scene);
    var budget := new Budget(MAX_ENTRIES, policy.maxHash);
    var found: seq<string> := [];
    for i := 0 to |listing|
      invariant found == Candidates(scene.family, listing[..i])
      invariant budget.remaining == MAX_ENTRIES - i >= 0
      invariant forall name :: name in found ==> Readable(scene.source, name)
      invariant budget.hashRemaining == policy.maxHash - Sum(found, SizeIn(scene.source)) >= 0
    {
      var name := listing[i];
      SizesPrefix(scene, listing, i + 1);
      CandidatesAre(scene.family, listing);
      CandidatesStep(scene, listing, i);
      var ok := budget.Visit();
      if !ok {
        return None;
      }
      if Accepts(scene.family, name) {
        if !Readable(scene.source, name) {
          return None;
        }
        ReadableSize(scene, name);
        ok := budget.Hash(scene.source[name].stamp.size);
        if !ok {
          return None;
        }
        found := found + [name];
      }
    }
    assert listing[..|listing|] == listing;
    names := Some(found);
  }

  lemma NoCandidates(scene: Scene)
    ensures Candidates(scene.family, []) == [] && Sum([], SizeIn(scene.source)) == 0
  {
  }

  lemma ReadableSize(scene: Scene, name: string)
    requires scene.Valid() && Readable(scene.source, name)
    ensures name in scene.source && scene.source[name].stamp.size >= 0
  {
    assert Coherent(scene.source[name]);
  }

  /** Give every ranked candidate its reasons to be retained. */
  method JudgeAll(scene: Scene, policy: Policy, now: int, ranked: seq<string>)
    returns (eligible: seq<Artifact>, retained: seq<Artifact>)
    requires AllReadable(scene, ranked)
    ensures eligible == Chosen(scene, policy, now, ranked, |ranked|, false)
    ensures retained == Chosen(scene, policy, now, ranked, |ranked|, true)
  {
    hide Reasons, Accepts, Readable;
    eligible, retained := [], [];
    for rank := 0 to |ranked|
      invariant eligible == Chosen(scene, policy, now, ranked, rank, false)
      invariant retained == Chosen(scene, policy, now, ranked, rank, true)
    {
      var item := Judge(scene, policy, now, rank, ranked[rank]);
      if item.reasons != [] {
        retained := retained + [item];
      } else {
        eligible := eligible + [item];
      }
    }
  }

  /** The preview as a function: a plan exactly when one is possible. */
  function BackupPreview(scene: Scene, policy: Policy, now: int, listing: seq<string>): Option<Plan> {
    if Previewable(scene, policy, listing) then
      RankedReadable(scene, policy, listing);
      Some(PlanOf(scene, policy, now, Ranked(scene.family, listing)))
    else None
  }

  lemma {:induction false} PreviewMeans(scene: Scene, policy: Policy, now: int, listing: seq<string>)
    requires scene.Valid() && scene.Listed(listing)
    ensures BackupPreview(scene, policy, now, listing).Some? <==> MayPreview(scene, policy, listing)
    ensures BackupPreview(scene, policy, now, listing).Some? ==>
              IsPlan(scene, policy, now, BackupPreview(scene, policy, now, listing).value)
  {
    hide Previewable, PlanOf, Ranked, AllReadable, IsPlan, MayPreview, Scene.Valid, Scene.Listed;
    PreviewableMeans(scene, policy, listing);
    if Previewable(scene, policy, listing) {
      RankedReadable(scene, policy, listing);
      PlanIsMeant(scene, policy, now, listing);
    }
  }

  /** The preview: read, rank, judge, and list both parts by name. */
  method BackupPlan(scene: Scene, policy: Policy, now: int, listing: seq<string>) returns (plan: Option<Plan>)
    requires scene.Valid() && scene.Listed(listing)
    ensures plan == BackupPreview(scene, policy, now, listing)
    ensures plan.Some? <==> MayPreview(scene, policy, listing)
    ensures plan.Some? ==> IsPlan(scene, policy, now, plan.value)
  {
    hide AllReadable, Chosen, NewerBackups, Candidates, Scene.Listed, Scene.Valid, IsPlan, MayPreview;
    PreviewMeans(scene, policy, now, listing);
    if !PolicyOk(policy) {
      return None;
    }
    var names := ReadCandidates(scene, policy, listing);
    if names.None? {
      return None;
    }
    var ranked := Order.Sort(names.value, NewestFirst(scene.family));
    RankedAre(scene, policy, listing);
    var eligible, retained := JudgeAll(scene, policy, now, ranked);
    plan := Some(Plan(true, scene.binding, policy.minAge, policy.keep, policy.maxHash, scene.claim,
                      Order.Sort(eligible, ByName), Order.Sort(retained, ByName)));
  }
}
