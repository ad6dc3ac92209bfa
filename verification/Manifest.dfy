/** The manifest check that every recovery repeats, and its agreement with the
    retention planner: what it accepts protects the newest backups whoever wrote
    it, and it accepts the planner's own output unless a file time does not fit.
 */
module Manifest {
  import opened Sql
  import opened Numbers
  import opened Artifacts
  import opened Generations
  import opened Retention
  import Order

  const ALLOWED_REASONS: seq<string> := ["newest_keep", "young", "snapshot_metadata_match", "companion_state"]
  const QUARANTINE_BACKUPS := "quarantine_rotated_backups"
  const QUARANTINE_STAGES := "quarantine_proactive_backup_stages"

  /** `seal` stands for the digest of the plan: it is the plan itself. */
  datatype Record = Record(backups: bool, operation: string, createdAt: int, plan: Plan, seal: Plan)

  predicate IsStageName(name: string) {
    StartsWith(name, STAGE_PREFIX) && |name| > |STAGE_PREFIX| && '/' !in name && '\0' !in name
  }

  predicate UnsignedIdentity(identity: Identity) {
    Unsigned(identity.device) && Unsigned(identity.inode)
  }

  predicate ReasonsOk(reasons: seq<string>) {
    && (forall k :: 0 <= k < |reasons| ==> reasons[k] in ALLOWED_REASONS)
    && (forall i, j :: 0 <= i < j < |reasons| ==> reasons[i] != reasons[j])
  }

  /** The recorded fingerprint of a backup is consistent with itself. */
  predicate FingerprintOk(a: Artifact) {
    var w := a.evidence;
    && a.backup && w.entries == 1 && w.file.Some? && w.content.Some?
    && var stamp := w.file.value;
       && UnsignedIdentity(IdentityOf(stamp)) && Unsigned(stamp.mode) && Unsigned(stamp.links)
       && Unsigned(stamp.size) && Unsigned(stamp.mtime)
       && IsRegular(stamp.mode) && stamp.links == 1
       && IdentityOf(stamp) == w.identity && stamp.size == w.bytes && stamp.mtime == w.newest
       && IsSha256(w.content.value) && w.tree == FileTree(stamp, w.content.value)
       && ReasonsOk(a.reasons)
  }

  predicate StageOk(scene: Scene, backups: bool, a: Artifact) {
    var w := a.evidence;
    && (if backups then Accepts(scene.family, a.name) && FingerprintOk(a)
        else IsStageName(a.name) && !a.backup && a.reasons == [] && w.file.None? && w.content.None?)
    && UnsignedIdentity(w.identity)
    && Unsigned(w.entries) && Unsigned(w.bytes) && Unsigned(w.newest) && w.entries != 0
    && scene.archiveChild != Some(a.name)
  }

  function Entries(): Artifact -> int {
    (a: Artifact) => a.evidence.entries
  }

  function Sizes(): Artifact -> int {
    (a: Artifact) => a.evidence.bytes
  }

  function NamesOf(artifacts: seq<Artifact>): (names: seq<string>)
    ensures |names| == |artifacts|
    ensures forall k :: 0 <= k < |names| ==> names[k] == artifacts[k].name
  {
    if artifacts == [] then [] else NamesOf(artifacts[..|artifacts| - 1]) + [artifacts[|artifacts| - 1].name]
  }

  predicate HeaderOk(scene: Scene, m: Record) {
    && m.operation == (if m.backups then QUARANTINE_BACKUPS else QUARANTINE_STAGES)
    && m.plan.backups == m.backups && m.plan.binding == scene.binding
    && Unsigned(m.plan.minAge)
    && (m.backups ==> 1 <= m.plan.keep <= MAX_ENTRIES && 0 < m.plan.maxHash <= MAX_BYTES)
    && |m.plan.eligible + m.plan.retained| <= MAX_ENTRIES
  }

  function ByteLimit(m: Record): int {
    if m.backups && m.plan.maxHash < MAX_BYTES then m.plan.maxHash else MAX_BYTES
  }

  ghost predicate StagesOk(scene: Scene, m: Record) {
    var stages := m.plan.eligible + m.plan.retained;
    && (forall a :: a in stages ==> StageOk(scene, m.backups, a))
    && DistinctNames(stages)
    && Sum(stages, Entries()) <= MAX_ENTRIES
    && Sum(stages, Sizes()) <= ByteLimit(m)
  }

  /** The newest `keep` of the recorded names. */
  function MustKeep(family: Family, names: seq<string>, keep: int): seq<string>
    requires keep >= 0
  {
    var newest := Order.Sort(names, NewestFirst(family));
    if keep <= |newest| then newest[..keep] else newest
  }

  predicate Allowed(scene: Scene, m: Record, a: Artifact)
    requires m.plan.keep >= 0
  {
    && a.name !in MustKeep(scene.family, NamesOf(m.plan.eligible + m.plan.retained), m.plan.keep)
    && a.reasons == [] && !MatchesClaim(a.evidence, m.plan.claim)
    && m.createdAt - a.evidence.newest >= m.plan.minAge * NANOSECONDS
  }

  ghost predicate Accepted(scene: Scene, m: Record) {
    && HeaderOk(scene, m) && StagesOk(scene, m) && m.seal == m.plan
    && (m.backups ==>
          && m.createdAt >= 0 && scene.claim == m.plan.claim
          && forall a :: a in m.plan.eligible ==> Allowed(scene, m, a))
  }

  // ----- the check itself

  lemma {:induction false} SumsPrefix(scene: Scene, backups: bool, stages: seq<Artifact>, i: nat)
    requires i <= |stages|
    requires forall a :: a in stages ==> StageOk(scene, backups, a)
    ensures 0 <= Sum(stages[..i], Entries()) <= Sum(stages, Entries())
    ensures 0 <= Sum(stages[..i], Sizes()) <= Sum(stages, Sizes())
    decreases |stages|
  {
    hide Accepts, FingerprintOk, IsStageName;
    if i == |stages| {
      assert stages[..i] == stages;
      if stages != [] {
        assert stages[|stages| - 1] in stages;
        SumsPrefix(scene, backups, stages[..i - 1], i - 1);
      }
    } else {
      assert stages[|stages| - 1] in stages;
      SumsPrefix(scene, backups, stages[..|stages| - 1], i);
      assert stages[..|stages| - 1][..i] == stages[..i];
    }
  }

  /** The names of the first `i` entries, all different. */
  ghost predicate Gathered(stages: seq<Artifact>, i: nat, names: set<string>)
    requires i <= |stages|
  {
    && (forall k :: 0 <= k < i ==> stages[k].name in names)
    && (forall name :: name in names ==> exists k :: 0 <= k < i && stages[k].name == name)
    && DistinctNames(stages[..i])
  }

  lemma {:induction false} GatheredNext(stages: seq<Artifact>, i: nat, names: set<string>)
    requires i < |stages| && Gathered(stages, i, names)
    ensures stages[i].name in names ==> !DistinctNames(stages)
    ensures stages[i].name !in names ==> Gathered(stages, i + 1, names + {stages[i].name})
  {
    if stages[i].name in names {
      var k :| 0 <= k < i && stages[k].name == stages[i].name;
    } else {
      forall name | name in names + {stages[i].name} ensures exists k :: 0 <= k < i + 1 && stages[k].name == name {
        assert name == stages[i].name || name in names;
      }
    }
  }

  lemma NothingGathered(stages: seq<Artifact>)
    ensures Gathered(stages, 0, {})
  {
  }

  lemma AllGathered(stages: seq<Artifact>, names: set<string>)
    requires Gathered(stages, |stages|, names)
    ensures DistinctNames(stages)
  {
    assert stages[..|stages|] == stages;
  }

  /** The recorded stages one by one, with running totals. */
  method CheckStages(scene: Scene, m: Record) returns (ok: bool)
    requires HeaderOk(scene, m)
    ensures ok <==> StagesOk(scene, m)
  {
    hide StageOk, Sum, HeaderOk, ByteLimit, Gathered, DistinctNames;
    var stages := m.plan.eligible + m.plan.retained;
    var names: set<string> := {};
    var totalEntries, totalBytes := 0, 0;
    SumNothing();
    SomeBytesAllowed(scene, m);
    NothingGathered(stages);
    for i := 0 to |stages|
      invariant forall k :: 0 <= k < i ==> StageOk(scene, m.backups, stages[k])
      invariant Gathered(stages, i, names)
      invariant totalEntries == Sum(stages[..i], Entries()) <= MAX_ENTRIES
      invariant totalBytes == Sum(stages[..i], Sizes()) <= ByteLimit(m)
    {
      var a := stages[i];
      GatheredNext(stages, i, names);
      if !StageOk(scene, m.backups, a) || a.name in names {
        return false;
      }
      names := names + {a.name};
      SumNext(stages, i, Entries());
      SumNext(stages, i, Sizes());
      totalEntries := totalEntries + a.evidence.entries;
      totalBytes := totalBytes + a.evidence.bytes;
      if totalEntries > MAX_ENTRIES || totalBytes > ByteLimit(m) {
        if forall b :: b in stages ==> StageOk(scene, m.backups, b) {
          SumsPrefix(scene, m.backups, stages, i + 1);
        }
        return false;
      }
    }
    AllGathered(stages, names);
    assert stages[..|stages|] == stages;
    ok := true;
  }

  lemma SomeBytesAllowed(scene: Scene, m: Record)
    requires HeaderOk(scene, m)
    ensures ByteLimit(m) >= 0
  {
  }

  lemma SumNothing()
    ensures Sum([], Entries()) == 0 && Sum([], Sizes()) == 0
  {
  }

  method ValidateManifest(scene: Scene, m: Record) returns (ok: bool)
    ensures ok <==> Accepted(scene, m)
    ensures ok <==> IsAcceptable(scene, m)
  {
    AcceptedMeans(scene, m);
    hide StagesOk, Allowed, IsAcceptable;
    if !HeaderOk(scene, m) {
      return false;
    }
    ok := CheckStages(scene, m);
    if !ok || m.seal != m.plan {
      return false;
    }
    if m.backups {
      if m.createdAt < 0 || scene.claim != m.plan.claim {
        return false;
      }
      for i := 0 to |m.plan.eligible|
        invariant forall k :: 0 <= k < i ==> Allowed(scene, m, m.plan.eligible[k])
      {
        if !Allowed(scene, m, m.plan.eligible[i]) {
          return false;
        }
      }
    }
    ok := true;
  }

  // ----- what acceptance guarantees

  lemma {:induction false} KeptAreNewest(family: Family, names: seq<string>, keep: nat, name: string)
    requires Distinct(names) && forall n :: n in names ==> Accepts(family, n)
    requires name in names
    ensures name in MustKeep(family, names, keep) <==> |Newer(family, names, name)| < keep
  {
    hide Accepts, NewerName, Order.Sort;
    var newest := Order.Sort(names, NewestFirst(family));
    Order.SortMembers(names, NewestFirst(family));
    var k :| 0 <= k < |newest| && newest[k] == name;
    RankIsNewer(family, names, k);
    if k < keep {
      assert MustKeep(family, names, keep)[k] == name;
    } else {
      assert forall i :: 0 <= i < keep ==> newest[i] != newest[k];
    }
  }

  /** Any accepted manifest, whoever wrote it: every selected backup has at least
      `keep` newer recorded ones, is not the one bound by the current metadata,
      and is old enough. */
  lemma {:induction false} AcceptedProtects(scene: Scene, m: Record)
    requires Accepted(scene, m) && m.backups
    ensures var names := NamesOf(m.plan.eligible + m.plan.retained);
            forall a :: a in m.plan.eligible ==>
              && |Newer(scene.family, names, a.name)| >= m.plan.keep >= 1
              && a.reasons == []
              && (scene.claim.Some? ==>
                    a.evidence.bytes != scene.claim.value.size || a.evidence.content != Some(scene.claim.value.sha))
              && m.createdAt - a.evidence.newest >= m.plan.minAge * 1_000_000_000
  {
    hide Accepts, NewerName, MustKeep, FingerprintOk;
    var stages := m.plan.eligible + m.plan.retained;
    var names := NamesOf(stages);
    forall n | n in names ensures Accepts(scene.family, n) {
      var k :| 0 <= k < |names| && names[k] == n;
      assert stages[k] in stages;
    }
    forall a | a in m.plan.eligible ensures |Newer(scene.family, names, a.name)| >= m.plan.keep {
      assert Allowed(scene, m, a);
      var k :| 0 <= k < |m.plan.eligible| && m.plan.eligible[k] == a;
      assert names[k] == a.name;
      KeptAreNewest(scene.family, names, m.plan.keep, a.name);
    }
  }

  // ----- acceptance in words

  /** A 64-bit unsigned number. */
  ghost predicate Fits(n: int) {
    0 <= n <= 0xffff_ffff_ffff_ffff
  }

  ghost predicate HexText(text: string) {
    |text| == 64 && forall k :: 0 <= k < |text| ==> text[k] in "0123456789abcdef"
  }

  /** One regular file with one link, all numbers unsigned, and the summary agreeing
      with the file's own stamp and checksum. */
  ghost predicate IsFingerprint(w: Witness) {
    && w.file.Some? && w.content.Some?
    && var stamp := w.file.value;
       && Fits(stamp.device) && Fits(stamp.inode) && Fits(stamp.mode) && Fits(stamp.size) && Fits(stamp.mtime)
       && IsRegular(stamp.mode) && stamp.links == 1 && HexText(w.content.value)
       && w == Witness(Identity(stamp.device, stamp.inode), 1, stamp.size, stamp.mtime, w.file, w.content,
                       FileTree(stamp, w.content.value))
  }

  /** At most the four reasons, each at most once. */
  ghost predicate FourAtMost(reasons: seq<string>) {
    && (forall r :: r in reasons ==>
          r == "newest_keep" || r == "young" || r == "snapshot_metadata_match" || r == "companion_state")
    && forall i, j :: 0 <= i < |reasons| && 0 <= j < |reasons| && reasons[i] == reasons[j] ==> i == j
  }

  ghost predicate IsStage(name: string) {
    exists rest :: name == ".mcp-agent-mail-proactive-backup-" + rest && rest != "" && '/' !in rest && '\0' !in rest
  }

  ghost predicate IsBackup(family: Family, name: string) {
    exists timestamp, sequence: nat :: IsBackupName(family, name, timestamp, sequence)
  }

  ghost predicate IsEntry(scene: Scene, backups: bool, a: Artifact) {
    var w := a.evidence;
    && a.backup == backups
    && (if backups then IsBackup(scene.family, a.name) && IsFingerprint(w) && FourAtMost(a.reasons)
        else IsStage(a.name) && a.reasons == [] && w.file.None? && w.content.None?)
    && Fits(w.identity.device) && Fits(w.identity.inode) && Fits(w.bytes) && Fits(w.newest)
    && 1 <= w.entries <= 0xffff_ffff_ffff_ffff
    && scene.archiveChild != Some(a.name)
  }

  /** Enough newer recorded backups, old enough when recorded, and not the snapshot
      that the current metadata claims. */
  ghost predicate MayGo(scene: Scene, m: Record, a: Artifact) {
    && a.reasons == []
    && |Newer(scene.family, NamesOf(m.plan.eligible + m.plan.retained), a.name)| >= m.plan.keep
    && m.createdAt - a.evidence.newest >= m.plan.minAge * 1_000_000_000
    && (scene.claim.Some? ==>
          a.evidence.bytes != scene.claim.value.size || a.evidence.content != Some(scene.claim.value.sha))
  }

  /** In words: a sealed record of this mailbox, with sensible limits that its distinct
      entries respect, that moves backups only under the mailbox's present claim. */
  ghost predicate IsAcceptable(scene: Scene, m: Record) {
    var stages := m.plan.eligible + m.plan.retained;
    && m.operation == (if m.backups then "quarantine_rotated_backups" else "quarantine_proactive_backup_stages")
    && m.plan.backups == m.backups && m.plan.binding == scene.binding && m.seal == m.plan
    && 0 <= m.plan.minAge <= 0xffff_ffff_ffff_ffff && |stages| <= 16_384
    && DistinctNames(stages) && (forall a :: a in stages ==> IsEntry(scene, m.backups, a))
    && Sum(stages, (a: Artifact) => a.evidence.entries) <= 16_384
    && Sum(stages, (a: Artifact) => a.evidence.bytes) <= 0xffff_ffff_ffff_ffff
    && (m.backups ==>
          && 1 <= m.plan.keep <= 16_384 && 1 <= m.plan.maxHash <= 0xffff_ffff_ffff_ffff
          && Sum(stages, (a: Artifact) => a.evidence.bytes) <= m.plan.maxHash
          && m.createdAt >= 0 && m.plan.claim == scene.claim
          && forall a :: a in m.plan.eligible ==> MayGo(scene, m, a))
  }

  lemma {:induction false} FingerprintMeans(a: Artifact)
    ensures FingerprintOk(a) <==> a.backup && IsFingerprint(a.evidence) && FourAtMost(a.reasons)
  {
    hide IsRegular;
    ReasonsMeanFour(a.reasons);
    if a.evidence.content.Some? {
      HexMeans(a.evidence.content.value);
    }
  }

  lemma {:induction false} ReasonsMeanFour(reasons: seq<string>)
    ensures ReasonsOk(reasons) <==> FourAtMost(reasons)
  {
    assert ALLOWED_REASONS[0] == "newest_keep" && ALLOWED_REASONS[1] == "young";
    assert ALLOWED_REASONS[2] == "snapshot_metadata_match" && ALLOWED_REASONS[3] == "companion_state";
    assert forall r :: r in ALLOWED_REASONS <==>
             r == "newest_keep" || r == "young" || r == "snapshot_metadata_match" || r == "companion_state";
    if ReasonsOk(reasons) {
      forall i, j | 0 <= i < |reasons| && 0 <= j < |reasons| && reasons[i] == reasons[j] ensures i == j {
        assert !(i < j) && !(j < i);
      }
      forall r | r in reasons ensures r in ALLOWED_REASONS {
        var k :| 0 <= k < |reasons| && reasons[k] == r;
      }
    } else if FourAtMost(reasons) {
      assert forall k :: 0 <= k < |reasons| ==> reasons[k] in reasons;
    }
  }

  lemma {:induction false} HexMeans(text: string)
    ensures IsSha256(text) <==> HexText(text)
  {
    HexDigits();
  }

  lemma HexDigits()
    ensures forall c: char :: c in "0123456789abcdef" <==> '0' <= c <= '9' || 'a' <= c <= 'f'
  {
    var digits := "0123456789abcdef";
    forall c: char | '0' <= c <= '9' || 'a' <= c <= 'f' ensures c in digits {
      assert c == if c <= '9' then digits[c as int - '0' as int] else digits[10 + (c as int - 'a' as int)];
    }
  }

  /** Reading a text that starts with `prefix`. */
  lemma Splits(name: string, prefix: string, c: char)
    requires c !in prefix
    ensures StartsWith(name, prefix) <==> exists rest :: name == prefix + rest
    ensures forall rest :: name == prefix + rest ==> (c in name <==> c in rest) && rest == name[|prefix|..]
  {
    if StartsWith(name, prefix) {
      assert name == prefix + name[|prefix|..];
    }
  }

  lemma PrefixCharacters()
    ensures STAGE_PREFIX == ".mcp-agent-mail-proactive-backup-" && '/' !in STAGE_PREFIX && '\0' !in STAGE_PREFIX
  {
  }

  lemma {:induction false} StageMeans(name: string)
    ensures IsStageName(name) <==> IsStage(name)
  {
    hide STAGE_PREFIX, StartsWith;
    PrefixCharacters();
    Splits(name, STAGE_PREFIX, '/');
    Splits(name, STAGE_PREFIX, '\0');
  }

  lemma {:induction false} BackupMeans(family: Family, name: string)
    ensures Accepts(family, name) <==> IsBackup(family, name)
  {
    hide Parse, IsBackupName;
    if Accepts(family, name) {
      NameMeans(family, name, Parse(family, name).value);
    }
    if IsBackup(family, name) {
      var timestamp, sequence: nat :| IsBackupName(family, name, timestamp, sequence);
      NameMeans(family, name, Generation(timestamp, sequence));
    }
  }

  lemma {:induction false} EntryMeans(scene: Scene, backups: bool, a: Artifact)
    ensures StageOk(scene, backups, a) <==> IsEntry(scene, backups, a)
  {
    hide Accepts, IsBackup, IsStage, IsStageName, FingerprintOk, FourAtMost;
    BackupMeans(scene.family, a.name);
    StageMeans(a.name);
    FingerprintMeans(a);
  }

  lemma {:induction false} AllowedMeans(scene: Scene, m: Record, a: Artifact)
    requires StagesOk(scene, m) && m.backups && m.plan.keep >= 1 && a in m.plan.eligible && m.plan.claim == scene.claim
    ensures Allowed(scene, m, a) <==> MayGo(scene, m, a)
  {
    hide Accepts, MustKeep, FingerprintOk, NewerName, Sum;
    var stages := m.plan.eligible + m.plan.retained;
    var names := NamesOf(stages);
    forall n | n in names ensures Accepts(scene.family, n) {
      var k :| 0 <= k < |names| && names[k] == n;
      assert stages[k] in stages;
    }
    var k :| 0 <= k < |m.plan.eligible| && m.plan.eligible[k] == a;
    assert names[k] == a.name;
    KeptAreNewest(scene.family, names, m.plan.keep, a.name);
  }

  lemma {:induction false} HeaderMeans(m: Record)
    ensures QUARANTINE_BACKUPS == "quarantine_rotated_backups"
    ensures QUARANTINE_STAGES == "quarantine_proactive_backup_stages"
    ensures Entries() == ((a: Artifact) => a.evidence.entries) && Sizes() == ((a: Artifact) => a.evidence.bytes)
  {
  }

  /** The check accepts a record exactly when it is such a one. */
  lemma {:induction false} AcceptedMeans(scene: Scene, m: Record)
    ensures Accepted(scene, m) <==> IsAcceptable(scene, m)
  {
    hide StageOk, IsEntry, Sum, DistinctNames, Allowed, MayGo;
    var stages := m.plan.eligible + m.plan.retained;
    forall a ensures StageOk(scene, m.backups, a) <==> IsEntry(scene, m.backups, a) {
      EntryMeans(scene, m.backups, a);
    }
    HeaderMeans(m);
    if StagesOk(scene, m) && m.backups && m.plan.keep >= 1 && m.plan.claim == scene.claim {
      forall a | a in m.plan.eligible ensures Allowed(scene, m, a) <==> MayGo(scene, m, a) {
        AllowedMeans(scene, m, a);
      }
    }
  }

  // ----- agreement with the planner

  lemma {:induction false} ChosenStep(scene: Scene, policy: Policy, now: int, ranked: seq<string>, n: nat)
    requires 0 < n <= |ranked| && AllReadable(scene, ranked)
    ensures var a := Judge(scene, policy, now, n - 1, ranked[n - 1]);
            var retained := a.reasons != [];
            && Chosen(scene, policy, now, ranked, n, retained)
               == Chosen(scene, policy, now, ranked, n - 1, retained) + [a]
            && Chosen(scene, policy, now, ranked, n, !retained) == Chosen(scene, policy, now, ranked, n - 1, !retained)
  {
    hide Reasons, Accepts, Readable;
    var a := Judge(scene, policy, now, n - 1, ranked[n - 1]);
    var other := Chosen(scene, policy, now, ranked, n - 1, a.reasons == []);
    assert other + [] == other;
  }

  /** Splitting the ranked candidates loses and adds nothing. */
  lemma {:induction false} ChosenSum(scene: Scene, policy: Policy, now: int, ranked: seq<string>, n: nat,
                                     weight: Artifact -> int, value: string -> int)
    requires n <= |ranked| && AllReadable(scene, ranked)
    requires forall k :: 0 <= k < n ==> weight(Judge(scene, policy, now, k, ranked[k])) == value(ranked[k])
    ensures Sum(Chosen(scene, policy, now, ranked, n, false), weight)
            + Sum(Chosen(scene, policy, now, ranked, n, true), weight)
            == Sum(ranked[..n], value)
    decreases n
  {
    hide Chosen, Sum, Judge;
    if n == 0 {
      NothingChosen(scene, policy, now, ranked, weight, value);
    } else {
      var a := Judge(scene, policy, now, n - 1, ranked[n - 1]);
      ChosenStep(scene, policy, now, ranked, n);
      ChosenSum(scene, policy, now, ranked, n - 1, weight, value);
      SumAppend(Chosen(scene, policy, now, ranked, n - 1, a.reasons != []), [a], weight);
      SumSingle(a, weight);
      SumNext(ranked, n - 1, value);
    }
  }

  lemma NothingChosen(scene: Scene, policy: Policy, now: int, ranked: seq<string>, weight: Artifact -> int,
                      value: string -> int)
    requires AllReadable(scene, ranked)
    ensures Sum(Chosen(scene, policy, now, ranked, 0, false), weight) == 0
    ensures Sum(Chosen(scene, policy, now, ranked, 0, true), weight) == 0
    ensures Sum(ranked[..0], value) == 0
  {
  }

  function One(): string -> int {
    (name: string) => 1
  }

  lemma {:induction false} SumOfOnes(names: seq<string>)
    ensures Sum(names, One()) == |names|
  {
    if names != [] {
      SumOfOnes(names[..|names| - 1]);
    }
  }

  lemma {:induction false} PlanSums(scene: Scene, policy: Policy, now: int, listing: seq<string>)
    requires scene.Valid() && scene.Listed(listing) && Previewable(scene, policy, listing)
    requires AllReadable(scene, Ranked(scene.family, listing))
    ensures var plan := PlanOf(scene, policy, now, Ranked(scene.family, listing));
            var stages := plan.eligible + plan.retained;
            && Sum(stages, Entries()) == |Candidates(scene.family, listing)|
            && Sum(stages, Sizes()) == Sum(Candidates(scene.family, listing), SizeIn(scene.source))
  {
    hide Reasons, Accepts, Sum, Order.Sort, Chosen;
    var ranked := Ranked(scene.family, listing);
    var names := Candidates(scene.family, listing);
    forall k | 0 <= k < |ranked|
      ensures var a := Judge(scene, policy, now, k, ranked[k]);
              Entries()(a) == One()(ranked[k]) && Sizes()(a) == SizeIn(scene.source)(ranked[k])
    {
      assert ranked[k] in ranked;
      assert Coherent(scene.source[ranked[k]]);
    }
    ChosenSum(scene, policy, now, ranked, |ranked|, Entries(), One());
    ChosenSum(scene, policy, now, ranked, |ranked|, Sizes(), SizeIn(scene.source));
    assert ranked[..|ranked|] == ranked;
    SumSort(names, NewestFirst(scene.family), One());
    SumSort(names, NewestFirst(scene.family), SizeIn(scene.source));
    SumOfOnes(names);
    PlanSum(scene, policy, now, ranked, Entries());
    PlanSum(scene, policy, now, ranked, Sizes());
  }

  lemma {:induction false} PlanSum(scene: Scene, policy: Policy, now: int, ranked: seq<string>, weight: Artifact -> int)
    requires AllReadable(scene, ranked)
    ensures var plan := PlanOf(scene, policy, now, ranked);
            Sum(plan.eligible + plan.retained, weight)
            == Sum(Chosen(scene, policy, now, ranked, |ranked|, false), weight)
               + Sum(Chosen(scene, policy, now, ranked, |ranked|, true), weight)
  {
    hide Chosen, AllReadable;
    var plan := PlanOf(scene, policy, now, ranked);
    SumAppend(plan.eligible, plan.retained, weight);
    SumSort(Chosen(scene, policy, now, ranked, |ranked|, false), ByName, weight);
    SumSort(Chosen(scene, policy, now, ranked, |ranked|, true), ByName, weight);
  }

  /** The time of a file fits the manifest's unsigned 64-bit fields. */
  predicate TimeFits(scene: Scene, name: string) {
    name in scene.source && Unsigned(scene.source[name].stamp.mtime)
  }

  lemma {:induction false} DescribedIsOk(scene: Scene, a: Artifact)
    requires scene.Valid() && Describes(scene, a) && ReasonsOk(a.reasons)
    ensures StageOk(scene, true, a) <==> TimeFits(scene, a.name)
  {
    hide Accepts, IsSha256, ReasonsOk;
    assert Coherent(scene.source[a.name]);
  }

  lemma {:induction false} ReasonsAllowed(scene: Scene, policy: Policy, now: int, rank: nat, name: string)
    requires Readable(scene.source, name)
    ensures ReasonsOk(Reasons(scene, policy, now, rank, name))
  {
    hide HasCompanion, MatchesClaim;
    var w := scene.source[name].evidence.value;
    ReasonsOnce(rank < policy.keep, now - w.newest < policy.minAge * NANOSECONDS, MatchesClaim(w, scene.claim),
                HasCompanion(scene.source, scene.family.database, name));
  }

  lemma {:induction false} ReasonsOnce(a: bool, b: bool, c: bool, d: bool)
    ensures ReasonsOk((if a then ["newest_keep"] else []) + (if b then ["young"] else [])
                      + (if c then ["snapshot_metadata_match"] else []) + (if d then ["companion_state"] else []))
  {
    assert ALLOWED_REASONS[0] == "newest_keep" && ALLOWED_REASONS[1] == "young";
    assert ALLOWED_REASONS[2] == "snapshot_metadata_match" && ALLOWED_REASONS[3] == "companion_state";
    assert "newest_keep"[0] == 'n' && "young"[0] == 'y' && "snapshot_metadata_match"[0] == 's'
           && "companion_state"[0] == 'c';
  }

  ghost predicate AllTimesFit(scene: Scene) {
    forall name :: Candidate(scene, name) ==> TimeFits(scene, name)
  }

  lemma {:induction false} PlanEntriesOk(scene: Scene, policy: Policy, now: int, listing: seq<string>, a: Artifact)
    requires scene.Valid() && scene.Listed(listing) && Previewable(scene, policy, listing)
    requires AllReadable(scene, Ranked(scene.family, listing))
    requires var plan := PlanOf(scene, policy, now, Ranked(scene.family, listing)); a in plan.eligible + plan.retained
    ensures Describes(scene, a) && ReasonsOk(a.reasons)
  {
    hide Order.Sort, Accepts, Readable, Reasons, Ranked;
    var ranked := Ranked(scene.family, listing);
    PlanSelects(scene, policy, now, listing);
    RankedAre(scene, policy, listing);
    forall retained: bool ensures DistinctNames(Chosen(scene, policy, now, ranked, |ranked|, retained)) {
      ChosenAre(scene, policy, now, ranked, |ranked|, retained);
    }
    var retained := a.reasons != [];
    SortByName(Chosen(scene, policy, now, ranked, |ranked|, false));
    SortByName(Chosen(scene, policy, now, ranked, |ranked|, true));
    ChosenAre(scene, policy, now, ranked, |ranked|, retained);
    var k :| 0 <= k < |ranked| && a == Judge(scene, policy, now, k, ranked[k]);
    ReasonsAllowed(scene, policy, now, k, ranked[k]);
  }

  /** A surplus backup of the preview is not among those the check must keep. */
  lemma {:induction false} SurplusAllowed(scene: Scene, policy: Policy, now: int, listing: seq<string>, m: Record,
                                          a: Artifact)
    requires scene.Valid() && scene.Listed(listing) && Previewable(scene, policy, listing)
    requires AllReadable(scene, Ranked(scene.family, listing))
    requires m.plan == PlanOf(scene, policy, now, Ranked(scene.family, listing)) && m.createdAt >= now
    requires a in m.plan.eligible
    ensures Allowed(scene, m, a)
  {
    hide Order.Sort, Readable, Ranked, NewerName, MustKeep, MatchesClaim, HasCompanion;
    PlanSelects(scene, policy, now, listing);
    var stages := m.plan.eligible + m.plan.retained;
    var names := NamesOf(stages);
    assert Names(m.plan.eligible, a.name);
    assert Describes(scene, a) && Coherent(scene.source[a.name]);
    forall n ensures n in names <==> Candidate(scene, n) {
      NamesAreCandidates(scene, m.plan, n);
    }
    assert NewerBackups(scene, a.name) == Newer(scene.family, names, a.name);
    KeptAreNewest(scene.family, names, m.plan.keep, a.name);
  }

  lemma {:induction false} NamesAreCandidates(scene: Scene, plan: Plan, n: string)
    requires forall a :: a in plan.eligible + plan.retained ==> Describes(scene, a)
    requires Candidate(scene, n) ==> Names(plan.eligible, n) || Names(plan.retained, n)
    ensures n in NamesOf(plan.eligible + plan.retained) <==> Candidate(scene, n)
  {
    hide Accepts;
    var stages := plan.eligible + plan.retained;
    var names := NamesOf(stages);
    if n in names {
      var k :| 0 <= k < |names| && names[k] == n;
      assert stages[k] in stages;
    }
    if Candidate(scene, n) {
      var a :| a in stages && a.name == n;
      var k :| 0 <= k < |stages| && stages[k] == a;
      assert names[k] == n;
    }
  }

  /** With everything else in order, acceptance is down to the single entries. */
  lemma {:induction false} DownToEntries(scene: Scene, m: Record)
    requires m.backups && HeaderOk(scene, m) && m.seal == m.plan && m.createdAt >= 0 && m.plan.claim == scene.claim
    requires forall a :: a in m.plan.eligible ==> Allowed(scene, m, a)
    requires var stages := m.plan.eligible + m.plan.retained;
             DistinctNames(stages) && Sum(stages, Entries()) <= MAX_ENTRIES && Sum(stages, Sizes()) <= ByteLimit(m)
    ensures Accepted(scene, m) <==> forall a :: a in m.plan.eligible + m.plan.retained ==> StageOk(scene, true, a)
  {
    hide HeaderOk, Allowed, StageOk, Sum;
  }

  lemma {:induction false} PlanHeaderOk(scene: Scene, policy: Policy, now: int, createdAt: int, ranked: seq<string>)
    requires AllReadable(scene, ranked) && PolicyOk(policy)
    requires var plan := PlanOf(scene, policy, now, ranked); |plan.eligible + plan.retained| <= MAX_ENTRIES
    ensures var plan := PlanOf(scene, policy, now, ranked);
            var m := Record(true, QUARANTINE_BACKUPS, createdAt, plan, plan);
            HeaderOk(scene, m) && ByteLimit(m) == policy.maxHash
  {
    hide AllReadable, Chosen, Order.Sort;
  }

  /** The planner's output passes the independent check, under a clock that does
      not go back and an unchanged mailbox, exactly when every candidate's time
      is neither negative nor beyond 64 bits. */
  lemma {:induction false} PlanPassesCheck(scene: Scene, policy: Policy, now: int, createdAt: int, listing: seq<string>)
    requires scene.Valid() && scene.Listed(listing) && Previewable(scene, policy, listing)
    requires createdAt >= 0 && createdAt >= now
    ensures AllReadable(scene, Ranked(scene.family, listing))
    ensures var plan := PlanOf(scene, policy, now, Ranked(scene.family, listing));
            Accepted(scene, Record(true, QUARANTINE_BACKUPS, createdAt, plan, plan)) <==> AllTimesFit(scene)
  {
    hide Order.Sort, Readable, Ranked, Allowed, StageOk, Surplus, Coherent, Accepts, Sum, Accepted, HeaderOk, ByteLimit,
         Order.Increasing, Matches, Describes, TimeFits, AllTimesFit, Names, Candidate;
    RankedAre(scene, policy, listing);
    PlanSelects(scene, policy, now, listing);
    PlanSums(scene, policy, now, listing);
    CandidatesAre(scene.family, listing);
    var plan := PlanOf(scene, policy, now, Ranked(scene.family, listing));
    var m := Record(true, QUARANTINE_BACKUPS, createdAt, plan, plan);
    var stages := plan.eligible + plan.retained;
    forall a | a in plan.eligible ensures Allowed(scene, m, a) {
      SurplusAllowed(scene, policy, now, listing, m, a);
    }
    forall a | a in stages ensures StageOk(scene, true, a) <==> TimeFits(scene, a.name) {
      PlanEntriesOk(scene, policy, now, listing, a);
      DescribedIsOk(scene, a);
    }
    StagesFit(scene, plan);
    StageCount(scene, stages);
    PlanHeaderOk(scene, policy, now, createdAt, Ranked(scene.family, listing));
    DownToEntries(scene, m);
  }

  lemma {:induction false} StageCount(scene: Scene, stages: seq<Artifact>)
    requires scene.Valid() && forall a :: a in stages ==> Describes(scene, a)
    ensures Sum(stages, Entries()) == |stages|
  {
    hide Accepts;
    if stages != [] {
      var a := stages[|stages| - 1];
      assert Describes(scene, a) && Coherent(scene.source[a.name]);
      StageCount(scene, stages[..|stages| - 1]);
    }
  }

  lemma {:induction false} StagesFit(scene: Scene, plan: Plan)
    requires forall a :: a in plan.eligible + plan.retained ==> Describes(scene, a)
    requires forall n :: Candidate(scene, n) ==> Names(plan.eligible, n) || Names(plan.retained, n)
    ensures (forall a :: a in plan.eligible + plan.retained ==> TimeFits(scene, a.name)) <==> AllTimesFit(scene)
  {
    hide Accepts;
    var stages := plan.eligible + plan.retained;
    if forall a :: a in stages ==> TimeFits(scene, a.name) {
      forall n | Candidate(scene, n) ensures TimeFits(scene, n) {
        var a :| a in stages && a.name == n;
      }
    }
    if AllTimesFit(scene) {
      forall a | a in stages ensures TimeFits(scene, a.name) {
        assert Describes(scene, a);
        assert Candidate(scene, a.name);
      }
    }
  }

  // ----- what the check does not look at

  /** Acceptance is about the mailbox and the record, not about what the
      directory holds now. */
  lemma {:induction false} AcceptedIgnoresSource(scene: Scene, other: Directory, m: Record)
    ensures Accepted(scene, m) == Accepted(scene.(source := other), m)
  {
    hide FingerprintOk, Accepts, IsStageName, MustKeep, MatchesClaim, Sum;
    forall a ensures StageOk(scene, m.backups, a) == StageOk(scene.(source := other), m.backups, a) {
    }
  }

  // ----- companions are never planned

  lemma CompanionStarts(c: string)
    requires c in COMPANIONS
    ensures |c| >= 2 && (c[0] == '-' || c[0] == '.') && !IsDigit(c[1]) && (c[0] == '.' ==> c[1] != 'b')
  {
  }

  /** What follows the prefix of an accepted name. */
  lemma AcceptedShape(family: Family, name: string)
    requires Accepts(family, name)
    ensures StartsWith(name, Prefix(family))
    ensures var rest := name[|Prefix(family)|..];
            |rest| == 15 || (|rest| > 15 && rest[15] == '-' && AllDigits(rest[16..]))
  {
    hide IsTimestamp, TwoDigits, ParseDigits, AllDigits;
  }

  lemma RefusedShape(family: Family, name: string)
    requires StartsWith(name, Prefix(family))
    requires var rest := name[|Prefix(family)|..];
             |rest| > 15 && (rest[15] != '-' || !AllDigits(rest[16..]))
    ensures !Accepts(family, name)
  {
    hide IsTimestamp, TwoDigits, ParseDigits, AllDigits;
  }

  lemma {:induction false} LongerNameRefused(family: Family, name: string, c: string)
    requires Accepts(family, name) && c in COMPANIONS
    ensures !Accepts(family, name + c)
  {
    hide Parse, Prefix;
    CompanionStarts(c);
    AcceptedShape(family, name);
    var n := |Prefix(family)|;
    var rest := name[n..];
    assert (name + c)[n..] == rest + c;
    assert (name + c)[..n] == name[..n];
    if |rest| == 15 {
      assert (rest + c)[16..][0] == c[1];
    } else {
      assert (rest + c)[16..][|rest| - 16] == c[0];
    }
    RefusedShape(family, name + c);
  }

  lemma {:induction false} InnerNameRefused(family: Family, c: string, suffix: string)
    requires c in COMPANIONS
    ensures !Accepts(family, family.database + c + suffix)
  {
    CompanionStarts(c);
    var name := family.database + c + suffix;
    var n := |family.database|;
    assert name[n] == c[0] && name[n + 1] == c[1];
    assert Prefix(family)[n] == '.' && Prefix(family)[n + 1] == 'b';
    NotPrefix(name, Prefix(family), if c[0] == '.' then n + 1 else n);
  }

  lemma NotPrefix(text: string, prefix: string, i: nat)
    requires i < |text| && i < |prefix| && text[i] != prefix[i]
    ensures !StartsWith(text, prefix)
  {
    if |prefix| <= |text| {
      assert text[..|prefix|][i] == text[i];
    }
  }

  /** No companion of a backup can have the name of a staging directory: the database
      is neither named like one nor named by the staging prefix without its dash. With
      a slash or a null character it names no file at all. */
  predicate Unrelated(database: string) {
    '/' in database || '\0' in database
    || (!StartsWith(database, STAGE_PREFIX) && database + "-" != STAGE_PREFIX)
  }

  /** How a name goes on where the staging prefix has a dash or a dot. */
  lemma AfterDash(n: nat)
    requires n < |STAGE_PREFIX| - 1
    ensures STAGE_PREFIX[n] == '-' ==>
              STAGE_PREFIX[n + 1] == 'a' || STAGE_PREFIX[n + 1] == 'm' || STAGE_PREFIX[n + 1] == 'p'
              || STAGE_PREFIX[n + 1] == 'b'
    ensures STAGE_PREFIX[n] == '.' ==> n == 0
  {
  }

  lemma AfterDot()
    ensures STAGE_PREFIX[1] == 'm' && STAGE_PREFIX[2] == 'c' && STAGE_PREFIX[|STAGE_PREFIX| - 1] == '-'
  {
  }

  /** What can follow the database name in a backup or one of its companions. */
  predicate FollowsDatabase(rest: string) {
    && |rest| >= 3
    && ((rest[0] == '-' && rest[1] != 'a' && rest[1] != 'm' && rest[1] != 'p' && rest[1] != 'b')
        || (rest[0] == '.' && !(rest[1] == 'm' && rest[2] == 'c')))
  }

  lemma {:induction false} FollowedIsNoStage(database: string, rest: string)
    requires FollowsDatabase(rest) && Unrelated(database)
    ensures !IsStageName(database + rest)
  {
    hide StartsWith;
    var n := |database|;
    var c := database + rest;
    assert forall x :: x in database ==> x in c;
    if n >= |STAGE_PREFIX| || database != STAGE_PREFIX[..n] {
      LongerStart(database, rest, STAGE_PREFIX);
    } else if n < |STAGE_PREFIX| - 1 {
      AfterDash(n);
      AfterDot();
      assert c[n] == rest[0] && c[n + 1] == rest[1] && c[n + 2] == rest[2];
      NotPrefix(c, STAGE_PREFIX,
                if rest[0] != STAGE_PREFIX[n] then n else if rest[1] != STAGE_PREFIX[n + 1] then n + 1 else n + 2);
    } else {
      AfterDot();
    }
  }

  lemma LongerStart(text: string, rest: string, prefix: string)
    requires |text| >= |prefix| || text != prefix[..|text|]
    ensures StartsWith(text + rest, prefix) ==> StartsWith(text, prefix)
  {
    if |text| < |prefix| {
      var i :| 0 <= i < |text| && text[i] != prefix[i];
      NotPrefix(text + rest, prefix, i);
    } else {
      assert (text + rest)[..|prefix|] == text[..|prefix|];
    }
  }

  lemma CompanionFollows(c: string, suffix: string)
    requires c in COMPANIONS
    ensures FollowsDatabase(c + suffix)
  {
  }

  lemma {:induction false} OneCompanion(database: string, name: string, c: string) returns (k: string)
    requires c in CompanionNames(database, name) && |database| <= |name|
    ensures k in COMPANIONS && (c == name + k || c == database + k + name[|database|..])
  {
    k :| k in COMPANIONS && (c == name + k || c == database + k + name[|database|..]);
  }

  /** A companion of a backup is never a backup itself, and not a staging directory
      unless the database is named accordingly. */
  lemma {:induction false} CompanionUnplanned(family: Family, name: string, c: string)
    requires Accepts(family, name) && c in CompanionNames(family.database, name)
    ensures !Accepts(family, c) && (Unrelated(family.database) ==> !IsStageName(c))
  {
    hide Accepts, Unrelated, IsStageName, FollowsDatabase, CompanionNames;
    var n := |family.database|;
    AcceptedStarts(family, name);
    var k := OneCompanion(family.database, name, c);
    var rest := if c == name + k then name[n..] + k else k + name[n..];
    assert c == family.database + rest;
    LongerNameRefused(family, name, k);
    InnerNameRefused(family, k, name[n..]);
    CompanionFollows(k, name[n..]);
    BackupFollows(family, name, k);
    if Unrelated(family.database) {
      FollowedIsNoStage(family.database, rest);
    }
  }

  lemma BackupFollows(family: Family, name: string, c: string)
    requires Accepts(family, name)
    ensures |family.database| <= |name| && FollowsDatabase(name[|family.database|..] + c)
  {
    var n := |family.database|;
    assert name[..|Prefix(family)|][n] == '.' && name[..|Prefix(family)|][n + 1] == 'b';
  }
}
