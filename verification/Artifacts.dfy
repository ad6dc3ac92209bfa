/** Directory entries, the evidence recorded about them, and quarantine plans. */
module Artifacts {
  import opened Sql
  import Order

  const MAX_ENTRIES := 16_384
  const MAX_BYTES := 0xffff_ffff_ffff_ffff
  const NANOSECONDS := 1_000_000_000
  const STAGE_PREFIX := ".mcp-agent-mail-proactive-backup-"

  datatype Identity = Identity(device: int, inode: int)

  datatype Stamp = Stamp(device: int, inode: int, mode: int, links: int, size: int, mtime: int)

  /** What the tree hash covers: a backup's stamp and checksum, or a stage's sorted
      inventory. The hash is replaced by its input. */
  datatype Tree = FileTree(stamp: Stamp, content: string) | FolderTree(inventory: seq<(string, Stamp)>)

  datatype Witness = Witness(identity: Identity, entries: int, bytes: int, newest: int,
                             file: Option<Stamp>, content: Option<string>, tree: Tree)

  /** A directory entry; no witness when its inspection would be refused. */
  datatype Object = Object(stamp: Stamp, evidence: Option<Witness>)

  type Directory = map<string, Object>

  /** A plan entry; `backup` is the artifact kind. */
  datatype Artifact = Artifact(name: string, backup: bool, reasons: seq<string>, evidence: Witness)

  datatype Claim = Claim(metadata: Stamp, metadataSha: string, size: int, sha: string)

  datatype Binding = Binding(database: string, primary: Identity, parent: Identity,
                             storageRoot: string, archive: Identity)

  datatype Plan = Plan(backups: bool, binding: Binding, minAge: int, keep: int, maxHash: int,
                       claim: Option<Claim>, eligible: seq<Artifact>, retained: seq<Artifact>)

  function IdentityOf(stamp: Stamp): Identity {
    Identity(stamp.device, stamp.inode)
  }

  predicate Unsigned(n: int) {
    0 <= n <= MAX_BYTES
  }

  /** A regular file or a folder, by the type bits of a 32-bit mode. */
  predicate IsRegular(mode: int) {
    0 <= mode < 0x1_0000_0000 && mode / 0x1000 % 16 == 8
  }

  predicate IsFolder(mode: int) {
    0 <= mode < 0x1_0000_0000 && mode / 0x1000 % 16 == 4
  }

  predicate SingleFile(o: Object) {
    IsRegular(o.stamp.mode) && o.stamp.links == 1
  }

  predicate ProperType(o: Object, backup: bool) {
    if backup then SingleFile(o) else IsFolder(o.stamp.mode)
  }

  /** A digest printed as lower-case hexadecimal text. */
  predicate IsSha256(text: string) {
    |text| == 64 && forall k :: 0 <= k < |text| ==> '0' <= text[k] <= '9' || 'a' <= text[k] <= 'f'
  }

  function FileWitness(stamp: Stamp, content: string): Witness {
    Witness(IdentityOf(stamp), 1, stamp.size, stamp.mtime, Some(stamp), Some(content), FileTree(stamp, content))
  }

  /** What the operating system and the two snapshot routines guarantee: unsigned
      stat fields, and a witness of the object itself. Times may be negative. */
  ghost predicate Coherent(o: Object) {
    && Unsigned(o.stamp.device) && Unsigned(o.stamp.inode) && Unsigned(o.stamp.mode)
    && Unsigned(o.stamp.links) && Unsigned(o.stamp.size)
    && (o.evidence.Some? && SingleFile(o) ==>
          exists content :: IsSha256(content) && o.evidence.value == FileWitness(o.stamp, content))
    && (o.evidence.Some? && IsFolder(o.stamp.mode) ==> o.evidence.value.identity == IdentityOf(o.stamp))
  }

  ghost predicate AllCoherent(d: Directory) {
    forall name :: name in d ==> Coherent(d[name])
  }

  // ----- companions and the snapshot claim

  const COMPANIONS: seq<string> :=
    ["-wal", "-shm", "-journal", "-wal-cert", "-wal-cert-head",
     "-fsqlite-ns-gate", "-fsqlite-ns-use", ".lock", ".meta.json"]

  /** Both places a companion of this backup could be: after its whole name, or
      between the database name and the generation. */
  function CompanionNames(database: string, name: string): set<string> {
    var suffix := if |database| <= |name| then name[|database|..] else "";
    (set c | c in COMPANIONS :: name + c) + (set c | c in COMPANIONS :: database + c + suffix)
  }

  predicate HasCompanion(d: Directory, database: string, name: string) {
    exists c :: c in CompanionNames(database, name) && c in d
  }

  /** The state that SQLite, FrankenSQLite and the copy routines keep beside a file. */
  predicate CompanionSuffix(suffix: string) {
    || suffix == "-wal" || suffix == "-shm" || suffix == "-journal" || suffix == "-wal-cert"
    || suffix == "-wal-cert-head" || suffix == "-fsqlite-ns-gate" || suffix == "-fsqlite-ns-use"
    || suffix == ".lock" || suffix == ".meta.json"
  }

  /** In words: a file with the name and such a suffix, or with the suffix after the
      database name and before the generation. */
  ghost predicate CompanionThere(d: Directory, database: string, name: string)
    requires |database| <= |name|
  {
    exists suffix :: CompanionSuffix(suffix) && (name + suffix in d || database + suffix + name[|database|..] in d)
  }

  lemma {:induction false} CompanionIs(d: Directory, database: string, name: string)
    requires |database| <= |name|
    ensures HasCompanion(d, database, name) <==> CompanionThere(d, database, name)
  {
    SuffixIs();
    hide CompanionSuffix;
    if HasCompanion(d, database, name) {
      var c :| c in CompanionNames(database, name) && c in d;
      var k :| k in COMPANIONS && (c == name + k || c == database + k + name[|database|..]);
      assert CompanionSuffix(k);
    }
    if CompanionThere(d, database, name) {
      var k :| CompanionSuffix(k) && (name + k in d || database + k + name[|database|..] in d);
      assert k in COMPANIONS;
      assert name + k in CompanionNames(database, name);
      assert database + k + name[|database|..] in CompanionNames(database, name);
    }
  }

  lemma SuffixIs()
    ensures forall k :: k in COMPANIONS <==> CompanionSuffix(k)
  {
    assert COMPANIONS[0] == "-wal" && COMPANIONS[1] == "-shm" && COMPANIONS[2] == "-journal";
    assert COMPANIONS[3] == "-wal-cert" && COMPANIONS[4] == "-wal-cert-head" && COMPANIONS[5] == "-fsqlite-ns-gate";
    assert COMPANIONS[6] == "-fsqlite-ns-use" && COMPANIONS[7] == ".lock" && COMPANIONS[8] == ".meta.json";
  }

  /** The four type bits of a mode, above its twelve permission bits. */
  lemma {:induction false} TypeBits(high: nat, kind: nat, permissions: nat)
    requires high < 0x1_0000 && kind < 16 && permissions < 0x1000
    ensures IsRegular(0x1_0000 * high + 0x1000 * kind + permissions) <==> kind == 8
    ensures IsFolder(0x1_0000 * high + 0x1000 * kind + permissions) <==> kind == 4
  {
    var mode := 0x1_0000 * high + 0x1000 * kind + permissions;
    assert mode / 0x1000 == 16 * high + kind;
  }

  predicate MatchesClaim(w: Witness, claim: Option<Claim>) {
    claim.Some? && w.bytes == claim.value.size && w.content == Some(claim.value.sha)
  }

  predicate ByName(a: Artifact, b: Artifact) {
    Order.Less(a.name, b.name)
  }

  ghost predicate DistinctNames(artifacts: seq<Artifact>) {
    forall i, j :: 0 <= i < j < |artifacts| ==> artifacts[i].name != artifacts[j].name
  }

  /** A directory entry that the artifact describes. */
  predicate Matches(o: Object, a: Artifact) {
    ProperType(o, a.backup) && IdentityOf(o.stamp) == a.evidence.identity && o.evidence == Some(a.evidence)
  }

  /** Every planned name is in the directory as recorded, and recorded once. */
  ghost predicate Truthful(plan: Plan, d: Directory) {
    && DistinctNames(plan.eligible + plan.retained)
    && forall a :: a in plan.eligible + plan.retained ==>
         a.backup == plan.backups && a.name in d && Matches(d[a.name], a)
  }
}
