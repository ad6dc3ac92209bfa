/** Two dated backups of one database, the only entries of its directory: the older
    one is obsolete as soon as one backup is enough.
 */
module DatedPair {
  import opened Sql
  import opened Numbers
  import opened Artifacts
  import opened Generations
  import opened Retention
  import opened Manifest

  const OLDER_BACKUP := Generation("20240101_000000", 0)
  const NEWER_BACKUP := Generation("20240101_000000", 1)
  const AFTER_1970 := Stamp(1, 5, 0x8180, 1, 10, 1)
  const POLICY := Policy(3600, 1, 1000)

  function Mail(database: string): Family { Family(database, true) }

  function OldName(database: string): string { Print(Mail(database), OLDER_BACKUP) }

  function NewName(database: string): string { Print(Mail(database), NEWER_BACKUP) }

  function Zeros(): string {
    seq(64, _ => '0')
  }

  function Backup(stamp: Stamp): Object {
    Object(stamp, Some(FileWitness(stamp, Zeros())))
  }

  /** The stamp of a singly linked file of ten bytes. */
  predicate Ordinary(stamp: Stamp) {
    Unsigned(stamp.device) && Unsigned(stamp.inode) && stamp.mode == 0x8180 && stamp.links == 1 && stamp.size == 10
  }

  function Pair(database: string, stamp: Stamp): Scene {
    Scene(Mail(database), Binding(database, Identity(1, 1), Identity(1, 3), "archive", Identity(1, 4)),
          map[OldName(database) := Backup(stamp), NewName(database) := Backup(AFTER_1970)], None, None)
  }

  // ----- the two names

  lemma TwoDigitsAt(t: string, i: nat)
    requires i + 2 <= |t| && IsDigit(t[i]) && IsDigit(t[i + 1])
    ensures AllDigits(t[i..i + 2])
    ensures ParseDigits(t[i..i + 2]) == 10 * (t[i] - '0') as nat + (t[i + 1] - '0') as nat
  {
    var text := t[i..i + 2];
    assert text[..1][..0] == "";
    assert ParseDigits(text[..1]) == 10 * ParseDigits(text[..1][..0]) + (text[..1][0] - '0') as nat;
  }

  lemma FourDigits(t: string)
    requires |t| >= 4 && IsDigit(t[0]) && IsDigit(t[1]) && IsDigit(t[2]) && IsDigit(t[3])
    ensures AllDigits(t[..4])
    ensures ParseDigits(t[..4]) == 1000 * (t[0] - '0') as nat + 100 * (t[1] - '0') as nat
                                   + 10 * (t[2] - '0') as nat + (t[3] - '0') as nat
  {
    TwoDigitsAt(t, 0);
    var text := t[..4];
    assert text[..3][..2] == t[0..2];
    assert ParseDigits(text[..3]) == 10 * ParseDigits(text[..3][..2]) + (text[..3][2] - '0') as nat;
  }

  /** A first of January at midnight. */
  lemma {:induction false} NewYear(t: string, padsYears: bool)
    requires |t| == 15 && t[8] == '_'
    requires forall k :: 0 <= k < 15 && k != 8 ==> IsDigit(t[k])
    requires t[0] == '2' && t[4] == '0' && t[5] == '1' && t[6] == '0' && t[7] == '1'
    requires forall k :: 9 <= k < 15 ==> t[k] == '0'
    ensures IsTimestamp(t, padsYears)
  {
    hide ParseDigits, DaysIn;
    FourDigits(t);
    TwoDigitsAt(t, 4);
    TwoDigitsAt(t, 6);
    TwoDigitsAt(t, 9);
    TwoDigitsAt(t, 11);
    TwoDigitsAt(t, 13);
    January(ParseDigits(t[..4]));
  }

  lemma January(year: nat)
    ensures DaysIn(year, 1) == 31
  {
  }

  lemma {:induction false} OldIsAccepted(family: Family)
    ensures Accepts(family, Print(family, OLDER_BACKUP))
  {
    hide IsTimestamp, Parse, Print;
    NewYear(OLDER_BACKUP.timestamp, family.padsYears);
    ParsePrint(family, OLDER_BACKUP);
  }

  /** Both names are accepted, and one is newer than the other. */
  lemma {:induction false} TwoBackups(database: string)
    ensures Accepts(Mail(database), OldName(database)) && Accepts(Mail(database), NewName(database))
    ensures OldName(database) != NewName(database)
    ensures NewerName(Mail(database), NewName(database), OldName(database))
  {
    hide IsTimestamp, Parse, Print;
    NewYear(OLDER_BACKUP.timestamp, true);
    ParsePrint(Mail(database), OLDER_BACKUP);
    ParsePrint(Mail(database), NEWER_BACKUP);
  }

  lemma {:induction false} BackupIsCoherent(stamp: Stamp)
    requires Ordinary(stamp)
    ensures Coherent(Backup(stamp)) && SingleFile(Backup(stamp))
  {
    assert IsSha256(Zeros());
    assert Backup(stamp).evidence.value == FileWitness(stamp, Zeros());
  }

  lemma {:induction false} PairIsValid(database: string, stamp: Stamp)
    requires Ordinary(stamp)
    ensures Pair(database, stamp).Valid()
    ensures var source := Pair(database, stamp).source;
            && Readable(source, OldName(database)) && Readable(source, NewName(database))
            && source[OldName(database)].stamp == stamp
  {
    hide Print, Coherent, SingleFile, Zeros, Accepts, NewerName, FileWitness;
    TwoBackups(database);
    BackupIsCoherent(stamp);
    BackupIsCoherent(AFTER_1970);
  }

  lemma {:induction false} TwoElements(listing: seq<string>, a: string, b: string)
    requires a != b && forall name :: name in listing <==> name == a || name == b
    requires forall i, j :: 0 <= i < j < |listing| ==> listing[i] != listing[j]
    ensures listing == [a, b] || listing == [b, a]
  {
    assert a in listing && b in listing;
    var i :| 0 <= i < |listing| && listing[i] == a;
    var j :| 0 <= j < |listing| && listing[j] == b;
    forall k | 0 <= k < |listing| ensures listing[k] == a || listing[k] == b {
      assert listing[k] in listing;
    }
    var last := if i < j then j else i;
    assert listing[0] in listing && listing[last - 1] in listing && listing[|listing| - 1] in listing;
  }

  lemma {:induction false} TwoOrders(database: string, stamp: Stamp, listing: seq<string>)
    requires Pair(database, stamp).Listed(listing)
    ensures listing == [OldName(database), NewName(database)] || listing == [NewName(database), OldName(database)]
  {
    hide Print, Accepts, NewerName, Backup;
    TwoBackups(database);
    var source := Pair(database, stamp).source;
    assert forall name :: name in source <==> name == OldName(database) || name == NewName(database);
    TwoElements(listing, OldName(database), NewName(database));
  }

  lemma {:induction false} PairIsPreviewable(database: string, stamp: Stamp, listing: seq<string>)
    requires Ordinary(stamp) && Pair(database, stamp).Listed(listing)
    ensures Previewable(Pair(database, stamp), POLICY, listing)
  {
    hide Print, Readable, Sum, Candidates, Accepts;
    PairIsValid(database, stamp);
    TwoOrders(database, stamp, listing);
    var scene := Pair(database, stamp);
    CandidatesAre(Mail(database), listing);
    NoCandidates(scene);
    CandidatesStep(scene, listing, 0);
    CandidatesStep(scene, listing, 1);
    assert listing[..0] == [] && listing[..2] == listing;
  }

  lemma {:induction false} NoCompanionThere(database: string, stamp: Stamp)
    ensures !HasCompanion(Pair(database, stamp).source, database, OldName(database))
  {
    hide Print, CompanionNames, Accepts;
    TwoBackups(database);
    forall c | c in CompanionNames(database, OldName(database)) ensures c !in Pair(database, stamp).source {
      CompanionUnplanned(Mail(database), OldName(database), c);
    }
  }

  lemma {:induction false} OldIsSurplus(database: string, stamp: Stamp, now: int)
    requires Ordinary(stamp) && stamp.mtime <= 0 && now >= 3600 * NANOSECONDS
    ensures Surplus(Pair(database, stamp), POLICY, now, OldName(database))
  {
    hide Print, NewerName, HasCompanion;
    TwoBackups(database);
    PairIsValid(database, stamp);
    NoCompanionThere(database, stamp);
    assert NewName(database) in NewerBackups(Pair(database, stamp), OldName(database));
    assert |NewerBackups(Pair(database, stamp), OldName(database))| > 0;
  }

  /** The preview moves the older backup. */
  lemma {:induction false} PairMoves(database: string, stamp: Stamp, now: int, listing: seq<string>)
    requires Ordinary(stamp) && stamp.mtime <= 0 && now >= 3600 * NANOSECONDS
    requires Pair(database, stamp).Listed(listing)
    ensures var scene := Pair(database, stamp);
            && scene.Valid() && Previewable(scene, POLICY, listing)
            && AllReadable(scene, Ranked(scene.family, listing))
            && Names(PlanOf(scene, POLICY, now, Ranked(scene.family, listing)).eligible, OldName(database))
  {
    hide Print, Ranked, PlanOf, AllReadable, Previewable, Scene.Valid, Scene.Listed, Accepts, Surplus;
    PairIsValid(database, stamp);
    PairIsPreviewable(database, stamp, listing);
    OldIsSurplus(database, stamp, now);
    PlanSelects(Pair(database, stamp), POLICY, now, listing);
  }

  // ----- companions that are staging directories

  lemma OrdinaryAdds(a: string, b: string, c: char)
    requires c !in a && c !in b
    ensures c !in a + b
  {
  }

  lemma PrefixIsOrdinary()
    ensures '/' !in STAGE_PREFIX && '\0' !in STAGE_PREFIX
  {
  }

  /** The prefix and something ordinary behind it name a staging directory. */
  lemma {:induction false} StageNamed(rest: string)
    requires rest != "" && '/' !in rest && '\0' !in rest
    ensures IsStageName(STAGE_PREFIX + rest)
  {
    var name := STAGE_PREFIX + rest;
    PrefixIsOrdinary();
    OrdinaryAdds(STAGE_PREFIX, rest, '/');
    OrdinaryAdds(STAGE_PREFIX, rest, '\0');
    assert name[..|STAGE_PREFIX|] == STAGE_PREFIX;
  }

  const SUFFIX: string := ".bak.20240101_000000"

  lemma OlderText(family: Family)
    ensures Print(family, OLDER_BACKUP) == family.database + SUFFIX
  {
  }

  lemma {:induction false} OuterCompanion(database: string)
    requires StartsWith(database, STAGE_PREFIX) && '/' !in database && '\0' !in database
    ensures IsStageName(database + SUFFIX + "-wal")
  {
    hide IsStageName;
    var rest := database[|STAGE_PREFIX|..] + (SUFFIX + "-wal");
    assert database + SUFFIX + "-wal" == STAGE_PREFIX + rest;
    OrdinaryAdds(database[|STAGE_PREFIX|..], SUFFIX + "-wal", '/');
    OrdinaryAdds(database[|STAGE_PREFIX|..], SUFFIX + "-wal", '\0');
    StageNamed(rest);
  }

  lemma {:induction false} InnerCompanion(database: string)
    requires database + "-" == STAGE_PREFIX
    ensures IsStageName(database + "-wal" + SUFFIX)
  {
    hide IsStageName;
    assert "-wal" == "-" + "wal";
    assert database + "-wal" + SUFFIX == database + "-" + ("wal" + SUFFIX);
    StageNamed("wal" + SUFFIX);
  }

  /** A companion of a backup that has the name of a staging directory, for every
      database that is not unrelated. */
  lemma {:induction false} StageCompanion(family: Family) returns (c: string)
    requires !Unrelated(family.database)
    ensures c in CompanionNames(family.database, Print(family, OLDER_BACKUP)) && IsStageName(c)
  {
    hide IsStageName, CompanionNames, Print, StartsWith;
    OlderText(family);
    LogCompanions(family.database, SUFFIX);
    if StartsWith(family.database, STAGE_PREFIX) {
      c := family.database + SUFFIX + "-wal";
      OuterCompanion(family.database);
    } else {
      c := family.database + "-wal" + SUFFIX;
      InnerCompanion(family.database);
    }
  }

  lemma LogCompanions(database: string, suffix: string)
    ensures database + suffix + "-wal" in CompanionNames(database, database + suffix)
    ensures database + "-wal" + suffix in CompanionNames(database, database + suffix)
  {
    assert COMPANIONS[0] == "-wal";
    assert (database + suffix)[|database|..] == suffix;
  }

  /** Exactly the unrelated databases have no backup with a companion that could be
      a staging directory. */
  lemma {:induction false} UnrelatedIff(family: Family)
    ensures Unrelated(family.database) <==>
            forall name, c :: Accepts(family, name) && c in CompanionNames(family.database, name) ==> !IsStageName(c)
  {
    hide Accepts, CompanionNames, Unrelated, IsStageName, Print;
    if Unrelated(family.database) {
      forall name, c | Accepts(family, name) && c in CompanionNames(family.database, name) ensures !IsStageName(c) {
        CompanionUnplanned(family, name, c);
      }
    } else {
      OldIsAccepted(family);
      var c := StageCompanion(family);
    }
  }
}
