/** A directory whose preview selects a backup, though its plan can never pass the
    manifest check: the backup's modification time is before 1970.
 */
module EarlyTime {
  import opened Artifacts
  import opened Generations
  import opened Retention
  import opened Manifest
  import opened DatedPair

  const BEFORE_1970 := Stamp(1, 2, 0x8180, 1, 10, -1)

  /** Two dated backups, the older one last modified before 1970. */
  function EarlyScene(): Scene {
    Pair("mail", BEFORE_1970)
  }

  /** The preview has something to move, and the manifest check refuses its plan. */
  lemma {:induction false} EarlyTimeIsRefused(now: int, createdAt: int, listing: seq<string>)
    requires createdAt >= now >= 3600 * NANOSECONDS && EarlyScene().Listed(listing)
    ensures var scene := EarlyScene();
            && scene.Valid() && Previewable(scene, POLICY, listing) && !AllTimesFit(scene)
            && AllReadable(scene, Ranked(scene.family, listing))
            && var plan := PlanOf(scene, POLICY, now, Ranked(scene.family, listing));
               plan.eligible != [] && !Accepted(scene, Record(true, QUARANTINE_BACKUPS, createdAt, plan, plan))
  {
    hide Print, Ranked, Accepted, PlanOf, AllReadable, Previewable, Scene.Valid, Scene.Listed, Accepts, Surplus;
    PairMoves("mail", BEFORE_1970, now, listing);
    PairIsValid("mail", BEFORE_1970);
    TwoBackups("mail");
    PlanPassesCheck(EarlyScene(), POLICY, now, createdAt, listing);
    assert Candidate(EarlyScene(), OldName("mail")) && !TimeFits(EarlyScene(), OldName("mail"));
  }
}
