/** How much of a record stays on its leaf page (section 1.7 of the SQLite
    Database File Format), and how many overflow pages the rest takes.
 */
module Spill {
  import Numbers

  function Maximum(usable: nat): int { usable - 35 }

  function Minimum(usable: nat): int { (usable - 12) * 32 / 255 - 23 }

  /** The part of the payload stored on the leaf page itself. */
  function LocalSize(usable: nat, payload: nat): (size: int)
    requires usable >= 480
  {
    if payload <= Maximum(usable) then payload
    else
      var candidate := Minimum(usable) + (payload - Minimum(usable)) % (usable - 4);
      if candidate <= Maximum(usable) then candidate else Minimum(usable)
  }

  /** The bounds of section 1.7: what is kept lies between the minimum and the
      maximum, some of a spilled payload always leaves the page, and unless only
      the minimum is kept it leaves in whole overflow pages. */
  lemma {:induction false} LocalSizeBounds(usable: nat, payload: nat)
    requires usable >= 480
    ensures 0 < Minimum(usable) < Maximum(usable)
    ensures 0 <= LocalSize(usable, payload) <= payload
    ensures LocalSize(usable, payload) <= Maximum(usable)
    ensures LocalSize(usable, payload) < payload <==> payload > Maximum(usable)
    ensures payload > Maximum(usable) ==> Minimum(usable) <= LocalSize(usable, payload)
    ensures payload > Maximum(usable) && LocalSize(usable, payload) != Minimum(usable) ==>
              (payload - LocalSize(usable, payload)) % (usable - 4) == 0
  {
    MinimumBounds(usable);
    if payload > Maximum(usable) {
      var span := payload - Minimum(usable);
      RemainderDivides(span, usable - 4);
    }
  }

  /** What section 1.7 keeps on the leaf of a payload: all of it up to 35 bytes below
      the usable size; otherwise the size between the two bounds that leaves whole
      overflow pages behind, or the lower bound when there is none. */
  ghost predicate IsLocalSize(usable: nat, payload: nat, size: nat) {
    if payload <= usable - 35 then size == payload
    else if exists k: nat :: LeavesWholePages(usable, payload, k) then LeavesWholePages(usable, payload, size)
    else size == (usable - 12) * 32 / 255 - 23
  }

  predicate LeavesWholePages(usable: nat, payload: nat, size: nat) {
    (usable - 12) * 32 / 255 - 23 <= size <= usable - 35
    && usable > 4 && (payload - size) % (usable - 4) == 0
  }

  /** The computed size is that one, and no other is. */
  lemma {:induction false} LocalSizeIs(usable: nat, payload: nat, size: nat)
    requires usable >= 480
    ensures IsLocalSize(usable, payload, size) <==> size == LocalSize(usable, payload)
  {
    MinimumBounds(usable);
    if payload > usable - 35 {
      var candidate := Minimum(usable) + (payload - Minimum(usable)) % (usable - 4);
      RemainderDivides(payload - Minimum(usable), usable - 4);
      assert payload - candidate == payload - Minimum(usable) - (payload - Minimum(usable)) % (usable - 4);
      assert candidate <= usable - 35 ==> LeavesWholePages(usable, payload, candidate);
      forall k: nat | LeavesWholePages(usable, payload, k) ensures k == candidate {
        OneRemainder(payload, Minimum(usable), k, usable - 4);
      }
    }
  }

  lemma {:induction false} OneRemainder(payload: nat, minimum: nat, k: nat, page: nat)
    requires page > 0 && minimum <= k < minimum + page && minimum <= payload && (payload - k) % page == 0
    ensures k == minimum + (payload - minimum) % page
  {
    var q := (payload - k) / page;
    Numbers.DivMod(payload - minimum, page, q, k - minimum);
  }

  lemma MinimumBounds(usable: nat)
    requires usable >= 480
    ensures 35 <= Minimum(usable) < usable - 35
  {
  }

  lemma RemainderDivides(span: nat, page: nat)
    requires page > 0
    ensures (span - span % page) % page == 0
  {
    Numbers.DivMod(span - span % page, page, span / page, 0);
  }

  /** Overflow pages read for `remaining` spilled bytes, `room` bytes at a time. */
  function PagesFor(remaining: nat, room: nat): (pages: nat)
    requires room > 0
  {
    if remaining == 0 then 0
    else if remaining <= room then 1
    else 1 + PagesFor(remaining - room, room)
  }

  /** That is the ceiling of the quotient. */
  lemma {:induction false} PagesForIsCeiling(remaining: nat, room: nat)
    requires room > 0
    ensures PagesFor(remaining, room) == (remaining + room - 1) / room
    ensures room * PagesFor(remaining, room) >= remaining
    ensures remaining > 0 ==> room * (PagesFor(remaining, room) - 1) < remaining
  {
    var pages := PagesFor(remaining, room);
    if remaining > room {
      PagesForIsCeiling(remaining - room, room);
      assert room * pages == room * (pages - 1) + room;
      assert room * (pages - 1) == room * (pages - 2) + room;
    }
    Ceiling(remaining, room, pages);
  }

  lemma {:induction false} Ceiling(remaining: nat, room: nat, pages: nat)
    requires room > 0 && room * pages >= remaining
    requires if remaining > 0 then pages > 0 && room * (pages - 1) < remaining else pages == 0
    ensures (remaining + room - 1) / room == pages
  {
    if remaining == 0 {
      Numbers.DivMod(room - 1, room, 0, room - 1);
    } else {
      assert room * pages == room * (pages - 1) + room;
      Numbers.DivMod(remaining + room - 1, room, pages, remaining + room - 1 - room * pages);
    }
  }
}
