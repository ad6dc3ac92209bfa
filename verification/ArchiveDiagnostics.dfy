/** Coarse phase records and saturating totals from fine-grained archive progress. */
module ArchiveDiagnostics {
  import opened Sql

  const MAX_U64: int := 0xffff_ffff_ffff_ffff

  type U64 = x: int | 0 <= x <= MAX_U64

  datatype Phase =
    | Prepare | SnapshotSource | Snapshot | Filter | Scrub | Finalize | Metadata | Enumerate | Zip | Verify | Publish

  datatype Event = Event(phase: string, state: string, files: U64, bytes: U64, snapshotBytes: U64, archiveBytes: U64)

  datatype Counters = Counters(storageFiles: U64, storageBytes: U64, storageSizeUnknown: U64,
                               zipFiles: U64, zipBytes: U64, snapshotBytes: U64, archiveBytes: U64)

  const NO_COUNTERS := Counters(0, 0, 0, 0, 0, 0, 0)

  datatype Sample = Sample(phase: string, files: U64, bytes: U64)

  datatype Status = Started | Running | Completed | Failed

  datatype Report = Report(phase: Phase, status: Status, counters: Counters)

  /** The coarse phase of a fine one; unknown names are ignored. */
  function PhaseOf(fine: string): Option<Phase> {
    if fine == "prepare" || fine == "mailbox_lock" then Some(Prepare)
    else if fine == "source_reconciliation" then Some(SnapshotSource)
    else if fine == "snapshot_copy" || fine == "snapshot_prepare" || fine == "snapshot_source_open"
            || fine == "snapshot_full_copy" || fine == "snapshot_neutralize" || fine == "snapshot_validate"
            || fine == "snapshot_publish"
    then Some(Snapshot)
    else if fine == "snapshot_scope" then Some(Filter)
    else if fine == "snapshot_scrub" then Some(Scrub)
    else if fine == "snapshot_compact" || fine == "snapshot_viewer" then Some(Finalize)
    else if fine == "metadata" || fine == "recovery_exclusion_check" then Some(Metadata)
    else if fine == "storage_inventory" then Some(Enumerate)
    else if fine == "compress_snapshot" || fine == "compress_storage" || fine == "finalize_zip" then Some(Zip)
    else if fine == "verify_zip" then Some(Verify)
    else if fine == "publish" then Some(Publish)
    else None
  }

  predicate CountsStorage(fine: string) {
    fine == "storage_inventory"
  }

  predicate CountsZip(fine: string) {
    fine == "compress_snapshot" || fine == "compress_storage"
  }

  function SaturatingAdd(a: U64, b: U64): U64 {
    if a + b <= MAX_U64 then a + b else MAX_U64
  }

  function SaturatingSub(a: U64, b: U64): U64 {
    if a >= b then a - b else 0
  }

  // ----- one event in words

  /** Which fine phases belong to a coarse one. */
  ghost predicate Opens(fine: string, phase: Phase) {
    match phase
    case Prepare => fine == "prepare" || fine == "mailbox_lock"
    case SnapshotSource => fine == "source_reconciliation"
    case Snapshot =>
      || fine == "snapshot_copy" || fine == "snapshot_prepare" || fine == "snapshot_source_open"
      || fine == "snapshot_full_copy" || fine == "snapshot_neutralize" || fine == "snapshot_validate"
      || fine == "snapshot_publish"
    case Filter => fine == "snapshot_scope"
    case Scrub => fine == "snapshot_scrub"
    case Finalize => fine == "snapshot_compact" || fine == "snapshot_viewer"
    case Metadata => fine == "metadata" || fine == "recovery_exclusion_check"
    case Enumerate => fine == "storage_inventory"
    case Zip => fine == "compress_snapshot" || fine == "compress_storage" || fine == "finalize_zip"
    case Verify => fine == "verify_zip"
    case Publish => fine == "publish"
  }

  /** The length and one character tell the fine phases of different coarse ones apart. */
  ghost function Mark(fine: string): (nat, char) {
    (|fine|, if |fine| > 11 then fine[11] else if |fine| > 1 then fine[1] else ' ')
  }

  ghost predicate Marked(mark: (nat, char), phase: Phase) {
    match phase
    case Prepare => mark == (7, 'r') || mark == (12, 'k')
    case SnapshotSource => mark.0 == 21
    case Snapshot =>
      mark.0 == 13 || mark.0 == 18 || mark.0 == 19 || mark.0 == 20
      || mark == (16, 'e') || mark == (16, 'b') || mark == (17, 'l')
    case Filter => mark == (14, 'o')
    case Scrub => mark == (14, 'r')
    case Finalize => mark == (16, 'm') || mark.0 == 15
    case Metadata => mark.0 == 8 || mark.0 == 24
    case Enumerate => mark == (17, 'e')
    case Zip => mark == (17, 'a') || mark == (16, 'o') || mark == (12, 'p')
    case Verify => mark.0 == 10
    case Publish => mark == (7, 'u')
  }

  lemma OpensMarked(fine: string, phase: Phase)
    requires Opens(fine, phase)
    ensures Marked(Mark(fine), phase)
  {
  }

  lemma {:induction false} OpensOne(fine: string, p: Phase, q: Phase)
    requires Opens(fine, p) && Opens(fine, q)
    ensures p == q
  {
    hide Opens, Mark;
    OpensMarked(fine, p);
    OpensMarked(fine, q);
  }

  lemma PhaseOpens(fine: string)
    ensures PhaseOf(fine).Some? ==> Opens(fine, PhaseOf(fine).value)
  {
  }

  lemma OpensSome(fine: string, phase: Phase)
    requires Opens(fine, phase)
    ensures PhaseOf(fine).Some?
  {
  }

  lemma {:induction false} PhaseMeans(fine: string, phase: Phase)
    ensures PhaseOf(fine) == Some(phase) <==> Opens(fine, phase)
  {
    hide PhaseOf, Opens;
    PhaseOpens(fine);
    if Opens(fine, phase) {
      OpensSome(fine, phase);
      OpensOne(fine, phase, PhaseOf(fine).value);
    }
  }

  /** Added up, but never beyond 64 bits. */
  ghost predicate Adds(before: int, gain: int, after: int) {
    && (before + gain <= 18_446_744_073_709_551_615 ==> after == before + gain)
    && (before + gain > 18_446_744_073_709_551_615 ==> after == 18_446_744_073_709_551_615)
  }

  /** What a counter has gained since the last event, which counts if it was of the
      same fine phase. */
  ghost function Gain(same: bool, before: int, now: int): int {
    if !same then now else if before <= now then now - before else 0
  }

  /** In words: only the inventory adds to the storage totals, only compressing adds to
      the ZIP totals, and both sizes are the event's. */
  ghost predicate CountedOnce(before: Counters, sample: Option<Sample>, e: Event, after: Counters) {
    var same := sample.Some? && sample.value.phase == e.phase;
    var files := Gain(same, if same then sample.value.files else 0, e.files);
    var bytes := Gain(same, if same then sample.value.bytes else 0, e.bytes);
    && after.snapshotBytes == e.snapshotBytes && after.archiveBytes == e.archiveBytes
    && after.storageSizeUnknown == before.storageSizeUnknown
    && (if e.phase == "storage_inventory"
        then
          && Adds(before.storageFiles, files, after.storageFiles)
          && Adds(before.storageBytes, bytes, after.storageBytes)
        else after.storageFiles == before.storageFiles && after.storageBytes == before.storageBytes)
    && (if e.phase == "compress_snapshot" || e.phase == "compress_storage"
        then Adds(before.zipFiles, files, after.zipFiles) && Adds(before.zipBytes, bytes, after.zipBytes)
        else after.zipFiles == before.zipFiles && after.zipBytes == before.zipBytes)
  }

  /** In words: the records an event of the coarse phase `next` adds. */
  ghost function Records(open: Option<Phase>, next: Phase, state: string, before: Counters, after: Counters)
    : seq<Report>
  {
    (if open.Some? && open != Some(next) then [Report(open.value, Completed, before)] else [])
    + (if open != Some(next) then [Report(next, Started, after)] else [])
    + (if next == Publish && state == "completed" then [Report(Publish, Completed, after)] else [])
  }

  // ----- histories

  /** What the owner and the heartbeat worker can do before the drop. */
  datatype Call =
    | Start(phase: Phase)
    | Finish
    | Observe(event: Event)
    | ArchiveBytes(bytes: U64)
    | Heartbeat

  /** The open phase after a history of calls. */
  function Open(calls: seq<Call>): Option<Phase> {
    if calls == [] then None
    else
      var before := Open(calls[..|calls| - 1]);
      match calls[|calls| - 1]
      case Start(phase) => Some(phase)
      case Finish => None
      case Observe(event) =>
        if PhaseOf(event.phase).None? then before
        else if PhaseOf(event.phase) == Some(Publish) && event.state == "completed" then None
        else PhaseOf(event.phase)
      case _ => before
  }

  /** The progress events that count at all. */
  function Events(calls: seq<Call>): seq<Event> {
    if calls == [] then []
    else
      var last := calls[|calls| - 1];
      Events(calls[..|calls| - 1]) + if last.Observe? && PhaseOf(last.event.phase).Some? then [last.event] else []
  }

  /** Some start was called while a phase was still open. */
  ghost predicate Overlaps(calls: seq<Call>) {
    exists i :: 0 <= i < |calls| && calls[i].Start? && Open(calls[..i]).Some?
  }

  // ----- what a well-formed record stream is

  /** Reads records as phases that open and close: None for a stream in which a
      phase starts inside another, ends without having started, or is reported
      running when it is not; otherwise the phase left open. */
  function Reading(reports: seq<Report>): Option<Option<Phase>> {
    if reports == [] then Some(None)
    else
      var before := Reading(reports[..|reports| - 1]);
      var last := reports[|reports| - 1];
      if last.status == Started then (if before == Some(None) then Some(Some(last.phase)) else None)
      else if before != Some(Some(last.phase)) then None
      else if last.status == Running then before
      else Some(None)
  }

  function Failures(reports: seq<Report>): nat {
    if reports == [] then 0
    else Failures(reports[..|reports| - 1]) + if reports[|reports| - 1].status == Failed then 1 else 0
  }

  lemma {:induction false} ReadingAppend(reports: seq<Report>, last: Report)
    ensures Reading(reports + [last]) ==
              if last.status == Started then (if Reading(reports) == Some(None) then Some(Some(last.phase)) else None)
              else if Reading(reports) != Some(Some(last.phase)) then None
              else if last.status == Running then Reading(reports)
              else Some(None)
    ensures Failures(reports + [last]) == Failures(reports) + if last.status == Failed then 1 else 0
  {
    assert (reports + [last])[..|reports|] == reports;
  }

  // ----- totals

  /** The last event of each maximal run of events with the same fine phase. */
  function BlockEnds(events: seq<Event>): seq<Event> {
    if |events| <= 1 then events
    else if events[0].phase == events[1].phase then BlockEnds(events[1..])
    else [events[0]] + BlockEnds(events[1..])
  }

  /** The sum of each counted block's last value. */
  ghost function LastValues(events: seq<Event>, counted: string -> bool, value: Event -> int): int {
    Sum(BlockEnds(events), Counted(counted, value))
  }

  function Counted(counted: string -> bool, value: Event -> int): Event -> int {
    (e: Event) => if counted(e.phase) then value(e) else 0
  }

  /** How much the last event adds: its rise within the block, or its whole value
      at the start of one. */
  function Rise(events: seq<Event>, value: Event -> int): int
    requires events != []
  {
    var last := events[|events| - 1];
    if |events| > 1 && events[|events| - 2].phase == last.phase then
      (if value(last) >= value(events[|events| - 2]) then value(last) - value(events[|events| - 2]) else 0)
    else value(last)
  }

  /** The sum of all rises. */
  function Risen(events: seq<Event>, counted: string -> bool, value: Event -> int): int {
    if events == [] then 0
    else Risen(events[..|events| - 1], counted, value)
         + if counted(events[|events| - 1].phase) then Rise(events, value) else 0
  }

  /** A counter falls within a counted block. */
  ghost predicate Falls(events: seq<Event>, counted: string -> bool, value: Event -> int) {
    exists i :: 0 < i < |events| && FallsAt(events, i, counted, value)
  }

  predicate FallsAt(events: seq<Event>, i: nat, counted: string -> bool, value: Event -> int)
    requires 0 < i < |events|
  {
    events[i].phase == events[i - 1].phase && counted(events[i].phase) && value(events[i]) < value(events[i - 1])
  }

  function Capped(n: int): int {
    if n <= MAX_U64 then n else MAX_U64
  }

  lemma {:induction false} BlockEndsAppend(events: seq<Event>, e: Event)
    ensures events != [] ==>
            BlockEnds(events) != [] && BlockEnds(events)[|BlockEnds(events)| - 1] == events[|events| - 1]
    ensures BlockEnds(events + [e]) ==
              if events != [] && events[|events| - 1].phase == e.phase
              then BlockEnds(events)[..|BlockEnds(events)| - 1] + [e] else BlockEnds(events) + [e]
  {
    if |events| == 0 {
      assert events + [e] == [e];
    } else if |events| == 1 {
      assert (events + [e])[1..] == [e];
    } else {
      BlockEndsAppend(events[1..], e);
      assert (events + [e])[1..] == events[1..] + [e];
      var rest := BlockEnds(events[1..]);
      if events[0].phase != events[1].phase {
        assert ([events[0]] + rest)[..|rest|] == [events[0]] + rest[..|rest| - 1];
      }
    }
  }

  lemma {:induction false} LastValuesAppend(events: seq<Event>, e: Event, counted: string -> bool, value: Event -> int)
    ensures var c := Counted(counted, value);
            LastValues(events + [e], counted, value) == LastValues(events, counted, value) + c(e)
              - if events != [] && events[|events| - 1].phase == e.phase then c(events[|events| - 1]) else 0
  {
    var c := Counted(counted, value);
    BlockEndsAppend(events, e);
    var ends := BlockEnds(events);
    SumAppend(ends, [e], c);
    SumSingle(e, c);
    if events != [] {
      var init := ends[..|ends| - 1];
      assert ends == init + [ends[|ends| - 1]];
      SumAppend(init, [e], c);
    }
  }

  /** The rises add up to the blocks' last values exactly when no counter falls. */
  lemma {:induction false} RisenIsLastValues(events: seq<Event>, counted: string -> bool, value: Event -> int)
    requires forall e :: value(e) >= 0
    ensures Risen(events, counted, value) >= LastValues(events, counted, value)
    ensures Risen(events, counted, value) == LastValues(events, counted, value) <==> !Falls(events, counted, value)
  {
    if events != [] {
      var before, e := events[..|events| - 1], events[|events| - 1];
      assert events == before + [e];
      RisenIsLastValues(before, counted, value);
      LastValuesAppend(before, e, counted, value);
      FallsAppend(before, e, counted, value);
    }
  }

  lemma {:induction false} FallsAppend(before: seq<Event>, e: Event, counted: string -> bool, value: Event -> int)
    ensures Falls(before + [e], counted, value) <==>
              Falls(before, counted, value) || (before != [] && FallsAt(before + [e], |before|, counted, value))
  {
    var events := before + [e];
    if Falls(before, counted, value) {
      var i :| 0 < i < |before| && FallsAt(before, i, counted, value);
      assert FallsAt(events, i, counted, value);
    }
    if Falls(events, counted, value) {
      var i :| 0 < i < |events| && FallsAt(events, i, counted, value);
      assert i < |before| ==> FallsAt(before, i, counted, value);
    }
  }

  function Files(): Event -> int {
    (e: Event) => e.files
  }

  function Bytes(): Event -> int {
    (e: Event) => e.bytes
  }

  ghost function TotalOf(events: seq<Event>, counted: string -> bool, value: Event -> int): int {
    Capped(Risen(events, counted, value))
  }

  /** One more event, as the saturating counters take it. */
  lemma {:induction false} TotalStep(events: seq<Event>, e: Event, counted: string -> bool, value: Event -> int,
                                     delta: U64)
    requires forall x :: 0 <= value(x) <= MAX_U64
    requires delta == Rise(events + [e], value)
    ensures 0 <= TotalOf(events, counted, value) <= MAX_U64
    ensures TotalOf(events + [e], counted, value) ==
              if counted(e.phase) then SaturatingAdd(TotalOf(events, counted, value), delta)
              else TotalOf(events, counted, value)
  {
    assert (events + [e])[..|events|] == events;
    RisenNonnegative(events, counted, value);
  }

  lemma {:induction false} RisenNonnegative(events: seq<Event>, counted: string -> bool, value: Event -> int)
    requires forall x :: value(x) >= 0
    ensures Risen(events, counted, value) >= 0
  {
    if events != [] {
      RisenNonnegative(events[..|events| - 1], counted, value);
    }
  }

  function LastSample(events: seq<Event>): Option<Sample> {
    if events == [] then None
    else Some(Sample(events[|events| - 1].phase, events[|events| - 1].files, events[|events| - 1].bytes))
  }

  /** The sizes reported last, by an event or directly. */
  function SnapshotSize(calls: seq<Call>): U64 {
    if calls == [] then 0
    else
      match calls[|calls| - 1]
      case Observe(e) => if PhaseOf(e.phase).Some? then e.snapshotBytes else SnapshotSize(calls[..|calls| - 1])
      case _ => SnapshotSize(calls[..|calls| - 1])
  }

  function ArchiveSize(calls: seq<Call>): U64 {
    if calls == [] then 0
    else
      match calls[|calls| - 1]
      case ArchiveBytes(bytes) => bytes
      case Observe(e) => if PhaseOf(e.phase).Some? then e.archiveBytes else ArchiveSize(calls[..|calls| - 1])
      case _ => ArchiveSize(calls[..|calls| - 1])
  }

  ghost function CountersOf(calls: seq<Call>): Counters {
    var events := Events(calls);
    TotalsInRange(events);
    Counters(TotalOf(events, CountsStorage, Files()), TotalOf(events, CountsStorage, Bytes()), 0,
             TotalOf(events, CountsZip, Files()), TotalOf(events, CountsZip, Bytes()),
             SnapshotSize(calls), ArchiveSize(calls))
  }

  lemma TotalsInRange(events: seq<Event>)
    ensures 0 <= TotalOf(events, CountsStorage, Files()) <= MAX_U64
            && 0 <= TotalOf(events, CountsStorage, Bytes()) <= MAX_U64
    ensures 0 <= TotalOf(events, CountsZip, Files()) <= MAX_U64 && 0 <= TotalOf(events, CountsZip, Bytes()) <= MAX_U64
  {
    RisenNonnegative(events, CountsStorage, Files());
    RisenNonnegative(events, CountsStorage, Bytes());
    RisenNonnegative(events, CountsZip, Files());
    RisenNonnegative(events, CountsZip, Bytes());
  }

  lemma {:induction false} OverlapsAppend(calls: seq<Call>, call: Call)
    ensures Overlaps(calls + [call]) <==> Overlaps(calls) || (call.Start? && Open(calls).Some?)
  {
    var more := calls + [call];
    assert more[..|calls|] == calls;
    if Overlaps(calls) {
      var i :| 0 <= i < |calls| && calls[i].Start? && Open(calls[..i]).Some?;
      assert more[..i] == calls[..i] && more[i] == calls[i];
    }
    if Overlaps(more) {
      var i :| 0 <= i < |more| && more[i].Start? && Open(more[..i]).Some?;
      assert i < |calls| ==> more[..i] == calls[..i] && more[i] == calls[i];
    }
    if call.Start? && Open(calls).Some? {
      assert more[|calls|].Start? && Open(more[..|calls|]).Some?;
    }
  }

  /** The records so far: well formed with this phase open exactly when no start
      ever overlapped, and no failure before the drop. */
  ghost predicate Matched(reports: seq<Report>, open: Option<Phase>, overlapped: bool) {
    Reading(reports) == (if overlapped then None else Some(open)) && Failures(reports) == 0
  }

  class Diagnostics {
    const enabled: bool
    var phase: Option<Phase>
    var counters: Counters
    var sample: Option<Sample>
    var reports: seq<Report>
    ghost var calls: seq<Call>

    ghost predicate Valid()
      reads this
    {
      && phase == Open(calls) && sample == LastSample(Events(calls)) && counters == CountersOf(calls)
      && Matched(reports, phase, Overlaps(calls))
    }

    constructor (enabled: bool)
      ensures this.enabled == enabled && calls == [] && reports == [] && phase == None && sample == None
      ensures counters == Counters(0, 0, 0, 0, 0, 0, 0)
      ensures Valid()
    {
      this.enabled := enabled;
      phase, counters, sample, reports, calls := None, NO_COUNTERS, None, [], [];
    }

    method Emit(status: Status)
      modifies `reports
      ensures reports == if phase.None? then old(reports) else old(reports) + [Report(phase.value, status, counters)]
    {
      if phase.Some? {
        reports := reports + [Report(phase.value, status, counters)];
      }
    }

    method Start(next: Phase)
      requires Valid()
      modifies this
      ensures Valid() && calls == if enabled then old(calls) + [Call.Start(next)] else old(calls)
      ensures counters == old(counters) && sample == old(sample) && phase == if enabled then Some(next) else old(phase)
      ensures reports == if enabled then old(reports) + [Report(next, Started, counters)] else old(reports)
    {
      hide Overlaps, CountersOf, Events, Reading, Failures, LastSample;
      if !enabled {
        return;
      }
      phase := Some(next);
      Emit(Started);
      Extended(calls, Call.Start(next));
      ReadingAppend(old(reports), reports[|reports| - 1]);
      calls := calls + [Call.Start(next)];
    }

    method Finish()
      requires Valid()
      modifies this
      ensures Valid() && calls == if enabled then old(calls) + [Call.Finish] else old(calls)
      ensures counters == old(counters) && sample == old(sample) && phase == if enabled then None else old(phase)
      ensures reports == if enabled && old(phase).Some?
                         then old(reports) + [Report(old(phase).value, Completed, counters)] else old(reports)
    {
      hide Overlaps, CountersOf, Events, Reading, Failures, LastSample;
      if !enabled {
        return;
      }
      Emit(Completed);
      Extended(calls, Call.Finish);
      if phase.Some? {
        ReadingAppend(old(reports), reports[|reports| - 1]);
      }
      phase := None;
      calls := calls + [Call.Finish];
    }

    /** The heartbeat worker reports the open phase, whenever it wakes up. */
    method Heartbeat()
      requires Valid()
      modifies this
      ensures Valid() && calls == if enabled then old(calls) + [Call.Heartbeat] else old(calls)
      ensures counters == old(counters) && sample == old(sample) && phase == old(phase)
      ensures reports == if enabled && phase.Some? then old(reports) + [Report(phase.value, Running, counters)]
                         else old(reports)
    {
      hide Overlaps, CountersOf, Events, Reading, Failures, LastSample;
      if !enabled {
        return;
      }
      Emit(Running);
      Extended(calls, Call.Heartbeat);
      if phase.Some? {
        ReadingAppend(old(reports), reports[|reports| - 1]);
      }
      calls := calls + [Call.Heartbeat];
    }

    method SetArchiveBytes(bytes: U64)
      requires Valid()
      modifies this
      ensures Valid() && calls == if enabled then old(calls) + [ArchiveBytes(bytes)] else old(calls)
      ensures sample == old(sample) && phase == old(phase) && reports == old(reports)
      ensures counters == if enabled then old(counters).(archiveBytes := bytes) else old(counters)
    {
      hide Overlaps, TotalOf;
      if !enabled {
        return;
      }
      counters := counters.(archiveBytes := bytes);
      Extended(calls, ArchiveBytes(bytes));
      calls := calls + [ArchiveBytes(bytes)];
    }

    /** Add what the event counts beyond the previous event of its fine phase. */
    method Tally(event: Event)
      requires PhaseOf(event.phase).Some?
      requires sample == LastSample(Events(calls)) && counters == CountersOf(calls)
      modifies `sample, `counters
      ensures sample == LastSample(Events(calls + [Observe(event)]))
      ensures counters == CountersOf(calls + [Observe(event)])
      ensures CountedOnce(old(counters), old(sample), event, counters)
      ensures sample == Some(Sample(event.phase, event.files, event.bytes))
    {
      hide TotalOf, PhaseOf, Events;
      var same := sample.Some? && sample.value.phase == event.phase;
      var files := if same then SaturatingSub(event.files, sample.value.files) else event.files;
      var bytes := if same then SaturatingSub(event.bytes, sample.value.bytes) else event.bytes;
      Observed(calls, event, files, bytes);
      if CountsStorage(event.phase) {
        counters := counters.(storageFiles := SaturatingAdd(counters.storageFiles, files),
                              storageBytes := SaturatingAdd(counters.storageBytes, bytes));
      } else if CountsZip(event.phase) {
        counters := counters.(zipFiles := SaturatingAdd(counters.zipFiles, files),
                              zipBytes := SaturatingAdd(counters.zipBytes, bytes));
      }
      counters := counters.(snapshotBytes := event.snapshotBytes);
      counters := counters.(archiveBytes := event.archiveBytes);
      sample := Some(Sample(event.phase, event.files, event.bytes));
    }

    method ObserveProgress(event: Event)
      requires Valid()
      modifies this
      ensures Valid() && calls == if enabled then old(calls) + [Observe(event)] else old(calls)
      ensures !enabled || (forall next :: !Opens(event.phase, next)) ==>
                counters == old(counters) && sample == old(sample) && phase == old(phase) && reports == old(reports)
      ensures forall next :: enabled && Opens(event.phase, next) ==>
                && CountedOnce(old(counters), old(sample), event, counters)
                && sample == Some(Sample(event.phase, event.files, event.bytes))
                && phase == (if next == Publish && event.state == "completed" then None else Some(next))
                && reports == old(reports) + Records(old(phase), next, event.state, old(counters), counters)
    {
      hide PhaseOf, Overlaps, CountersOf, Events, LastSample, Matched, CountedOnce, Opens, Records, Open;
      if !enabled {
        return;
      }
      forall next ensures PhaseOf(event.phase) == Some(next) <==> Opens(event.phase, next) {
        PhaseMeans(event.phase, next);
      }
      var next := PhaseOf(event.phase);
      ghost var after := calls + [Observe(event)];
      OverlapsAppend(calls, Observe(event));
      OpenNext(calls, event);
      if next.None? {
        Ignored(calls, event);
        calls := after;
        return;
      }
      var changed := phase != next;
      if changed {
        Emit(Completed);
        MatchedEnd(old(reports), old(phase), old(counters), Overlaps(calls));
        phase := next;
      }
      Tally(event);
      if changed {
        ghost var before := reports;
        Emit(Started);
        MatchedStart(before, Report(next.value, Started, counters), Overlaps(calls));
      }
      if next == Some(Publish) && event.state == "completed" {
        ghost var before := reports;
        Emit(Completed);
        MatchedEnd(before, phase, counters, Overlaps(calls));
        phase := None;
      }
      RecordsAre(old(reports), old(phase), next.value, event.state, old(counters), counters);
      calls := after;
    }

    /** What is left on drop is one failure of the phase still open, if any. */
    method Drop()
      requires Valid()
      modifies this
      ensures !enabled ==> reports == old(reports)
      ensures enabled ==> Reading(reports) == if Overlaps(calls) then None else Some(None)
      ensures enabled ==> phase == None && Failures(reports) == if old(phase).Some? then 1 else 0
      ensures reports == if enabled && old(phase).Some?
                         then old(reports) + [Report(old(phase).value, Failed, counters)] else old(reports)
      ensures calls == old(calls) && counters == old(counters) && old(reports) <= reports
    {
      hide Overlaps, CountersOf;
      if !enabled {
        return;
      }
      Emit(Failed);
      if phase.Some? {
        ReadingAppend(old(reports), reports[|reports| - 1]);
      }
      phase := None;
    }
  }


  lemma OpenNext(calls: seq<Call>, event: Event)
    ensures Open(calls + [Observe(event)]) ==
              if PhaseOf(event.phase).None? then Open(calls)
              else if PhaseOf(event.phase) == Some(Publish) && event.state == "completed" then None
              else PhaseOf(event.phase)
  {
    hide PhaseOf;
    assert (calls + [Observe(event)])[..|calls|] == calls;
  }

  lemma RecordsAre(reports: seq<Report>, open: Option<Phase>, next: Phase, state: string, before: Counters,
                   after: Counters)
    ensures var closed := if open.None? || open == Some(next) then reports
                          else reports + [Report(open.value, Completed, before)];
            var both := if open == Some(next) then closed else closed + [Report(next, Started, after)];
            reports + Records(open, next, state, before, after)
            == if next == Publish && state == "completed" then both + [Report(Publish, Completed, after)] else both
  {
  }

  /** How one more call changes what the fields must be. */
  lemma {:induction false} Extended(calls: seq<Call>, call: Call)
    ensures (calls + [call])[..|calls|] == calls
    ensures Overlaps(calls + [call]) <==> Overlaps(calls) || (call.Start? && Open(calls).Some?)
    ensures !call.Observe? ==> Events(calls + [call]) == Events(calls)
    ensures !call.Observe? ==>
              CountersOf(calls + [call]) == if call.ArchiveBytes? then CountersOf(calls).(archiveBytes := call.bytes)
                                            else CountersOf(calls)
  {
    hide TotalOf, Overlaps;
    assert (calls + [call])[..|calls|] == calls;
    OverlapsAppend(calls, call);
    assert Events(calls) + [] == Events(calls);
  }

  lemma MatchedEnd(reports: seq<Report>, open: Option<Phase>, counters: Counters, overlapped: bool)
    requires Matched(reports, open, overlapped)
    ensures Matched(if open.None? then reports else reports + [Report(open.value, Completed, counters)],
                    None, overlapped)
  {
    if open.Some? {
      ReadingAppend(reports, Report(open.value, Completed, counters));
    }
  }

  lemma MatchedStart(reports: seq<Report>, start: Report, overlapped: bool)
    requires Matched(reports, None, overlapped) && start.status == Started
    ensures Matched(reports + [start], Some(start.phase), overlapped)
  {
    ReadingAppend(reports, start);
  }

  lemma {:induction false} Ignored(calls: seq<Call>, event: Event)
    requires PhaseOf(event.phase).None?
    ensures Events(calls + [Observe(event)]) == Events(calls)
    ensures CountersOf(calls + [Observe(event)]) == CountersOf(calls)
    ensures Open(calls + [Observe(event)]) == Open(calls)
  {
    hide PhaseOf, TotalOf;
    assert (calls + [Observe(event)])[..|calls|] == calls;
    assert Events(calls) + [] == Events(calls);
  }

  lemma EventsNext(calls: seq<Call>, event: Event)
    requires PhaseOf(event.phase).Some?
    ensures (calls + [Observe(event)])[..|calls|] == calls
    ensures Events(calls + [Observe(event)]) == Events(calls) + [event]
  {
    hide PhaseOf;
    assert (calls + [Observe(event)])[..|calls|] == calls;
  }

  lemma {:induction false} Observed(calls: seq<Call>, event: Event, files: U64, bytes: U64)
    requires PhaseOf(event.phase).Some?
    requires var sample := LastSample(Events(calls));
             if sample.Some? && sample.value.phase == event.phase
             then files == SaturatingSub(event.files, sample.value.files)
                  && bytes == SaturatingSub(event.bytes, sample.value.bytes)
             else files == event.files && bytes == event.bytes
    ensures LastSample(Events(calls + [Observe(event)])) == Some(Sample(event.phase, event.files, event.bytes))
    ensures var c := CountersOf(calls);
            var storage, zip := CountsStorage(event.phase), CountsZip(event.phase);
            CountersOf(calls + [Observe(event)]) ==
              Counters(if storage then SaturatingAdd(c.storageFiles, files) else c.storageFiles,
                       if storage then SaturatingAdd(c.storageBytes, bytes) else c.storageBytes, 0,
                       if zip then SaturatingAdd(c.zipFiles, files) else c.zipFiles,
                       if zip then SaturatingAdd(c.zipBytes, bytes) else c.zipBytes,
                       event.snapshotBytes, event.archiveBytes)
  {
    hide PhaseOf, TotalOf;
    var events := Events(calls);
    EventsNext(calls, event);
    hide Events;
    TotalStep(events, event, CountsStorage, Files(), files);
    TotalStep(events, event, CountsStorage, Bytes(), bytes);
    TotalStep(events, event, CountsZip, Files(), files);
    TotalStep(events, event, CountsZip, Bytes(), bytes);
  }

  // ----- main results

  /** However many progress events arrive, a total is the capped sum of each
      block's last value exactly when no counter falls within a counted block, or
      that sum reaches the cap anyway. */
  lemma {:induction false} TotalsAreLastValues(events: seq<Event>, counted: string -> bool, value: Event -> int)
    requires forall e :: 0 <= value(e) <= MAX_U64
    ensures TotalOf(events, counted, value) == Capped(LastValues(events, counted, value))
            <==> !Falls(events, counted, value) || LastValues(events, counted, value) >= MAX_U64
  {
    hide Falls, LastValues, Risen;
    RisenIsLastValues(events, counted, value);
  }

  /** An inventory that reports five files and then three: the total stays at five. */
  lemma {:induction false} FallingCounter()
    ensures var five := Event("storage_inventory", "progress", 5, 0, 0, 0);
            var three := Event("storage_inventory", "completed", 3, 0, 0, 0);
            var events := [five, three];
            && Falls(events, CountsStorage, Files())
            && TotalOf(events, CountsStorage, Files()) == 5 && LastValues(events, CountsStorage, Files()) == 3
  {
    var five := Event("storage_inventory", "progress", 5, 0, 0, 0);
    var three := Event("storage_inventory", "completed", 3, 0, 0, 0);
    var events := [five, three];
    assert FallsAt(events, 1, CountsStorage, Files());
    assert events[..1] == [five] && [five][..0] == [];
    assert Risen([five], CountsStorage, Files()) == 5;
    assert events[1..] == [three];
    SumSingle(three, Counted(CountsStorage, Files()));
  }

  /** Starting a phase inside another one: the records are then not matched pairs,
      and no later call can repair them. */
  lemma {:induction false} StartInsideStart(counters: Counters)
    ensures Overlaps([Call.Start(Verify), Call.Start(Publish)])
    ensures Reading([Report(Verify, Started, counters), Report(Publish, Started, counters)]) == None
  {
    hide Overlaps;
    var first, second := Report(Verify, Started, counters), Report(Publish, Started, counters);
    assert [Call.Start(Verify), Call.Start(Publish)] == [Call.Start(Verify)] + [Call.Start(Publish)];
    OverlapsAppend([Call.Start(Verify)], Call.Start(Publish));
    assert [first, second] == [first] + [second] && [] + [first] == [first];
    ReadingAppend([], first);
    ReadingAppend([first], second);
  }

  /** A malformed beginning stays malformed: a well-formed stream has only
      well-formed beginnings. */
  lemma {:induction false} ReadingPrefix(reports: seq<Report>, i: nat)
    requires i <= |reports| && Reading(reports).Some?
    ensures Reading(reports[..i]).Some?
    decreases |reports|
  {
    if i == |reports| {
      assert reports[..i] == reports;
    } else {
      ReadingPrefix(reports[..|reports| - 1], i);
      assert reports[..|reports| - 1][..i] == reports[..i];
    }
  }
}
