/** The CI gate runner: one gate after another, or in two parallel phases that
    must come to the same release decision.

    What a gate's process does is an input, one attempt per gate; threads finish
    in any order.
 */
module GateRunner {
  import opened Sql
  import Order

  datatype Category = Quality | Performance | Security | Docs

  datatype Status = Pass | Fail | Skip

  datatype Decision = Go | NoGo

  datatype Mode = Full | Quick

  datatype Gate = Gate(name: string, category: Category, command: seq<string>, skipInQuick: bool)

  datatype Failure =
    | EmptyCommand | SpawnFailed | MissingArtifacts(missing: seq<string>) | Stderr(tail: string)
    | TimedOut | WaitFailed | WorkerPanicked | ResultMissing

  datatype Result = Result(name: string, category: Category, status: Status, elapsed: nat, command: string,
                           failure: Option<Failure>)

  /** What running a gate's command comes to. */
  datatype Ending =
    | CannotSpawn
    | Succeeded(missing: seq<string>)
    | Exited(tail: string)
    | Timeout
    | WaitError
    | Panic

  datatype Attempt = Attempt(elapsed: nat, ending: Ending)

  function Join(parts: seq<string>): string {
    if parts == [] then "" else if |parts| == 1 then parts[0] else parts[0] + " " + Join(parts[1..])
  }

  function PassResult(gate: Gate, elapsed: nat): Result {
    Result(gate.name, gate.category, Pass, elapsed, Join(gate.command), None)
  }

  function FailResult(gate: Gate, elapsed: nat, failure: Option<Failure>): Result {
    Result(gate.name, gate.category, Fail, elapsed, Join(gate.command), failure)
  }

  function SkipResult(gate: Gate, reason: string): Result {
    Result(gate.name, gate.category, Skip, 0, reason, None)
  }

  const QUICK_REASON := "--quick mode"
  const COMPILE_REASON := "skipped due to compile failure"

  /** The result of one gate; none when running it panics. */
  function RunGate(gate: Gate, mode: Mode, attempt: Attempt): Option<Result> {
    if mode == Quick && gate.skipInQuick then Some(SkipResult(gate, QUICK_REASON))
    else if gate.command == [] then Some(FailResult(gate, 0, Some(EmptyCommand)))
    else
      match attempt.ending
      case CannotSpawn => Some(FailResult(gate, attempt.elapsed, Some(SpawnFailed)))
      case Succeeded(missing) =>
        Some(if missing == [] then PassResult(gate, attempt.elapsed)
             else FailResult(gate, attempt.elapsed, Some(MissingArtifacts(missing))))
      case Exited(tail) => Some(FailResult(gate, attempt.elapsed, if tail == "" then None else Some(Stderr(tail))))
      case Timeout => Some(FailResult(gate, attempt.elapsed, Some(TimedOut)))
      case WaitError => Some(FailResult(gate, attempt.elapsed, Some(WaitFailed)))
      case Panic => None
  }

  // ----- one gate in words

  /** What the gate is run for: not left out of a quick run. */
  ghost predicate IsRun(gate: Gate, mode: Mode) {
    mode == Full || !gate.skipInQuick
  }

  /** The command ran, succeeded, and left everything that was asked of it. */
  ghost predicate IsGood(gate: Gate, attempt: Attempt) {
    gate.command != [] && attempt.ending == Succeeded([])
  }

  /** Why a gate that was run is no success. */
  ghost predicate IsReason(gate: Gate, attempt: Attempt, failure: Option<Failure>) {
    if gate.command == [] then failure == Some(EmptyCommand)
    else
      && (attempt.ending == CannotSpawn ==> failure == Some(SpawnFailed))
      && (attempt.ending.Succeeded? ==> failure == Some(MissingArtifacts(attempt.ending.missing)))
      && (attempt.ending == Exited("") ==> failure == None)
      && (attempt.ending.Exited? && attempt.ending.tail != "" ==> failure == Some(Stderr(attempt.ending.tail)))
      && (attempt.ending == Timeout ==> failure == Some(TimedOut))
      && (attempt.ending == WaitError ==> failure == Some(WaitFailed))
      && (attempt.ending == Panic ==> failure == Some(WorkerPanicked))
  }

  /** In words: a gate left out is skipped; one that is run passes if it is good, and
      is a failure for whatever else became of it. */
  ghost predicate Decides(gate: Gate, mode: Mode, attempt: Attempt, r: Result) {
    && r.name == gate.name && r.category == gate.category
    && (!IsRun(gate, mode) ==> r.status == Skip && r.command == "--quick mode" && r.failure == None && r.elapsed == 0)
    && (IsRun(gate, mode) ==> r.command == Join(gate.command))
    && (IsRun(gate, mode) && IsGood(gate, attempt) ==>
          r.status == Pass && r.failure == None && r.elapsed == attempt.elapsed)
    && (IsRun(gate, mode) && !IsGood(gate, attempt) ==>
          && r.status == Fail && IsReason(gate, attempt, r.failure)
          && r.elapsed == if gate.command == [] || attempt.ending == Panic then 0 else attempt.elapsed)
  }

  /** Running the gate's command panics. */
  ghost predicate Panics(gate: Gate, mode: Mode, attempt: Attempt) {
    IsRun(gate, mode) && gate.command != [] && attempt.ending == Panic
  }

  lemma {:induction false} RunGateMeans(gate: Gate, mode: Mode, attempt: Attempt)
    ensures RunGate(gate, mode, attempt).None? <==> Panics(gate, mode, attempt)
    ensures RunGate(gate, mode, attempt).Some? ==>
              Decides(gate, mode, attempt, RunGate(gate, mode, attempt).value)
  {
    hide Join;
  }

  /** The words of a command with one space between any two. */
  lemma {:induction false} JoinSnoc(parts: seq<string>, last: string)
    ensures Join([]) == ""
    ensures Join(parts + [last]) == if parts == [] then last else Join(parts) + " " + last
  {
    if parts == [] {
      assert parts + [last] == [last];
    } else {
      assert (parts + [last])[1..] == parts[1..] + [last];
      JoinSnoc(parts[1..], last);
      if |parts| == 1 {
        assert parts[1..] == [];
      } else {
        assert parts[0] + " " + (Join(parts[1..]) + " " + last) == parts[0] + " " + Join(parts[1..]) + " " + last;
      }
    }
  }

  // ----- summary and decision

  datatype Summary = Summary(total: nat, pass: nat, fail: nat, skip: nat)

  datatype Report = Report(mode: Mode, decision: Decision, eligible: bool, summary: Summary, gates: seq<Result>)

  function Has(status: Status): Result -> int {
    (r: Result) => if r.status == status then 1 else 0
  }

  ghost predicate AnyFails(results: seq<Result>) {
    exists i :: 0 <= i < |results| && results[i].status == Fail
  }

  /** Which results have this status. */
  ghost function Which(results: seq<Result>, status: Status): set<nat> {
    set i: nat | i < |results| && results[i].status == status
  }

  lemma {:induction false} HasCounts(results: seq<Result>, status: Status)
    ensures Sum(results, Has(status)) == |Which(results, status)|
  {
    if results == [] {
      assert Which(results, status) == {};
    } else {
      var n := |results| - 1;
      HasCounts(results[..n], status);
      WhichStep(results, n, status);
      hide Which;
    }
  }

  lemma WhichStep(results: seq<Result>, n: nat, status: Status)
    requires |results| == n + 1
    ensures n !in Which(results[..n], status)
    ensures Which(results, status)
            == Which(results[..n], status) + if results[n].status == status then {n} else {}
  {
  }

  lemma {:induction false} CountsFailures(results: seq<Result>)
    ensures Sum(results, Has(Fail)) >= 0
    ensures Sum(results, Has(Fail)) > 0 <==> AnyFails(results)
  {
    if results != [] {
      var before := results[..|results| - 1];
      CountsFailures(before);
      if AnyFails(results) {
        var i :| 0 <= i < |results| && results[i].status == Fail;
        assert i < |before| ==> before[i].status == Fail;
      }
      if AnyFails(before) {
        var i :| 0 <= i < |before| && before[i].status == Fail;
        assert results[i].status == Fail;
      }
    }
  }

  method Summarize(results: seq<Result>) returns (summary: Summary)
    ensures summary.total == |results| == summary.pass + summary.fail + summary.skip
    ensures summary.pass == Sum(results, Has(Pass)) && summary.fail == Sum(results, Has(Fail))
    ensures summary.skip == Sum(results, Has(Skip))
    ensures summary == Summary(|results|, |Which(results, Pass)|, |Which(results, Fail)|, |Which(results, Skip)|)
  {
    var pass, fail, skip: nat := 0, 0, 0;
    for i := 0 to |results|
      invariant pass == Sum(results[..i], Has(Pass)) && fail == Sum(results[..i], Has(Fail))
      invariant skip == Sum(results[..i], Has(Skip)) && pass + fail + skip == i
    {
      SumNext(results, i, Has(Pass));
      SumNext(results, i, Has(Fail));
      SumNext(results, i, Has(Skip));
      match results[i].status
      case Pass => pass := pass + 1;
      case Fail => fail := fail + 1;
      case Skip => skip := skip + 1;
    }
    assert results[..|results|] == results;
    summary := Summary(|results|, pass, fail, skip);
    HasCounts(results, Pass);
    HasCounts(results, Fail);
    HasCounts(results, Skip);
  }

  /** A release goes ahead exactly when a full run has no failed gate. */
  method NewReport(mode: Mode, results: seq<Result>) returns (report: Report)
    ensures report.gates == results && report.mode == mode
    ensures report.summary.total == |results| == report.summary.pass + report.summary.fail + report.summary.skip
    ensures report.summary
            == Summary(|results|, |Which(results, Pass)|, |Which(results, Fail)|, |Which(results, Skip)|)
    ensures report.decision == Go <==> mode == Full && !AnyFails(results)
    ensures report.eligible <==> report.decision == Go
  {
    var summary := Summarize(results);
    CountsFailures(results);
    var decision :=
      if summary.fail > 0 then NoGo
      else if mode == Quick then NoGo
      else Go;
    report := Report(mode, decision, decision == Go, summary, results);
  }

  // ----- the sequential runner

  /** One result per gate, in input order, each from its own run. */
  ghost predicate IsSequential(gates: seq<Gate>, mode: Mode, attempts: seq<Attempt>, results: seq<Result>)
    requires |attempts| == |gates|
  {
    |results| == |gates| && forall i :: 0 <= i < |gates| ==> Some(results[i]) == RunGate(gates[i], mode, attempts[i])
  }

  /** In words: a release goes ahead after a full run in which every gate is good. */
  ghost predicate AllGood(gates: seq<Gate>, attempts: seq<Attempt>)
    requires |attempts| == |gates|
  {
    forall i :: 0 <= i < |gates| ==> IsGood(gates[i], attempts[i])
  }

  lemma {:induction false} SequentialMeans(gates: seq<Gate>, mode: Mode, attempts: seq<Attempt>, results: seq<Result>)
    requires |attempts| == |gates| && IsSequential(gates, mode, attempts, results)
    ensures forall i :: 0 <= i < |gates| ==> Decides(gates[i], mode, attempts[i], results[i])
    ensures mode == Full && !AnyFails(results) <==> mode == Full && AllGood(gates, attempts)
  {
    hide RunGate, IsReason;
    forall i | 0 <= i < |gates| ensures Decides(gates[i], mode, attempts[i], results[i]) {
      assert Some(results[i]) == RunGate(gates[i], mode, attempts[i]);
      RunGateMeans(gates[i], mode, attempts[i]);
    }
  }

  /** None when a gate panics: the panic leaves the runner. */
  method RunGates(gates: seq<Gate>, mode: Mode, attempts: seq<Attempt>) returns (report: Option<Report>)
    requires |attempts| == |gates|
    ensures report.Some? <==> forall i :: 0 <= i < |gates| ==> !Panics(gates[i], mode, attempts[i])
    ensures report.Some? ==>
              var results := report.value.gates;
              && IsSequential(gates, mode, attempts, results)
              && (forall i :: 0 <= i < |gates| ==> Decides(gates[i], mode, attempts[i], results[i]))
              && (report.value.decision == Go <==> mode == Full && AllGood(gates, attempts))
              && (report.value.eligible <==> report.value.decision == Go) && report.value.mode == mode
              && report.value.summary
                 == Summary(|gates|, |Which(results, Pass)|, |Which(results, Fail)|, |Which(results, Skip)|)
              && report.value.summary.total
                 == report.value.summary.pass + report.value.summary.fail + report.value.summary.skip
  {
    hide RunGate, AnyFails, AllGood, Decides, Which, Panics;
    var results: seq<Result> := [];
    for i := 0 to |gates|
      invariant |results| == i
      invariant forall k :: 0 <= k < i ==> Some(results[k]) == RunGate(gates[k], mode, attempts[k])
      invariant forall k :: 0 <= k < i ==> !Panics(gates[k], mode, attempts[k])
    {
      var result := RunGate(gates[i], mode, attempts[i]);
      RunGateMeans(gates[i], mode, attempts[i]);
      if result.None? {
        return None;
      }
      results := results + [result.value];
    }
    var whole := NewReport(mode, results);
    SequentialMeans(gates, mode, attempts, results);
    report := Some(whole);
  }

  // ----- the parallel runner

  predicate IsCompile(gate: Gate) {
    gate.name == "Format check" || gate.name == "Clippy" || gate.name == "Build workspace"
  }

  /** Indices of the gates of one phase, in order. */
  function Indices(gates: seq<Gate>, n: nat, compile: bool): seq<nat>
    requires n <= |gates|
  {
    if n == 0 then []
    else Indices(gates, n - 1, compile) + if IsCompile(gates[n - 1]) == compile then [n - 1] else []
  }

  lemma {:induction false} IndicesIncrease(gates: seq<Gate>, n: nat, compile: bool)
    requires n <= |gates|
    ensures var indices := Indices(gates, n, compile);
            && InRange(indices, n)
            && (forall i :: 0 <= i < |indices| ==> IsCompile(gates[indices[i]]) == compile)
            && (forall i, j :: 0 <= i < j < |indices| ==> indices[i] < indices[j])
  {
    hide IsCompile;
    if n > 0 {
      IndicesIncrease(gates, n - 1, compile);
    }
  }

  ghost predicate Holds(indices: seq<nat>, k: nat) {
    exists i :: 0 <= i < |indices| && indices[i] == k
  }

  lemma {:induction false} IndicesCover(gates: seq<Gate>, n: nat, compile: bool, k: nat)
    requires k < n <= |gates| && IsCompile(gates[k]) == compile
    ensures Holds(Indices(gates, n, compile), k)
    decreases n
  {
    hide IsCompile;
    var indices := Indices(gates, n, compile);
    if k == n - 1 {
      assert indices[|indices| - 1] == k;
    } else {
      IndicesCover(gates, n - 1, compile, k);
      var before := Indices(gates, n - 1, compile);
      var i :| 0 <= i < |before| && before[i] == k;
      assert indices[i] == k;
    }
  }

  /** Each phase gets exactly its gates, in order. */
  lemma {:induction false} IndicesAre(gates: seq<Gate>, n: nat, compile: bool)
    requires n <= |gates|
    ensures var indices := Indices(gates, n, compile);
            && InRange(indices, n)
            && (forall i :: 0 <= i < |indices| ==> IsCompile(gates[indices[i]]) == compile)
            && (forall i, j :: 0 <= i < j < |indices| ==> indices[i] < indices[j])
            && (forall k: nat :: k < n && IsCompile(gates[k]) == compile ==> Holds(indices, k))
  {
    hide IsCompile, Indices, Holds;
    IndicesIncrease(gates, n, compile);
    forall k: nat | k < n && IsCompile(gates[k]) == compile ensures Holds(Indices(gates, n, compile), k) {
      IndicesCover(gates, n, compile, k);
    }
  }

  /** Joining a worker: its result, or a failure if it panicked. */
  function Joined(gate: Gate, mode: Mode, attempt: Attempt): Result {
    var result := RunGate(gate, mode, attempt);
    if result.Some? then result.value else FailResult(gate, 0, Some(WorkerPanicked))
  }

  type Indexed = seq<(nat, Result)>

  predicate InRange(indices: seq<nat>, n: nat) {
    forall i :: 0 <= i < |indices| ==> indices[i] < n
  }

  /** One phase: every worker finishes, in the given order; they are joined in the
      order they were started. */
  method RunPhase(gates: seq<Gate>, mode: Mode, attempts: seq<Attempt>, indices: seq<nat>, finishing: seq<nat>)
    returns (results: Indexed)
    requires |attempts| == |gates| && InRange(indices, |gates|)
    requires multiset(finishing) == multiset(indices)
    ensures |results| == |indices|
    ensures forall i :: 0 <= i < |indices| ==>
              results[i] == (indices[i], Joined(gates[indices[i]], mode, attempts[indices[i]]))
  {
    hide RunGate;
    SameElements(indices, finishing, |gates|);
    var finished: map<nat, Option<Result>> := map[];
    for t := 0 to |finishing|
      invariant forall u :: 0 <= u < t ==> finishing[u] in finished
      invariant forall k :: k in finished ==> k < |gates| && finished[k] == RunGate(gates[k], mode, attempts[k])
    {
      var k := finishing[t];
      finished := finished[k := RunGate(gates[k], mode, attempts[k])];
    }
    results := [];
    for i := 0 to |indices|
      invariant |results| == i
      invariant forall j :: 0 <= j < i ==>
                  results[j] == (indices[j], Joined(gates[indices[j]], mode, attempts[indices[j]]))
    {
      var k := indices[i];
      var result := match finished[k]
        case Some(result) => result
        case None => FailResult(gates[k], 0, Some(WorkerPanicked));
      results := results + [(k, result)];
    }
  }

  lemma SameElements(a: seq<nat>, b: seq<nat>, n: nat)
    requires multiset(a) == multiset(b) && InRange(a, n)
    ensures InRange(b, n)
    ensures forall i :: 0 <= i < |a| ==> exists j :: 0 <= j < |b| && b[j] == a[i]
  {
    forall i | 0 <= i < |a| ensures exists j :: 0 <= j < |b| && b[j] == a[i] {
      assert a[i] in multiset(a);
      assert a[i] in b;
    }
    forall j | 0 <= j < |b| ensures b[j] < n {
      assert b[j] in multiset(b);
      assert b[j] in a;
    }
  }

  predicate ByIndex(p: (nat, Result), q: (nat, Result)) {
    p.0 < q.0
  }

  ghost predicate Present(results: Indexed, k: nat) {
    exists i :: 0 <= i < |results| && results[i].0 == k
  }

  ghost predicate Complete(results: Indexed, n: nat) {
    forall k: nat :: k < n ==> Present(results, k)
  }

  ghost predicate Keyed(results: Indexed, n: nat) {
    && (forall i, j :: 0 <= i < j < |results| ==> results[i].0 != results[j].0)
    && (forall i :: 0 <= i < |results| ==> results[i].0 < n)
  }

  /** One failure for every gate that has no result; nothing else changes. */
  method FillMissing(gates: seq<Gate>, results: Indexed) returns (filled: Indexed)
    requires Keyed(results, |gates|)
    ensures Keyed(filled, |gates|) && Complete(filled, |gates|)
    ensures results <= filled
    ensures forall i :: |results| <= i < |filled| ==>
              !Present(results, filled[i].0)
              && filled[i].1 == FailResult(gates[filled[i].0], 0, Some(ResultMissing))
    ensures Complete(results, |gates|) ==> filled == results
  {
    var seen: set<nat> := {};
    for i := 0 to |results|
      invariant forall j :: 0 <= j < i ==> results[j].0 in seen
      invariant forall k :: k in seen ==> Present(results, k)
    {
      seen := seen + {results[i].0};
    }
    filled := results;
    for k := 0 to |gates|
      invariant results <= filled && Keyed(filled, |gates|) && Complete(filled, k)
      invariant forall i :: |results| <= i < |filled| ==> filled[i].0 < k
      invariant forall i :: |results| <= i < |filled| ==>
                  !Present(results, filled[i].0)
                  && filled[i].1 == FailResult(gates[filled[i].0], 0, Some(ResultMissing))
      invariant Complete(results, |gates|) ==> filled == results
    {
      if k !in seen {
        assert !Present(results, k);
        StillPresent(filled, filled + [(k, FailResult(gates[k], 0, Some(ResultMissing)))], k);
        filled := filled + [(k, FailResult(gates[k], 0, Some(ResultMissing)))];
        assert filled[|filled| - 1].0 == k;
      } else {
        var i :| 0 <= i < |results| && results[i].0 == k;
        assert filled[i].0 == k;
      }
      assert Present(filled, k);
    }
  }

  lemma StillPresent(before: Indexed, after: Indexed, n: nat)
    requires before <= after && Complete(before, n)
    ensures Complete(after, n)
  {
    forall k: nat | k < n ensures Present(after, k) {
      assert Present(before, k);
      var i :| 0 <= i < |before| && before[i].0 == k;
      assert after[i].0 == k;
    }
  }

  /** Complete results sorted by index are the gates' results in input order. */
  lemma {:induction false} SortedInOrder(results: Indexed, n: nat)
    requires Keyed(results, n) && Complete(results, n)
    ensures var sorted := Order.Sort(results, ByIndex);
            |sorted| == n && forall k :: 0 <= k < n ==> sorted[k].0 == k && sorted[k] in results
  {
    hide Order.Sort;
    Order.SortIncreasing(results, ByIndex);
    Order.SortMembers(results, ByIndex);
    var sorted := Order.Sort(results, ByIndex);
    forall k: nat | k < n ensures Present(sorted, k) {
      assert Present(results, k);
      var i :| 0 <= i < |results| && results[i].0 == k;
      assert results[i] in sorted;
      var p :| 0 <= p < |sorted| && sorted[p] == results[i];
    }
    forall p | 0 <= p < |sorted| ensures sorted[p].0 < n {
      assert sorted[p] in results;
      var i :| 0 <= i < |results| && results[i] == sorted[p];
    }
    AtLeast(sorted);
    Filled(sorted, n, n);
  }

  lemma {:induction false} AtLeast(sorted: Indexed)
    requires Order.Increasing(sorted, ByIndex)
    ensures forall k :: 0 <= k < |sorted| ==> sorted[k].0 >= k
  {
    for k := 0 to |sorted|
      invariant forall j :: 0 <= j < k ==> sorted[j].0 >= j
    {
      assert k > 0 ==> ByIndex(sorted[k - 1], sorted[k]);
    }
  }

  lemma {:induction false} Filled(sorted: Indexed, k: nat, n: nat)
    requires k <= n && Complete(sorted, n)
    requires forall i :: 0 <= i < |sorted| ==> i <= sorted[i].0 < n
    ensures k <= |sorted| <= n
    ensures forall j :: 0 <= j < k ==> sorted[j].0 == j
    decreases k
  {
    if k > 0 {
      Filled(sorted, k - 1, n);
      assert Present(sorted, k - 1);
      var p :| 0 <= p < |sorted| && sorted[p].0 == k - 1;
      assert p >= k - 1;
    }
    assert |sorted| > 0 ==> sorted[|sorted| - 1].0 >= |sorted| - 1;
  }

  ghost predicate CompileFails(gates: seq<Gate>, mode: Mode, attempts: seq<Attempt>)
    requires |attempts| == |gates|
  {
    exists i :: 0 <= i < |gates| && IsCompile(gates[i]) && Joined(gates[i], mode, attempts[i]).status == Fail
  }

  /** What the parallel runner must report for gate `i`. */
  ghost function Expected(gates: seq<Gate>, mode: Mode, attempts: seq<Attempt>, i: nat): Result
    requires |attempts| == |gates| && i < |gates|
  {
    if !IsCompile(gates[i]) && CompileFails(gates, mode, attempts) then SkipResult(gates[i], COMPILE_REASON)
    else Joined(gates[i], mode, attempts[i])
  }

  ghost predicate IsParallel(gates: seq<Gate>, mode: Mode, attempts: seq<Attempt>, results: seq<Result>)
    requires |attempts| == |gates|
  {
    |results| == |gates| && forall i :: 0 <= i < |gates| ==> results[i] == Expected(gates, mode, attempts, i)
  }

  /** Every result so far is the one its gate must get. */
  ghost predicate Right(gates: seq<Gate>, mode: Mode, attempts: seq<Attempt>, results: Indexed)
    requires |attempts| == |gates|
  {
    forall i :: 0 <= i < |results| ==>
      results[i].0 < |gates| && results[i].1 == Expected(gates, mode, attempts, results[i].0)
  }

  lemma {:induction false} PhasesComplete(gates: seq<Gate>, results: Indexed)
    requires var indices := Indices(gates, |gates|, true) + Indices(gates, |gates|, false);
             |results| == |indices| && forall i :: 0 <= i < |indices| ==> results[i].0 == indices[i]
    ensures Keyed(results, |gates|) && Complete(results, |gates|)
  {
    hide IsCompile, Indices;
    IndicesAre(gates, |gates|, true);
    IndicesAre(gates, |gates|, false);
    var compile, others := Indices(gates, |gates|, true), Indices(gates, |gates|, false);
    var indices := compile + others;
    forall k: nat | k < |gates| ensures Present(results, k) {
      if IsCompile(gates[k]) {
        assert Holds(compile, k);
        var i :| 0 <= i < |compile| && compile[i] == k;
        assert results[i].0 == indices[i] == k;
      } else {
        assert Holds(others, k);
        var i :| 0 <= i < |others| && others[i] == k;
        assert results[|compile| + i].0 == indices[|compile| + i] == k;
      }
    }
    forall i, j | 0 <= i < j < |results| ensures results[i].0 != results[j].0 {
      if i < |compile| && j >= |compile| {
        assert IsCompile(gates[indices[i]]) && !IsCompile(gates[indices[j]]);
      }
    }
  }

  /** The first phase decides: a compile gate failed exactly when its result says so. */
  lemma {:induction false} CompilePhase(gates: seq<Gate>, mode: Mode, attempts: seq<Attempt>, results: Indexed)
    requires |attempts| == |gates| && |results| == |Indices(gates, |gates|, true)|
    requires InRange(Indices(gates, |gates|, true), |gates|)
    requires var indices := Indices(gates, |gates|, true);
             forall i :: 0 <= i < |indices| ==>
               results[i] == (indices[i], Joined(gates[indices[i]], mode, attempts[indices[i]]))
    ensures (exists i :: 0 <= i < |results| && results[i].1.status == Fail) <==> CompileFails(gates, mode, attempts)
    ensures Right(gates, mode, attempts, results)
  {
    hide IsCompile, Indices, Joined, CompileFails;
    IndicesAre(gates, |gates|, true);
    FailsMeans(gates, mode, attempts, Indices(gates, |gates|, true), results);
  }

  lemma {:induction false} FailsMeans(gates: seq<Gate>, mode: Mode, attempts: seq<Attempt>, indices: seq<nat>,
                                      results: Indexed)
    requires |attempts| == |gates| && InRange(indices, |gates|) && |results| == |indices|
    requires forall i :: 0 <= i < |indices| ==> IsCompile(gates[indices[i]])
    requires forall k: nat :: k < |gates| && IsCompile(gates[k]) ==> Holds(indices, k)
    requires forall i :: 0 <= i < |indices| ==>
               results[i] == (indices[i], Joined(gates[indices[i]], mode, attempts[indices[i]]))
    ensures (exists i :: 0 <= i < |results| && results[i].1.status == Fail) <==> CompileFails(gates, mode, attempts)
  {
    hide IsCompile, Joined;
    if exists i :: 0 <= i < |results| && results[i].1.status == Fail {
      var i :| 0 <= i < |results| && results[i].1.status == Fail;
      assert IsCompile(gates[indices[i]]);
    }
    if CompileFails(gates, mode, attempts) {
      var k :| 0 <= k < |gates| && IsCompile(gates[k]) && Joined(gates[k], mode, attempts[k]).status == Fail;
      assert Holds(indices, k);
      var i :| 0 <= i < |indices| && indices[i] == k;
      assert results[i].1.status == Fail;
    }
  }

  /** The second phase: run everything else, or skip it all. */
  method RunRest(gates: seq<Gate>, mode: Mode, attempts: seq<Attempt>, others: seq<nat>, finishing: seq<nat>,
                 compileFailed: bool)
    returns (results: Indexed)
    requires |attempts| == |gates| && InRange(others, |gates|) && multiset(finishing) == multiset(others)
    requires forall i :: 0 <= i < |others| ==> !IsCompile(gates[others[i]])
    requires compileFailed <==> CompileFails(gates, mode, attempts)
    ensures |results| == |others| && forall i :: 0 <= i < |others| ==> results[i].0 == others[i]
    ensures Right(gates, mode, attempts, results)
  {
    hide IsCompile, Joined, CompileFails;
    if compileFailed {
      results := [];
      for i := 0 to |others|
        invariant |results| == i
        invariant forall j :: 0 <= j < i ==>
                    results[j] == (others[j], SkipResult(gates[others[j]], COMPILE_REASON))
      {
        results := results + [(others[i], SkipResult(gates[others[i]], COMPILE_REASON))];
      }
    } else {
      results := RunPhase(gates, mode, attempts, others, finishing);
    }
  }

  // ----- both phases in words

  ghost predicate IsEarlyGate(gate: Gate) {
    gate.name in {"Format check", "Clippy", "Build workspace"}
  }

  /** Formatting, linting or building was run and is not good. */
  ghost predicate EarlyFails(gates: seq<Gate>, mode: Mode, attempts: seq<Attempt>)
    requires |attempts| == |gates|
  {
    exists i :: 0 <= i < |gates| && IsEarlyGate(gates[i]) && IsRun(gates[i], mode) && !IsGood(gates[i], attempts[i])
  }

  /** In words: when one of those three fails, every other gate is left out. */
  ghost predicate DecidesInPhase(gates: seq<Gate>, mode: Mode, attempts: seq<Attempt>, i: nat, r: Result)
    requires |attempts| == |gates| && i < |gates|
  {
    if EarlyFails(gates, mode, attempts) && !IsEarlyGate(gates[i])
    then r == Result(gates[i].name, gates[i].category, Skip, 0, "skipped due to compile failure", None)
    else Decides(gates[i], mode, attempts[i], r)
  }

  lemma {:induction false} JoinedMeans(gate: Gate, mode: Mode, attempt: Attempt)
    ensures Decides(gate, mode, attempt, Joined(gate, mode, attempt))
    ensures IsCompile(gate) <==> IsEarlyGate(gate)
  {
    hide Join;
    RunGateMeans(gate, mode, attempt);
  }

  lemma {:induction false} ParallelMeans(gates: seq<Gate>, mode: Mode, attempts: seq<Attempt>, results: seq<Result>)
    requires |attempts| == |gates| && IsParallel(gates, mode, attempts, results)
    ensures forall i :: 0 <= i < |gates| ==> DecidesInPhase(gates, mode, attempts, i, results[i])
    ensures mode == Full && !AnyFails(results) <==> mode == Full && AllGood(gates, attempts)
  {
    hide RunGate, IsReason, IsCompile, IsEarlyGate, Joined;
    forall i | 0 <= i < |gates|
      ensures Decides(gates[i], mode, attempts[i], Joined(gates[i], mode, attempts[i]))
      ensures IsCompile(gates[i]) <==> IsEarlyGate(gates[i])
    {
      JoinedMeans(gates[i], mode, attempts[i]);
    }
    assert CompileFails(gates, mode, attempts) <==> EarlyFails(gates, mode, attempts);
    forall i | 0 <= i < |gates| ensures DecidesInPhase(gates, mode, attempts, i, results[i]) {
      assert results[i] == Expected(gates, mode, attempts, i);
    }
    if EarlyFails(gates, mode, attempts) {
      var c :| 0 <= c < |gates| && IsEarlyGate(gates[c]) && IsRun(gates[c], mode) && !IsGood(gates[c], attempts[c]);
      assert DecidesInPhase(gates, mode, attempts, c, results[c]) && results[c].status == Fail;
      assert AnyFails(results) && !AllGood(gates, attempts);
    } else if mode == Full {
      forall i | 0 <= i < |gates| ensures results[i].status == Fail <==> !IsGood(gates[i], attempts[i]) {
        assert DecidesInPhase(gates, mode, attempts, i, results[i]);
      }
    }
  }

  /** Two phases, whatever the threads' finishing orders: one result per gate in
      input order, and a decision from all of them. */
  method RunGatesParallel(gates: seq<Gate>, mode: Mode, attempts: seq<Attempt>, first: seq<nat>, second: seq<nat>)
    returns (report: Report)
    requires |attempts| == |gates|
    requires multiset(first) == multiset(Indices(gates, |gates|, true))
    requires multiset(second) == multiset(Indices(gates, |gates|, false))
    ensures IsParallel(gates, mode, attempts, report.gates)
    ensures forall i :: 0 <= i < |gates| ==> DecidesInPhase(gates, mode, attempts, i, report.gates[i])
    ensures report.decision == Go <==> mode == Full && AllGood(gates, attempts)
    ensures report.eligible <==> report.decision == Go
    ensures report.mode == mode
    ensures report.summary == Summary(|gates|, |Which(report.gates, Pass)|, |Which(report.gates, Fail)|,
                                      |Which(report.gates, Skip)|)
    ensures report.summary.total == |gates| == report.summary.pass + report.summary.fail + report.summary.skip
  {
    hide Indices, IsCompile, Joined, CompileFails, Order.Sort, AnyFails, Expected, Keyed, Complete, Right, AllGood,
         DecidesInPhase, Which;
    var compile := Indices(gates, |gates|, true);
    var others := Indices(gates, |gates|, false);
    IndicesAre(gates, |gates|, true);
    IndicesAre(gates, |gates|, false);
    var indexed := RunPhase(gates, mode, attempts, compile, first);
    CompilePhase(gates, mode, attempts, indexed);
    var compileFailed := exists i :: 0 <= i < |indexed| && indexed[i].1.status == Fail;
    var rest := RunRest(gates, mode, attempts, others, second, compileFailed);
    RightAppend(gates, mode, attempts, indexed, rest);
    indexed := indexed + rest;
    PhasesComplete(gates, indexed);
    indexed := FillMissing(gates, indexed);
    SortedInOrder(indexed, |gates|);
    var sorted := Order.Sort(indexed, ByIndex);
    var results: seq<Result> := [];
    for i := 0 to |sorted|
      invariant |results| == i
      invariant forall k :: 0 <= k < i ==> results[k] == sorted[k].1
    {
      results := results + [sorted[i].1];
    }
    RightOnes(gates, mode, attempts, indexed, sorted);
    report := NewReport(mode, results);
    ParallelMeans(gates, mode, attempts, results);
  }

  lemma RightAppend(gates: seq<Gate>, mode: Mode, attempts: seq<Attempt>, results: Indexed, more: Indexed)
    requires |attempts| == |gates| && Right(gates, mode, attempts, results) && Right(gates, mode, attempts, more)
    ensures Right(gates, mode, attempts, results + more)
  {
    hide Expected;
  }

  lemma RightOnes(gates: seq<Gate>, mode: Mode, attempts: seq<Attempt>, results: Indexed, sorted: Indexed)
    requires |attempts| == |gates| == |sorted| && Right(gates, mode, attempts, results)
    requires forall k :: 0 <= k < |sorted| ==> sorted[k].0 == k && sorted[k] in results
    ensures forall k :: 0 <= k < |sorted| ==> sorted[k].1 == Expected(gates, mode, attempts, k)
  {
    hide Expected;
    forall k | 0 <= k < |sorted| ensures sorted[k].1 == Expected(gates, mode, attempts, k) {
      var i :| 0 <= i < |results| && results[i] == sorted[k];
    }
  }

  // ----- the two runners compared

  /** The parallel results are the sequential ones exactly when no compile gate
      fails or there is nothing but compile gates; a failure is found by both or
      by neither, so they decide alike. */
  lemma {:induction false} ParallelDecidesAlike(gates: seq<Gate>, mode: Mode, attempts: seq<Attempt>,
                                                sequential: seq<Result>, parallel: seq<Result>)
    requires |attempts| == |gates|
    requires IsSequential(gates, mode, attempts, sequential) && IsParallel(gates, mode, attempts, parallel)
    ensures sequential == parallel <==>
              !CompileFails(gates, mode, attempts) || forall i :: 0 <= i < |gates| ==> IsCompile(gates[i])
    ensures AnyFails(sequential) <==> AnyFails(parallel)
  {
    hide IsCompile, RunGate;
    forall i | 0 <= i < |gates| ensures Joined(gates[i], mode, attempts[i]) == sequential[i] {
      assert Some(sequential[i]) == RunGate(gates[i], mode, attempts[i]);
    }
    if CompileFails(gates, mode, attempts) {
      var c :| 0 <= c < |gates| && IsCompile(gates[c]) && Joined(gates[c], mode, attempts[c]).status == Fail;
      assert parallel[c] == sequential[c];
      forall i | 0 <= i < |gates| && !IsCompile(gates[i]) ensures sequential[i] != parallel[i] {
        NotCompileSkip(gates[i], mode, attempts[i]);
      }
    }
  }

  lemma {:induction false} NotCompileSkip(gate: Gate, mode: Mode, attempt: Attempt)
    ensures RunGate(gate, mode, attempt) != Some(SkipResult(gate, COMPILE_REASON))
  {
    assert QUICK_REASON[0] == '-' && COMPILE_REASON[0] == 's';
  }
}
