/**
 * `run_workflow`: one validation pass. The catalog comes from the scraper,
 * the caps and targets from the environment, each test from the tester
 * oracle, and the stop flag from the runner.
 *
 * The stop flag is read once per inner-loop iteration, before the cap
 * check, and once more after the loop. `stopAfter == Some(k)` means the
 * flag is seen set from the `k`-th read on (counting from zero); once set
 * it stays set. `None` stands for a run without a stop event, or one that
 * is never stopped.
 *
 * The observable behaviour is the trace: every log line, every call of
 * `test_proxy` and the one call of `persist_results`, in order.
 */
module Workflow {
  import opened Wrappers
  import opened Tester
  import opened Run
  import Scraper

  // ---------------------------------------------------------------------
  // The trace

  /** One `test_proxy` call as the oracle sees it: how many calls came before, the proxy, the target. */
  datatype Probe = Probe(index: nat, proxy: string, target: string)

  /** A tested (proxy, target) pair. */
  datatype Pair = Pair(proxy: string, target: string)

  /** A working-proxy record; the latency is the tester's tick count. */
  datatype Record = Record(proxy: string, latency: nat, scheme: Option<Scheme>, target: string)

  /** The log lines of a pass; `SavedTo` is the line naming the output file. */
  datatype LogLine =
    | Scraping
    | TotalFound(count: nat)
    | TestingFirst(count: nat)
    | TestingTarget(target: string)
    | Ok(proxy: string, scheme: Option<Scheme>, latency: nat)
    | Fail(proxy: string)
    | Stopped
    | SummaryHeader
    | WorkingCount(count: nat)
    | SavedTo

  datatype Effect = Emit(line: LogLine) | Test(pair: Pair) | Persist(records: seq<Record>)

  /** The `test_proxy` calls of a trace, in order. */
  function TestsOf(trace: seq<Effect>): seq<Pair> {
    if trace == [] then []
    else
      var n := |trace| - 1;
      TestsOf(trace[..n]) + if trace[n].Test? then [trace[n].pair] else []
  }

  predicate IsReport(e: Effect) {
    e.Emit? && (e.line.Ok? || e.line.Fail?)
  }

  /** The `[OK]` and `[FAIL]` lines of a trace, in order. */
  function ReportsOf(trace: seq<Effect>): seq<LogLine> {
    if trace == [] then []
    else
      var n := |trace| - 1;
      ReportsOf(trace[..n]) + if IsReport(trace[n]) then [trace[n].line] else []
  }

  predicate NoPersist(trace: seq<Effect>) {
    forall k :: 0 <= k < |trace| ==> !trace[k].Persist?
  }

  lemma {:induction false} TestsOfAppend(a: seq<Effect>, b: seq<Effect>)
    ensures TestsOf(a + b) == TestsOf(a) + TestsOf(b)
    decreases |b|
  {
    if b == [] {
      assert a + b == a;
    } else {
      var n := |b| - 1;
      TestsOfAppend(a, b[..n]);
      assert (a + b)[..|a| + n] == a + b[..n];
      assert (a + b)[|a| + n] == b[n];
    }
  }

  lemma {:induction false} ReportsOfAppend(a: seq<Effect>, b: seq<Effect>)
    ensures ReportsOf(a + b) == ReportsOf(a) + ReportsOf(b)
    decreases |b|
  {
    if b == [] {
      assert a + b == a;
    } else {
      var n := |b| - 1;
      ReportsOfAppend(a, b[..n]);
      assert (a + b)[..|a| + n] == a + b[..n];
      assert (a + b)[|a| + n] == b[n];
    }
  }

  lemma FiltersAppend(a: seq<Effect>, b: seq<Effect>)
    ensures TestsOf(a + b) == TestsOf(a) + TestsOf(b)
    ensures ReportsOf(a + b) == ReportsOf(a) + ReportsOf(b)
  {
    TestsOfAppend(a, b);
    ReportsOfAppend(a, b);
  }

  // ---------------------------------------------------------------------
  // What each test contributes

  predicate IsSuccess(o: Outcome) {
    o.working && o.latency.Some?
  }

  function RecordOf(p: Pair, o: Outcome): Record
    requires IsSuccess(o)
  {
    Record(p.proxy, o.latency.value, o.scheme, p.target)
  }

  function ReportOf(p: Pair, o: Outcome): LogLine {
    if IsSuccess(o) then Ok(p.proxy, o.scheme, o.latency.value) else Fail(p.proxy)
  }

  function OutcomeAt(pairs: seq<Pair>, k: nat, test: Probe -> Outcome): Outcome
    requires k < |pairs|
  {
    test(Probe(k, pairs[k].proxy, pairs[k].target))
  }

  /** The records the given tests produce: one per success, in test order. */
  function Successes(pairs: seq<Pair>, test: Probe -> Outcome): seq<Record> {
    if pairs == [] then []
    else
      var n := |pairs| - 1;
      var o := OutcomeAt(pairs, n, test);
      Successes(pairs[..n], test) + if IsSuccess(o) then [RecordOf(pairs[n], o)] else []
  }

  /** The report lines the given tests produce: exactly one per test, in test order. */
  function Reports(pairs: seq<Pair>, test: Probe -> Outcome): (lines: seq<LogLine>)
    ensures |lines| == |pairs|
  {
    if pairs == [] then []
    else
      var n := |pairs| - 1;
      Reports(pairs[..n], test) + [ReportOf(pairs[n], OutcomeAt(pairs, n, test))]
  }

  lemma SuccessesSnoc(pairs: seq<Pair>, p: Pair, test: Probe -> Outcome)
    ensures var o := test(Probe(|pairs|, p.proxy, p.target));
            && Successes(pairs + [p], test) == Successes(pairs, test) + (if IsSuccess(o) then [RecordOf(p, o)] else [])
            && Reports(pairs + [p], test) == Reports(pairs, test) + [ReportOf(p, o)]
  {
    assert (pairs + [p])[..|pairs|] == pairs;
  }

  // ---------------------------------------------------------------------
  // The pass as a function of its inputs

  /** The state a pass carries from step to step. */
  datatype Progress = Progress(trace: seq<Effect>, working: seq<Record>, polls: nat, tests: nat)

  predicate StopSeen(stopAfter: Option<nat>, poll: nat) {
    stopAfter.Some? && stopAfter.value <= poll
  }

  /** How many candidates a target gets: all of them, or the first `cap`. */
  function Quota(count: nat, cap: Option<nat>): (q: nat)
    ensures q <= count
    ensures cap.Some? ==> q <= cap.value
    ensures q == count || (cap.Some? && q == cap.value)
  {
    if cap.Some? && cap.value < count then cap.value else count
  }

  /** `proxies[:limit]` when the global cap is in force. */
  function Capped(catalog: seq<string>, cap: Option<nat>): (proxies: seq<string>)
    ensures proxies <= catalog
    ensures |proxies| == Quota(|catalog|, cap)
  {
    catalog[..Quota(|catalog|, cap)]
  }

  /** One test: the call, then its record when it worked, then its report line. */
  function TestStep(st: Progress, proxy: string, target: string, test: Probe -> Outcome): Progress {
    var o := test(Probe(st.tests, proxy, target));
    var p := Pair(proxy, target);
    Progress(
      st.trace + [Test(p), Emit(ReportOf(p, o))],
      st.working + (if IsSuccess(o) then [RecordOf(p, o)] else []),
      st.polls,
      st.tests + 1)
  }

  /** The inner loop over the candidates for one target, from candidate `j` on. */
  function TargetPass(proxies: seq<string>, cap: Option<nat>, target: string, test: Probe -> Outcome,
                      stopAfter: Option<nat>, j: nat, st: Progress): Progress
    requires j <= |proxies|
    decreases |proxies| - j
  {
    if j == |proxies| then st
    else
      var polled := st.(polls := st.polls + 1);
      if StopSeen(stopAfter, st.polls) then polled
      else if cap.Some? && j >= cap.value then polled
      else TargetPass(proxies, cap, target, test, stopAfter, j + 1, TestStep(polled, proxies[j], target, test))
  }

  /** The outer loop over the targets, from target `i` on. */
  function TargetsPass(targets: seq<string>, proxies: seq<string>, cap: Option<nat>, test: Probe -> Outcome,
                       stopAfter: Option<nat>, i: nat, st: Progress): Progress
    requires i <= |targets|
    decreases |targets| - i
  {
    if i == |targets| then st
    else
      var announced := st.(trace := st.trace + [Emit(TestingTarget(targets[i]))]);
      TargetsPass(targets, proxies, cap, test, stopAfter, i + 1,
                  TargetPass(proxies, cap, targets[i], test, stopAfter, 0, announced))
  }

  /** The lines before the loop: scraping, the catalog size, and the global cap when in force. */
  function Opening(catalog: seq<string>, env: Env): seq<Effect> {
    var cap := PositiveCap(env.maxProxies);
    [Emit(Scraping), Emit(TotalFound(|catalog|))]
    + if cap.Some? then [Emit(TestingFirst(|Capped(catalog, cap)|))] else []
  }

  /** The effects after the loop: the one persist, `Stopped` if the flag is set, the summary. */
  function Closing(working: seq<Record>, stopped: bool): seq<Effect> {
    [Persist(working)]
    + (if stopped then [Emit(Stopped)] else [])
    + [Emit(SummaryHeader), Emit(WorkingCount(|working|)), Emit(SavedTo)]
  }

  function Loop(catalog: seq<string>, env: Env, test: Probe -> Outcome, stopAfter: Option<nat>): Progress {
    TargetsPass(TargetList(env.targetUrls, env.targetUrl), Capped(catalog, PositiveCap(env.maxProxies)),
                PositiveCap(env.maxPerTarget), test, stopAfter, 0, Progress(Opening(catalog, env), [], 0, 0))
  }

  datatype Pass = Pass(working: seq<Record>, trace: seq<Effect>)

  /** The pass over a given catalog: its result list and its trace. */
  function WorkflowOf(catalog: seq<string>, env: Env, test: Probe -> Outcome, stopAfter: Option<nat>): Pass {
    var st := Loop(catalog, env, test, stopAfter);
    Pass(st.working, st.trace + Closing(st.working, StopSeen(stopAfter, st.polls)))
  }

  /** Effects that are neither a test nor a report: banners, announcements, the persist, the summary. */
  predicate Quiet(trace: seq<Effect>) {
    forall k :: 0 <= k < |trace| ==> !trace[k].Test? && !IsReport(trace[k])
  }

  lemma {:induction false} QuietFilters(trace: seq<Effect>)
    requires Quiet(trace)
    ensures TestsOf(trace) == [] && ReportsOf(trace) == []
    decreases |trace|
  {
    if trace != [] {
      QuietFilters(trace[..|trace| - 1]);
    }
  }

  lemma {:induction false} TestsOfPrefix(a: seq<Effect>, b: seq<Effect>)
    requires a <= b
    ensures TestsOf(a) <= TestsOf(b)
  {
    FiltersAppend(a, b[|a|..]);
    assert a + b[|a|..] == b;
  }

  /** The records and report lines agree with the tests made so far. */
  predicate Consistent(st: Progress, test: Probe -> Outcome) {
    var pairs := TestsOf(st.trace);
    && st.tests == |pairs|
    && st.working == Successes(pairs, test)
    && ReportsOf(st.trace) == Reports(pairs, test)
  }

  /** Every test was preceded by a read of the stop flag that found it clear. */
  predicate Bounded(st: Progress, stopAfter: Option<nat>) {
    st.tests <= st.polls && (stopAfter.Some? ==> st.tests <= stopAfter.value)
  }

  lemma TestStepFilters(st: Progress, proxy: string, target: string, test: Probe -> Outcome)
    ensures var o := test(Probe(st.tests, proxy, target));
            var r := TestStep(st, proxy, target, test);
            && TestsOf(r.trace) == TestsOf(st.trace) + [Pair(proxy, target)]
            && ReportsOf(r.trace) == ReportsOf(st.trace) + [ReportOf(Pair(proxy, target), o)]
  {
    var p := Pair(proxy, target);
    var tail := [Test(p), Emit(ReportOf(p, test(Probe(st.tests, proxy, target))))];
    FiltersAppend(st.trace, tail);
    assert TestsOf([Test(p)]) == [p] && ReportsOf([Test(p)]) == [] by {
      assert [Test(p)][..0] == [];
    }
    assert tail[..1] == [Test(p)];
    assert TestsOf(tail) == [p];
    assert ReportsOf(tail) == [tail[1].line];
  }

  lemma TestStepConsistent(st: Progress, proxy: string, target: string, test: Probe -> Outcome)
    requires Consistent(st, test)
    ensures Consistent(TestStep(st, proxy, target, test), test)
  {
    TestStepFilters(st, proxy, target, test);
    SuccessesSnoc(TestsOf(st.trace), Pair(proxy, target), test);
  }

  lemma {:induction false} TargetPassGrows(proxies: seq<string>, cap: Option<nat>, target: string, test: Probe -> Outcome,
                                           stopAfter: Option<nat>, j: nat, st: Progress)
    requires j <= |proxies|
    ensures var r := TargetPass(proxies, cap, target, test, stopAfter, j, st);
            && st.trace <= r.trace && st.working <= r.working && st.polls <= r.polls
            && (Consistent(st, test) ==> Consistent(r, test))
            && (NoPersist(st.trace) ==> NoPersist(r.trace))
            && (Bounded(st, stopAfter) ==> Bounded(r, stopAfter))
    decreases |proxies| - j
  {
    if j < |proxies| && !StopSeen(stopAfter, st.polls) && !(cap.Some? && j >= cap.value) {
      var polled := st.(polls := st.polls + 1);
      var next := TestStep(polled, proxies[j], target, test);
      TargetPassGrows(proxies, cap, target, test, stopAfter, j + 1, next);
      if Consistent(st, test) {
        TestStepConsistent(polled, proxies[j], target, test);
      }
    }
  }

  lemma {:induction false} TargetsPassGrows(targets: seq<string>, proxies: seq<string>, cap: Option<nat>,
                                            test: Probe -> Outcome, stopAfter: Option<nat>, i: nat, st: Progress)
    requires i <= |targets|
    ensures var r := TargetsPass(targets, proxies, cap, test, stopAfter, i, st);
            && st.trace <= r.trace && st.working <= r.working && st.polls <= r.polls
            && (Consistent(st, test) ==> Consistent(r, test))
            && (NoPersist(st.trace) ==> NoPersist(r.trace))
            && (Bounded(st, stopAfter) ==> Bounded(r, stopAfter))
    decreases |targets| - i
  {
    if i < |targets| {
      var line := [Emit(TestingTarget(targets[i]))];
      var announced := st.(trace := st.trace + line);
      if Consistent(st, test) {
        FiltersAppend(st.trace, line);
        QuietFilters(line);
        assert TestsOf(announced.trace) == TestsOf(st.trace) by {
          assert TestsOf(st.trace) + [] == TestsOf(st.trace);
        }
        assert ReportsOf(announced.trace) == ReportsOf(st.trace) by {
          assert ReportsOf(st.trace) + [] == ReportsOf(st.trace);
        }
        assert Consistent(announced, test);
      }
      TargetPassGrows(proxies, cap, targets[i], test, stopAfter, 0, announced);
      TargetsPassGrows(targets, proxies, cap, test, stopAfter, i + 1,
                       TargetPass(proxies, cap, targets[i], test, stopAfter, 0, announced));
    }
  }

  /** The `Testing target` lines for the given targets, in order. */
  function Announcements(targets: seq<string>): (lines: seq<Effect>)
    ensures |lines| == |targets|
    ensures forall k :: 0 <= k < |targets| ==> lines[k] == Emit(TestingTarget(targets[k]))
  {
    if targets == [] then [] else [Emit(TestingTarget(targets[0]))] + Announcements(targets[1..])
  }

  lemma TargetPassAfterStop(proxies: seq<string>, cap: Option<nat>, target: string, test: Probe -> Outcome,
                            stopAfter: Option<nat>, j: nat, st: Progress)
    requires j <= |proxies| && StopSeen(stopAfter, st.polls)
    ensures var r := TargetPass(proxies, cap, target, test, stopAfter, j, st);
            r.trace == st.trace && r.working == st.working && r.tests == st.tests && StopSeen(stopAfter, r.polls)
  {
  }

  /**
   * Once the flag is seen set, the outer loop still announces every
   * remaining target, and does nothing else.
   */
  lemma {:induction false} TargetsPassAfterStop(targets: seq<string>, proxies: seq<string>, cap: Option<nat>,
                                                test: Probe -> Outcome, stopAfter: Option<nat>, i: nat, st: Progress)
    requires i <= |targets| && StopSeen(stopAfter, st.polls)
    ensures var r := TargetsPass(targets, proxies, cap, test, stopAfter, i, st);
            r.trace == st.trace + Announcements(targets[i..]) && r.working == st.working && r.tests == st.tests
    decreases |targets| - i
  {
    if i == |targets| {
      assert st.trace + Announcements(targets[i..]) == st.trace;
    } else {
      var announced := st.(trace := st.trace + [Emit(TestingTarget(targets[i]))]);
      var r1 := TargetPass(proxies, cap, targets[i], test, stopAfter, 0, announced);
      TargetPassAfterStop(proxies, cap, targets[i], test, stopAfter, 0, announced);
      TargetsPassAfterStop(targets, proxies, cap, test, stopAfter, i + 1, r1);
      assert targets[i..][1..] == targets[i + 1..];
      assert st.trace + Announcements(targets[i..])
             == st.trace + [Emit(TestingTarget(targets[i]))] + Announcements(targets[i + 1..]);
    }
  }

  /** Stopping only cuts a target's pass short: what it did is a prefix of the unstopped pass. */
  lemma {:induction false} TargetPassCancel(proxies: seq<string>, cap: Option<nat>, target: string,
                                            test: Probe -> Outcome, stopAfter: Option<nat>, j: nat, st: Progress)
    requires j <= |proxies|
    ensures var a := TargetPass(proxies, cap, target, test, stopAfter, j, st);
            var b := TargetPass(proxies, cap, target, test, None, j, st);
            && a.trace <= b.trace && a.working <= b.working
            && (a == b || StopSeen(stopAfter, a.polls))
    decreases |proxies| - j
  {
    if j < |proxies| {
      var polled := st.(polls := st.polls + 1);
      if StopSeen(stopAfter, st.polls) {
        TargetPassGrows(proxies, cap, target, test, None, j, st);
      } else if !(cap.Some? && j >= cap.value) {
        TargetPassCancel(proxies, cap, target, test, stopAfter, j + 1, TestStep(polled, proxies[j], target, test));
      }
    }
  }

  lemma {:induction false} TargetsPassCancel(targets: seq<string>, proxies: seq<string>, cap: Option<nat>,
                                             test: Probe -> Outcome, stopAfter: Option<nat>, i: nat, st: Progress)
    requires i <= |targets|
    ensures var a := TargetsPass(targets, proxies, cap, test, stopAfter, i, st);
            var b := TargetsPass(targets, proxies, cap, test, None, i, st);
            TestsOf(a.trace) <= TestsOf(b.trace) && a.working <= b.working
    decreases |targets| - i
  {
    if i < |targets| {
      var announced := st.(trace := st.trace + [Emit(TestingTarget(targets[i]))]);
      var a1 := TargetPass(proxies, cap, targets[i], test, stopAfter, 0, announced);
      var b1 := TargetPass(proxies, cap, targets[i], test, None, 0, announced);
      TargetPassCancel(proxies, cap, targets[i], test, stopAfter, 0, announced);
      if a1 == b1 {
        TargetsPassCancel(targets, proxies, cap, test, stopAfter, i + 1, a1);
      } else {
        TargetsPassAfterStop(targets, proxies, cap, test, stopAfter, i + 1, a1);
        var a := TargetsPass(targets, proxies, cap, test, stopAfter, i + 1, a1);
        FiltersAppend(a1.trace, Announcements(targets[i + 1..]));
        QuietFilters(Announcements(targets[i + 1..]));
        TargetsPassGrows(targets, proxies, cap, test, None, i + 1, b1);
        var b := TargetsPass(targets, proxies, cap, test, None, i + 1, b1);
        TestsOfPrefix(a1.trace, b1.trace);
        TestsOfPrefix(b1.trace, b.trace);
      }
    }
  }

  // ---------------------------------------------------------------------
  // The schedule of an unstopped pass

  /** `target` paired with each candidate in turn. */
  function Pairs(proxies: seq<string>, target: string): (pairs: seq<Pair>)
    ensures |pairs| == |proxies|
  {
    if proxies == [] then [] else [Pair(proxies[0], target)] + Pairs(proxies[1..], target)
  }

  lemma {:induction false} PairsAt(proxies: seq<string>, target: string, m: nat)
    requires m < |proxies|
    ensures Pairs(proxies, target)[m] == Pair(proxies[m], target)
    decreases m
  {
    if m > 0 {
      PairsAt(proxies[1..], target, m - 1);
    }
  }

  /** Target by target, the first `Quota` candidates in catalog order. */
  function Schedule(targets: seq<string>, proxies: seq<string>, cap: Option<nat>): seq<Pair> {
    if targets == [] then []
    else Pairs(proxies[..Quota(|proxies|, cap)], targets[0]) + Schedule(targets[1..], proxies, cap)
  }

  lemma {:induction false} TargetPassUncancelled(proxies: seq<string>, cap: Option<nat>, target: string,
                                                 test: Probe -> Outcome, j: nat, st: Progress)
    requires j <= |proxies|
    ensures var q := Quota(|proxies|, cap);
            var from := if j <= q then j else q;
            TestsOf(TargetPass(proxies, cap, target, test, None, j, st).trace)
            == TestsOf(st.trace) + Pairs(proxies[from..q], target)
    decreases |proxies| - j
  {
    var q := Quota(|proxies|, cap);
    if j < |proxies| && !(cap.Some? && j >= cap.value) {
      var polled := st.(polls := st.polls + 1);
      var next := TestStep(polled, proxies[j], target, test);
      TestStepFilters(polled, proxies[j], target, test);
      TargetPassUncancelled(proxies, cap, target, test, j + 1, next);
      assert proxies[j..q][1..] == proxies[j + 1..q];
      assert Pairs(proxies[j..q], target) == [Pair(proxies[j], target)] + Pairs(proxies[j + 1..q], target);
      AppendAssoc(TestsOf(st.trace), [Pair(proxies[j], target)], Pairs(proxies[j + 1..q], target));
    } else {
      assert proxies[(if j <= q then j else q)..q] == [];
    }
  }

  lemma {:induction false} TargetsPassUncancelled(targets: seq<string>, proxies: seq<string>, cap: Option<nat>,
                                                  test: Probe -> Outcome, i: nat, st: Progress)
    requires i <= |targets|
    ensures TestsOf(TargetsPass(targets, proxies, cap, test, None, i, st).trace)
            == TestsOf(st.trace) + Schedule(targets[i..], proxies, cap)
    decreases |targets| - i
  {
    if i < |targets| {
      var line := [Emit(TestingTarget(targets[i]))];
      var announced := st.(trace := st.trace + line);
      TestsOfAppend(st.trace, line);
      QuietFilters(line);
      assert TestsOf(announced.trace) == TestsOf(st.trace) by {
        assert TestsOf(st.trace) + [] == TestsOf(st.trace);
      }
      var block := Pairs(proxies[..Quota(|proxies|, cap)], targets[i]);
      var r1 := TargetPass(proxies, cap, targets[i], test, None, 0, announced);
      TargetPassUncancelled(proxies, cap, targets[i], test, 0, announced);
      assert TestsOf(r1.trace) == TestsOf(st.trace) + block;
      TargetsPassUncancelled(targets, proxies, cap, test, i + 1, r1);
      assert targets[i..][1..] == targets[i + 1..];
      assert Schedule(targets[i..], proxies, cap) == block + Schedule(targets[i + 1..], proxies, cap);
      AppendAssoc(TestsOf(st.trace), block, Schedule(targets[i + 1..], proxies, cap));
    }
  }

  lemma AppendAssoc<T>(a: seq<T>, b: seq<T>, c: seq<T>)
    ensures a + (b + c) == (a + b) + c
  {
  }

  lemma {:induction false} ScheduleAppend(t1: seq<string>, t2: seq<string>, proxies: seq<string>, cap: Option<nat>)
    ensures Schedule(t1 + t2, proxies, cap) == Schedule(t1, proxies, cap) + Schedule(t2, proxies, cap)
    decreases |t1|
  {
    if t1 == [] {
      assert t1 + t2 == t2;
      assert [] + Schedule(t2, proxies, cap) == Schedule(t2, proxies, cap);
    } else {
      var block := Pairs(proxies[..Quota(|proxies|, cap)], t1[0]);
      var rest1, rest2 := Schedule(t1[1..], proxies, cap), Schedule(t2, proxies, cap);
      ScheduleAppend(t1[1..], t2, proxies, cap);
      assert (t1 + t2)[1..] == t1[1..] + t2;
      assert Schedule(t1 + t2, proxies, cap) == block + (rest1 + rest2);
      AppendAssoc(block, rest1, rest2);
    }
  }

  /** Each target gets `Quota` tests, so the schedule has `|targets| * Quota` of them. */
  lemma {:induction false} ScheduleLength(targets: seq<string>, proxies: seq<string>, cap: Option<nat>)
    ensures |Schedule(targets, proxies, cap)| == |targets| * Quota(|proxies|, cap)
    decreases |targets|
  {
    if targets != [] {
      var q := Quota(|proxies|, cap);
      ScheduleLength(targets[1..], proxies, cap);
      assert |Schedule(targets, proxies, cap)| == q + (|targets| - 1) * q;
      MulSucc(|targets| - 1, q);
    }
  }

  lemma MulSucc(a: nat, q: nat)
    ensures q + a * q == (a + 1) * q
  {
  }

  /**
   * The schedule is one block per target in target order: target `i` tried
   * against the first `Quota` candidates in catalog order.
   */
  lemma ScheduleBlock(targets: seq<string>, proxies: seq<string>, cap: Option<nat>, i: nat)
    requires i < |targets|
    ensures Schedule(targets, proxies, cap)
            == Schedule(targets[..i], proxies, cap)
               + Pairs(proxies[..Quota(|proxies|, cap)], targets[i])
               + Schedule(targets[i + 1..], proxies, cap)
  {
    assert targets == targets[..i] + targets[i..];
    ScheduleAppend(targets[..i], targets[i..], proxies, cap);
    assert targets[i..][1..] == targets[i + 1..];
  }

  // ---------------------------------------------------------------------
  // Properties of a whole pass

  lemma OpeningQuiet(catalog: seq<string>, env: Env)
    ensures Quiet(Opening(catalog, env)) && NoPersist(Opening(catalog, env))
  {
  }

  lemma PassFacts(targets: seq<string>, proxies: seq<string>, cap: Option<nat>, test: Probe -> Outcome,
                  stopAfter: Option<nat>, opening: seq<Effect>)
    requires Quiet(opening) && NoPersist(opening)
    ensures var st := TargetsPass(targets, proxies, cap, test, stopAfter, 0, Progress(opening, [], 0, 0));
            Consistent(st, test) && NoPersist(st.trace) && Bounded(st, stopAfter)
  {
    QuietFilters(opening);
    TargetsPassGrows(targets, proxies, cap, test, stopAfter, 0, Progress(opening, [], 0, 0));
  }

  lemma LoopFacts(catalog: seq<string>, env: Env, test: Probe -> Outcome, stopAfter: Option<nat>)
    ensures var st := Loop(catalog, env, test, stopAfter);
            Consistent(st, test) && NoPersist(st.trace) && Bounded(st, stopAfter)
  {
    OpeningQuiet(catalog, env);
    PassFacts(TargetList(env.targetUrls, env.targetUrl), Capped(catalog, PositiveCap(env.maxProxies)),
              PositiveCap(env.maxPerTarget), test, stopAfter, Opening(catalog, env));
  }

  lemma ClosingQuiet(trace: seq<Effect>, working: seq<Record>, stopped: bool)
    ensures TestsOf(trace + Closing(working, stopped)) == TestsOf(trace)
    ensures ReportsOf(trace + Closing(working, stopped)) == ReportsOf(trace)
  {
    FiltersAppend(trace, Closing(working, stopped));
    QuietFilters(Closing(working, stopped));
    assert TestsOf(trace) + [] == TestsOf(trace);
    assert ReportsOf(trace) + [] == ReportsOf(trace);
  }

  /**
   * One record per successful test and one `[OK]`/`[FAIL]` line per test,
   * both in test order.
   */
  lemma WorkflowRecords(catalog: seq<string>, env: Env, test: Probe -> Outcome, stopAfter: Option<nat>)
    ensures var w := WorkflowOf(catalog, env, test, stopAfter);
            && w.working == Successes(TestsOf(w.trace), test)
            && ReportsOf(w.trace) == Reports(TestsOf(w.trace), test)
  {
    var st := Loop(catalog, env, test, stopAfter);
    LoopFacts(catalog, env, test, stopAfter);
    ClosingQuiet(st.trace, st.working, StopSeen(stopAfter, st.polls));
  }

  /**
   * The results are persisted exactly once, after the last test, and the
   * summary closes the trace.
   */
  lemma ClosingShape(trace: seq<Effect>, working: seq<Record>, stopped: bool)
    requires NoPersist(trace)
    ensures var all := trace + Closing(working, stopped);
            var k := |trace|;
            && k + 4 <= |all|
            && all[k] == Persist(working)
            && (forall m :: 0 <= m < |all| && m != k ==> !all[m].Persist?)
            && (forall m :: k < m < |all| ==> !all[m].Test?)
            && all[|all| - 3..] == [Emit(SummaryHeader), Emit(WorkingCount(|working|)), Emit(SavedTo)]
  {
  }

  lemma WorkflowPersistsOnce(catalog: seq<string>, env: Env, test: Probe -> Outcome, stopAfter: Option<nat>)
    ensures var w := WorkflowOf(catalog, env, test, stopAfter);
            var k := |Loop(catalog, env, test, stopAfter).trace|;
            && k + 4 <= |w.trace|
            && w.trace[k] == Persist(w.working)
            && (forall m :: 0 <= m < |w.trace| && m != k ==> !w.trace[m].Persist?)
            && (forall m :: k < m < |w.trace| ==> !w.trace[m].Test?)
            && w.trace[|w.trace| - 3..] == [Emit(SummaryHeader), Emit(WorkingCount(|w.working|)), Emit(SavedTo)]
  {
    var st := Loop(catalog, env, test, stopAfter);
    LoopFacts(catalog, env, test, stopAfter);
    ClosingShape(st.trace, st.working, StopSeen(stopAfter, st.polls));
  }

  lemma PassSchedule(targets: seq<string>, proxies: seq<string>, cap: Option<nat>, test: Probe -> Outcome,
                     opening: seq<Effect>)
    requires Quiet(opening)
    ensures TestsOf(TargetsPass(targets, proxies, cap, test, None, 0, Progress(opening, [], 0, 0)).trace)
            == Schedule(targets, proxies, cap)
  {
    QuietFilters(opening);
    TargetsPassUncancelled(targets, proxies, cap, test, 0, Progress(opening, [], 0, 0));
    assert targets[0..] == targets;
  }

  /** Without a stop, the tests are exactly the schedule. */
  lemma WorkflowSchedule(catalog: seq<string>, env: Env, test: Probe -> Outcome)
    ensures TestsOf(WorkflowOf(catalog, env, test, None).trace)
            == Schedule(TargetList(env.targetUrls, env.targetUrl), Capped(catalog, PositiveCap(env.maxProxies)),
                        PositiveCap(env.maxPerTarget))
  {
    var st := Loop(catalog, env, test, None);
    OpeningQuiet(catalog, env);
    PassSchedule(TargetList(env.targetUrls, env.targetUrl), Capped(catalog, PositiveCap(env.maxProxies)),
                 PositiveCap(env.maxPerTarget), test, Opening(catalog, env));
    ClosingQuiet(st.trace, st.working, StopSeen(None, st.polls));
  }

  /** A stopped pass does a prefix of the unstopped pass's tests and keeps a prefix of its records. */
  lemma WorkflowCancel(catalog: seq<string>, env: Env, test: Probe -> Outcome, stopAfter: Option<nat>)
    ensures var stopped := WorkflowOf(catalog, env, test, stopAfter);
            var full := WorkflowOf(catalog, env, test, None);
            TestsOf(stopped.trace) <= TestsOf(full.trace) && stopped.working <= full.working
  {
    var a := Loop(catalog, env, test, stopAfter);
    var b := Loop(catalog, env, test, None);
    TargetsPassCancel(TargetList(env.targetUrls, env.targetUrl), Capped(catalog, PositiveCap(env.maxProxies)),
                      PositiveCap(env.maxPerTarget), test, stopAfter, 0, Progress(Opening(catalog, env), [], 0, 0));
    ClosingQuiet(a.trace, a.working, StopSeen(stopAfter, a.polls));
    ClosingQuiet(b.trace, b.working, StopSeen(None, b.polls));
  }

  /**
   * Every test comes after a read of the flag that found it clear, so a
   * flag that is set from read `k` on allows at most `k` tests.
   */
  lemma WorkflowStopBound(catalog: seq<string>, env: Env, test: Probe -> Outcome, k: nat)
    ensures |TestsOf(WorkflowOf(catalog, env, test, Some(k)).trace)| <= k
  {
    var st := Loop(catalog, env, test, Some(k));
    LoopFacts(catalog, env, test, Some(k));
    ClosingQuiet(st.trace, st.working, StopSeen(Some(k), st.polls));
  }

  lemma PassStoppedAtStart(targets: seq<string>, proxies: seq<string>, cap: Option<nat>, test: Probe -> Outcome,
                           opening: seq<Effect>)
    requires Quiet(opening)
    ensures var st := TargetsPass(targets, proxies, cap, test, Some(0), 0, Progress(opening, [], 0, 0));
            && st.working == []
            && st.trace == opening + Announcements(targets)
            && TestsOf(st.trace) == []
  {
    TargetsPassAfterStop(targets, proxies, cap, test, Some(0), 0, Progress(opening, [], 0, 0));
    assert targets[0..] == targets;
    QuietFilters(opening);
    QuietFilters(Announcements(targets));
    FiltersAppend(opening, Announcements(targets));
  }

  /**
   * A flag already set when the pass reaches the loop: no test runs and no
   * record is kept, but every target is still announced (only the inner
   * loop breaks), and the pass ends with `Stopped` and the summary.
   */
  lemma StoppedBeforeLoop(catalog: seq<string>, env: Env, test: Probe -> Outcome)
    ensures var w := WorkflowOf(catalog, env, test, Some(0));
            && w.working == []
            && w.trace == Opening(catalog, env) + Announcements(TargetList(env.targetUrls, env.targetUrl)) + Closing([], true)
            && TestsOf(w.trace) == []
  {
    var st := Loop(catalog, env, test, Some(0));
    OpeningQuiet(catalog, env);
    PassStoppedAtStart(TargetList(env.targetUrls, env.targetUrl), Capped(catalog, PositiveCap(env.maxProxies)),
                       PositiveCap(env.maxPerTarget), test, Opening(catalog, env));
    ClosingQuiet(st.trace, [], true);
  }

  // ---------------------------------------------------------------------
  // The method

  /**
   * The inner loop of `run_workflow` for one target: poll the stop flag,
   * honour the per-target cap, test the next candidate, report it.
   */
  method TestCandidates(proxies: seq<string>, perTarget: Option<nat>, target: string, test: Probe -> Outcome,
                        stopAfter: Option<nat>, trace0: seq<Effect>, working0: seq<Record>, polls0: nat, tests0: nat)
    returns (trace: seq<Effect>, working: seq<Record>, polls: nat, tests: nat)
    ensures Progress(trace, working, polls, tests)
            == TargetPass(proxies, perTarget, target, test, stopAfter, 0, Progress(trace0, working0, polls0, tests0))
  {
    trace, working, polls, tests := trace0, working0, polls0, tests0;
    var tested := 0;
    for j := 0 to |proxies|
      invariant tested == j
      invariant TargetPass(proxies, perTarget, target, test, stopAfter, j, Progress(trace, working, polls, tests))
                == TargetPass(proxies, perTarget, target, test, stopAfter, 0, Progress(trace0, working0, polls0, tests0))
    {
      var stopSet := StopSeen(stopAfter, polls);
      polls := polls + 1;
      if stopSet {
        break;
      }
      if perTarget.Some? && tested >= perTarget.value {
        break;
      }
      ghost var polled := Progress(trace, working, polls, tests);
      var proxy := proxies[j];
      var outcome := test(Probe(tests, proxy, target));
      trace := trace + [Test(Pair(proxy, target))];
      tests := tests + 1;
      tested := tested + 1;
      if outcome.working && outcome.latency.Some? {
        working := working + [Record(proxy, outcome.latency.value, outcome.scheme, target)];
        trace := trace + [Emit(Ok(proxy, outcome.scheme, outcome.latency.value))];
      } else {
        trace := trace + [Emit(Fail(proxy))];
      }
      assert trace == polled.trace + [Test(Pair(proxy, target)), Emit(ReportOf(Pair(proxy, target), outcome))];
      assert Progress(trace, working, polls, tests) == TestStep(polled, proxy, target, test);
    }
  }

  /** The first part of `run_workflow`: scrape the catalog and apply `MAX_PROXIES`. */
  method ScrapeCandidates(sources: seq<string>, fetches: seq<Scraper.Fetch>, env: Env)
    returns (catalog: seq<string>, proxies: seq<string>, trace: seq<Effect>)
    requires |fetches| == |sources|
    ensures catalog == Scraper.Catalog(sources, fetches)
    ensures proxies == Capped(catalog, PositiveCap(env.maxProxies))
    ensures trace == Opening(catalog, env)
  {
    trace := [Emit(Scraping)];
    catalog := Scraper.GetProxies(sources, fetches);
    proxies := catalog;
    trace := trace + [Emit(TotalFound(|proxies|))];
    var maxCap := PositiveCap(env.maxProxies);
    if maxCap.Some? {
      var limit := maxCap.value;
      proxies := proxies[..if limit < |proxies| then limit else |proxies|];
      trace := trace + [Emit(TestingFirst(|proxies|))];
    }
  }

  /**
   * The loop part of `run_workflow`: resolve the targets and the per-target
   * cap, then announce each target and test the candidates against it.
   */
  method TestTargets(catalog: seq<string>, proxies: seq<string>, env: Env, test: Probe -> Outcome,
                     stopAfter: Option<nat>, opening: seq<Effect>)
    returns (trace: seq<Effect>, working: seq<Record>, polls: nat)
    requires proxies == Capped(catalog, PositiveCap(env.maxProxies))
    requires opening == Opening(catalog, env)
    ensures var st := Loop(catalog, env, test, stopAfter);
            trace == st.trace && working == st.working && polls == st.polls
  {
    var targets := TargetList(env.targetUrls, env.targetUrl);
    var perTarget := PositiveCap(env.maxPerTarget);
    trace, working, polls := opening, [], 0;
    var tests := 0;
    for i := 0 to |targets|
      invariant TargetsPass(targets, proxies, perTarget, test, stopAfter, i, Progress(trace, working, polls, tests))
                == Loop(catalog, env, test, stopAfter)
    {
      trace := trace + [Emit(TestingTarget(targets[i]))];
      trace, working, polls, tests :=
        TestCandidates(proxies, perTarget, targets[i], test, stopAfter, trace, working, polls, tests);
    }
  }

  /** The end of `run_workflow`: persist, note a stop, print the summary. */
  method Conclude(trace0: seq<Effect>, working: seq<Record>, stopped: bool) returns (trace: seq<Effect>)
    ensures trace == trace0 + Closing(working, stopped)
  {
    trace := trace0 + [Persist(working)];
    if stopped {
      trace := trace + [Emit(Stopped)];
    }
    trace := trace + [Emit(SummaryHeader), Emit(WorkingCount(|working|)), Emit(SavedTo)];
  }

  /**
   * `run_workflow(log, stop_event)`: scrape, cap, test every target against
   * the candidates, persist, summarise.
   */
  method RunWorkflow(fetches: seq<Scraper.Fetch>, env: Env, test: Probe -> Outcome, stopAfter: Option<nat>)
    returns (catalog: seq<string>, working: seq<Record>, trace: seq<Effect>)
    requires |fetches| == |Scraper.Sources|
    ensures catalog == Scraper.Catalog(Scraper.Sources, fetches)
    ensures Pass(working, trace) == WorkflowOf(catalog, env, test, stopAfter)
  {
    var proxies;
    catalog, proxies, trace := ScrapeCandidates(Scraper.Sources, fetches, env);
    var polls;
    trace, working, polls := TestTargets(catalog, proxies, env, test, stopAfter, trace);
    trace := Conclude(trace, working, StopSeen(stopAfter, polls));
  }
}
