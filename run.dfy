/**
 * The run orchestration: the bounded log buffer, the single-run state
 * machine, and the configuration read from the environment (the caps and
 * the target list). The validation pass itself is in module `Workflow`.
 *
 * Threads and locks are not modelled: every method here runs as one
 * atomic step, which is what the lock around each of them guarantees.
 */
module Run {
  import opened Wrappers
  import opened PyText
  import Scraper
  import opened Tester

  // ---------------------------------------------------------------------
  // Configuration

  /** The environment variables the run reads, each `None` when unset. */
  datatype Env = Env(
    maxProxies: Option<string>,
    targetUrls: Option<string>,
    targetUrl: Option<string>,
    maxPerTarget: Option<string>)

  /** Python's truthiness of an optional string: set and non-empty. */
  predicate IsSetNonEmpty(v: Option<string>) {
    v.Some? && v.value != ""
  }

  /**
   * A cap variable (`MAX_PROXIES`, `MAX_PER_TARGET`): in force only when it
   * is set, parses with `int()` and is positive; anything else means no cap.
   */
  function PositiveCap(v: Option<string>): (cap: Option<nat>)
    ensures cap.Some? <==> IsSetNonEmpty(v) && ParseInt(v.value).Some? && ParseInt(v.value).value > 0
    ensures cap.Some? ==> cap.value >= 1 && cap.value == ParseInt(v.value).value
  {
    if !IsSetNonEmpty(v) then None
    else match ParseInt(v.value)
      case None => None
      case Some(n) => if n > 0 then Some(n) else None
  }

  /** The decimal text of a number is read back as a cap exactly when the number is positive. */
  lemma DecimalCap(n: nat)
    ensures PositiveCap(Some(NatToDecimal(n))) == if n > 0 then Some(n) else None
  {
    ParseDecimal(n);
  }

  /** Text that starts with neither a digit nor a sign (such as `"abc"`) switches the cap off. */
  lemma NonNumericIsNoCap(s: string)
    requires s != [] && !IsSpace(s[0]) && !IsSpace(s[|s| - 1])
    requires !IsDigit(s[0]) && s[0] != '-' && s[0] != '+'
    ensures PositiveCap(Some(s)) == None
  {
    StripFixed(s);
  }

  /** The built-in targets used when neither target variable is set. */
  const DefaultTargets: seq<string> := [IpifyUrl, HttpbinUrl, IcanhazipUrl]
  const IpifyUrl: string := "https://api.ipify.org?format=json"
  const HttpbinUrl: string := "https://httpbin.org/get"
  const IcanhazipUrl: string := "https://icanhazip.com"

  /**
   * The target list: a non-empty `TARGET_URLS` split on `,`, each item
   * stripped and empty items dropped (which can leave no target at all);
   * otherwise a non-empty `TARGET_URL` alone; otherwise the built-in three.
   */
  function TargetList(targetUrls: Option<string>, targetUrl: Option<string>): (targets: seq<string>)
    ensures IsSetNonEmpty(targetUrls) ==>
              forall k :: 0 <= k < |targets| ==> IsItem(targets[k], ',')
    ensures !IsSetNonEmpty(targetUrls) && IsSetNonEmpty(targetUrl) ==> targets == [targetUrl.value]
    ensures !IsSetNonEmpty(targetUrls) && !IsSetNonEmpty(targetUrl) ==> targets == DefaultTargets
  {
    if IsSetNonEmpty(targetUrls) then
      var items := Split(targetUrls.value, ',');
      StrippedItemsShape(items, ',');
      Scraper.NonEmptyStripped(items)
    else if IsSetNonEmpty(targetUrl) then [targetUrl.value]
    else DefaultTargets
  }

  predicate IsItem(s: string, sep: char) {
    s != "" && sep !in s
  }

  /** The stripped, non-empty items keep none of the separator and are not empty. */
  lemma {:induction false} StrippedItemsShape(items: seq<string>, sep: char)
    requires forall k :: 0 <= k < |items| ==> sep !in items[k]
    ensures forall k :: 0 <= k < |Scraper.NonEmptyStripped(items)| ==> IsItem(Scraper.NonEmptyStripped(items)[k], sep)
  {
    if items != [] {
      var n := |items| - 1;
      var init := items[..n];
      assert forall k :: 0 <= k < n ==> init[k] == items[k];
      StrippedItemsShape(init, sep);
      StripKeepsOut(items[n], sep);
      Scraper.NonEmptyStrippedLast(items);
      if Strip(items[n]) != [] {
        ItemsSnoc(Scraper.NonEmptyStripped(init), Strip(items[n]), sep);
      }
    }
  }

  lemma ItemsSnoc(r: seq<string>, t: string, sep: char)
    requires forall k :: 0 <= k < |r| ==> IsItem(r[k], sep)
    requires IsItem(t, sep)
    ensures forall k :: 0 <= k < |r + [t]| ==> IsItem((r + [t])[k], sep)
  {
  }

  /** Stripping adds no character. */
  lemma StripKeepsOut(s: string, c: char)
    requires c !in s
    ensures c !in Strip(s)
  {
    var t := Strip(s);
    var i := |s| - |StripLeft(s)|;
    StripIsSlice(s);
    forall k | 0 <= k < |t|
      ensures t[k] != c
    {
      assert t[k] == s[i + k];
    }
  }

  /**
   * Joining stripped, comma-free, non-empty targets with commas and setting
   * `TARGET_URLS` to the result gives back exactly those targets.
   */
  lemma TargetsRoundTrip(targets: seq<string>, targetUrl: Option<string>)
    requires Listable(targets)
    ensures TargetList(Some(Join(targets, ',')), targetUrl) == targets
  {
    JoinedTargets(targets);
    TargetListFromUrls(Some(Join(targets, ',')), targetUrl, targets);
  }

  /** At least one target, each trimmed and free of commas: what `TARGET_URLS` can list. */
  predicate Listable(targets: seq<string>) {
    |targets| >= 1 && forall k :: 0 <= k < |targets| ==> Trimmed(targets[k]) && ',' !in targets[k]
  }

  /** The joined text is non-empty, splits back into the targets, and stripping leaves them as they are. */
  lemma JoinedTargets(targets: seq<string>)
    requires Listable(targets)
    ensures Join(targets, ',') != [] && Split(Join(targets, ','), ',') == targets
    ensures Scraper.NonEmptyStripped(targets) == targets
  {
    JoinStartsWithFirst(targets, ',');
    assert targets[0] != [];
    SplitJoin(targets, ',');
    StrippedItemsFixed(targets);
  }

  /** A non-empty `TARGET_URLS` alone decides the targets. */
  lemma TargetListFromUrls(targetUrls: Option<string>, targetUrl: Option<string>, items: seq<string>)
    requires targetUrls.Some? && targetUrls.value != []
    requires Scraper.NonEmptyStripped(Split(targetUrls.value, ',')) == items
    ensures TargetList(targetUrls, targetUrl) == items
  {
  }

  lemma {:induction false} JoinStartsWithFirst(parts: seq<string>, sep: char)
    requires |parts| >= 1
    ensures parts[0] <= Join(parts, sep)
  {
  }

  /** Non-empty, with no whitespace at either end: what `strip` leaves unchanged. */
  predicate Trimmed(s: string) {
    s != [] && !IsSpace(s[0]) && !IsSpace(s[|s| - 1])
  }

  lemma StrippedItemsFixed(items: seq<string>)
    requires forall k :: 0 <= k < |items| ==> Trimmed(items[k])
    ensures Scraper.NonEmptyStripped(items) == items
  {
    forall k | 0 <= k < |items|
      ensures items[k] != [] && Strip(items[k]) == items[k]
    {
      StripFixed(items[k]);
    }
    Scraper.NonEmptyStrippedOfStripped(items);
  }

  // ---------------------------------------------------------------------
  // LogBuffer

  /**
   * `xs[start:]` with Python's slice semantics: always a suffix of `xs`; a
   * start past the end gives nothing, and a negative start keeps the last
   * `-start` elements, or all of them when there are fewer.
   */
  function SliceFrom<T>(xs: seq<T>, start: int): (r: seq<T>)
    ensures |r| <= |xs| && r == xs[|xs| - |r|..]
    ensures start >= 0 ==> |r| == if start <= |xs| then |xs| - start else 0
    ensures start < 0 ==> |r| == if -start <= |xs| then -start else |xs|
  {
    if start >= 0 then xs[if start <= |xs| then start else |xs|..]
    else xs[if -start <= |xs| then |xs| + start else 0..]
  }

  /**
   * What the buffer holds after `all` has been added in order: the newest
   * `max` entries for a positive `max`; everything for `max == 0`, since
   * `xs[-0:]` is the whole list; nothing for a negative `max`, since
   * `xs[-max:]` then drops every entry just appended.
   */
  function Retained(all: seq<string>, max: int): seq<string> {
    if max > 0 then all[if |all| <= max then 0 else |all| - max..]
    else if max == 0 then all
    else []
  }

  /** The entries after one append and the trim that follows it. */
  function Trim(entries: seq<string>, max: int): seq<string> {
    if |entries| > max then SliceFrom(entries, -max) else entries
  }

  /** Appending to the retained entries and trimming retains the newest entries of the longer history. */
  lemma TrimKeepsNewest(all: seq<string>, entry: string, max: int)
    ensures Trim(Retained(all, max) + [entry], max) == Retained(all + [entry], max)
  {
    var kept := Retained(all, max) + [entry];
    var all' := all + [entry];
    if max > 0 {
      if |all| >= max {
        assert kept[|kept| - max..] == all'[|all'| - max..];
      }
    }
  }

  /** The newest entries are bounded by `max` and end with the newest entry. */
  lemma RetainedShape(all: seq<string>, max: int)
    ensures max > 0 ==> |Retained(all, max)| == if |all| <= max then |all| else max
    ensures max > 0 ==> Retained(all, max) <= all[|all| - |Retained(all, max)|..]
    ensures max >= 0 && all != [] ==> Retained(all, max)[|Retained(all, max)| - 1] == all[|all| - 1]
  {
  }

  const DefaultMaxEntries: int := 500

  /** The bounded, append-only log: appends, then keeps the newest `maxEntries`. */
  class LogBuffer {
    var entries: seq<string>
    const maxEntries: int
    /** Every entry ever added, oldest first. */
    ghost var added: seq<string>

    ghost predicate Valid()
      reads this
    {
      entries == Retained(added, maxEntries)
    }

    constructor(maxEntries: int)
      ensures Valid() && this.maxEntries == maxEntries
      ensures entries == [] && added == []
    {
      this.maxEntries := maxEntries;
      entries := [];
      added := [];
    }

    /** `add`: append, then cut back to the newest `maxEntries` when over the limit. */
    method Add(entry: string)
      requires Valid()
      modifies this
      ensures Valid()
      ensures added == old(added) + [entry]
      ensures entries == Trim(old(entries) + [entry], maxEntries)
    {
      entries := entries + [entry];
      if |entries| > maxEntries {
        entries := SliceFrom(entries, -maxEntries);
      }
      TrimKeepsNewest(added, entry, maxEntries);
      added := added + [entry];
    }

    /** `snapshot`: a copy of the current entries. */
    method Snapshot() returns (copy: seq<string>)
      requires Valid()
      ensures copy == Retained(added, maxEntries)
      ensures maxEntries > 0 ==> |copy| <= maxEntries
    {
      RetainedShape(added, maxEntries);
      copy := entries;
    }
  }

  // ---------------------------------------------------------------------
  // ProxyRunner

  /** What `status()` reports; timestamps are opaque clock readings. */
  datatype Status = Status(running: bool, lastStarted: Option<int>, lastFinished: Option<int>, stopping: bool)

  /**
   * The single-run state machine. `stopEvent` is `None` between runs and
   * otherwise holds whether the run's stop flag has been set.
   */
  class ProxyRunner {
    const logBuffer: LogBuffer
    var running: bool
    var stopping: bool
    var stopEvent: Option<bool>
    var lastStarted: Option<int>
    var lastFinished: Option<int>

    /** A run is in flight exactly when there is a stop flag, and `stopping` mirrors that flag. */
    ghost predicate Valid()
      reads this
    {
      && (running <==> stopEvent.Some?)
      && (stopping <==> stopEvent == Some(true))
    }

    constructor(logBuffer: LogBuffer)
      ensures Valid() && this.logBuffer == logBuffer
      ensures !running && !stopping && stopEvent == None && lastStarted == None && lastFinished == None
    {
      this.logBuffer := logBuffer;
      running, stopping, stopEvent := false, false, None;
      lastStarted, lastFinished := None, None;
    }

    /** `start`: rejected while a run is in flight; otherwise a fresh run with an unset stop flag. */
    method Start(now: int) returns (accepted: bool)
      requires Valid()
      modifies this
      ensures Valid()
      ensures accepted <==> !old(running)
      ensures !accepted ==> unchanged(this)
      ensures accepted ==> running && !stopping && stopEvent == Some(false)
                           && lastStarted == Some(now) && lastFinished == old(lastFinished)
    {
      if running {
        return false;
      }
      running := true;
      lastStarted := Some(now);
      stopEvent := Some(false);
      stopping := false;
      return true;
    }

    /** The `finally` of `_run`: however the run ended, the runner goes back to idle. */
    method Finish(now: int)
      modifies this
      ensures Valid()
      ensures !running && !stopping && stopEvent == None
      ensures lastFinished == Some(now) && lastStarted == old(lastStarted)
    {
      running := false;
      lastFinished := Some(now);
      stopEvent := None;
      stopping := false;
    }

    /** `stop`: rejected when idle; otherwise sets the stop flag, again on every repeated call. */
    method Stop() returns (accepted: bool)
      requires Valid()
      modifies this
      ensures Valid()
      ensures accepted <==> old(running)
      ensures !accepted ==> unchanged(this)
      ensures accepted ==> running && stopping && stopEvent == Some(true)
                           && lastStarted == old(lastStarted) && lastFinished == old(lastFinished)
    {
      if !running || stopEvent.None? {
        return false;
      }
      stopEvent := Some(true);
      stopping := true;
      return true;
    }

    method GetStatus() returns (s: Status)
      requires Valid()
      ensures s == Status(running, lastStarted, lastFinished, stopping)
      ensures s.stopping ==> s.running
    {
      s := Status(running, lastStarted, lastFinished, stopping);
    }

    method IsRunning() returns (r: bool)
      ensures r == running
    {
      r := running;
    }
  }

  /** Two starts in a row: the first is accepted, the second rejected. */
  method StartTwice(now: int) returns (first: bool, second: bool)
    ensures first && !second
  {
    var buffer := new LogBuffer(DefaultMaxEntries);
    var runner := new ProxyRunner(buffer);
    first := runner.Start(now);
    second := runner.Start(now);
  }

  /** A stop while idle is rejected; a stop during a run is accepted, and so is a repeated one. */
  method StopWhileIdleThenRunning(now: int) returns (idle: bool, during: bool, again: bool)
    ensures !idle && during && again
  {
    var buffer := new LogBuffer(DefaultMaxEntries);
    var runner := new ProxyRunner(buffer);
    idle := runner.Stop();
    var started := runner.Start(now);
    during := runner.Stop();
    again := runner.Stop();
  }

  /** A finished run frees the runner: a new start is accepted. */
  method RestartAfterFinish(t0: int, t1: int, t2: int) returns (first: bool, second: bool)
    ensures first && second
  {
    var buffer := new LogBuffer(DefaultMaxEntries);
    var runner := new ProxyRunner(buffer);
    first := runner.Start(t0);
    runner.Finish(t1);
    second := runner.Start(t2);
  }
}
