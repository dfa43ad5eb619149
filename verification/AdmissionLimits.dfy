/** The request quotas of the authenticating handler (authenticationLimits, internal/syncapi/http.go). */
module AdmissionLimits {
  import opened Sets
  import opened SyncService

  datatype Config = Config(globalPerWindow: int, devicePerWindow: int, maxDevices: int, window: int)

  /** seen is used for devices only. */
  datatype Window = Window(start: Time, used: int, seen: Time)

  const UNUSED := Window(ZERO_TIME, 0, ZERO_TIME)

  predicate ValidConfig(c: Config) {
    c.globalPerWindow >= 1 && c.devicePerWindow >= 1 && c.maxDevices >= 1 && c.window > 0
  }

  // ------------------------------------------------------------- windows

  /** A window that has run out is replaced by one that starts now. */
  function Current(w: Window, now: Time, length: int): Window {
    if now - w.start >= length || w.start == ZERO_TIME then Window(now, 0, ZERO_TIME) else w
  }

  // -------------------------------------------------------------- admissions

  /** How many times lie in [from, to). */
  function Count(times: seq<Time>, from: Time, to: Time): nat {
    if times == [] then 0
    else Count(times[..|times| - 1], from, to) + if from <= times[|times| - 1] < to then 1 else 0
  }

  /** Admissions in one window length from a. */
  function Within(times: seq<Time>, a: Time, length: int): nat {
    Count(times, a, a + length)
  }

  lemma {:induction false} CountConcat(xs: seq<Time>, ys: seq<Time>, from: Time, to: Time)
    ensures Count(xs + ys, from, to) == Count(xs, from, to) + Count(ys, from, to)
    decreases |ys|
  {
    if ys == [] {
      assert xs + ys == xs;
    } else {
      assert (xs + ys)[..|xs + ys| - 1] == xs + ys[..|ys| - 1];
      CountConcat(xs, ys[..|ys| - 1], from, to);
    }
  }

  lemma {:induction false} CountAtMost(times: seq<Time>, from: Time, to: Time)
    ensures Count(times, from, to) <= |times|
    ensures (forall k | 0 <= k < |times| :: !(from <= times[k] < to)) ==> Count(times, from, to) == 0
    decreases |times|
  {
    if times != [] {
      CountAtMost(times[..|times| - 1], from, to);
    }
  }

  /** The admissions of one window, in the order of the lock. */
  datatype Batch = Batch(start: Time, times: seq<Time>)

  function Flatten(batches: seq<Batch>): seq<Time> {
    if batches == [] then [] else Flatten(batches[..|batches| - 1]) + batches[|batches| - 1].times
  }

  /** Clock readings reach the lock at most disorder late, so an admission can lie before its window's start. */
  predicate BatchFits(b: Batch, quota: int, length: int, disorder: int) {
    |b.times| <= quota && forall k | 0 <= k < |b.times| :: b.start - disorder <= b.times[k] < b.start + length
  }

  /** One window starts a window length after the other. */
  predicate Spaced(batches: seq<Batch>, length: int) {
    forall i, j | 0 <= i < j < |batches| :: batches[i].start + (j - i) * length <= batches[j].start
  }

  function Later(a: Time, b: Time): Time {
    if a < b then b else a
  }

  /** What a fixed-window counter remembers: the batch of its current window, and how many that holds. */
  ghost predicate Accounts(batches: seq<Batch>, w: Window, last: Time, quota: int, length: int, disorder: int) {
    && (w.start == ZERO_TIME <==> batches == [])
    && (batches == [] ==> w.used == 0)
    && (batches != [] ==> w.start == batches[|batches| - 1].start <= last && w.used == |batches[|batches| - 1].times|)
    && (forall i | 0 <= i < |batches| :: BatchFits(batches[i], quota, length, disorder))
    && Spaced(batches, length)
  }

  /** The windows an interval of one window length can meet. */
  function Meets(length: int, disorder: int): int
    requires length > 0
  {
    2 + (disorder + length - 1) / length
  }

  lemma QuotientIs(n: int, length: int, q: int)
    requires length > 0 && q * length <= n < q * length + length
    ensures n / length == q
  {
    var r := n / length;
    assert r * length <= n < r * length + length;
    if r < q {
      ProductGrows(r + 1, q, length);
    } else if q < r {
      ProductGrows(q + 1, r, length);
    }
  }

  lemma ProductGrows(a: int, b: int, factor: int)
    requires a <= b && 0 <= factor
    ensures a * factor <= b * factor
  {
  }

  lemma OneMore(n: int, factor: int)
    ensures (n + 1) * factor == n * factor + factor
  {
  }

  lemma MeetsEnough(length: int, disorder: int)
    requires length > 0 && 0 <= disorder
    ensures 2 * length + disorder <= Meets(length, disorder) * length && 2 <= Meets(length, disorder)
    ensures disorder == 0 ==> Meets(length, disorder) == 2
    ensures 0 < disorder <= length ==> Meets(length, disorder) == 3
  {
    var n := disorder + length - 1;
    var q := n / length;
    assert n < q * length + length;
    assert (2 + q) * length == 2 * length + q * length;
    if disorder == 0 {
      QuotientIs(n, length, 0);
    } else if disorder <= length {
      QuotientIs(n, length, 1);
    }
    if q < 0 {
      ProductGrows(q + 1, 0, length);
    }
  }

  lemma Apart(batches: seq<Batch>, i: int, j: int, k: int, length: int)
    requires Spaced(batches, length) && length > 0 && 0 <= i < j < |batches| && k <= j - i
    ensures batches[i].start + k * length <= batches[j].start
  {
    ProductGrows(k, j - i, length);
  }

  lemma NoneBefore(b: Batch, from: Time, to: Time, quota: int, length: int, disorder: int)
    requires BatchFits(b, quota, length, disorder)
    ensures Count(b.times, from, to) <= quota
    ensures b.start + length <= from || to <= b.start - disorder ==> Count(b.times, from, to) == 0
  {
    CountAtMost(b.times, from, to);
  }

  /** Batches behind the first f hold a quota each at most. */
  lemma {:induction false} CountFrom(batches: seq<Batch>, f: int, from: Time, to: Time, quota: int, length: int, disorder: int)
    requires 0 <= f <= |batches| && forall i | 0 <= i < |batches| :: BatchFits(batches[i], quota, length, disorder)
    requires forall i | 0 <= i < f :: batches[i].start + length <= from
    ensures Count(Flatten(batches), from, to) <= (|batches| - f) * quota
    decreases |batches|
  {
    hide BatchFits, Count;
    if batches != [] {
      var n := |batches| - 1;
      CountConcat(Flatten(batches[..n]), batches[n].times, from, to);
      NoneBefore(batches[n], from, to, quota, length, disorder);
      CountFrom(batches[..n], if f < n then f else n, from, to, quota, length, disorder);
      if f <= n {
        OneMore(n - f, quota);
      }
    } else {
      NothingCounted(from, to);
    }
  }

  lemma NothingCounted(from: Time, to: Time)
    ensures Count([], from, to) == 0
  {
  }

  /** Whatever was admitted, an interval of one window length holds at most as many quotas as it can meet windows. */
  lemma {:induction false} AdmissionsBounded(batches: seq<Batch>, a: Time, quota: int, length: int, disorder: int)
    requires quota >= 1 && length > 0 && 0 <= disorder && Spaced(batches, length)
    requires forall i | 0 <= i < |batches| :: BatchFits(batches[i], quota, length, disorder)
    ensures Within(Flatten(batches), a, length) <= Meets(length, disorder) * quota
    decreases |batches|
  {
    hide BatchFits, Count, Meets, Spaced;
    var m := Meets(length, disorder);
    MeetsEnough(length, disorder);
    if batches == [] {
      NothingCounted(a, a + length);
      ProductGrows(0, m, quota);
    } else {
      var n := |batches| - 1;
      var newest := batches[n];
      if a + length <= newest.start - disorder || newest.start + length <= a {
        CountConcat(Flatten(batches[..n]), newest.times, a, a + length);
        NoneBefore(newest, a, a + length, quota, length, disorder);
        SpacedFront(batches, length);
        AdmissionsBounded(batches[..n], a, quota, length, disorder);
      } else {
        var f := if |batches| <= m then 0 else |batches| - m;
        forall i | 0 <= i < f ensures batches[i].start + length <= a {
          Apart(batches, i, n, m, length);
        }
        CountFrom(batches, f, a, a + length, quota, length, disorder);
        ProductGrows(|batches| - f, m, quota);
      }
    }
  }

  lemma SpacedFront(batches: seq<Batch>, length: int)
    requires batches != [] && Spaced(batches, length)
    ensures Spaced(batches[..|batches| - 1], length)
  {
    forall i, j | 0 <= i < j < |batches| - 1 ensures batches[i].start + (j - i) * length <= batches[j].start {
    }
  }

  lemma LastBatchGrows(batches: seq<Batch>, now: Time)
    requires batches != []
    ensures var n := |batches| - 1;
            Flatten(batches[n := batches[n].(times := batches[n].times + [now])]) == Flatten(batches) + [now]
  {
    var n := |batches| - 1;
    assert batches[n := batches[n].(times := batches[n].times + [now])][..n] == batches[..n];
  }

  lemma NewBatchIsEmpty(batches: seq<Batch>, now: Time)
    ensures Flatten(batches + [Batch(now, [])]) == Flatten(batches)
  {
    assert (batches + [Batch(now, [])])[..|batches|] == batches;
  }

  /** A window that has run out gives way to one that is far enough behind it. */
  lemma NewWindowFits(batches: seq<Batch>, w: Window, last: Time, now: Time, quota: int, length: int, disorder: int)
    requires Accounts(batches, w, last, quota, length, disorder) && quota >= 1 && length > 0 && ZERO_TIME < now
    requires now - w.start >= length || w.start == ZERO_TIME
    ensures Accounts(batches + [Batch(now, [])], Window(now, 0, ZERO_TIME), Later(last, now), quota, length, disorder)
  {
    var more := batches + [Batch(now, [])];
    var n := |batches|;
    forall i, j | 0 <= i < j < |more| ensures more[i].start + (j - i) * length <= more[j].start {
      if j == n {
        if i == n - 1 {
          assert (j - i) * length == length;
        } else {
          assert batches[i].start + (n - 1 - i) * length <= batches[n - 1].start;
          assert (n - i) * length == (n - 1 - i) * length + length;
        }
      }
    }
  }

  lemma AdmissionFits(batches: seq<Batch>, w: Window, last: Time, now: Time, quota: int, length: int, disorder: int)
    requires Accounts(batches, w, last, quota, length, disorder) && batches != [] && w.used < quota
    requires last - disorder <= now < w.start + length
    ensures var n := |batches| - 1;
            Accounts(batches[n := batches[n].(times := batches[n].times + [now])], w.(used := w.used + 1), last, quota, length, disorder)
  {
    var n := |batches| - 1;
    var newest := batches[n];
    var more := batches[n := newest.(times := newest.times + [now])];
    assert BatchFits(newest, quota, length, disorder);
    forall i | 0 <= i < |more| ensures BatchFits(more[i], quota, length, disorder) {
      if i < n {
        assert BatchFits(batches[i], quota, length, disorder);
      }
    }
    forall i, j | 0 <= i < j < |more| ensures more[i].start + (j - i) * length <= more[j].start {
      assert batches[i].start + (j - i) * length <= batches[j].start;
    }
  }

  // --------------------------------------------------------------- limits

  class AuthenticationLimits {
    const config: Config
    /** How late a clock reading can reach the lock behind a later one: the clock is read before it. */
    ghost const disorder: nat
    var global: Window
    var devices: map<string, Window>
    ghost var batches: seq<Batch>
    ghost var last: Time

    ghost function Admitted(): seq<Time>
      reads this
    {
      Flatten(batches)
    }

    ghost predicate Valid()
      reads this
    {
      && ValidConfig(config)
      && Accounts(batches, global, last, config.globalPerWindow, config.window, disorder)
      && |devices| <= config.maxDevices
      && ZERO_TIME < last
      && (forall id | id in devices :: ZERO_TIME < devices[id].start && ZERO_TIME < devices[id].seen)
    }

    constructor (config: Config, ghost disorder: nat)
      requires ValidConfig(config)
      ensures Valid() && this.config == config && this.disorder == disorder && devices == map[] && Admitted() == []
    {
      this.config, this.disorder := config, disorder;
      global, devices := UNUSED, map[];
      batches, last := [], ZERO_TIME + 1;
    }

    /**
     Admits a bearer, as long as its window has room. Whatever happened before, an interval of one
     window length holds at most twice the quota when readings arrive in order, three times when
     they arrive up to a window late, and so on.
     */
    method AllowGlobal(now: Time) returns (ok: bool)
      requires Valid() && ZERO_TIME < now && last - disorder <= now
      modifies this`global, this`batches, this`last
      ensures Valid() && last == Later(old(last), now)
      ensures Admitted() == old(Admitted()) + if ok then [now] else []
      ensures ok <==> old(Current(global, now, config.window)).used < config.globalPerWindow
      ensures forall a :: Within(Admitted(), a, config.window) <= Meets(config.window, disorder) * config.globalPerWindow
      ensures disorder == 0 ==> Meets(config.window, disorder) == 2
      ensures 0 < disorder <= config.window ==> Meets(config.window, disorder) == 3
    {
      hide BatchFits, Spaced, Within, Meets, Flatten;
      MeetsEnough(config.window, disorder);
      if now - global.start >= config.window || global.start == ZERO_TIME {
        NewWindowFits(batches, global, last, now, config.globalPerWindow, config.window, disorder);
        NewBatchIsEmpty(batches, now);
        global := Window(now, 0, ZERO_TIME);
        batches := batches + [Batch(now, [])];
      }
      last := Later(last, now);
      if global.used < config.globalPerWindow {
        AdmissionFits(batches, global, last, now, config.globalPerWindow, config.window, disorder);
        LastBatchGrows(batches, now);
        global := global.(used := global.used + 1);
        batches := batches[|batches| - 1 := batches[|batches| - 1].(times := batches[|batches| - 1].times + [now])];
        ok := true;
      } else {
        ok := false;
      }
      forall a ensures Within(Admitted(), a, config.window) <= Meets(config.window, disorder) * config.globalPerWindow {
        AdmissionsBounded(batches, a, config.globalPerWindow, config.window, disorder);
      }
    }

    /**
     The loop meets the table in any order. It removes exactly one entry, and the least
     recently seen one as long as no window has run out.
     */
    method EvictDevice(now: Time)
      requires Valid() && 0 < |devices|
      modifies this`devices
      ensures |devices| == old(|devices|) - 1
      ensures exists gone :: Evicted(old(devices), devices, gone, now, config.window)
    {
      var oldest := "";
      var oldestSeen := ZERO_TIME;
      var left := devices.Keys;
      assert |left| == |devices|;
      while |left| > 0
        invariant devices == old(devices) && left <= devices.Keys
        invariant oldestSeen == ZERO_TIME <==> left == devices.Keys
        invariant oldestSeen != ZERO_TIME ==> oldest in devices && devices[oldest].seen == oldestSeen
        invariant NoneExpired(devices, now, config.window) ==>
          forall id | id in devices && id !in left :: oldestSeen <= devices[id].seen
        decreases |left|
      {
        EmptyOrInhabited(left);
        var id :| id in left;
        var entry := devices[id];
        if now - entry.start >= config.window || oldestSeen == ZERO_TIME || entry.seen < oldestSeen {
          oldest, oldestSeen := id, entry.seen;
        }
        left := left - {id};
        assert id in devices.Keys && id !in left;
      }
      assert left != devices.Keys by {
        assert |devices.Keys| > 0;
      }
      ghost var before := devices;
      RemovedOne(before, oldest);
      devices := map id | id in devices && id != oldest :: devices[id];
      assert Evicted(before, devices, oldest, now, config.window);
    }

    /** A device's own quota, counted only after it is authenticated. The table never outgrows its limit. */
    method AllowDevice(device: string, now: Time) returns (ok: bool)
      requires Valid() && ZERO_TIME < now
      modifies this`devices
      ensures Valid()
      ensures device in old(devices) ==> (ok <==> Current(old(devices)[device], now, config.window).used < config.devicePerWindow)
      ensures device !in old(devices) ==> ok
      ensures ok ==> device in devices && devices[device].seen == now
      ensures !ok ==> devices == old(devices)
      ensures forall id | id in devices && id != device :: id in old(devices) && devices[id] == old(devices)[id]
      ensures device in old(devices) || |old(devices)| < config.maxDevices ==> old(devices).Keys <= devices.Keys
    {
      if device !in devices && |devices| >= config.maxDevices {
        EvictDevice(now);
      }
      var entry := if device in devices then devices[device] else UNUSED;
      if now - entry.start >= config.window || entry.start == ZERO_TIME {
        entry := Window(now, 0, ZERO_TIME);
      }
      if entry.used >= config.devicePerWindow {
        return false;
      }
      entry := entry.(used := entry.used + 1, seen := now);
      devices := devices[device := entry];
      ok := true;
    }
  }

  predicate Removed(before: map<string, Window>, after: map<string, Window>, gone: string) {
    && gone in before
    && after == map id | id in before && id != gone :: before[id]
  }

  predicate Evicted(before: map<string, Window>, after: map<string, Window>, gone: string, now: Time, length: int) {
    Removed(before, after, gone) && (NoneExpired(before, now, length) ==> LeastSeen(before, gone))
  }

  lemma RemovedOne(before: map<string, Window>, gone: string)
    requires gone in before
    ensures |map id | id in before && id != gone :: before[id]| == |before| - 1
  {
    var after := map id | id in before && id != gone :: before[id];
    assert after.Keys == before.Keys - {gone};
  }

  predicate NoneExpired(devices: map<string, Window>, now: Time, length: int) {
    forall id | id in devices :: !Expired(devices[id], now, length)
  }

  predicate LeastSeen(devices: map<string, Window>, gone: string)
    requires gone in devices
  {
    forall id | id in devices :: devices[gone].seen <= devices[id].seen
  }

  predicate Expired(w: Window, now: Time, length: int) {
    now - w.start >= length
  }
}
