/**
 * Fixed-window rate limiter with garbage collection of old windows and a cap on their
 * number. A request is a key and two readings of the clock: one in cleanup, one after it.
 */
module RateLimit {
  import opened Options

  const CLEANUP_INTERVAL_MS: nat := 60_000
  const MAX_BUCKETS: nat := 100_000

  type Key = string

  datatype Entry = Entry(count: nat, windowStart: int)

  datatype Config = Config(windowMs: nat, max: int)

  datatype State = State(buckets: map<Key, Entry>, lastCleanup: int)

  datatype Request = Request(key: Key, cleanupAt: int, at: int)

  datatype Verdict = Verdict(allowed: bool, remaining: int, resetAt: int)

  function Max(a: int, b: int): int { if a >= b then a else b }

  // ---------- the decision for one request ----------

  predicate Stale(c: Config, now: int, e: Entry) { now - e.windowStart >= 2 * c.windowMs }

  /** Every so often, windows that ended a whole window ago are dropped. */
  function Cleanup(c: Config, s: State, now: int): State {
    if now - s.lastCleanup < CLEANUP_INTERVAL_MS then s
    else State(map k | k in s.buckets && !Stale(c, now, s.buckets[k]) :: s.buckets[k], now)
  }

  predicate Full(s: State, key: Key) { |s.buckets| >= MAX_BUCKETS && key !in s.buckets }

  /** The window the request falls into, before it is counted. */
  predicate OpensWindow(c: Config, buckets: map<Key, Entry>, r: Request) {
    r.key !in buckets || r.at - buckets[r.key].windowStart >= c.windowMs
  }

  /** Counting without a cap: the buckets after the request, and its verdict. */
  function Count(c: Config, buckets: map<Key, Entry>, r: Request): (map<Key, Entry>, Verdict) {
    if OpensWindow(c, buckets, r) then
      (buckets[r.key := Entry(1, r.at)], Verdict(true, c.max - 1, r.at + c.windowMs))
    else
      var e := buckets[r.key];
      if e.count >= c.max then (buckets, Verdict(false, 0, e.windowStart + c.windowMs))
      else
        (buckets[r.key := Entry(e.count + 1, e.windowStart)],
         Verdict(true, Max(0, c.max - (e.count + 1)), e.windowStart + c.windowMs))
  }

  function Check(c: Config, s: State, r: Request): (State, Verdict) {
    var s1 := Cleanup(c, s, r.cleanupAt);
    if Full(s1, r.key) then (s1, Verdict(false, 0, r.at + c.windowMs))
    else
      var (buckets, v) := Count(c, s1.buckets, r);
      (State(buckets, s1.lastCleanup), v)
  }

  class RateLimiter {
    const config: Config
    var buckets: map<Key, Entry>
    var lastCleanup: int

    ghost function View(): State
      reads this
    {
      State(buckets, lastCleanup)
    }

    constructor (config: Config, now: int)
      ensures this.config == config && View() == State(map[], now)
    {
      this.config := config;
      buckets := map[];
      lastCleanup := now;
    }

    method DoCleanup(now: int)
      modifies this
      ensures View() == Cleanup(config, old(View()), now)
    {
      if now - lastCleanup < CLEANUP_INTERVAL_MS { return; }
      lastCleanup := now;
      var keys := buckets.Keys;
      ghost var all := buckets;
      while keys != {}
        invariant keys <= all.Keys
        invariant forall k :: k in buckets <==> k in all && (k in keys || !Stale(config, now, all[k]))
        invariant forall k | k in buckets :: buckets[k] == all[k]
        invariant lastCleanup == now
        decreases |keys|
      {
        var key :| key in keys;
        if now - buckets[key].windowStart >= config.windowMs * 2 {
          buckets := buckets - {key};
        }
        keys := keys - {key};
      }
      assert buckets == map k | k in all && !Stale(config, now, all[k]) :: all[k];
    }

    method DoCheck(r: Request) returns (v: Verdict)
      modifies this
      ensures (View(), v) == Check(config, old(View()), r)
    {
      DoCleanup(r.cleanupAt);
      var current := r.at;
      if |buckets| >= MAX_BUCKETS && r.key !in buckets {
        return Verdict(false, 0, current + config.windowMs);
      }
      if r.key !in buckets || current - buckets[r.key].windowStart >= config.windowMs {
        buckets := buckets[r.key := Entry(1, current)];
        return Verdict(true, config.max - 1, current + config.windowMs);
      }
      var entry := buckets[r.key];
      if entry.count >= config.max {
        return Verdict(false, 0, entry.windowStart + config.windowMs);
      }
      entry := entry.(count := entry.count + 1);
      buckets := buckets[r.key := entry];
      return Verdict(true, Max(0, config.max - entry.count), entry.windowStart + config.windowMs);
    }
  }

  // ---------- traces ----------

  /** The state before request i of a trace that starts from `s`. */
  ghost function Before(c: Config, s: State, trace: seq<Request>, i: nat): State
    requires i <= |trace|
  {
    if i == 0 then s else Check(c, Before(c, s, trace, i - 1), trace[i - 1]).0
  }

  ghost function VerdictAt(c: Config, s: State, trace: seq<Request>, i: nat): Verdict
    requires i < |trace|
  {
    Check(c, Before(c, s, trace, i), trace[i]).1
  }

  ghost predicate ClockForward(trace: seq<Request>) {
    && (forall i | 0 <= i < |trace| :: trace[i].cleanupAt <= trace[i].at)
    && (forall i, j | 0 <= i < j < |trace| :: trace[i].at <= trace[j].cleanupAt)
  }

  // ---------- the cap ----------

  lemma CleanupShrinks(c: Config, s: State, now: int)
    ensures Cleanup(c, s, now).buckets.Keys <= s.buckets.Keys
    ensures |Cleanup(c, s, now).buckets| <= |s.buckets|
  {
    var b := Cleanup(c, s, now).buckets;
    assert b.Keys <= s.buckets.Keys;
    SubsetSize(b.Keys, s.buckets.Keys);
    assert |b| == |b.Keys| && |s.buckets| == |s.buckets.Keys|;
  }

  lemma {:induction false} SubsetSize<T>(a: set<T>, b: set<T>)
    requires a <= b
    ensures |a| <= |b|
  {
    if a != {} {
      var x :| x in a;
      SubsetSize(a - {x}, b - {x});
    }
  }

  /** No request of any trace makes the map larger than its cap. */
  lemma {:induction false} CapHolds(c: Config, s: State, trace: seq<Request>, i: nat)
    requires |s.buckets| <= MAX_BUCKETS && i <= |trace|
    ensures |Before(c, s, trace, i).buckets| <= MAX_BUCKETS
  {
    if i > 0 {
      hide Count, Cleanup;
      CapHolds(c, s, trace, i - 1);
      var s0, r := Before(c, s, trace, i - 1), trace[i - 1];
      var s1 := Cleanup(c, s0, r.cleanupAt);
      CleanupShrinks(c, s0, r.cleanupAt);
      if !Full(s1, r.key) { CountSize(c, s1.buckets, r); }
    }
  }

  lemma CountSize(c: Config, buckets: map<Key, Entry>, r: Request)
    ensures |Count(c, buckets, r).0| == |buckets| + if r.key in buckets then 0 else 1
  {
    var b := Count(c, buckets, r).0;
    assert b.Keys == buckets.Keys + {r.key};
    assert |b| == |b.Keys| && |buckets| == |buckets.Keys|;
  }

  // ---------- cleanup is invisible ----------

  /** Buckets of a limiter that deletes nothing and has no cap. */
  ghost function Kept(c: Config, s: State, trace: seq<Request>, i: nat): map<Key, Entry>
    requires i <= |trace|
  {
    if i == 0 then s.buckets else Count(c, Kept(c, s, trace, i - 1), trace[i - 1]).0
  }

  ghost predicate CapHit(c: Config, s: State, trace: seq<Request>, i: nat)
    requires i < |trace|
  {
    var buckets := Cleanup(c, Before(c, s, trace, i), trace[i].cleanupAt).buckets;
    |buckets| >= 100_000 && trace[i].key !in buckets
  }

  /** `kept` adds to `live` only windows that are over at `now`. */
  ghost predicate OverAt(c: Config, live: map<Key, Entry>, kept: map<Key, Entry>, now: int) {
    && (forall k | k in live :: k in kept && kept[k] == live[k])
    && (forall k | k in kept && k !in live :: now - kept[k].windowStart >= c.windowMs)
  }

  lemma CleanupOver(c: Config, s: State, kept: map<Key, Entry>, before: int, now: int)
    requires OverAt(c, s.buckets, kept, before) && before <= now
    ensures OverAt(c, Cleanup(c, s, now).buckets, kept, now)
  {
  }

  lemma CountOver(c: Config, live: map<Key, Entry>, kept: map<Key, Entry>, r: Request)
    requires OverAt(c, live, kept, r.cleanupAt) && r.cleanupAt <= r.at
    ensures Count(c, live, r).1 == Count(c, kept, r).1
    ensures OverAt(c, Count(c, live, r).0, Count(c, kept, r).0, r.cleanupAt)
  {
    assert OpensWindow(c, live, r) <==> OpensWindow(c, kept, r);
  }

  lemma {:induction false} KeptAgrees(c: Config, s: State, trace: seq<Request>, i: nat)
    requires ClockForward(trace) && 0 < i <= |trace|
    requires forall j | 0 <= j < i :: !CapHit(c, s, trace, j)
    ensures OverAt(c, Before(c, s, trace, i).buckets, Kept(c, s, trace, i), trace[i - 1].cleanupAt)
    ensures VerdictAt(c, s, trace, i - 1) == Count(c, Kept(c, s, trace, i - 1), trace[i - 1]).1
  {
    hide Count, Cleanup;
    assert !CapHit(c, s, trace, i - 1);
    var r := trace[i - 1];
    var s0 := Before(c, s, trace, i - 1);
    var kept := Kept(c, s, trace, i - 1);
    if i == 1 {
      CleanupOver(c, s0, kept, r.cleanupAt, r.cleanupAt);
    } else {
      KeptAgrees(c, s, trace, i - 1);
      CleanupOver(c, s0, kept, trace[i - 2].cleanupAt, r.cleanupAt);
    }
    CountOver(c, Cleanup(c, s0, r.cleanupAt).buckets, kept, r);
  }

  /** Until the cap is first hit, every verdict is the one of a limiter that never deletes. */
  lemma CleanupInvisible(c: Config, s: State, trace: seq<Request>, i: nat)
    requires ClockForward(trace) && i < |trace|
    requires forall j | 0 <= j <= i :: !CapHit(c, s, trace, j)
    ensures VerdictAt(c, s, trace, i) == Count(c, Kept(c, s, trace, i), trace[i]).1
  {
    KeptAgrees(c, s, trace, i + 1);
  }

  /** A request leaves every other key's entry alone, unless a minute passed since the last cleanup and the entry's window ended a window ago or more. */
  lemma OnlyOldEntriesGo(c: Config, s: State, r: Request, key: Key)
    requires key != r.key
    ensures var t := Check(c, s, r).0;
            var swept := r.cleanupAt - s.lastCleanup >= 60_000;
            && (key in t.buckets <==> key in s.buckets && !(swept && r.cleanupAt - s.buckets[key].windowStart >= 2 * c.windowMs))
            && (key in t.buckets ==> t.buckets[key] == s.buckets[key])
            && t.lastCleanup == if swept then r.cleanupAt else s.lastCleanup
  {
  }

  // ---------- every verdict, from the times alone ----------

  /** The key's latest request before i that opened a window: its first one, or one a window's length after the last that did. */
  ghost function LastOpener(c: Config, trace: seq<Request>, key: Key, i: nat): (o: Option<nat>)
    requires i <= |trace|
    ensures o.Some? ==> o.value < i && trace[o.value].key == key
  {
    if i == 0 then None
    else
      var last := LastOpener(c, trace, key, i - 1);
      if trace[i - 1].key == key && (last.None? || trace[i - 1].at - trace[last.value].at >= c.windowMs) then Some(i - 1) else last
  }

  /** The key's requests from o on, before i. */
  ghost function RequestsSince(trace: seq<Request>, key: Key, o: nat, i: nat): nat
    requires i <= |trace|
  {
    if i <= o then 0 else RequestsSince(trace, key, o, i - 1) + if trace[i - 1].key == key then 1 else 0
  }

  /**
   * A request that opens a window is let through. Otherwise it is let through if the window has seen fewer than
   * `max` requests; either way the window ends where it was going to end.
   */
  ghost predicate VerdictByTimes(c: Config, trace: seq<Request>, i: nat, v: Verdict)
    requires i < |trace|
  {
    var key, at := trace[i].key, trace[i].at;
    var o := LastOpener(c, trace, key, i);
    if o.None? || at - trace[o.value].at >= c.windowMs then
      v == Verdict(true, c.max - 1, at + c.windowMs)
    else
      var seen := RequestsSince(trace, key, o.value, i);
      && v.allowed == (seen < c.max)
      && v.remaining == (if seen < c.max then c.max - seen - 1 else 0)
      && v.resetAt == trace[o.value].at + c.windowMs
  }

  /** The entry kept for a key: its window's start, and its requests since as far as they count. */
  ghost predicate EntryByTimes(c: Config, trace: seq<Request>, key: Key, i: nat, buckets: map<Key, Entry>)
    requires i <= |trace|
  {
    var o := LastOpener(c, trace, key, i);
    && (key in buckets <==> o.Some?)
    && (o.Some? ==>
          var seen := RequestsSince(trace, key, o.value, i);
          && seen >= 1 && buckets[key].windowStart == trace[o.value].at
          && buckets[key].count == if seen <= c.max then seen else Max(1, c.max))
  }

  lemma CountByTimes(c: Config, trace: seq<Request>, i: nat, buckets: map<Key, Entry>)
    requires i < |trace| && EntryByTimes(c, trace, trace[i].key, i, buckets)
    ensures VerdictByTimes(c, trace, i, Count(c, buckets, trace[i]).1)
    ensures EntryByTimes(c, trace, trace[i].key, i + 1, Count(c, buckets, trace[i]).0)
  {
    var key := trace[i].key;
    var o := LastOpener(c, trace, key, i);
    if o.None? || trace[i].at - trace[o.value].at >= c.windowMs {
      assert RequestsSince(trace, key, i, i) == 0 && RequestsSince(trace, key, i, i + 1) == 1;
    } else {
      assert RequestsSince(trace, key, o.value, i + 1) == RequestsSince(trace, key, o.value, i) + 1;
    }
  }

  lemma {:induction false} KeptByTimes(c: Config, s: State, trace: seq<Request>, key: Key, i: nat)
    requires s.buckets == map[] && i <= |trace|
    ensures EntryByTimes(c, trace, key, i, Kept(c, s, trace, i))
  {
    if i > 0 {
      KeptByTimes(c, s, trace, key, i - 1);
      if trace[i - 1].key == key {
        CountByTimes(c, trace, i - 1, Kept(c, s, trace, i - 1));
      }
    }
  }

  /** Until the cap is first hit, every verdict is what the times of the key's requests alone say; a key turned away by the cap may try again a window later. */
  lemma VerdictsByTimes(c: Config, s: State, trace: seq<Request>, i: nat)
    requires s.buckets == map[] && ClockForward(trace) && i < |trace|
    ensures (forall j | 0 <= j <= i :: !CapHit(c, s, trace, j)) ==> VerdictByTimes(c, trace, i, VerdictAt(c, s, trace, i))
    ensures CapHit(c, s, trace, i) ==> VerdictAt(c, s, trace, i) == Verdict(false, 0, trace[i].at + c.windowMs)
  {
    hide EntryByTimes, VerdictByTimes, Before, Kept, Cleanup;
    if forall j | 0 <= j <= i :: !CapHit(c, s, trace, j) {
      CleanupInvisible(c, s, trace, i);
      KeptByTimes(c, s, trace, trace[i].key, i);
      CountByTimes(c, trace, i, Kept(c, s, trace, i));
    }
  }

  // ---------- how many requests are admitted ----------

  ghost function CountIf(p: nat -> bool, n: nat): nat {
    if n == 0 then 0 else CountIf(p, n - 1) + if p(n - 1) then 1 else 0
  }

  lemma {:induction false} CountIfSplit(p: nat -> bool, q: nat -> bool, r: nat -> bool, n: nat)
    requires forall i: nat | i < n && p(i) :: q(i) || r(i)
    ensures CountIf(p, n) <= CountIf(q, n) + CountIf(r, n)
  {
    if n > 0 { CountIfSplit(p, q, r, n - 1); }
  }

  lemma {:induction false} CountIfLess(p: nat -> bool, q: nat -> bool, o: nat, n: nat)
    requires o < n && q(o) && !p(o) && forall i: nat | i < n && p(i) :: q(i)
    ensures CountIf(p, n) + 1 <= CountIf(q, n)
  {
    if o < n - 1 {
      CountIfLess(p, q, o, n - 1);
    } else {
      CountIfWithin(p, q, n - 1);
    }
  }

  lemma {:induction false} CountIfWithin(p: nat -> bool, q: nat -> bool, n: nat)
    requires forall i: nat | i < n && p(i) :: q(i)
    ensures CountIf(p, n) <= CountIf(q, n)
  {
    if n > 0 { CountIfWithin(p, q, n - 1); }
  }

  lemma {:induction false} CountIfNone(p: nat -> bool, n: nat)
    requires forall i: nat | i < n :: !p(i)
    ensures CountIf(p, n) == 0
  {
    if n > 0 { CountIfNone(p, n - 1); }
  }

  /** Request i is one for the key and is let through. */
  ghost predicate Admitted(c: Config, s: State, trace: seq<Request>, key: Key, i: nat) {
    i < |trace| && trace[i].key == key && VerdictAt(c, s, trace, i).allowed
  }

  ghost function InInterval(c: Config, s: State, trace: seq<Request>, key: Key, from: int, to: int): nat -> bool {
    (i: nat) => Admitted(c, s, trace, key, i) && from <= trace[i].at < to
  }

  /** Admitted in the window that ends at `reset`. */
  ghost function InWindow(c: Config, s: State, trace: seq<Request>, key: Key, reset: int): nat -> bool {
    (i: nat) => Admitted(c, s, trace, key, i) && VerdictAt(c, s, trace, i).resetAt == reset
  }

  /** What a window admits: `max`, but never less than the request that opens it. */
  function PerWindow(c: Config): nat { Max(1, c.max) }

  datatype Maybe = Absent | Present(e: Entry)

  function At(buckets: map<Key, Entry>, key: Key): Maybe {
    if key in buckets then Present(buckets[key]) else Absent
  }

  /** What one request does to one key's entry. */
  ghost predicate KeyStep(c: Config, key: Key, before: Maybe, r: Request, after: Maybe, v: Verdict) {
    if r.key != key || !v.allowed then
      after == before || (after == Absent && before.Present? && Stale(c, r.cleanupAt, before.e))
    else if before.Present? && r.at - before.e.windowStart < c.windowMs then
      && before.e.count < c.max && v.resetAt == before.e.windowStart + c.windowMs
      && after == Present(Entry(before.e.count + 1, before.e.windowStart))
    else
      after == Present(Entry(1, r.at)) && v.resetAt == r.at + c.windowMs
  }

  lemma CheckIsKeyStep(c: Config, s: State, r: Request, key: Key)
    requires r.cleanupAt <= r.at
    ensures KeyStep(c, key, At(s.buckets, key), r, At(Check(c, s, r).0.buckets, key), Check(c, s, r).1)
  {
  }

  /** Every admission lies in its window, and only the entry's own window is still open. */
  ghost predicate Past(c: Config, s: State, trace: seq<Request>, key: Key, i: nat)
    requires i <= |trace|
  {
    var entry := At(Before(c, s, trace, i).buckets, key);
    forall j: nat | j < i && Admitted(c, s, trace, key, j) ::
      var reset := VerdictAt(c, s, trace, j).resetAt;
      && reset - c.windowMs <= trace[j].at < reset
      && (entry.Present? ==> reset == entry.e.windowStart + c.windowMs || reset <= entry.e.windowStart)
      && (entry.Absent? ==> reset <= trace[i - 1].cleanupAt)
  }

  /** The entry counts the admissions of its window. */
  ghost predicate Current(c: Config, s: State, trace: seq<Request>, key: Key, i: nat)
    requires i <= |trace|
  {
    var entry := At(Before(c, s, trace, i).buckets, key);
    entry.Present? ==>
      && i > 0 && entry.e.windowStart <= trace[i - 1].at && entry.e.count <= PerWindow(c)
      && CountIf(InWindow(c, s, trace, key, entry.e.windowStart + c.windowMs), i) == entry.e.count
  }

  ghost predicate History(c: Config, s: State, trace: seq<Request>, key: Key, i: nat)
    requires i <= |trace|
  {
    Past(c, s, trace, key, i) && Current(c, s, trace, key, i)
  }

  ghost predicate WindowsApart(c: Config, s: State, trace: seq<Request>, key: Key, i: nat)
    requires i <= |trace|
  {
    forall j: nat, k: nat | j < k < i && Admitted(c, s, trace, key, j) && Admitted(c, s, trace, key, k) ::
      var x, y := VerdictAt(c, s, trace, j).resetAt, VerdictAt(c, s, trace, k).resetAt;
      x == y || x + c.windowMs <= y
  }

  ghost predicate WindowsBounded(c: Config, s: State, trace: seq<Request>, key: Key, i: nat) {
    forall reset :: CountIf(InWindow(c, s, trace, key, reset), i) <= PerWindow(c)
  }

  /** The request that opened the window ending at `reset` is request o. */
  ghost predicate Opener(c: Config, s: State, trace: seq<Request>, key: Key, reset: int, o: nat) {
    Admitted(c, s, trace, key, o) && VerdictAt(c, s, trace, o).resetAt == reset
    && trace[o].at == reset - c.windowMs
  }

  ghost predicate HasOpener(c: Config, s: State, trace: seq<Request>, key: Key, reset: int, i: nat) {
    exists o: nat :: o < i && Opener(c, s, trace, key, reset, o)
  }

  /** The entry's window and every window admitted into were opened by an admitted request. */
  ghost predicate Openers(c: Config, s: State, trace: seq<Request>, key: Key, i: nat)
    requires i <= |trace|
  {
    var entry := At(Before(c, s, trace, i).buckets, key);
    && (entry.Present? ==> HasOpener(c, s, trace, key, entry.e.windowStart + c.windowMs, i))
    && (forall j: nat | j < i && Admitted(c, s, trace, key, j) ::
          HasOpener(c, s, trace, key, VerdictAt(c, s, trace, j).resetAt, i))
  }

  lemma OpenersStep(c: Config, s: State, trace: seq<Request>, key: Key, i: nat)
    requires ClockForward(trace) && 0 < i <= |trace| && Openers(c, s, trace, key, i - 1)
    requires KeyStep(c, key, At(Before(c, s, trace, i - 1).buckets, key), trace[i - 1],
                     At(Before(c, s, trace, i).buckets, key), VerdictAt(c, s, trace, i - 1))
    ensures Openers(c, s, trace, key, i)
  {
    hide Before, VerdictAt;
    forall reset: int | HasOpener(c, s, trace, key, reset, i - 1) ensures HasOpener(c, s, trace, key, reset, i) {
      var o: nat :| o < i - 1 && Opener(c, s, trace, key, reset, o);
      assert o < i && Opener(c, s, trace, key, reset, o);
    }
    var before := At(Before(c, s, trace, i - 1).buckets, key);
    var reset := VerdictAt(c, s, trace, i - 1).resetAt;
    if Admitted(c, s, trace, key, i - 1)
       && (before.Absent? || trace[i - 1].at - before.e.windowStart >= c.windowMs) {
      assert Opener(c, s, trace, key, reset, i - 1);
    }
  }

  lemma {:induction false} OpenersHold(c: Config, s: State, trace: seq<Request>, key: Key, i: nat)
    requires s.buckets == map[] && ClockForward(trace) && i <= |trace|
    ensures Openers(c, s, trace, key, i)
  {
    if i > 0 {
      hide Before, VerdictAt, KeyStep;
      OpenersHold(c, s, trace, key, i - 1);
      StepAt(c, s, trace, key, i);
      OpenersStep(c, s, trace, key, i);
    }
  }

  lemma StepAt(c: Config, s: State, trace: seq<Request>, key: Key, i: nat)
    requires ClockForward(trace) && 0 < i <= |trace|
    ensures KeyStep(c, key, At(Before(c, s, trace, i - 1).buckets, key), trace[i - 1],
                    At(Before(c, s, trace, i).buckets, key), VerdictAt(c, s, trace, i - 1))
  {
    hide Check;
    CheckIsKeyStep(c, Before(c, s, trace, i - 1), trace[i - 1], key);
  }

  lemma {:induction false} HistoryHolds(c: Config, s: State, trace: seq<Request>, key: Key, i: nat)
    requires s.buckets == map[] && c.windowMs > 0 && ClockForward(trace) && i <= |trace|
    ensures History(c, s, trace, key, i)
    ensures WindowsApart(c, s, trace, key, i)
    ensures WindowsBounded(c, s, trace, key, i)
  {
    hide Before, VerdictAt, KeyStep;
    if i == 0 {
      EmptyHistory(c, s, trace, key);
    } else {
      HistoryHolds(c, s, trace, key, i - 1);
      StepAt(c, s, trace, key, i);
      PastStep(c, s, trace, key, i);
      CurrentStep(c, s, trace, key, i);
      ApartStep(c, s, trace, key, i);
      BoundedStep(c, s, trace, key, i);
    }
  }

  lemma EmptyHistory(c: Config, s: State, trace: seq<Request>, key: Key)
    requires s.buckets == map[]
    ensures History(c, s, trace, key, 0)
    ensures WindowsApart(c, s, trace, key, 0)
    ensures WindowsBounded(c, s, trace, key, 0)
  {
  }

  /** Everything admitted so far ended by the time a new window opens. */
  lemma EarlierWindowsEnded(c: Config, s: State, trace: seq<Request>, key: Key, i: nat)
    requires ClockForward(trace) && 0 < i <= |trace| && History(c, s, trace, key, i - 1)
    requires var before := At(Before(c, s, trace, i - 1).buckets, key);
             before.Absent? || trace[i - 1].at - before.e.windowStart >= c.windowMs
    ensures forall j: nat | j < i - 1 && Admitted(c, s, trace, key, j) ::
              VerdictAt(c, s, trace, j).resetAt <= trace[i - 1].at
  {
    hide Before, VerdictAt;
  }

  lemma PastStep(c: Config, s: State, trace: seq<Request>, key: Key, i: nat)
    requires c.windowMs > 0 && ClockForward(trace) && 0 < i <= |trace|
    requires Past(c, s, trace, key, i - 1) && Current(c, s, trace, key, i - 1)
    requires KeyStep(c, key, At(Before(c, s, trace, i - 1).buckets, key), trace[i - 1],
                     At(Before(c, s, trace, i).buckets, key), VerdictAt(c, s, trace, i - 1))
    ensures Past(c, s, trace, key, i)
  {
    hide Before, VerdictAt, CountIf;
    var before := At(Before(c, s, trace, i - 1).buckets, key);
    if before.Absent? || trace[i - 1].at - before.e.windowStart >= c.windowMs {
      EarlierWindowsEnded(c, s, trace, key, i);
    }
  }

  lemma CurrentStep(c: Config, s: State, trace: seq<Request>, key: Key, i: nat)
    requires c.windowMs > 0 && ClockForward(trace) && 0 < i <= |trace|
    requires Past(c, s, trace, key, i - 1) && Current(c, s, trace, key, i - 1)
    requires KeyStep(c, key, At(Before(c, s, trace, i - 1).buckets, key), trace[i - 1],
                     At(Before(c, s, trace, i).buckets, key), VerdictAt(c, s, trace, i - 1))
    ensures Current(c, s, trace, key, i)
  {
    hide Before, VerdictAt, Past;
    var reset := VerdictAt(c, s, trace, i - 1).resetAt;
    var before := At(Before(c, s, trace, i - 1).buckets, key);
    if before.Absent? || trace[i - 1].at - before.e.windowStart >= c.windowMs {
      EarlierWindowsEnded(c, s, trace, key, i);
      if Admitted(c, s, trace, key, i - 1) {
        CountIfNone(InWindow(c, s, trace, key, reset), i - 1);
      }
    }
  }

  lemma ApartStep(c: Config, s: State, trace: seq<Request>, key: Key, i: nat)
    requires c.windowMs > 0 && ClockForward(trace) && 0 < i <= |trace|
    requires History(c, s, trace, key, i - 1) && WindowsApart(c, s, trace, key, i - 1)
    requires KeyStep(c, key, At(Before(c, s, trace, i - 1).buckets, key), trace[i - 1],
                     At(Before(c, s, trace, i).buckets, key), VerdictAt(c, s, trace, i - 1))
    ensures WindowsApart(c, s, trace, key, i)
  {
    hide Before, VerdictAt, CountIf;
    var before := At(Before(c, s, trace, i - 1).buckets, key);
    if before.Absent? || trace[i - 1].at - before.e.windowStart >= c.windowMs {
      EarlierWindowsEnded(c, s, trace, key, i);
    }
  }

  lemma BoundedStep(c: Config, s: State, trace: seq<Request>, key: Key, i: nat)
    requires 0 < i <= |trace|
    requires WindowsBounded(c, s, trace, key, i - 1) && History(c, s, trace, key, i)
    requires KeyStep(c, key, At(Before(c, s, trace, i - 1).buckets, key), trace[i - 1],
                     At(Before(c, s, trace, i).buckets, key), VerdictAt(c, s, trace, i - 1))
    ensures WindowsBounded(c, s, trace, key, i)
  {
    hide Before, VerdictAt;
    forall reset ensures CountIf(InWindow(c, s, trace, key, reset), i) <= PerWindow(c) {
      var before := CountIf(InWindow(c, s, trace, key, reset), i - 1);
    }
  }

  /** No window, known by its end, admits more than `max` requests (one, when max is smaller). */
  lemma WindowBound(c: Config, s: State, trace: seq<Request>, key: Key, reset: int)
    requires s.buckets == map[] && c.windowMs > 0 && ClockForward(trace)
    ensures CountIf(InWindow(c, s, trace, key, reset), |trace|) <= PerWindow(c)
  {
    HistoryHolds(c, s, trace, key, |trace|);
  }

  /** Two windows met by one interval: the earlier one was opened before the interval. */
  lemma TwoWindows(c: Config, s: State, trace: seq<Request>, key: Key, from: int, i: nat, j: nat)
    requires s.buckets == map[] && c.windowMs > 0 && ClockForward(trace)
    requires var p := InInterval(c, s, trace, key, from, from + c.windowMs);
             i < |trace| && j < |trace| && p(i) && p(j)
    requires VerdictAt(c, s, trace, i).resetAt < VerdictAt(c, s, trace, j).resetAt
    ensures CountIf(InInterval(c, s, trace, key, from, from + c.windowMs), |trace|) <= 2 * PerWindow(c) - 1
  {
    hide Before, VerdictAt, CountIf, Current;
    var n := |trace|;
    var p := InInterval(c, s, trace, key, from, from + c.windowMs);
    var a, b := VerdictAt(c, s, trace, i).resetAt, VerdictAt(c, s, trace, j).resetAt;
    HistoryHolds(c, s, trace, key, n);
    OpenersHold(c, s, trace, key, n);
    var o: nat :| o < n && Opener(c, s, trace, key, a, o);
    var early := (x: nat) => p(x) && InWindow(c, s, trace, key, a)(x);
    assert !p(o);
    CountIfLess(early, InWindow(c, s, trace, key, a), o, n);
    CountIfSplit(p, early, InWindow(c, s, trace, key, b), n);
  }

  /** An interval as long as a window admits fewer requests than two windows do. */
  lemma SlidingBound(c: Config, s: State, trace: seq<Request>, key: Key, from: int)
    requires s.buckets == map[] && c.windowMs > 0 && ClockForward(trace)
    ensures CountIf(InInterval(c, s, trace, key, from, from + c.windowMs), |trace|) <= 2 * PerWindow(c) - 1
  {
    hide Before, VerdictAt, CountIf;
    var n := |trace|;
    var p := InInterval(c, s, trace, key, from, from + c.windowMs);
    if i: nat :| i < n && p(i) {
      var a := VerdictAt(c, s, trace, i).resetAt;
      if j: nat :| j < n && p(j) && VerdictAt(c, s, trace, j).resetAt != a {
        if a < VerdictAt(c, s, trace, j).resetAt {
          TwoWindows(c, s, trace, key, from, i, j);
        } else {
          TwoWindows(c, s, trace, key, from, j, i);
        }
      } else {
        WindowBound(c, s, trace, key, a);
        CountIfWithin(p, InWindow(c, s, trace, key, a), n);
      }
    } else {
      CountIfNone(p, n);
    }
  }

  // ---------- the bound is met ----------

  /** One request opens a window, max - 1 fill it at its last instant, max more fill the next at its first. */
  function FullWindows(c: Config, key: Key): seq<Request>
    requires c.max >= 1 && c.windowMs >= 2
  {
    var w := c.windowMs;
    seq(2 * c.max, i requires 0 <= i < 2 * c.max =>
      if i == 0 then Request(key, 0, 0) else if i < c.max then Request(key, w - 1, w - 1) else Request(key, w, w))
  }

  /** What the limiter holds before request i: the first window's count, then the second's. */
  lemma {:induction false} FillingWindows(c: Config, key: Key, i: nat)
    requires c.max >= 1 && c.windowMs >= 2 && i <= 2 * c.max
    ensures var s := Before(c, State(map[], 0), FullWindows(c, key), i);
            s.buckets == if i == 0 then map[]
                         else map[key := if i <= c.max then Entry(i, 0) else Entry(i - c.max, c.windowMs)]
  {
    if i > 0 {
      hide FullWindows;
      FillingWindows(c, key, i - 1);
      FillingStep(c, key, i - 1, Before(c, State(map[], 0), FullWindows(c, key), i - 1));
    }
  }

  /** Every request of the trace is let through and counted. */
  lemma FillingStep(c: Config, key: Key, i: nat, s: State)
    requires c.max >= 1 && c.windowMs >= 2 && i < 2 * c.max
    requires s.buckets == if i == 0 then map[]
                          else map[key := if i <= c.max then Entry(i, 0) else Entry(i - c.max, c.windowMs)]
    ensures var (t, v) := Check(c, s, FullWindows(c, key)[i]);
            && v.allowed
            && t.buckets == map[key := if i + 1 <= c.max then Entry(i + 1, 0) else Entry(i + 1 - c.max, c.windowMs)]
  {
    assert Cleanup(c, s, FullWindows(c, key)[i].cleanupAt).buckets == s.buckets;
    assert |s.buckets| <= 1;
  }

  lemma {:induction false} AllButFirst(p: nat -> bool, n: nat)
    requires !p(0) && forall i: nat | 0 < i < n :: p(i)
    ensures CountIf(p, n) == if n == 0 then 0 else n - 1
  {
    if n > 0 { AllButFirst(p, n - 1); }
  }

  /** For every max and every window of at least 2 ms, some interval admits as many as the bound allows. */
  lemma SlidingBoundIsMet(c: Config, key: Key)
    requires c.max >= 1 && c.windowMs >= 2
    ensures var trace, from := FullWindows(c, key), c.windowMs - 1;
            && ClockForward(trace)
            && CountIf(InInterval(c, State(map[], 0), trace, key, from, from + c.windowMs), |trace|) == 2 * c.max - 1
  {
    hide Before, VerdictAt;
    var trace := FullWindows(c, key);
    var p := InInterval(c, State(map[], 0), trace, key, c.windowMs - 1, 2 * c.windowMs - 1);
    forall i: nat | 0 < i < 2 * c.max ensures p(i) {
      AdmittedInFull(c, key, i);
    }
    assert !p(0);
    AllButFirst(p, 2 * c.max);
  }

  lemma AdmittedInFull(c: Config, key: Key, i: nat)
    requires c.max >= 1 && c.windowMs >= 2 && i < 2 * c.max
    ensures Admitted(c, State(map[], 0), FullWindows(c, key), key, i)
  {
    FillingWindows(c, key, i);
    FillingStep(c, key, i, Before(c, State(map[], 0), FullWindows(c, key), i));
  }

  // ---------- when an interval admits no more than a window ----------

  /** Requests of the key admitted in the interval of a window's length from `from` on. */
  ghost function AdmittedFrom(c: Config, s: State, trace: seq<Request>, key: Key, from: int): nat {
    CountIf(InInterval(c, s, trace, key, from, from + c.windowMs), |trace|)
  }

  /** From an empty limiter, no interval of a window's length ever admits more than a window does. */
  ghost predicate IntervalsBounded(c: Config, key: Key) {
    forall s: State, trace: seq<Request>, from: int | s.buckets == map[] && ClockForward(trace) ::
      AdmittedFrom(c, s, trace, key, from) <= PerWindow(c)
  }

  /** With one-millisecond windows an interval is one instant, and that lies in one window. */
  lemma OneInstant(c: Config, s: State, trace: seq<Request>, key: Key, from: int)
    requires s.buckets == map[] && c.windowMs == 1 && ClockForward(trace)
    ensures AdmittedFrom(c, s, trace, key, from) <= PerWindow(c)
  {
    hide Before, VerdictAt, CountIf;
    HistoryHolds(c, s, trace, key, |trace|);
    CountIfWithin(InInterval(c, s, trace, key, from, from + 1), InWindow(c, s, trace, key, from + 1), |trace|);
  }

  /** A sliding interval is held to the limit of a window exactly when that is one request, or a window is one instant or none. */
  lemma IntervalsBoundedExactlyWhen(c: Config, key: Key)
    ensures IntervalsBounded(c, key) <==> c.max <= 1 || c.windowMs <= 1
  {
    hide Before, VerdictAt, CountIf;
    if c.max <= 1 || c.windowMs <= 1 {
      forall s: State, trace: seq<Request>, from: int | s.buckets == map[] && ClockForward(trace)
        ensures AdmittedFrom(c, s, trace, key, from) <= PerWindow(c)
      {
        if c.windowMs == 0 {
          CountIfNone(InInterval(c, s, trace, key, from, from), |trace|);
        } else if c.windowMs == 1 {
          OneInstant(c, s, trace, key, from);
        } else {
          SlidingBound(c, s, trace, key, from);
        }
      }
    } else {
      SlidingBoundIsMet(c, key);
      assert AdmittedFrom(c, State(map[], 0), FullWindows(c, key), key, c.windowMs - 1) > PerWindow(c);
    }
  }
}
