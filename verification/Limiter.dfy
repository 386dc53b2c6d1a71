/** Per-client rate limiting with eviction of idle buckets.

    Eviction is meant to be invisible.  It is, exactly when a bucket refills
    completely within the idle time.
 */
module Limiter {

  datatype Config = Config(rate: real, burst: nat, idleTTL: real, sweepInterval: real)

  /** A token bucket: the tokens it held at time `last`. */
  datatype Bucket = Bucket(tokens: real, last: real)
  datatype Entry = Entry(bucket: Bucket, lastSeen: real)
  datatype Registry = Registry(entries: map<string, Entry>, lastSweep: real)
  datatype Call = Call(key: string, now: real)

  ghost predicate ValidConfig(cfg: Config)
  {
    cfg.rate > 0.0 && cfg.burst >= 1 && cfg.idleTTL >= 0.0 && cfg.sweepInterval >= 0.0
  }

  // ---------- One bucket ----------

  /** What accrues in the time from `a` to `b`. */
  function Gain(cfg: Config, a: real, b: real): real { cfg.rate * (b - a) }

  function Capped(x: real, cap: real): real { if x > cap then cap else x }

  /** Tokens available at time `t`. */
  function Level(cfg: Config, b: Bucket, t: real): real
  {
    Capped(b.tokens + Gain(cfg, b.last, t), cfg.burst as real)
  }

  /** One request: granted when a whole token is available; a refused request leaves the
      bucket as it was. */
  function Take(cfg: Config, b: Bucket, t: real): (Bucket, bool)
  {
    var level := Level(cfg, b, t);
    if level >= 1.0 then (Bucket(level - 1.0, t), true) else (b, false)
  }

  /** A new bucket is full. */
  function NewBucket(cfg: Config, now: real): Bucket { Bucket(cfg.burst as real, now) }

  // ---------- The registry ----------

  function Swept(cfg: Config, entries: map<string, Entry>, now: real): map<string, Entry>
  {
    map k | k in entries && now - entries[k].lastSeen <= cfg.idleTTL :: entries[k]
  }

  function Allow(cfg: Config, r: Registry, key: string, now: real): (Registry, bool)
  {
    var bucket := if key in r.entries then r.entries[key].bucket else NewBucket(cfg, now);
    var seen := r.entries[key := Entry(bucket, now)];
    var due := now - r.lastSweep >= cfg.sweepInterval;
    var kept := if due then Swept(cfg, seen, now) else seen;
    var (after, ok) := Take(cfg, bucket, now);
    (Registry(if key in kept then kept[key := Entry(after, now)] else kept,
              if due then now else r.lastSweep),
     ok)
  }

  /** The limiter that never evicts. */
  function AllowForever(cfg: Config, buckets: map<string, Bucket>, key: string, now: real): (map<string, Bucket>, bool)
  {
    var bucket := if key in buckets then buckets[key] else NewBucket(cfg, now);
    var (after, ok) := Take(cfg, bucket, now);
    (buckets[key := after], ok)
  }

  class LimiterRegistry {
    const cfg: Config
    var entries: map<string, Entry>
    var lastSweep: real

    constructor (cfg: Config, now: real)
      ensures this.cfg == cfg && Contents() == Registry(map[], now)
    {
      this.cfg, entries, lastSweep := cfg, map[], now;
    }

    ghost function Contents(): Registry
      reads this
    {
      Registry(entries, lastSweep)
    }

    method AllowRequest(key: string, now: real) returns (ok: bool)
      modifies this
      ensures (Contents(), ok) == Allow(cfg, old(Contents()), key, now)
    {
      var bucket := NewBucket(cfg, now);
      if key in entries {
        bucket := entries[key].bucket;
      }
      entries := entries[key := Entry(bucket, now)];
      if now - lastSweep >= cfg.sweepInterval {
        Sweep(now);
      }
      var (after, granted) := Take(cfg, bucket, now);
      if key in entries {
        entries := entries[key := Entry(after, now)];
      }
      ok := granted;
    }

    /** Visits the entries in any order and drops those idle too long. */
    method Sweep(now: real)
      modifies this
      ensures entries == Swept(cfg, old(entries), now) && lastSweep == now
    {
      lastSweep := now;
      ghost var before := entries;
      var todo := entries.Keys;
      while todo != {}
        invariant lastSweep == now && todo <= entries.Keys <= before.Keys
        invariant forall k | k in before ::
            k in entries <==> k in todo || now - before[k].lastSeen <= cfg.idleTTL
        invariant forall k | k in entries :: entries[k] == before[k]
        decreases todo
      {
        var k :| k in todo;
        todo := todo - {k};
        if now - entries[k].lastSeen > cfg.idleTTL {
          entries := entries - {k};
        }
      }
    }
  }

  // ---------- Eviction is invisible ----------

  lemma RateMonotone(rate: real, a: real, b: real)
    requires rate > 0.0 && a <= b
    ensures rate * a <= rate * b
  {
    assert rate * (b - a) >= 0.0;
    assert rate * b == rate * a + rate * (b - a);
  }

  ghost predicate ValidBucket(cfg: Config, b: Bucket, t: real)
  {
    0.0 <= b.tokens <= cfg.burst as real && b.last <= t
  }

  /** Full at `t`, and so at any later time. */
  ghost predicate Full(cfg: Config, b: Bucket, t: real)
  {
    b.tokens + Gain(cfg, b.last, t) >= cfg.burst as real
  }

  /** A full bucket answers like a new one. */
  lemma FullTakesLikeNew(cfg: Config, b: Bucket, now: real)
    requires ValidConfig(cfg) && Full(cfg, b, now)
    ensures Take(cfg, b, now) == Take(cfg, NewBucket(cfg, now), now)
  {
    assert Level(cfg, b, now) == cfg.burst as real;
    LevelAtOnce(cfg, cfg.burst as real, now);
  }

  lemma FullStays(cfg: Config, b: Bucket, t: real, t': real)
    requires ValidConfig(cfg) && Full(cfg, b, t) && t <= t'
    ensures Full(cfg, b, t')
  {
    RateMonotone(cfg.rate, t - b.last, t' - b.last);
  }

  lemma TakeValid(cfg: Config, b: Bucket, t: real, now: real)
    requires ValidConfig(cfg) && ValidBucket(cfg, b, t) && t <= now
    ensures ValidBucket(cfg, Take(cfg, b, now).0, now)
  {
    RateMonotone(cfg.rate, 0.0, now - b.last);
  }

  /** An idle bucket has refilled when the rate fills a bucket within the idle time. */
  lemma IdleIsFull(cfg: Config, b: Bucket, lastSeen: real, now: real)
    requires ValidConfig(cfg) && cfg.rate * cfg.idleTTL >= cfg.burst as real
    requires ValidBucket(cfg, b, lastSeen) && now - lastSeen > cfg.idleTTL
    ensures Full(cfg, b, now)
  {
    var idle := now - b.last;
    RateMonotone(cfg.rate, cfg.idleTTL, idle);
    assert cfg.rate * idle >= cfg.burst as real;
  }

  /** At time `t` the two limiters hold the same buckets, except that a bucket missing
      from the evicting one is full in the other. */
  ghost predicate Mirrors(cfg: Config, r: Registry, buckets: map<string, Bucket>, t: real)
  {
    && (forall k | k in r.entries ::
          && k in buckets && r.entries[k].bucket == buckets[k]
          && r.entries[k].lastSeen <= t && ValidBucket(cfg, buckets[k], r.entries[k].lastSeen))
    && (forall k | k in buckets && k !in r.entries :: Full(cfg, buckets[k], t))
  }

  lemma AllowMirrors(cfg: Config, r: Registry, buckets: map<string, Bucket>, t: real, key: string, now: real)
    requires ValidConfig(cfg) && cfg.rate * cfg.idleTTL >= cfg.burst as real
    requires Mirrors(cfg, r, buckets, t) && t <= now
    ensures var (r', ok) := Allow(cfg, r, key, now);
      var (buckets', ok') := AllowForever(cfg, buckets, key, now);
      ok == ok' && Mirrors(cfg, r', buckets', now)
  {
    var (r', ok) := Allow(cfg, r, key, now);
    var (buckets', ok') := AllowForever(cfg, buckets, key, now);
    SameAnswer(cfg, r, buckets, t, key, now);
    forall k | k in buckets' && k !in r'.entries
      ensures Full(cfg, buckets'[k], now)
    {
      if k in r.entries {
        IdleIsFull(cfg, buckets[k], r.entries[k].lastSeen, now);
      } else {
        FullStays(cfg, buckets[k], t, now);
      }
    }
  }

  lemma SameAnswer(cfg: Config, r: Registry, buckets: map<string, Bucket>, t: real, key: string, now: real)
    requires ValidConfig(cfg) && Mirrors(cfg, r, buckets, t) && t <= now
    ensures var (r', ok) := Allow(cfg, r, key, now);
      var (buckets', ok') := AllowForever(cfg, buckets, key, now);
      && ok == ok' && key in r'.entries && r'.entries[key] == Entry(buckets'[key], now)
      && ValidBucket(cfg, buckets'[key], now)
  {
    if key in r.entries {
      TakeValid(cfg, buckets[key], t, now);
    } else {
      TakeValid(cfg, NewBucket(cfg, now), now, now);
      if key in buckets {
        FullStays(cfg, buckets[key], t, now);
        FullTakesLikeNew(cfg, buckets[key], now);
      }
    }
  }

  // ---------- Runs ----------

  ghost predicate InOrder(calls: seq<Call>, start: real)
  {
    && (forall i | 0 <= i < |calls| :: start <= calls[i].now)
    && (forall i, j :: 0 <= i < j < |calls| ==> calls[i].now <= calls[j].now)
  }

  function After(cfg: Config, r: Registry, calls: seq<Call>): Registry
    decreases |calls|
  {
    if calls == [] then r
    else After(cfg, Allow(cfg, r, calls[0].key, calls[0].now).0, calls[1..])
  }

  function Answers(cfg: Config, r: Registry, calls: seq<Call>): (a: seq<bool>)
    ensures |a| == |calls|
    decreases |calls|
  {
    if calls == [] then []
    else
      var (next, ok) := Allow(cfg, r, calls[0].key, calls[0].now);
      [ok] + Answers(cfg, next, calls[1..])
  }

  function AfterForever(cfg: Config, buckets: map<string, Bucket>, calls: seq<Call>): map<string, Bucket>
    decreases |calls|
  {
    if calls == [] then buckets
    else AfterForever(cfg, AllowForever(cfg, buckets, calls[0].key, calls[0].now).0, calls[1..])
  }

  function AnswersForever(cfg: Config, buckets: map<string, Bucket>, calls: seq<Call>): (a: seq<bool>)
    ensures |a| == |calls|
    decreases |calls|
  {
    if calls == [] then []
    else
      var (next, ok) := AllowForever(cfg, buckets, calls[0].key, calls[0].now);
      [ok] + AnswersForever(cfg, next, calls[1..])
  }

  lemma {:induction false} MirroredAnswers(cfg: Config, r: Registry, buckets: map<string, Bucket>, t: real,
                                           calls: seq<Call>)
    requires ValidConfig(cfg) && cfg.rate * cfg.idleTTL >= cfg.burst as real
    requires Mirrors(cfg, r, buckets, t) && InOrder(calls, t)
    ensures Answers(cfg, r, calls) == AnswersForever(cfg, buckets, calls)
    decreases |calls|
  {
    if calls != [] {
      AllowMirrors(cfg, r, buckets, t, calls[0].key, calls[0].now);
      MirroredAnswers(cfg, Allow(cfg, r, calls[0].key, calls[0].now).0,
                      AllowForever(cfg, buckets, calls[0].key, calls[0].now).0, calls[0].now, calls[1..]);
    }
  }

  // ---------- Entries do not pile up ----------

  ghost predicate RecentlySwept(cfg: Config, r: Registry, now: real)
  {
    && (now - r.lastSweep < cfg.sweepInterval || r.lastSweep == now)
    && forall k | k in r.entries :: r.entries[k].lastSeen >= r.lastSweep - cfg.idleTTL
  }

  lemma AllowKeepsRecent(cfg: Config, r: Registry, key: string, now: real)
    requires ValidConfig(cfg) && r.lastSweep <= now
    requires forall k | k in r.entries :: r.entries[k].lastSeen >= r.lastSweep - cfg.idleTTL
    ensures RecentlySwept(cfg, Allow(cfg, r, key, now).0, now)
  {
  }

  /** No entry has been idle for longer than the idle time plus the sweep interval. */
  ghost predicate RecentAt(cfg: Config, entries: map<string, Entry>, now: real)
  {
    forall k | k in entries :: now - entries[k].lastSeen <= cfg.idleTTL + cfg.sweepInterval
  }

  lemma SweptIsRecent(cfg: Config, r: Registry, now: real)
    requires ValidConfig(cfg) && RecentlySwept(cfg, r, now)
    ensures RecentAt(cfg, r.entries, now)
  {
  }

  /** What a registry satisfies before a call. */
  ghost predicate Kept(cfg: Config, r: Registry, start: real)
  {
    r.lastSweep <= start && forall k | k in r.entries :: r.entries[k].lastSeen >= r.lastSweep - cfg.idleTTL
  }

  lemma AllowKeeps(cfg: Config, r: Registry, key: string, start: real, now: real)
    requires ValidConfig(cfg) && Kept(cfg, r, start) && start <= now
    ensures var next := Allow(cfg, r, key, now).0;
      Kept(cfg, next, now) && RecentAt(cfg, next.entries, now)
  {
    AllowKeepsRecent(cfg, r, key, now);
    SweptIsRecent(cfg, Allow(cfg, r, key, now).0, now);
  }

  /** After every call of every run, no entry has been idle for longer than the idle
      time plus the sweep interval. */
  lemma {:induction false} EntriesStayRecent(cfg: Config, r: Registry, calls: seq<Call>, start: real)
    requires ValidConfig(cfg) && InOrder(calls, start) && calls != [] && Kept(cfg, r, start)
    ensures RecentAt(cfg, After(cfg, r, calls).entries, calls[|calls| - 1].now)
    decreases |calls|
  {
    var first, rest := calls[0], calls[1..];
    var next := Allow(cfg, r, first.key, first.now).0;
    AllowKeeps(cfg, r, first.key, start, first.now);
    if rest == [] {
      assert After(cfg, next, []) == next;
    } else {
      EntriesStayRecent(cfg, next, rest, first.now);
      assert rest[|rest| - 1] == calls[|calls| - 1];
    }
  }

  // ---------- And exactly then ----------

  function Repeat(key: string, t: real, n: nat): (calls: seq<Call>)
    ensures |calls| == n && forall i | 0 <= i < n :: calls[i] == Call(key, t)
  {
    seq(n, _ => Call(key, t))
  }

  lemma RepeatUnfolds(key: string, t: real, n: nat)
    requires n > 0
    ensures Repeat(key, t, n)[1..] == Repeat(key, t, n - 1)
  {
  }

  lemma {:induction false} AnswersConcat(cfg: Config, r: Registry, a: seq<Call>, b: seq<Call>)
    ensures Answers(cfg, r, a + b) == Answers(cfg, r, a) + Answers(cfg, After(cfg, r, a), b)
    decreases |a|
  {
    if a == [] {
      assert a + b == b;
    } else {
      AnswersConcat(cfg, Allow(cfg, r, a[0].key, a[0].now).0, a[1..], b);
      assert (a + b)[1..] == a[1..] + b;
    }
  }

  lemma {:induction false} AnswersForeverConcat(cfg: Config, buckets: map<string, Bucket>, a: seq<Call>, b: seq<Call>)
    ensures AnswersForever(cfg, buckets, a + b)
         == AnswersForever(cfg, buckets, a) + AnswersForever(cfg, AfterForever(cfg, buckets, a), b)
    decreases |a|
  {
    if a == [] {
      assert a + b == b;
    } else {
      AnswersForeverConcat(cfg, AllowForever(cfg, buckets, a[0].key, a[0].now).0, a[1..], b);
      assert (a + b)[1..] == a[1..] + b;
    }
  }

  ghost predicate AllGranted(a: seq<bool>)
  {
    forall i | 0 <= i < |a| :: a[i]
  }

  lemma GrantedUnfolds(first: bool, rest: seq<bool>)
    ensures AllGranted([first] + rest) <==> first && AllGranted(rest)
  {
    var a := [first] + rest;
    assert a[0] == first && forall i | 0 <= i < |rest| :: rest[i] == a[i + 1];
    if AllGranted(a) {
      forall i | 0 <= i < |rest|
        ensures rest[i]
      {
        assert a[i + 1];
      }
    }
  }

  lemma LevelAtOnce(cfg: Config, tokens: real, t: real)
    requires tokens <= cfg.burst as real
    ensures Level(cfg, Bucket(tokens, t), t) == tokens
  {
    assert cfg.rate * (t - t) == 0.0;
  }

  /** The bucket the next request for `key` will use. */
  function BucketOf(cfg: Config, r: Registry, key: string, now: real): Bucket
  {
    if key in r.entries then r.entries[key].bucket else NewBucket(cfg, now)
  }

  /** `n` requests at once take `n` tokens, when the bucket has them. */
  lemma {:induction false} DrainEvicting(cfg: Config, r: Registry, key: string, t: real, n: nat)
    requires ValidConfig(cfg) && Level(cfg, BucketOf(cfg, r, key, t), t) >= n as real
    ensures AllGranted(Answers(cfg, r, Repeat(key, t, n)))
    ensures n > 0 ==>
      var end := After(cfg, r, Repeat(key, t, n));
      && key in end.entries && end.entries[key].lastSeen == t
      && end.entries[key].bucket == Bucket(Level(cfg, BucketOf(cfg, r, key, t), t) - n as real, t)
      && (end.lastSweep == r.lastSweep || (end.lastSweep == t && t - r.lastSweep >= cfg.sweepInterval))
    decreases n
  {
    if n > 0 {
      var level := Level(cfg, BucketOf(cfg, r, key, t), t);
      var next := Allow(cfg, r, key, t).0;
      RepeatUnfolds(key, t, n);
      assert next.entries[key] == Entry(Bucket(level - 1.0, t), t);
      LevelAtOnce(cfg, level - 1.0, t);
      DrainEvicting(cfg, next, key, t, n - 1);
      if n == 1 {
        assert After(cfg, r, Repeat(key, t, n)) == next;
      }
    }
  }

  /** A bucket never grants more requests at once than it has tokens. */
  lemma {:induction false} DrainForever(cfg: Config, buckets: map<string, Bucket>, key: string, t: real, n: nat)
    requires ValidConfig(cfg) && key in buckets && Level(cfg, buckets[key], t) >= 0.0
    ensures AllGranted(AnswersForever(cfg, buckets, Repeat(key, t, n))) <==> Level(cfg, buckets[key], t) >= n as real
    decreases n
  {
    if n > 0 {
      var level := Level(cfg, buckets[key], t);
      var (next, ok) := AllowForever(cfg, buckets, key, t);
      RepeatUnfolds(key, t, n);
      if level >= 1.0 {
        LevelAtOnce(cfg, level - 1.0, t);
        DrainForever(cfg, next, key, t, n - 1);
      }
      GrantedUnfolds(ok, AnswersForever(cfg, next, Repeat(key, t, n - 1)));
    }
  }

  /** The run that tells the limiters apart: drain a bucket at `t0`, let another client
      trigger a sweep `gap` later, and ask for a full burst again. */
  ghost function Witness(cfg: Config, t0: real, gap: real): (calls: seq<Call>)
  {
    Repeat("a", t0, cfg.burst) + ([Call("b", t0 + gap)] + Repeat("a", t0 + gap, cfg.burst))
  }

  /** The evicting limiter grants all of it. */
  lemma WitnessEvicting(cfg: Config, t0: real, gap: real)
    requires ValidConfig(cfg) && 0.0 <= t0 && gap > cfg.idleTTL
    requires t0 + gap >= cfg.sweepInterval && (t0 >= cfg.sweepInterval ==> gap >= cfg.sweepInterval)
    ensures var again := cfg.burst + 1;
      AllGranted(Answers(cfg, Registry(map[], 0.0), Witness(cfg, t0, gap))[again..])
  {
    var r0, n, t := Registry(map[], 0.0), cfg.burst, t0 + gap;
    var first := Repeat("a", t0, n);
    BurstDrains(cfg, r0, t0);
    var r1 := After(cfg, r0, first);
    SweepEvicts(cfg, r1, t0, t);
    BurstDrains(cfg, Allow(cfg, r1, "b", t).0, t);
    AnswersAfter(cfg, r0, first, Call("b", t), Repeat("a", t, n));
  }

  /** A client without an entry is granted a full burst at once. */
  lemma BurstDrains(cfg: Config, r: Registry, t: real)
    requires ValidConfig(cfg) && "a" !in r.entries
    ensures AllGranted(Answers(cfg, r, Repeat("a", t, cfg.burst)))
    ensures var end := After(cfg, r, Repeat("a", t, cfg.burst));
      && "a" in end.entries && end.entries["a"].lastSeen == t
      && (end.lastSweep == r.lastSweep || (end.lastSweep == t && t - r.lastSweep >= cfg.sweepInterval))
  {
    LevelAtOnce(cfg, cfg.burst as real, t);
    DrainEvicting(cfg, r, "a", t, cfg.burst);
  }

  /** Another client's request sweeps out an entry that has been idle too long. */
  lemma SweepEvicts(cfg: Config, r: Registry, seen: real, now: real)
    requires "a" in r.entries && r.entries["a"].lastSeen == seen && now - seen > cfg.idleTTL
    requires now - r.lastSweep >= cfg.sweepInterval
    ensures "a" !in Allow(cfg, r, "b", now).0.entries
  {
  }

  lemma AnswersAfter(cfg: Config, r: Registry, first: seq<Call>, c: Call, rest: seq<Call>)
    ensures Answers(cfg, r, first + ([c] + rest))[|first| + 1..]
         == Answers(cfg, Allow(cfg, After(cfg, r, first), c.key, c.now).0, rest)
  {
    AnswersConcat(cfg, r, first, [c] + rest);
    assert ([c] + rest)[1..] == rest;
  }

  /** The limiter that never evicts does not, when the bucket has not refilled. */
  lemma WitnessForever(cfg: Config, t0: real, gap: real)
    requires ValidConfig(cfg) && gap >= 0.0 && cfg.rate * gap < cfg.burst as real
    ensures var again := cfg.burst + 1;
      !AllGranted(AnswersForever(cfg, map[], Witness(cfg, t0, gap))[again..])
  {
    var n, t := cfg.burst, t0 + gap;
    var first, mid, again := Repeat("a", t0, n), [Call("b", t)], Repeat("a", t, n);
    DrainedForever(cfg, map[], t0, n);
    var b1 := AfterForever(cfg, map[], first);
    var b2 := AllowForever(cfg, b1, "b", t).0;
    assert b2["a"] == Bucket(0.0, t0);
    RateMonotone(cfg.rate, 0.0, gap);
    LevelLater(cfg, t0, gap);
    DrainForever(cfg, b2, "a", t, n);
    AnswersForeverConcat(cfg, map[], first, mid + again);
    assert (mid + again)[1..] == again;
    assert AnswersForever(cfg, b1, mid + again)[1..] == AnswersForever(cfg, b2, again);
    assert AnswersForever(cfg, map[], Witness(cfg, t0, gap))[n + 1..] == AnswersForever(cfg, b2, again);
  }

  lemma LevelLater(cfg: Config, t0: real, gap: real)
    requires cfg.rate * gap <= cfg.burst as real
    ensures Level(cfg, Bucket(0.0, t0), t0 + gap) == cfg.rate * gap
  {
    var elapsed := t0 + gap - t0;
    assert elapsed == gap;
    assert cfg.rate * elapsed == cfg.rate * gap;
  }

  /** A full burst at once empties a new bucket. */
  lemma DrainedForever(cfg: Config, buckets: map<string, Bucket>, t: real, n: nat)
    requires ValidConfig(cfg) && n == cfg.burst && "a" !in buckets
    ensures var end := AfterForever(cfg, buckets, Repeat("a", t, n));
      "a" in end && end["a"] == Bucket(0.0, t)
  {
    LevelAtOnce(cfg, n as real, t);
    RepeatUnfolds("a", t, n);
    var next := AllowForever(cfg, buckets, "a", t).0;
    DrainedFrom(cfg, next, t, n - 1);
  }

  lemma {:induction false} DrainedFrom(cfg: Config, buckets: map<string, Bucket>, t: real, n: nat)
    requires ValidConfig(cfg) && "a" in buckets && buckets["a"] == Bucket(n as real, t) && n <= cfg.burst
    ensures var end := AfterForever(cfg, buckets, Repeat("a", t, n));
      "a" in end && end["a"] == Bucket(0.0, t)
    decreases n
  {
    if n > 0 {
      LevelAtOnce(cfg, n as real, t);
      RepeatUnfolds("a", t, n);
      DrainedFrom(cfg, AllowForever(cfg, buckets, "a", t).0, t, n - 1);
    }
  }

  /** Eviction can never be observed, for any sequence of requests at non-decreasing
      times, if and only if a bucket refills completely within the idle time. */
  lemma EvictionInvisibleIff(cfg: Config)
    requires ValidConfig(cfg)
    ensures (forall calls | InOrder(calls, 0.0) ::
               Answers(cfg, Registry(map[], 0.0), calls) == AnswersForever(cfg, map[], calls))
       <==> cfg.rate * cfg.idleTTL >= cfg.burst as real
  {
    if cfg.rate * cfg.idleTTL >= cfg.burst as real {
      forall calls | InOrder(calls, 0.0)
        ensures Answers(cfg, Registry(map[], 0.0), calls) == AnswersForever(cfg, map[], calls)
      {
        MirroredAnswers(cfg, Registry(map[], 0.0), map[], 0.0, calls);
      }
    } else {
      var gap := GapBetween(cfg);
      var t0 := if cfg.sweepInterval > gap then cfg.sweepInterval - gap else 0.0;
      var calls := Witness(cfg, t0, gap);
      assert InOrder(calls, 0.0);
      WitnessEvicting(cfg, t0, gap);
      WitnessForever(cfg, t0, gap);
      assert Answers(cfg, Registry(map[], 0.0), calls) != AnswersForever(cfg, map[], calls);
    }
  }

  /** A gap longer than the idle time in which a bucket does not refill. */
  lemma GapBetween(cfg: Config) returns (gap: real)
    requires ValidConfig(cfg) && cfg.rate * cfg.idleTTL < cfg.burst as real
    ensures gap > cfg.idleTTL && cfg.rate * gap < cfg.burst as real
  {
    var slack := (cfg.burst as real - cfg.rate * cfg.idleTTL) / (2.0 * cfg.rate);
    gap := cfg.idleTTL + slack;
    assert cfg.rate * slack == (cfg.burst as real - cfg.rate * cfg.idleTTL) / 2.0;
    assert cfg.rate * gap == cfg.rate * cfg.idleTTL + cfg.rate * slack;
  }

  // ---------- What limiting means ----------

  /** How many of the requests of a client were granted. */
  function Granted(calls: seq<Call>, answers: seq<bool>, key: string): nat
    requires |answers| == |calls|
    decreases |calls|
  {
    if calls == [] then 0
    else (if calls[0].key == key && answers[0] then 1 else 0) + Granted(calls[1..], answers[1..], key)
  }

  /** What a client could be granted at once at time `t`. */
  function Credit(cfg: Config, buckets: map<string, Bucket>, key: string, t: real): real
  {
    if key in buckets then Level(cfg, buckets[key], t) else cfg.burst as real
  }

  ghost predicate ValidBuckets(cfg: Config, buckets: map<string, Bucket>, t: real)
  {
    forall k | k in buckets :: ValidBucket(cfg, buckets[k], t)
  }

  lemma GainAdds(cfg: Config, a: real, b: real, c: real)
    ensures Gain(cfg, a, c) == Gain(cfg, a, b) + Gain(cfg, b, c)
  {
    var x, y := b - a, c - b;
    assert c - a == x + y;
    assert cfg.rate * (x + y) == cfg.rate * x + cfg.rate * y;
  }

  lemma GainNotNegative(cfg: Config, a: real, b: real)
    requires cfg.rate > 0.0 && a <= b
    ensures Gain(cfg, a, b) >= 0.0
  {
    ProductNotNegative(cfg.rate, b - a, cfg.rate * (b - a));
  }

  lemma ProductNotNegative(a: real, b: real, p: real)
    requires a > 0.0 && b >= 0.0 && p == a * b
    ensures p >= 0.0
  {
    RateMonotone(a, 0.0, b);
  }

  lemma LevelIs(cfg: Config, b: Bucket, t: real, gain: real)
    requires gain == Gain(cfg, b.last, t)
    ensures Level(cfg, b, t) == Capped(b.tokens + gain, cfg.burst as real)
  {
  }

  /** Credit grows with time by at most the rate. */
  lemma CreditGrows(cfg: Config, buckets: map<string, Bucket>, key: string, t: real, now: real, gain: real)
    requires ValidConfig(cfg) && t <= now && gain == Gain(cfg, t, now)
    ensures Credit(cfg, buckets, key, now) <= Credit(cfg, buckets, key, t) + gain
  {
    GainNotNegative(cfg, t, now);
    if key in buckets {
      var b := buckets[key];
      var before, after := Gain(cfg, b.last, t), Gain(cfg, b.last, now);
      GainAdds(cfg, b.last, t, now);
      LevelIs(cfg, b, t, before);
      LevelIs(cfg, b, now, after);
      CappedGrows(b.tokens, cfg.burst as real, before, gain, after);
    }
  }

  lemma CappedGrows(tokens: real, cap: real, before: real, gain: real, after: real)
    requires after == before + gain && gain >= 0.0
    ensures Capped(tokens + after, cap) <= Capped(tokens + before, cap) + gain
  {
  }

  /** A granted request costs one, a refused one nothing, and other clients are not affected. */
  lemma RequestCosts(cfg: Config, buckets: map<string, Bucket>, c: Call, t: real, key: string)
    requires ValidConfig(cfg) && ValidBuckets(cfg, buckets, t) && t <= c.now
    ensures var (after, ok) := AllowForever(cfg, buckets, c.key, c.now);
      && ValidBuckets(cfg, after, c.now)
      && Credit(cfg, after, key, c.now)
           == Credit(cfg, buckets, key, c.now) - if c.key == key && ok then 1.0 else 0.0
  {
    var bucket := if c.key in buckets then buckets[c.key] else NewBucket(cfg, c.now);
    LevelAtOnce(cfg, cfg.burst as real, c.now);
    RateMonotone(cfg.rate, 0.0, c.now - bucket.last);
    var level := Level(cfg, bucket, c.now);
    if level >= 1.0 {
      LevelAtOnce(cfg, level - 1.0, c.now);
    }
  }

  lemma RequestAllowance(cfg: Config, buckets: map<string, Bucket>, c: Call, t: real, end: real, key: string,
                         whole: real, rest: real)
    requires ValidConfig(cfg) && ValidBuckets(cfg, buckets, t) && t <= c.now <= end
    requires whole == Gain(cfg, t, end) && rest == Gain(cfg, c.now, end)
    ensures var (after, ok) := AllowForever(cfg, buckets, c.key, c.now);
      && ValidBuckets(cfg, after, c.now)
      && Credit(cfg, after, key, c.now) + rest + (if c.key == key && ok then 1.0 else 0.0)
           <= Credit(cfg, buckets, key, t) + whole
  {
    RequestCosts(cfg, buckets, c, t, key);
    CreditGrows(cfg, buckets, key, t, c.now, Gain(cfg, t, c.now));
    GainAdds(cfg, t, c.now, end);
  }

  lemma {:induction false} GrantsBoundedFrom(cfg: Config, buckets: map<string, Bucket>, calls: seq<Call>, t: real,
                                             end: real, key: string, gain: real)
    requires ValidConfig(cfg) && ValidBuckets(cfg, buckets, t) && InOrder(calls, t) && t <= end
    requires (forall i | 0 <= i < |calls| :: calls[i].now <= end) && gain == Gain(cfg, t, end)
    ensures Granted(calls, AnswersForever(cfg, buckets, calls), key) as real <= Credit(cfg, buckets, key, t) + gain
    decreases |calls|
  {
    if calls == [] {
      GainNotNegative(cfg, t, end);
      CreditNotNegative(cfg, buckets, key, t);
    } else {
      var c := calls[0];
      var rest := Gain(cfg, c.now, end);
      RequestAllowance(cfg, buckets, c, t, end, key, gain, rest);
      GrantsBoundedFrom(cfg, AllowForever(cfg, buckets, c.key, c.now).0, calls[1..], c.now, end, key, rest);
      GrantedStep(cfg, buckets, calls, key);
    }
  }

  lemma GrantedStep(cfg: Config, buckets: map<string, Bucket>, calls: seq<Call>, key: string)
    requires calls != []
    ensures var (after, ok) := AllowForever(cfg, buckets, calls[0].key, calls[0].now);
      Granted(calls, AnswersForever(cfg, buckets, calls), key)
        == (if calls[0].key == key && ok then 1 else 0)
           + Granted(calls[1..], AnswersForever(cfg, after, calls[1..]), key)
  {
    assert AnswersForever(cfg, buckets, calls)[1..]
        == AnswersForever(cfg, AllowForever(cfg, buckets, calls[0].key, calls[0].now).0, calls[1..]);
  }

  lemma CreditNotNegative(cfg: Config, buckets: map<string, Bucket>, key: string, t: real)
    requires ValidConfig(cfg) && ValidBuckets(cfg, buckets, t)
    ensures Credit(cfg, buckets, key, t) >= 0.0
  {
    if key in buckets {
      LevelNotNegative(cfg, buckets[key], t);
    }
  }

  lemma LevelNotNegative(cfg: Config, b: Bucket, t: real)
    requires ValidConfig(cfg) && ValidBucket(cfg, b, t)
    ensures Level(cfg, b, t) >= 0.0
  {
    GainNotNegative(cfg, b.last, t);
    LevelIs(cfg, b, t, Gain(cfg, b.last, t));
  }

  /** The first call is the earliest and the last the latest. */
  lemma TimesBetween(calls: seq<Call>)
    requires calls != [] && InOrder(calls, 0.0)
    ensures InOrder(calls, calls[0].now)
    ensures forall i | 0 <= i < |calls| :: calls[i].now <= calls[|calls| - 1].now
  {
    forall i | 0 <= i < |calls|
      ensures calls[0].now <= calls[i].now <= calls[|calls| - 1].now
    {
      assert i > 0 ==> calls[0].now <= calls[i].now;
      assert i < |calls| - 1 ==> calls[i].now <= calls[|calls| - 1].now;
    }
  }

  /** Where eviction is invisible, no client is granted more requests than the burst plus the
      rate times the time they are spread over. */
  lemma GrantsBounded(cfg: Config, calls: seq<Call>, end: real, key: string)
    requires ValidConfig(cfg) && cfg.rate * cfg.idleTTL >= cfg.burst as real
    requires InOrder(calls, 0.0) && calls != [] && calls[|calls| - 1].now <= end
    ensures Granted(calls, Answers(cfg, Registry(map[], 0.0), calls), key) as real
         <= cfg.burst as real + cfg.rate * (end - calls[0].now)
  {
    MirroredAnswers(cfg, Registry(map[], 0.0), map[], 0.0, calls);
    GrantsBoundedForever(cfg, calls, end, key, cfg.rate * (end - calls[0].now));
  }

  lemma GrantsBoundedForever(cfg: Config, calls: seq<Call>, end: real, key: string, gain: real)
    requires ValidConfig(cfg) && InOrder(calls, 0.0) && calls != [] && calls[|calls| - 1].now <= end
    requires gain == Gain(cfg, calls[0].now, end)
    ensures Granted(calls, AnswersForever(cfg, map[], calls), key) as real <= cfg.burst as real + gain
  {
    TimesBetween(calls);
    GrantsBoundedFrom(cfg, map[], calls, calls[0].now, end, key, gain);
  }

  /** A request sweeps exactly when an interval has passed since the last sweep, and a sweep
      forgets exactly the clients that have been idle for longer than the idle time. */
  lemma SweepMeaning(cfg: Config, r: Registry, key: string, now: real, other: string)
    requires other != key && other in r.entries && now > r.lastSweep
    ensures var after := Allow(cfg, r, key, now).0;
      && (after.lastSweep == now <==> now - r.lastSweep >= cfg.sweepInterval)
      && (after.lastSweep != now ==> after.lastSweep == r.lastSweep)
      && (other !in after.entries <==>
            now - r.lastSweep >= cfg.sweepInterval && now - r.entries[other].lastSeen > cfg.idleTTL)
      && (other in after.entries ==> after.entries[other] == r.entries[other])
  {
  }
}
