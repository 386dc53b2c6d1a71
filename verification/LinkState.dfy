/** Control-plane reachability as the data plane tracks it: two proofs of life
    (heartbeat and watch stream), hysteresis in both directions, and a snapshot read
    that skips recomputation when the published view cannot have changed.
 */
module LinkStates {
  import opened Options

  datatype Config = Config(failClosed: bool, unreachableThreshold: int, recoverThreshold: int)

  /** 30 seconds, in nanoseconds: the constructor's default for a threshold that is not
      positive. */
  const DEFAULT_THRESHOLD := 30_000_000_000

  function Clamped(cfg: Config): (r: Config)
    ensures r.unreachableThreshold > 0
    ensures cfg.unreachableThreshold > 0 ==> r == cfg
    ensures cfg.unreachableThreshold <= 0 ==> r == Config(cfg.failClosed, 30 * 1_000_000_000, cfg.recoverThreshold)
  {
    if cfg.unreachableThreshold <= 0 then cfg.(unreachableThreshold := DEFAULT_THRESHOLD) else cfg
  }

  datatype View = Connected | Degraded | Unreachable

  datatype Snapshot = Snapshot(state: View, rejecting: bool, lastHeartbeat: Option<int>, watchUp: bool)

  /** None stands for the zero time. */
  datatype Link = Link(lastHB: Option<int>, watchUp: bool, bothStaleSince: Option<int>, recoverSince: Option<int>,
                       unreachable: bool, snap: Option<Snapshot>)

  const FRESH := Link(None, false, None, None, false, None)

  predicate HeartbeatStale(cfg: Config, lastHB: Option<int>, now: int)
  {
    lastHB == None || now - lastHB.value > cfg.unreachableThreshold
  }

  predicate BothStale(cfg: Config, s: Link, now: int)
  {
    HeartbeatStale(cfg, s.lastHB, now) && !s.watchUp
  }

  /** The hysteresis: unreachable after both proofs were stale for the threshold, and
      reachable again after both were good for the recovery threshold. */
  function Settle(cfg: Config, s: Link, now: int): Link
  {
    var hbStale, watchStale := HeartbeatStale(cfg, s.lastHB, now), !s.watchUp;
    if hbStale && watchStale then
      var since := if s.bothStaleSince == None then now else s.bothStaleSince.value;
      s.(bothStaleSince := Some(since), recoverSince := None,
         unreachable := s.unreachable || now - since >= cfg.unreachableThreshold)
    else if !s.unreachable then s.(bothStaleSince := None)
    else if hbStale || watchStale then s.(bothStaleSince := None, recoverSince := None)
    else
      var since := if s.recoverSince == None then now else s.recoverSince.value;
      if now - since >= cfg.recoverThreshold
      then s.(bothStaleSince := None, recoverSince := None, unreachable := false)
      else s.(bothStaleSince := None, recoverSince := Some(since))
  }

  function Observe(cfg: Config, s: Link, now: int): Snapshot
  {
    Snapshot(
      if s.unreachable then Unreachable
      else if HeartbeatStale(cfg, s.lastHB, now) || !s.watchUp then Degraded
      else Connected,
      s.unreachable && cfg.failClosed, s.lastHB, s.watchUp)
  }

  function Recompute(cfg: Config, s: Link, now: int): Link
  {
    var t := Settle(cfg, s, now);
    t.(snap := Some(Observe(cfg, t, now)))
  }

  /** Whether time alone may have moved the link into or out of unreachable. */
  predicate TimeMayAdvance(cfg: Config, snap: Snapshot, now: int)
  {
    var bothStale := HeartbeatStale(cfg, snap.lastHeartbeat, now) && !snap.watchUp;
    if snap.state == Unreachable then !bothStale else bothStale
  }

  datatype Operation = Heartbeat | WatchUp | WatchDown | Read

  function Mutate(s: Link, op: Operation, now: int): Link
  {
    match op
    case Heartbeat => s.(lastHB := Some(now))
    case WatchUp => s.(watchUp := true)
    case WatchDown => s.(watchUp := false)
    case Read => s
  }

  /** The fast machine: a read may answer from the published snapshot. */
  function FastStep(cfg: Config, s: Link, op: Operation, now: int): Link
  {
    if op == Read && s.snap.Some? && !TimeMayAdvance(cfg, s.snap.value, now) then s
    else Recompute(cfg, Mutate(s, op, now), now)
  }

  /** The simple machine: every operation recomputes. */
  function SimpleStep(cfg: Config, s: Link, op: Operation, now: int): Link
  {
    Recompute(cfg, Mutate(s, op, now), now)
  }

  class LinkState {
    const cfg: Config
    var lastHB: Option<int>
    var watchUp: bool
    var bothStaleSince: Option<int>
    var recoverSince: Option<int>
    var unreachable: bool
    var snap: Option<Snapshot>

    constructor (cfg: Config)
      ensures this.cfg == Clamped(cfg) && Contents() == FRESH
    {
      this.cfg := Clamped(cfg);
      lastHB, watchUp, bothStaleSince, recoverSince, unreachable, snap := None, false, None, None, false, None;
    }

    ghost function Contents(): Link
      reads this
    {
      Link(lastHB, watchUp, bothStaleSince, recoverSince, unreachable, snap)
    }

    method RecomputeLocked(now: int)
      modifies this
      ensures Contents() == Recompute(cfg, old(Contents()), now)
    {
      var hbStale, watchStale := HeartbeatStale(cfg, lastHB, now), !watchUp;
      if hbStale && watchStale {
        if bothStaleSince == None {
          bothStaleSince := Some(now);
        }
        recoverSince := None;
        if now - bothStaleSince.value >= cfg.unreachableThreshold {
          unreachable := true;
        }
      } else {
        bothStaleSince := None;
        if unreachable {
          if hbStale || watchStale {
            recoverSince := None;
          } else {
            if recoverSince == None {
              recoverSince := Some(now);
            }
            if now - recoverSince.value >= cfg.recoverThreshold {
              unreachable := false;
              recoverSince := None;
            }
          }
        }
      }
      var state := Connected;
      if unreachable {
        state := Unreachable;
      } else if hbStale || watchStale {
        state := Degraded;
      }
      snap := Some(Snapshot(state, unreachable && cfg.failClosed, lastHB, watchUp));
    }

    method TouchHeartbeat(now: int)
      modifies this
      ensures Contents() == FastStep(cfg, old(Contents()), Heartbeat, now)
    {
      lastHB := Some(now);
      RecomputeLocked(now);
    }

    method MarkWatchUp(now: int)
      modifies this
      ensures Contents() == FastStep(cfg, old(Contents()), WatchUp, now)
    {
      watchUp := true;
      RecomputeLocked(now);
    }

    method MarkWatchDown(now: int)
      modifies this
      ensures Contents() == FastStep(cfg, old(Contents()), WatchDown, now)
    {
      watchUp := false;
      RecomputeLocked(now);
    }

    method Read(now: int) returns (r: Snapshot)
      modifies this
      ensures Contents() == FastStep(cfg, old(Contents()), Operation.Read, now)
      ensures Contents().snap == Some(r)
    {
      if snap.Some? && !TimeMayAdvance(cfg, snap.value, now) {
        return snap.value;
      }
      RecomputeLocked(now);
      r := snap.value;
    }
  }

  // ---------- The fast read refines the simple one ----------

  /** What holds of either machine between operations, at any time from `t` on. */
  ghost predicate Consistent(cfg: Config, s: Link, t: int)
  {
    && cfg.unreachableThreshold > 0
    && (s.bothStaleSince.Some? ==> s.bothStaleSince.value <= t && BothStale(cfg, s, s.bothStaleSince.value))
    && (s.recoverSince.Some? ==> s.recoverSince.value <= t)
    && (!s.unreachable ==> s.recoverSince == None)
    && (!s.watchUp ==> s.recoverSince == None)
    && (s.lastHB.Some? ==> s.lastHB.value <= t)
    && (s.snap.Some? ==>
          && s.snap.value.lastHeartbeat == s.lastHB && s.snap.value.watchUp == s.watchUp
          && s.snap.value.rejecting == (s.unreachable && cfg.failClosed)
          && (s.snap.value.state == Unreachable <==> s.unreachable)
          && (s.snap.value.state == Connected ==> s.watchUp)
          && (s.snap.value.state == Degraded ==> HeartbeatStale(cfg, s.lastHB, t) || !s.watchUp))
  }

  /** The machines may only disagree on when both proofs went stale, and only while
      the link is unreachable, where it does not matter. */
  ghost predicate Agree(fast: Link, simple: Link)
  {
    && fast.lastHB == simple.lastHB && fast.watchUp == simple.watchUp
    && fast.unreachable == simple.unreachable && fast.recoverSince == simple.recoverSince
    && (fast.unreachable || fast.bothStaleSince == simple.bothStaleSince)
  }

  /** Staleness, once there, stays until a proof arrives. */
  lemma RecomputeConsistent(cfg: Config, s: Link, op: Operation, t: int, now: int)
    requires Consistent(cfg, s, t) && t <= now
    ensures Consistent(cfg, SimpleStep(cfg, s, op, now), now)
  {
  }

  lemma FastConsistent(cfg: Config, s: Link, op: Operation, t: int, now: int)
    requires Consistent(cfg, s, t) && t <= now
    ensures Consistent(cfg, FastStep(cfg, s, op, now), now)
  {
    RecomputeConsistent(cfg, s, op, t, now);
  }

  /** The two published snapshots coincide, except that the fast one may still say
      connected when only the heartbeat has gone stale since it was published. */
  ghost predicate SameSnapshot(cfg: Config, fast: Snapshot, simple: Snapshot, now: int)
  {
    && fast.(state := Connected) == simple.(state := Connected)
    && (fast.state != simple.state <==>
          fast.state == Connected && HeartbeatStale(cfg, fast.lastHeartbeat, now))
    && (fast.state != simple.state ==> simple.state == Degraded)
  }

  /** Recomputing both keeps them in agreement. */
  lemma SettleAgrees(cfg: Config, fast: Link, simple: Link, now: int)
    requires Agree(fast, simple)
    ensures Agree(Settle(cfg, fast, now), Settle(cfg, simple, now))
  {
  }

  lemma RecomputeAgrees(cfg: Config, fast: Link, simple: Link, op: Operation, now: int)
    requires Agree(fast, simple)
    ensures var f, s := Recompute(cfg, Mutate(fast, op, now), now), SimpleStep(cfg, simple, op, now);
      Agree(f, s) && f.snap == s.snap && SameSnapshot(cfg, f.snap.value, s.snap.value, now)
  {
    SettleAgrees(cfg, Mutate(fast, op, now), Mutate(simple, op, now), now);
  }

  /** Skipping the recomputation loses nothing but the move from connected to degraded. */
  lemma SkipAgrees(cfg: Config, fast: Link, simple: Link, t: int, now: int)
    requires Consistent(cfg, fast, t) && Consistent(cfg, simple, t) && Agree(fast, simple) && t <= now
    requires fast.snap.Some? && !TimeMayAdvance(cfg, fast.snap.value, now)
    ensures var s := SimpleStep(cfg, simple, Read, now);
      Agree(fast, s) && SameSnapshot(cfg, fast.snap.value, s.snap.value, now)
  {
  }

  lemma StepRefines(cfg: Config, fast: Link, simple: Link, op: Operation, t: int, now: int)
    requires Consistent(cfg, fast, t) && Consistent(cfg, simple, t) && Agree(fast, simple) && t <= now
    ensures var f, s := FastStep(cfg, fast, op, now), SimpleStep(cfg, simple, op, now);
      && Agree(f, s) && f.snap.Some? && s.snap.Some?
      && SameSnapshot(cfg, f.snap.value, s.snap.value, now)
  {
    if op == Read && fast.snap.Some? && !TimeMayAdvance(cfg, fast.snap.value, now) {
      SkipAgrees(cfg, fast, simple, t, now);
    } else {
      RecomputeAgrees(cfg, fast, simple, op, now);
    }
  }

  /** Timed operations; times never decrease. */
  datatype Timed = Timed(op: Operation, now: int)

  predicate InOrder(ops: seq<Timed>)
  {
    forall i, j :: 0 <= i < j < |ops| ==> ops[i].now <= ops[j].now
  }

  function FastRun(cfg: Config, ops: seq<Timed>): Link
  {
    if ops == [] then FRESH
    else var n := |ops| - 1; FastStep(cfg, FastRun(cfg, ops[..n]), ops[n].op, ops[n].now)
  }

  function SimpleRun(cfg: Config, ops: seq<Timed>): Link
  {
    if ops == [] then FRESH
    else var n := |ops| - 1; SimpleStep(cfg, SimpleRun(cfg, ops[..n]), ops[n].op, ops[n].now)
  }

  /** For every sequence of operations at non-decreasing times, the lock-free read and
      the always-recomputing one publish the same rejection decision, proofs and
      unreachable state; the only difference is connected against degraded, exactly
      when the heartbeat is stale and the fast machine last published connected. */
  lemma {:induction false} FastRefinesSimple(cfg: Config, ops: seq<Timed>)
    requires InOrder(ops) && ops != [] && cfg.unreachableThreshold > 0
    ensures var f, s, now := FastRun(cfg, ops), SimpleRun(cfg, ops), ops[|ops| - 1].now;
      && Consistent(cfg, f, now) && Consistent(cfg, s, now) && Agree(f, s)
      && f.snap.Some? && s.snap.Some? && SameSnapshot(cfg, f.snap.value, s.snap.value, now)
  {
    var n := |ops| - 1;
    var now := ops[n].now;
    var t := now;
    if n > 0 {
      FastRefinesSimple(cfg, ops[..n]);
      t := ops[n - 1].now;
    }
    var f, s := FastRun(cfg, ops[..n]), SimpleRun(cfg, ops[..n]);
    StepRefines(cfg, f, s, ops[n].op, t, now);
    FastConsistent(cfg, f, ops[n].op, t, now);
    RecomputeConsistent(cfg, s, ops[n].op, t, now);
  }

  /** The fast machine has published connected, the watch is up, and by `now` the heartbeat
      has gone stale. */
  predicate StaleConnected(cfg: Config, s: Link, now: int)
  {
    s.snap.Some? && s.snap.value.state == Connected && s.watchUp && HeartbeatStale(cfg, s.lastHB, now)
  }

  /** The next operation publishes different states in the two machines if and only if it is
      a read and finds the fast machine in a stale connected state. */
  lemma NextDiffersIff(cfg: Config, fast: Link, simple: Link, op: Operation, t: int, now: int)
    requires Consistent(cfg, fast, t) && Consistent(cfg, simple, t) && Agree(fast, simple) && t <= now
    ensures var f, s := FastStep(cfg, fast, op, now), SimpleStep(cfg, simple, op, now);
      && f.snap.Some? && s.snap.Some?
      && (f.snap != s.snap <==> op == Read && StaleConnected(cfg, fast, now))
  {
    StepRefines(cfg, fast, simple, op, t, now);
    if !(op == Read && fast.snap.Some? && !TimeMayAdvance(cfg, fast.snap.value, now)) {
      RecomputeAgrees(cfg, fast, simple, op, now);
    }
  }

  /** The same after every run. */
  lemma ReadDiffersIff(cfg: Config, ops: seq<Timed>, op: Operation, now: int)
    requires InOrder(ops + [Timed(op, now)]) && cfg.unreachableThreshold > 0
    ensures var f, s := FastRun(cfg, ops + [Timed(op, now)]), SimpleRun(cfg, ops + [Timed(op, now)]);
      && f.snap.Some? && s.snap.Some?
      && (f.snap != s.snap <==> op == Read && StaleConnected(cfg, FastRun(cfg, ops), now))
  {
    OneMore(cfg, ops, Timed(op, now));
    if ops == [] {
      NextDiffersIff(cfg, FRESH, FRESH, op, now, now);
    } else {
      FastRefinesSimple(cfg, ops);
      NextDiffersIff(cfg, FastRun(cfg, ops), SimpleRun(cfg, ops), op, ops[|ops| - 1].now, now);
    }
  }

  lemma OneMore(cfg: Config, ops: seq<Timed>, last: Timed)
    requires InOrder(ops + [last])
    ensures FastRun(cfg, ops + [last]) == FastStep(cfg, FastRun(cfg, ops), last.op, last.now)
    ensures SimpleRun(cfg, ops + [last]) == SimpleStep(cfg, SimpleRun(cfg, ops), last.op, last.now)
    ensures InOrder(ops) && (ops != [] ==> ops[|ops| - 1].now <= last.now)
  {
    var all := ops + [last];
    assert all[..|ops|] == ops;
    assert forall i | 0 <= i < |ops| :: all[i] == ops[i];
    assert ops != [] ==> all[|ops| - 1].now <= all[|ops|].now;
    forall i, j | 0 <= i < j < |ops|
      ensures ops[i].now <= ops[j].now
    {
      assert all[i].now <= all[j].now;
    }
  }

  /** The difference does occur: connected, then only time passes. */
  lemma StaleConnectedIsReachable(cfg: Config)
    requires cfg.unreachableThreshold > 0
    ensures exists ops ::
      && InOrder(ops) && ops != []
      && FastRun(cfg, ops).snap.value.state == Connected
      && SimpleRun(cfg, ops).snap.value.state == Degraded
  {
    var late := cfg.unreachableThreshold + 1;
    var one := [Timed(WatchUp, 0)];
    var two := one + [Timed(Heartbeat, 0)];
    var ops := two + [Timed(Read, late)];
    assert one[..0] == [] && two[..1] == one && ops[..2] == two;
    assert FastRun(cfg, one) == SimpleRun(cfg, one) == Recompute(cfg, FRESH.(watchUp := true), 0);
    assert FastRun(cfg, two) == SimpleRun(cfg, two);
    assert FastRun(cfg, two).snap.value.state == Connected;
    assert FastRun(cfg, ops) == FastRun(cfg, two);
    assert SimpleRun(cfg, ops).snap.value.state == Degraded;
  }

  /** Becoming unreachable takes both proofs missing for long: the watch is down, and
      the last heartbeat, if there ever was one, is more than twice the threshold ago. */
  lemma UnreachableOnlyAfterBothProofsGone(cfg: Config, s: Link, op: Operation, t: int, now: int)
    requires Consistent(cfg, s, t) && t <= now
    requires !s.unreachable && FastStep(cfg, s, op, now).unreachable
    ensures var f := FastStep(cfg, s, op, now);
      && !f.watchUp && s.bothStaleSince.Some? && now - s.bothStaleSince.value >= cfg.unreachableThreshold
      && (f.lastHB.Some? ==> now - f.lastHB.value > 2 * cfg.unreachableThreshold)
  {
  }

  // ---------- When the link is unreachable ----------

  /** The time of the last heartbeat among the operations. */
  function LastHeartbeat(ops: seq<Timed>): Option<int>
  {
    if ops == [] then None
    else
      var n := |ops| - 1;
      if ops[n].op == Heartbeat then Some(ops[n].now) else LastHeartbeat(ops[..n])
  }

  /** Whether the last word on the watch stream was that it is up. */
  predicate WatchIsUp(ops: seq<Timed>)
  {
    ops != [] &&
    (var n := |ops| - 1;
     ops[n].op == WatchUp || (ops[n].op != WatchDown && WatchIsUp(ops[..n])))
  }

  /** At time `t` the last heartbeat, if any, is longer ago than the threshold. */
  predicate HeartbeatMissing(cfg: Config, ops: seq<Timed>, t: int)
  {
    LastHeartbeat(ops) == None || t - LastHeartbeat(ops).value > cfg.unreachableThreshold
  }

  /** Neither proof of life, and both of them. */
  predicate Silent(cfg: Config, ops: seq<Timed>, t: int) { !WatchIsUp(ops) && HeartbeatMissing(cfg, ops, t) }
  predicate Lively(cfg: Config, ops: seq<Timed>, t: int) { WatchIsUp(ops) && !HeartbeatMissing(cfg, ops, t) }

  /** The machine remembers exactly what the operations said. */
  lemma {:induction false} RunRemembers(cfg: Config, ops: seq<Timed>)
    ensures FastRun(cfg, ops).lastHB == LastHeartbeat(ops) && FastRun(cfg, ops).watchUp == WatchIsUp(ops)
  {
    if ops != [] {
      RunRemembers(cfg, ops[..|ops| - 1]);
    }
  }

  /** The run up to and including operation `k`. */
  function Upto(ops: seq<Timed>, k: nat): seq<Timed>
    requires k < |ops|
  {
    ops[..k + 1]
  }

  lemma RunUpto(cfg: Config, ops: seq<Timed>, k: nat)
    requires InOrder(ops) && k < |ops| && cfg.unreachableThreshold > 0
    ensures var s := FastRun(cfg, Upto(ops, k));
      Consistent(cfg, s, ops[k].now) && s.snap.Some? && s.lastHB == LastHeartbeat(Upto(ops, k))
      && s.watchUp == WatchIsUp(Upto(ops, k))
    ensures k > 0 ==>
      && FastRun(cfg, Upto(ops, k)) == FastStep(cfg, FastRun(cfg, Upto(ops, k - 1)), ops[k].op, ops[k].now)
      && ops[k - 1].now <= ops[k].now
  {
    FastRefinesSimple(cfg, Upto(ops, k));
    RunRemembers(cfg, Upto(ops, k));
    assert k > 0 ==> Upto(ops, k)[..k] == Upto(ops, k - 1);
  }

  /** Both proofs have been known to be stale since `t` at the latest. */
  ghost predicate Failing(cfg: Config, s: Link, t: int)
  {
    BothStale(cfg, s, t) && (s.unreachable || (s.bothStaleSince.Some? && s.bothStaleSince.value <= t))
  }

  lemma FirstSilence(cfg: Config, s: Link, op: Operation, t: int, now: int)
    requires Consistent(cfg, s, t) && t <= now && BothStale(cfg, FastStep(cfg, s, op, now), now)
    ensures Failing(cfg, FastStep(cfg, s, op, now), now)
  {
  }

  lemma SilenceGoesOn(cfg: Config, s: Link, op: Operation, t0: int, t: int, now: int)
    requires Consistent(cfg, s, t) && t0 <= t <= now && Failing(cfg, s, t0) && (op == Read || op == WatchDown)
    ensures Failing(cfg, FastStep(cfg, s, op, now), t0)
    ensures now >= t0 + cfg.unreachableThreshold ==> FastStep(cfg, s, op, now).unreachable
  {
  }

  lemma {:induction false} SilenceUpto(cfg: Config, ops: seq<Timed>, i: nat, k: nat)
    requires InOrder(ops) && i <= k < |ops| && cfg.unreachableThreshold > 0
    requires Silent(cfg, Upto(ops, i), ops[i].now)
    requires forall j | i < j <= k :: ops[j].op == Read || ops[j].op == WatchDown
    ensures Failing(cfg, FastRun(cfg, Upto(ops, k)), ops[i].now)
    ensures k > i && ops[k].now >= ops[i].now + cfg.unreachableThreshold ==> FastRun(cfg, Upto(ops, k)).unreachable
    decreases k
  {
    if k > i {
      SilenceUpto(cfg, ops, i, k - 1);
      assert ops[i].now <= ops[k - 1].now;
      SilenceStep(cfg, ops, k, ops[i].now);
    } else {
      SilenceAt(cfg, ops, i);
    }
  }

  lemma SilenceStep(cfg: Config, ops: seq<Timed>, k: nat, t0: int)
    requires InOrder(ops) && 0 < k < |ops| && cfg.unreachableThreshold > 0 && t0 <= ops[k - 1].now
    requires Failing(cfg, FastRun(cfg, Upto(ops, k - 1)), t0) && (ops[k].op == Read || ops[k].op == WatchDown)
    ensures Failing(cfg, FastRun(cfg, Upto(ops, k)), t0)
    ensures ops[k].now >= t0 + cfg.unreachableThreshold ==> FastRun(cfg, Upto(ops, k)).unreachable
  {
    RunUpto(cfg, ops, k);
    RunUpto(cfg, ops, k - 1);
    SilenceGoesOn(cfg, FastRun(cfg, Upto(ops, k - 1)), ops[k].op, t0, ops[k - 1].now, ops[k].now);
  }

  lemma SilenceAt(cfg: Config, ops: seq<Timed>, i: nat)
    requires InOrder(ops) && i < |ops| && cfg.unreachableThreshold > 0
    requires Silent(cfg, Upto(ops, i), ops[i].now)
    ensures Failing(cfg, FastRun(cfg, Upto(ops, i)), ops[i].now)
  {
    RunUpto(cfg, ops, i);
    if i > 0 {
      RunUpto(cfg, ops, i - 1);
      FirstSilence(cfg, FastRun(cfg, Upto(ops, i - 1)), ops[i].op, ops[i - 1].now, ops[i].now);
    } else {
      assert Upto(ops, 0)[..0] == [];
      FirstSilence(cfg, FRESH, ops[0].op, ops[0].now, ops[0].now);
    }
  }

  /** When both proofs were stale at some operation and neither has come back, any operation
      at least a threshold later finds the link unreachable, and requests rejected exactly
      when the configuration says so. */
  lemma UnreachableInTime(cfg: Config, ops: seq<Timed>, i: nat, k: nat)
    requires InOrder(ops) && i < k < |ops| && cfg.unreachableThreshold > 0
    requires Silent(cfg, Upto(ops, i), ops[i].now)
    requires forall j | i < j <= k :: ops[j].op == Read || ops[j].op == WatchDown
    requires ops[k].now >= ops[i].now + cfg.unreachableThreshold
    ensures FastRun(cfg, Upto(ops, k)).snap
         == Some(Snapshot(Unreachable, cfg.failClosed, LastHeartbeat(Upto(ops, k)), false))
  {
    SilenceUpto(cfg, ops, i, k);
    RunUpto(cfg, ops, k);
  }

  /** No sooner: while less than a threshold has passed since the first operation that may
      have found both proofs stale, the link does not turn unreachable. */
  ghost predicate NotFailedSince(s: Link, t: int)
  {
    !s.unreachable && (s.bothStaleSince.Some? ==> s.bothStaleSince.value >= t)
  }

  lemma StepNotTooEarly(cfg: Config, s: Link, op: Operation, t0: int, t: int, now: int)
    requires Consistent(cfg, s, t) && t <= now && t0 <= now < t0 + cfg.unreachableThreshold && NotFailedSince(s, t0)
    ensures NotFailedSince(FastStep(cfg, s, op, now), t0)
  {
  }

  lemma {:induction false} NotTooEarly(cfg: Config, ops: seq<Timed>, i: nat, k: nat)
    requires InOrder(ops) && i < k < |ops| && cfg.unreachableThreshold > 0
    requires !FastRun(cfg, Upto(ops, i)).unreachable && !Silent(cfg, Upto(ops, i), ops[i].now)
    requires ops[k].now < ops[i + 1].now + cfg.unreachableThreshold
    ensures NotFailedSince(FastRun(cfg, Upto(ops, k)), ops[i + 1].now)
    ensures FastRun(cfg, Upto(ops, k)).snap.value.state != Unreachable
    ensures !FastRun(cfg, Upto(ops, k)).snap.value.rejecting
    decreases k
  {
    RunUpto(cfg, ops, k);
    RunUpto(cfg, ops, k - 1);
    if k > i + 1 {
      NotTooEarly(cfg, ops, i, k - 1);
    }
    StepNotTooEarly(cfg, FastRun(cfg, Upto(ops, k - 1)), ops[k].op, ops[i + 1].now, ops[k - 1].now, ops[k].now);
  }

  // ---------- When it is reachable again ----------

  /** Reachable, or recovering since `t` at the latest. */
  ghost predicate Recovering(s: Link, t: int)
  {
    !s.unreachable || (s.recoverSince.Some? && s.recoverSince.value <= t)
  }

  lemma FirstSign(cfg: Config, s: Link, op: Operation, t: int, now: int)
    requires Consistent(cfg, s, t) && t <= now
    requires var f := FastStep(cfg, s, op, now); f.watchUp && !HeartbeatStale(cfg, f.lastHB, now)
    ensures Recovering(FastStep(cfg, s, op, now), now)
    ensures cfg.recoverThreshold <= 0 ==> !FastStep(cfg, s, op, now).unreachable
  {
  }

  lemma RecoveryGoesOn(cfg: Config, s: Link, op: Operation, t0: int, t: int, now: int)
    requires Consistent(cfg, s, t) && t0 <= t <= now && Recovering(s, t0)
    requires var f := FastStep(cfg, s, op, now); f.watchUp && !HeartbeatStale(cfg, f.lastHB, now)
    ensures Recovering(FastStep(cfg, s, op, now), t0)
    ensures now >= t0 + cfg.recoverThreshold ==> !FastStep(cfg, s, op, now).unreachable
  {
  }

  lemma {:induction false} RecoveryUpto(cfg: Config, ops: seq<Timed>, i: nat, k: nat)
    requires InOrder(ops) && i <= k < |ops| && cfg.unreachableThreshold > 0
    requires forall j | i <= j <= k :: Lively(cfg, Upto(ops, j), ops[j].now)
    ensures Recovering(FastRun(cfg, Upto(ops, k)), ops[i].now)
    ensures ops[k].now >= ops[i].now + cfg.recoverThreshold ==> !FastRun(cfg, Upto(ops, k)).unreachable
    decreases k
  {
    assert Lively(cfg, Upto(ops, k), ops[k].now);
    if k > i {
      RecoveryUpto(cfg, ops, i, k - 1);
      assert ops[i].now <= ops[k - 1].now;
      RecoveryStep(cfg, ops, k, ops[i].now);
    } else {
      SignAt(cfg, ops, i);
    }
  }

  lemma RecoveryStep(cfg: Config, ops: seq<Timed>, k: nat, t0: int)
    requires InOrder(ops) && 0 < k < |ops| && cfg.unreachableThreshold > 0 && t0 <= ops[k - 1].now
    requires Recovering(FastRun(cfg, Upto(ops, k - 1)), t0) && Lively(cfg, Upto(ops, k), ops[k].now)
    ensures Recovering(FastRun(cfg, Upto(ops, k)), t0)
    ensures ops[k].now >= t0 + cfg.recoverThreshold ==> !FastRun(cfg, Upto(ops, k)).unreachable
  {
    RunUpto(cfg, ops, k);
    RunUpto(cfg, ops, k - 1);
    RecoveryGoesOn(cfg, FastRun(cfg, Upto(ops, k - 1)), ops[k].op, t0, ops[k - 1].now, ops[k].now);
  }

  lemma SignAt(cfg: Config, ops: seq<Timed>, i: nat)
    requires InOrder(ops) && i < |ops| && cfg.unreachableThreshold > 0
    requires Lively(cfg, Upto(ops, i), ops[i].now)
    ensures Recovering(FastRun(cfg, Upto(ops, i)), ops[i].now)
    ensures cfg.recoverThreshold <= 0 ==> !FastRun(cfg, Upto(ops, i)).unreachable
  {
    RunUpto(cfg, ops, i);
    if i > 0 {
      RunUpto(cfg, ops, i - 1);
      FirstSign(cfg, FastRun(cfg, Upto(ops, i - 1)), ops[i].op, ops[i - 1].now, ops[i].now);
    } else {
      assert Upto(ops, 0)[..0] == [];
      FirstSign(cfg, FRESH, ops[0].op, ops[0].now, ops[0].now);
    }
  }

  /** When both proofs have been good at every operation for the recovery threshold, the link
      is connected again and nothing is rejected, whatever happened before. */
  lemma RecoversInTime(cfg: Config, ops: seq<Timed>, i: nat, k: nat)
    requires InOrder(ops) && i <= k < |ops| && cfg.unreachableThreshold > 0
    requires forall j | i <= j <= k :: Lively(cfg, Upto(ops, j), ops[j].now)
    requires ops[k].now >= ops[i].now + cfg.recoverThreshold
    ensures FastRun(cfg, Upto(ops, k)).snap == Some(Snapshot(Connected, false, LastHeartbeat(Upto(ops, k)), true))
  {
    RecoveryUpto(cfg, ops, i, k);
    RunUpto(cfg, ops, k);
    assert Lively(cfg, Upto(ops, k), ops[k].now);
  }

  /** Unreachable, and not recovering since before `t`. */
  ghost predicate NotRecoveredSince(s: Link, t: int)
  {
    s.unreachable && (s.recoverSince.Some? ==> s.recoverSince.value >= t)
  }

  lemma StepStaysOut(cfg: Config, s: Link, op: Operation, t0: int, t: int, now: int)
    requires Consistent(cfg, s, t) && t <= now && t0 <= now < t0 + cfg.recoverThreshold && NotRecoveredSince(s, t0)
    ensures NotRecoveredSince(FastStep(cfg, s, op, now), t0)
  {
  }

  lemma NotRecovering(cfg: Config, s: Link, op: Operation, t: int, now: int)
    requires Consistent(cfg, s, t) && t <= now
    requires var f := FastStep(cfg, s, op, now); f.unreachable && (!f.watchUp || HeartbeatStale(cfg, f.lastHB, now))
    ensures FastStep(cfg, s, op, now).recoverSince == None
  {
  }

  lemma NotRecoveringAt(cfg: Config, ops: seq<Timed>, i: nat)
    requires InOrder(ops) && i < |ops| && cfg.unreachableThreshold > 0
    requires FastRun(cfg, Upto(ops, i)).unreachable && !Lively(cfg, Upto(ops, i), ops[i].now)
    ensures FastRun(cfg, Upto(ops, i)).recoverSince == None
  {
    RunUpto(cfg, ops, i);
    if i > 0 {
      RunUpto(cfg, ops, i - 1);
      NotRecovering(cfg, FastRun(cfg, Upto(ops, i - 1)), ops[i].op, ops[i - 1].now, ops[i].now);
    } else {
      assert Upto(ops, 0)[..0] == [];
      NotRecovering(cfg, FRESH, ops[0].op, ops[0].now, ops[0].now);
    }
  }

  /** No sooner: an unreachable link that lacked a proof at operation `i` is still unreachable
      while less than the recovery threshold has passed since the next operation. */
  lemma {:induction false} NotRecoveredTooEarly(cfg: Config, ops: seq<Timed>, i: nat, k: nat)
    requires InOrder(ops) && i < k < |ops| && cfg.unreachableThreshold > 0
    requires FastRun(cfg, Upto(ops, i)).unreachable && !Lively(cfg, Upto(ops, i), ops[i].now)
    requires ops[k].now < ops[i + 1].now + cfg.recoverThreshold
    ensures NotRecoveredSince(FastRun(cfg, Upto(ops, k)), ops[i + 1].now)
    ensures FastRun(cfg, Upto(ops, k)).snap.value.state == Unreachable
    decreases k
  {
    RunUpto(cfg, ops, k);
    RunUpto(cfg, ops, k - 1);
    if k > i + 1 {
      NotRecoveredTooEarly(cfg, ops, i, k - 1);
    } else {
      NotRecoveringAt(cfg, ops, i);
    }
    StepStaysOut(cfg, FastRun(cfg, Upto(ops, k - 1)), ops[k].op, ops[i + 1].now, ops[k - 1].now, ops[k].now);
  }

  /** Between the two, what is published is what the proofs say: the recomputing machine says
      degraded exactly when a proof is missing and the link is not unreachable. */
  lemma PublishedState(cfg: Config, ops: seq<Timed>)
    requires ops != []
    ensures var s, now := SimpleRun(cfg, ops), ops[|ops| - 1].now;
      s.snap == Some(Snapshot(
        if s.unreachable then Unreachable else if Lively(cfg, ops, now) then Connected else Degraded,
        s.unreachable && cfg.failClosed, LastHeartbeat(ops), WatchIsUp(ops)))
  {
    SimpleRemembers(cfg, ops);
  }

  lemma {:induction false} SimpleRemembers(cfg: Config, ops: seq<Timed>)
    ensures SimpleRun(cfg, ops).lastHB == LastHeartbeat(ops) && SimpleRun(cfg, ops).watchUp == WatchIsUp(ops)
  {
    if ops != [] {
      SimpleRemembers(cfg, ops[..|ops| - 1]);
    }
  }
}
