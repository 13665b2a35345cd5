/** The sliding-window limiter of failed join attempts, against the full history it summarises. */
module Limiter {
  import opened Prelude

  /** A source address. */
  type Ip = nat

  /** Milliseconds from `t` to `now`, zero when `t` is later. */
  function Elapsed(now: nat, t: nat): nat {
    if now >= t then now - t else 0
  }

  /** The times still inside the window at `now`. */
  function Recent(times: seq<nat>, now: nat, window: nat): seq<nat> {
    if times == [] then []
    else
      var last := times[|times| - 1];
      Recent(times[..|times| - 1], now, window) + (if Elapsed(now, last) < window then [last] else [])
  }

  datatype LimitState = LimitState(window: nat, max: nat, failures: map<Ip, seq<nat>>)
  {
    function Of(ip: Ip): seq<nat> {
      if ip in failures then failures[ip] else []
    }

    function Prune(ip: Ip, now: nat): LimitState {
      if ip !in failures then this
      else
        var kept := Recent(failures[ip], now, window);
        this.(failures := if kept == [] then failures - {ip} else failures[ip := kept])
    }

    predicate Allows(ip: Ip, now: nat) {
      |Prune(ip, now).Of(ip)| < max
    }

    function RecordFailure(ip: Ip, now: nat): LimitState {
      var pruned := Prune(ip, now);
      pruned.(failures := pruned.failures[ip := pruned.Of(ip) + [now]])
    }
  }

  class JoinLimiter {
    const window: nat
    const max: nat
    var failures: map<Ip, seq<nat>>

    function View(): LimitState
      reads this
    {
      LimitState(window, max, failures)
    }

    constructor (window: nat, max: nat)
      ensures View() == LimitState(window, max, map[])
    {
      this.window, this.max, failures := window, max, map[];
    }

    method Prune(ip: Ip, now: nat)
      modifies this
      ensures View() == old(View()).Prune(ip, now)
    {
      if ip in failures {
        var times, kept, i := failures[ip], [], 0;
        while i < |times|
          invariant i <= |times| && kept == Recent(times[..i], now, window)
        {
          assert times[..i + 1][..i] == times[..i];
          if Elapsed(now, times[i]) < window {
            kept := kept + [times[i]];
          }
          i := i + 1;
        }
        assert times[..i] == times;
        failures := if kept == [] then failures - {ip} else failures[ip := kept];
      }
    }

    method Allowed(ip: Ip, now: nat) returns (ok: bool)
      modifies this
      ensures View() == old(View()).Prune(ip, now) && ok == old(View()).Allows(ip, now)
    {
      Prune(ip, now);
      ok := |if ip in failures then failures[ip] else []| < max;
    }

    method RecordFailure(ip: Ip, now: nat)
      modifies this
      ensures View() == old(View()).RecordFailure(ip, now)
    {
      Prune(ip, now);
      failures := failures[ip := (if ip in failures then failures[ip] else []) + [now]];
    }
  }

  // ----- pruning forgets nothing that still counts -----

  lemma RecentPush(times: seq<nat>, t: nat, now: nat, window: nat)
    ensures Recent(times + [t], now, window)
            == Recent(times, now, window) + (if Elapsed(now, t) < window then [t] else [])
  {
    assert (times + [t])[..|times|] == times;
  }

  /** What is recent later was recent before: an earlier pruning is invisible to a later one. */
  lemma {:induction false} RecentTwice(times: seq<nat>, earlier: nat, now: nat, window: nat)
    requires earlier <= now
    ensures Recent(Recent(times, earlier, window), now, window) == Recent(times, now, window)
    decreases |times|
  {
    if times == [] {
    } else {
      var front, last := times[..|times| - 1], times[|times| - 1];
      RecentTwice(front, earlier, now, window);
      if Elapsed(earlier, last) < window {
        RecentPush(Recent(front, earlier, window), last, now, window);
      } else {
        assert Recent(front, earlier, window) + [] == Recent(front, earlier, window);
      }
    }
  }

  lemma {:induction false} RecentIsPart(times: seq<nat>, now: nat, window: nat)
    ensures |Recent(times, now, window)| <= |times|
    decreases |times|
  {
    if times == [] {
    } else {
      RecentIsPart(times[..|times| - 1], now, window);
    }
  }

  lemma PruneIs(s: LimitState, ip: Ip, now: nat, other: Ip)
    ensures s.Prune(ip, now).Of(other) == if other == ip then Recent(s.Of(ip), now, s.window) else s.Of(other)
  {
  }

  /** Failures recorded in `[from, from + window)`. */
  function CountIn(times: seq<nat>, from: nat, window: nat): nat {
    if times == [] then 0
    else
      var last := times[|times| - 1];
      CountIn(times[..|times| - 1], from, window) + (if from <= last < from + window then 1 else 0)
  }

  lemma CountInPush(times: seq<nat>, t: nat, from: nat, window: nat)
    ensures CountIn(times + [t], from, window)
            == CountIn(times, from, window) + (if from <= t < from + window then 1 else 0)
  {
    assert (times + [t])[..|times|] == times;
  }

  /** Pruning keeps a time, as often as it was recorded, exactly while less than the window has passed since. */
  lemma {:induction false} RecentKeepsExactly(times: seq<nat>, now: nat, window: nat, t: nat)
    ensures CountIn(Recent(times, now, window), t, 1)
            == if window > 0 && now < t + window then CountIn(times, t, 1) else 0
    decreases |times|
  {
    if times == [] {
    } else {
      var front, last := times[..|times| - 1], times[|times| - 1];
      RecentKeepsExactly(front, now, window, t);
      CountInPush(Recent(front, now, window), last, t, 1);
      assert Recent(front, now, window) + [] == Recent(front, now, window);
    }
  }

  lemma PruneKeepsExactly(s: LimitState, ip: Ip, now: nat, t: nat)
    ensures CountIn(s.Prune(ip, now).Of(ip), t, 1)
            == if s.window > 0 && now < t + s.window then CountIn(s.Of(ip), t, 1) else 0
  {
    PruneIs(s, ip, now, ip);
    RecentKeepsExactly(s.Of(ip), now, s.window, t);
  }

  /** A new failure joins exactly those that still count: the stale ones are dropped with it. */
  lemma RecordKeepsExactly(s: LimitState, ip: Ip, now: nat, t: nat)
    ensures CountIn(s.RecordFailure(ip, now).Of(ip), t, 1)
            == (if s.window > 0 && now < t + s.window then CountIn(s.Of(ip), t, 1) else 0) + (if t == now then 1 else 0)
  {
    PruneKeepsExactly(s, ip, now, t);
    CountInPush(s.Prune(ip, now).Of(ip), now, t, 1);
  }

  // ----- the limiter refines its full history -----

  datatype Call = Ask(ip: Ip, now: nat) | Fail(ip: Ip, now: nat)

  function Apply(s: LimitState, c: Call): LimitState {
    match c
    case Ask(ip, now) => s.Prune(ip, now)
    case Fail(ip, now) => s.RecordFailure(ip, now)
  }

  function Run(s: LimitState, calls: seq<Call>): LimitState {
    if calls == [] then s else Apply(Run(s, calls[..|calls| - 1]), calls[|calls| - 1])
  }

  /** The complete record of an address's failures. */
  function Log(calls: seq<Call>, ip: Ip): seq<nat> {
    if calls == [] then []
    else
      var last := calls[|calls| - 1];
      Log(calls[..|calls| - 1], ip) + (if last.Fail? && last.ip == ip then [last.now] else [])
  }

  /** The clock of the calls never goes back, and has not passed `now`. */
  ghost predicate ClockRuns(calls: seq<Call>, now: nat) {
    && (forall i, j :: 0 <= i < j < |calls| ==> calls[i].now <= calls[j].now)
    && (forall i :: 0 <= i < |calls| ==> calls[i].now <= now)
  }

  lemma {:induction false} RunKeepsLimits(s: LimitState, calls: seq<Call>)
    ensures Run(s, calls).window == s.window && Run(s, calls).max == s.max
    decreases |calls|
  {
    if calls == [] {
    } else {
      RunKeepsLimits(s, calls[..|calls| - 1]);
    }
  }

  /** However the calls interleave, the pruned list and the full record look the same from now on. */
  lemma {:induction false} RunRefinesLog(window: nat, max: nat, calls: seq<Call>, ip: Ip, now: nat)
    requires ClockRuns(calls, now)
    ensures var s := Run(LimitState(window, max, map[]), calls);
            Recent(s.Of(ip), now, window) == Recent(Log(calls, ip), now, window)
    decreases |calls|
  {
    if calls == [] {
    } else {
      var front, last := calls[..|calls| - 1], calls[|calls| - 1];
      var s0 := LimitState(window, max, map[]);
      var s := Run(s0, front);
      RunKeepsLimits(s0, front);
      RunRefinesLog(window, max, front, ip, now);
      PruneIs(s, last.ip, last.now, ip);
      RecentTwice(s.Of(ip), last.now, now, window);
      if last.Fail? && last.ip == ip {
        RecentPush(s.Prune(ip, last.now).Of(ip), last.now, now, window);
        RecentPush(Log(front, ip), last.now, now, window);
      } else {
        assert Log(front, ip) + [] == Log(front, ip);
      }
    }
  }

  // ----- the rate it enforces -----

  /** No window that reaches past `now` holds more than the one that ends there. */
  lemma {:induction false} CountReaches(times: seq<nat>, from: nat, window: nat, now: nat)
    requires forall i :: 0 <= i < |times| ==> times[i] <= now
    requires now < from + window
    ensures var last := Min(window, now + 1);
            CountIn(times, from, window) <= CountIn(times, now + 1 - last, last)
    decreases |times|
  {
    if times == [] {
    } else {
      CountReaches(times[..|times| - 1], from, window, now);
    }
  }

  /** Seen from `now`, what is recent is what falls into the window that ends there. */
  lemma {:induction false} RecentIsCount(times: seq<nat>, now: nat, window: nat)
    requires forall i :: 0 <= i < |times| ==> times[i] <= now
    ensures var last := Min(window, now + 1);
            |Recent(times, now, window)| == CountIn(times, now + 1 - last, last)
    decreases |times|
  {
    if times == [] {
    } else {
      RecentIsCount(times[..|times| - 1], now, window);
    }
  }

  /** Every failure is recorded right after an attempt was allowed at the same time, as the server does. */
  ghost predicate Disciplined(window: nat, max: nat, calls: seq<Call>) {
    forall i :: 0 <= i < |calls| && calls[i].Fail? ==>
      Run(LimitState(window, max, map[]), calls[..i]).Allows(calls[i].ip, calls[i].now)
  }

  lemma {:induction false} LogIsPast(calls: seq<Call>, ip: Ip, now: nat)
    requires ClockRuns(calls, now)
    ensures forall i :: 0 <= i < |Log(calls, ip)| ==> Log(calls, ip)[i] <= now
    decreases |calls|
  {
    if calls == [] {
    } else {
      LogIsPast(calls[..|calls| - 1], ip, now);
    }
  }

  /**
   * An attempt is allowed exactly when, of all failures ever, fewer than `max` fall into the window that
   * ends now: the limiter forgets nothing too early and nothing too late.
   */
  lemma AllowsIffFewRecent(window: nat, max: nat, calls: seq<Call>, ip: Ip, now: nat)
    requires ClockRuns(calls, now)
    ensures var last := Min(window, now + 1);
            Run(LimitState(window, max, map[]), calls).Allows(ip, now)
            <==> CountIn(Log(calls, ip), now + 1 - last, last) < max
  {
    RunKeepsLimits(LimitState(window, max, map[]), calls);
    RunRefinesLog(window, max, calls, ip, now);
    PruneIs(Run(LimitState(window, max, map[]), calls), ip, now, ip);
    LogIsPast(calls, ip, now);
    RecentIsCount(Log(calls, ip), now, window);
  }

  /** No address is kept without a failure on record. */
  lemma {:induction false} NoEmptyRecords(s: LimitState, calls: seq<Call>, ip: Ip)
    requires ip in s.failures ==> s.failures[ip] != []
    ensures var s' := Run(s, calls); ip in s'.failures ==> s'.failures[ip] != []
    decreases |calls|
  {
    if calls == [] {
    } else {
      NoEmptyRecords(s, calls[..|calls| - 1], ip);
    }
  }

  lemma AllowedHasRoom(window: nat, max: nat, calls: seq<Call>, ip: Ip, from: nat, now: nat)
    requires ClockRuns(calls, now) && now < from + window
    requires Run(LimitState(window, max, map[]), calls).Allows(ip, now)
    ensures CountIn(Log(calls, ip), from, window) < max
  {
    AllowsIffFewRecent(window, max, calls, ip, now);
    LogIsPast(calls, ip, now);
    CountReaches(Log(calls, ip), from, window, now);
  }

  /** Under that discipline the record of an address, stale or not, never outgrows `max`. */
  lemma {:induction false} RecordIsBounded(window: nat, max: nat, calls: seq<Call>, ip: Ip)
    requires Disciplined(window, max, calls)
    ensures |Run(LimitState(window, max, map[]), calls).Of(ip)| <= max
    decreases |calls|
  {
    if calls == [] {
    } else {
      var front, last := calls[..|calls| - 1], calls[|calls| - 1];
      assert forall i :: 0 <= i < |front| ==> front[..i] == calls[..i];
      RecordIsBounded(window, max, front, ip);
      var s := Run(LimitState(window, max, map[]), front);
      RunKeepsLimits(LimitState(window, max, map[]), front);
      PruneIs(s, last.ip, last.now, ip);
      RecentIsPart(s.Of(ip), last.now, window);
      assert last.Fail? ==> s.Allows(last.ip, last.now);
    }
  }

  /** Under that discipline no window, wherever it starts, holds more than `max` failures of one address. */
  lemma {:induction false} RateIsBounded(window: nat, max: nat, calls: seq<Call>, ip: Ip, from: nat, now: nat)
    requires ClockRuns(calls, now) && Disciplined(window, max, calls)
    ensures CountIn(Log(calls, ip), from, window) <= max
    decreases |calls|
  {
    if calls == [] {
    } else {
      var front, last := calls[..|calls| - 1], calls[|calls| - 1];
      assert forall i :: 0 <= i < |front| ==> front[..i] == calls[..i];
      RateIsBounded(window, max, front, ip, from, now);
      if last.Fail? && last.ip == ip && from <= last.now < from + window {
        assert Run(LimitState(window, max, map[]), front).Allows(ip, last.now);
        AllowedHasRoom(window, max, front, ip, from, last.now);
        CountInPush(Log(front, ip), last.now, from, window);
      } else if last.Fail? && last.ip == ip {
        CountInPush(Log(front, ip), last.now, from, window);
      } else {
        assert Log(front, ip) + [] == Log(front, ip);
      }
    }
  }

  /** Calls about one address never change another's record. */
  lemma OthersUntouched(s: LimitState, c: Call, other: Ip)
    requires other != c.ip
    ensures Apply(s, c).Of(other) == s.Of(other)
  {
    PruneIs(s, c.ip, c.now, other);
  }
}
