/** The self-reconnecting signaling socket: its backoff, its sockets and its timers. */
module Signaling {
  import opened Prelude

  const BACKOFF_BASE_MS: nat := 500

  const BACKOFF_CAP_MS: nat := 15_000

  function Pow2(n: nat): nat {
    if n == 0 then 1 else 2 * Pow2(n - 1)
  }

  /** `checked_shl` refuses a shift of 64 or more, and otherwise keeps only the low 64 bits. */
  function CheckedShl(x: nat, n: nat): Option<nat> {
    if n >= 64 then None else Some(x * Pow2(n) % U64_RANGE)
  }

  function NextBackoff(attempt: nat): nat {
    match CheckedShl(BACKOFF_BASE_MS, attempt)
    case Some(shifted) => Min(shifted, BACKOFF_CAP_MS)
    case None => Min(U64_RANGE - 1, BACKOFF_CAP_MS)
  }

  lemma {:induction false} Pow2Grows(n: nat, m: nat)
    requires n <= m
    ensures Pow2(n) <= Pow2(m)
    decreases m
  {
    if n >= m {
    } else {
      Pow2Grows(n, m - 1);
    }
  }

  lemma {:induction false} Pow2Add(n: nat, m: nat)
    ensures Pow2(n + m) == Pow2(n) * Pow2(m)
    decreases m
  {
    if m == 0 {
    } else {
      Pow2Add(n, m - 1);
    }
  }

  lemma Pow2At56()
    ensures Pow2(56) == 0x100_0000_0000_0000
  {
    assert Pow2(7) == 128;
    Pow2Add(7, 7);
    Pow2Add(14, 14);
    Pow2Add(28, 28);
  }

  lemma Pow2Small(k: nat)
    requires k < 8
    ensures Pow2(k) == [1, 2, 4, 8, 16, 32, 64, 128][k]
  {
    assert Pow2(0) == 1 && Pow2(1) == 2 && Pow2(2) == 4 && Pow2(3) == 8;
    assert Pow2(4) == 16 && Pow2(5) == 32 && Pow2(6) == 64 && Pow2(7) == 128;
  }

  /** What 64 bits keep of 500 shifted left by 56 and a little more. */
  lemma LowBits(k: nat, x: nat)
    requires k < 8 && x == [1, 2, 4, 8, 16, 32, 64, 128][k]
    ensures 500 * 0x100_0000_0000_0000 * x % 0x1_0000_0000_0000_0000
            == [0xF400, 0xE800, 0xD000, 0xA000, 0x4000, 0x8000, 0, 0][k] * 0x1_0000_0000_0000
  {
    if x < 8 {
      assert x == 1 || x == 2 || x == 4;
    } else {
      assert x == 8 || x == 16 || x == 32 || x == 64 || x == 128;
    }
  }

  /** The last shifts before 64 lose bits; two of them lose every bit. */
  lemma TruncatedShifts(n: nat)
    requires 56 <= n < 64
    ensures n < 62 ==> 500 * Pow2(n) % U64_RANGE >= BACKOFF_CAP_MS
    ensures n >= 62 ==> 500 * Pow2(n) % U64_RANGE == 0
  {
    Pow2At56();
    Pow2Add(56, n - 56);
    Pow2Small(n - 56);
    LowBits(n - 56, Pow2(n - 56));
  }

  lemma SmallShifts(n: nat)
    requires n < 56
    ensures 500 * Pow2(n) < U64_RANGE
  {
    Pow2Grows(n, 55);
    Pow2At56();
    assert Pow2(56) == 2 * Pow2(55);
  }

  /** From the sixth attempt on, doubling has passed the cap. */
  lemma PastTheCap(n: nat)
    ensures n >= 5 <==> 500 * Pow2(n) >= BACKOFF_CAP_MS
  {
    assert Pow2(4) == 16 && Pow2(5) == 32;
    if n >= 5 {
      Pow2Grows(5, n);
    } else {
      Pow2Grows(n, 4);
    }
  }

  lemma SmallBackoff(attempt: nat)
    requires attempt < 56
    ensures NextBackoff(attempt) == Min(500 * Pow2(attempt), BACKOFF_CAP_MS)
  {
    SmallShifts(attempt);
  }

  lemma LargeBackoff(attempt: nat)
    requires 56 <= attempt < 64
    ensures NextBackoff(attempt) == if attempt < 62 then BACKOFF_CAP_MS else 0
  {
    TruncatedShifts(attempt);
  }

  /** The delay is `500 * 2^attempt` capped at 15 s, except at exactly two attempts, where it is zero. */
  lemma BackoffIsExact(attempt: nat)
    ensures NextBackoff(attempt) == Min(500 * Pow2(attempt), BACKOFF_CAP_MS) <==> attempt != 62 && attempt != 63
    ensures attempt == 62 || attempt == 63 ==> NextBackoff(attempt) == 0
    ensures NextBackoff(attempt) <= BACKOFF_CAP_MS
  {
    PastTheCap(attempt);
    if attempt < 56 {
      SmallBackoff(attempt);
    } else if attempt < 64 {
      LargeBackoff(attempt);
    }
  }

  lemma BackoffRamps(n: nat, m: nat)
    requires n <= m < 62
    ensures 500 <= NextBackoff(n) <= NextBackoff(m)
  {
    BackoffIsExact(n);
    BackoffIsExact(m);
    Pow2Grows(0, n);
    Pow2Grows(n, m);
  }

  // ----- the supervisor -----

  datatype ReadyState = CONNECTING | OPEN | CLOSING | CLOSED

  /** `sockets` are all sockets ever built; only the current one still has its callbacks. */
  datatype Supervisor = Supervisor(
    sockets: seq<ReadyState>,
    current: nat,
    timers: nat,
    attempt: nat,
    closed: bool)
  {
    predicate Live(i: nat)
      requires i < |sockets|
    {
      sockets[i] == CONNECTING || sockets[i] == OPEN
    }

    function ScheduleReconnect(): Supervisor {
      this.(timers := timers + 1, attempt := attempt + 1)
    }

    /** `built` says whether the browser could construct the socket. */
    function ReconnectNow(built: bool): Supervisor
      requires current < |sockets|
    {
      if closed || Live(current) then this
      else if built then this.(sockets := sockets + [CONNECTING], current := |sockets|)
      else ScheduleReconnect()
    }

    function OnOpen(i: nat): Supervisor
      requires i < |sockets|
    {
      this.(sockets := sockets[i := OPEN], attempt := if i == current then 0 else attempt)
    }

    function OnClose(i: nat): Supervisor
      requires i < |sockets|
    {
      var s := this.(sockets := sockets[i := CLOSED]);
      if i == current && !closed then s.ScheduleReconnect() else s
    }

    function OnOnline(built: bool): Supervisor
      requires current < |sockets|
    {
      if closed || Live(current) then this else this.(attempt := 0).ReconnectNow(built)
    }
  }

  class SignalingClient {
    var sockets: seq<ReadyState>
    var current: nat
    var timers: nat
    var attempt: nat
    var closed: bool

    function View(): Supervisor
      reads this
    {
      Supervisor(sockets, current, timers, attempt, closed)
    }

    constructor ()
      ensures View() == Supervisor([CONNECTING], 0, 0, 0, false)
    {
      sockets, current, timers, attempt, closed := [CONNECTING], 0, 0, 0, false;
    }

    method ScheduleReconnect() returns (delay: nat)
      modifies this
      ensures View() == old(View()).ScheduleReconnect() && delay == NextBackoff(old(attempt))
    {
      delay := NextBackoff(attempt);
      attempt := attempt + 1;
      timers := timers + 1;
    }

    method ReconnectNow(built: bool)
      requires current < |sockets|
      modifies this
      ensures View() == old(View()).ReconnectNow(built)
    {
      if closed {
        return;
      }
      var state := sockets[current];
      if state == OPEN || state == CONNECTING {
        return;
      }
      if built {
        current := |sockets|;
        sockets := sockets + [CONNECTING];
      } else {
        var _ := ScheduleReconnect();
      }
    }

    method OnOpen(i: nat)
      requires i < |sockets|
      modifies this
      ensures View() == old(View()).OnOpen(i)
    {
      sockets := sockets[i := OPEN];
      if i == current {
        attempt := 0;
      }
    }

    method OnClose(i: nat)
      requires i < |sockets|
      modifies this
      ensures View() == old(View()).OnClose(i)
    {
      sockets := sockets[i := CLOSED];
      if i == current && !closed {
        var _ := ScheduleReconnect();
      }
    }

    method OnOnline(built: bool)
      requires current < |sockets|
      modifies this
      ensures View() == old(View()).OnOnline(built)
    {
      if closed {
        return;
      }
      var state := sockets[current];
      if state == OPEN || state == CONNECTING {
        return;
      }
      attempt := 0;
      ReconnectNow(built);
    }
  }

  /** A replaced socket is not listened to: its opening or closing changes nothing but that socket. */
  lemma ReplacedIsIgnored(s: Supervisor, i: nat)
    requires i < |s.sockets| && i != s.current
    ensures s.OnOpen(i).(sockets := s.sockets) == s.OnClose(i).(sockets := s.sockets) == s
  {
  }

  // ----- every run of the browser's events -----

  datatype Event =
    | Opens(i: nat)
    | StartsClosing(i: nat)
    | Closes(i: nat)
    | TimerFires(built: bool)
    | Online(built: bool)
    | Shutdown

  /**
   * Only the current socket can be live. And unless the client was closed on purpose, the current
   * socket is live, or has its close event still to come, or a reconnect timer is pending.
   */
  ghost predicate Inv(s: Supervisor) {
    && s.current < |s.sockets|
    && (forall i :: 0 <= i < |s.sockets| && i != s.current ==> s.sockets[i] == CLOSING || s.sockets[i] == CLOSED)
    && (s.closed || s.sockets[s.current] != CLOSED || s.timers > 0)
  }

  /** One browser event; an event that cannot happen now changes nothing. */
  function Step(s: Supervisor, ev: Event): Supervisor
    requires Inv(s)
  {
    match ev
    case Opens(i) => if i < |s.sockets| && s.sockets[i] == CONNECTING then s.OnOpen(i) else s
    case StartsClosing(i) =>
      if i < |s.sockets| && s.Live(i) then s.(sockets := s.sockets[i := CLOSING]) else s
    case Closes(i) => if i < |s.sockets| && s.sockets[i] != CLOSED then s.OnClose(i) else s
    case TimerFires(built) => if s.timers > 0 then s.(timers := s.timers - 1).ReconnectNow(built) else s
    case Online(built) => s.OnOnline(built)
    case Shutdown => s.(closed := true)
  }

  lemma StepKeeps(s: Supervisor, ev: Event)
    requires Inv(s)
    ensures Inv(Step(s, ev))
  {
  }

  /** Every run keeps the supervisor's promise. */
  function Run(s: Supervisor, events: seq<Event>): (r: Supervisor)
    requires Inv(s)
    ensures Inv(r)
    decreases |events|
  {
    if events == [] then s
    else
      StepKeeps(s, events[0]);
      Run(Step(s, events[0]), events[1..])
  }

  function Fresh(): Supervisor {
    Supervisor([CONNECTING], 0, 0, 0, false)
  }

  /** Never two connections: any two live sockets are the same one, and it is the current one. */
  lemma NeverDoubleConnects(events: seq<Event>, i: nat, j: nat)
    requires var s := Run(Fresh(), events); i < |s.sockets| && j < |s.sockets| && s.Live(i) && s.Live(j)
    ensures i == j == Run(Fresh(), events).current
  {
  }

  /** What is still to come of its own: the current socket's close, if it is closing, and one timer. */
  function Pending(s: Supervisor): seq<Event>
    requires s.current < |s.sockets|
  {
    if s.Live(s.current) then []
    else if s.sockets[s.current] == CLOSING then [Closes(s.current), TimerFires(true)]
    else [TimerFires(true)]
  }

  /** Never stuck: unless closed on purpose, the pending close and one timer lead to a live connection. */
  lemma NeverStalls(events: seq<Event>)
    requires !Run(Fresh(), events).closed
    ensures var s := Run(Run(Fresh(), events), Pending(Run(Fresh(), events))); s.Live(s.current)
  {
    var s := Run(Fresh(), events);
    assert [TimerFires(true)][1..] == [];
    assert [Closes(s.current), TimerFires(true)][1..] == [TimerFires(true)];
  }

  /** The network's return is not waited out: unless closed on purpose, there is a live connection at once. */
  lemma OnlineConnects(events: seq<Event>)
    requires !Run(Fresh(), events).closed
    ensures var s := Step(Run(Fresh(), events), Online(true)); s.current < |s.sockets| && s.Live(s.current)
  {
    StepKeeps(Run(Fresh(), events), Online(true));
  }

  /** A client closed on purpose stays silent: no socket is built and no timer set in any run. */
  lemma {:induction false} ClosedForGood(s: Supervisor, events: seq<Event>)
    requires Inv(s) && s.closed
    ensures var s' := Run(s, events);
            s'.closed && |s'.sockets| == |s.sockets| && s'.current == s.current && s'.timers <= s.timers
    decreases |events|
  {
    if events == [] {
    } else {
      StepKeeps(s, events[0]);
      ClosedForGood(Step(s, events[0]), events[1..]);
    }
  }

  // ----- the attempt counter -----

  /** How many reconnects one event schedules: each leaves one more timer than it found, less the one that fired. */
  function Scheduled(s: Supervisor, ev: Event): int
    requires Inv(s)
  {
    Step(s, ev).timers - s.timers + if ev.TimerFires? && s.timers > 0 then 1 else 0
  }

  /**
   * A reconnect is scheduled, and then just one, exactly when the current socket is lost or cannot be
   * built; the close of a replaced socket schedules nothing.
   */
  lemma SchedulesIffLost(s: Supervisor, ev: Event)
    requires Inv(s)
    ensures var lost := !s.closed && !s.Live(s.current);
            Scheduled(s, ev)
            == if (ev == Closes(s.current) && !s.closed && s.sockets[s.current] != CLOSED)
                  || (ev == Online(false) && lost) || (ev == TimerFires(false) && s.timers > 0 && lost) then 1 else 0
  {
  }

  /** The current socket opened, or the network came back while it was down. */
  predicate Forgives(s: Supervisor, ev: Event)
    requires s.current < |s.sockets|
  {
    || (ev.Opens? && ev.i == s.current && s.sockets[s.current] == CONNECTING)
    || (ev.Online? && !s.closed && !s.Live(s.current))
  }

  /** Reconnects scheduled since the last time the counter was forgiven, on top of `earlier`. */
  function Consecutive(s: Supervisor, events: seq<Event>, earlier: int): int
    requires Inv(s)
    decreases |events|
  {
    if events == [] then earlier
    else
      StepKeeps(s, events[0]);
      Consecutive(Step(s, events[0]), events[1..],
                  (if Forgives(s, events[0]) then 0 else earlier) + Scheduled(s, events[0]))
  }

  lemma StepAttempts(s: Supervisor, ev: Event)
    requires Inv(s)
    ensures Step(s, ev).attempt == (if Forgives(s, ev) then 0 else s.attempt) + Scheduled(s, ev)
  {
  }

  /** The attempt counter is the number of reconnects scheduled since the last success, so delays ramp per outage. */
  lemma {:induction false} AttemptsAreConsecutive(s: Supervisor, events: seq<Event>)
    requires Inv(s)
    ensures Run(s, events).attempt == Consecutive(s, events, s.attempt)
    decreases |events|
  {
    if events == [] {
    } else {
      StepKeeps(s, events[0]);
      StepAttempts(s, events[0]);
      AttemptsAreConsecutive(Step(s, events[0]), events[1..]);
    }
  }
}
