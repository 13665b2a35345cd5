/** The plain state of both halves of a transfer: the sender's queue and the receiver's buffers. */
module TransferState {
  import opened Prelude
  import opened Protocol

  // ----- sender -----

  function Without<F>(queue: seq<(nat, F)>, id: nat): seq<(nat, F)> {
    if queue == [] then []
    else (if queue[0].0 == id then [] else [queue[0]]) + Without(queue[1..], id)
  }

  datatype OutState<F> = OutState(
    offered: map<nat, F>,
    queue: seq<(nat, F)>,
    active: set<nat>,
    cancelled: set<nat>)
  {
    function EnqueueAccepted(id: nat): OutState<F> {
      if id in offered
      then this.(offered := offered - {id}, queue := queue + [(id, offered[id])])
      else this
    }

    /** Start queued files while fewer than `max` are active; the second result is what was started. */
    function Schedule(max: nat): (OutState<F>, seq<(nat, F)>)
      decreases |queue|
    {
      if |active| < max && queue != [] then
        var next := queue[0];
        var (rest, started) := this.(queue := queue[1..], active := active + {next.0}).Schedule(max);
        (rest, [next] + started)
      else
        (this, [])
    }

    function CancelOutgoing(id: nat): OutState<F> {
      this.(offered := offered - {id}, queue := Without(queue, id), cancelled := cancelled + {id})
    }
  }

  /** The ids of a list of entries, in order. */
  function Ids<F>(entries: seq<(nat, F)>): (ids: seq<nat>)
    ensures |ids| == |entries|
    ensures forall i :: 0 <= i < |ids| ==> ids[i] == entries[i].0
  {
    if entries == [] then [] else [entries[0].0] + Ids(entries[1..])
  }

  lemma IdsApart<F>(entries: seq<(nat, F)>, i: nat, j: nat)
    requires Distinct(Ids(entries)) && i < j < |entries|
    ensures entries[i].0 != entries[j].0
  {
    assert Ids(entries)[i] != Ids(entries)[j];
  }

  lemma IdsAreDistinct<F>(entries: seq<(nat, F)>)
    requires forall i, j :: 0 <= i < j < |entries| ==> entries[i].0 != entries[j].0
    ensures Distinct(Ids(entries))
  {
    var ids := Ids(entries);
    assert forall i :: 0 <= i < |ids| ==> ids[i] == entries[i].0;
  }

  lemma TailIsDistinct<F>(queue: seq<(nat, F)>)
    requires queue != [] && Distinct(Ids(queue))
    ensures Distinct(Ids(queue[1..]))
    ensures forall i :: 0 <= i < |queue| - 1 ==> queue[1..][i].0 != queue[0].0
  {
    var tail := queue[1..];
    forall i | 0 <= i < |tail| ensures tail[i].0 != queue[0].0 {
      IdsApart(queue, 0, i + 1);
    }
    forall i, j | 0 <= i < j < |tail| ensures tail[i].0 != tail[j].0 {
      IdsApart(queue, i + 1, j + 1);
    }
    IdsAreDistinct(tail);
  }

  /** One round of the scheduling loop. */
  lemma ScheduleUnfolds<F>(out: OutState<F>, max: nat)
    requires |out.active| < max && out.queue != []
    ensures var next := out.(queue := out.queue[1..], active := out.active + {out.queue[0].0}).Schedule(max);
            out.Schedule(max) == (next.0, [out.queue[0]] + next.1)
  {
  }

  /** Scheduling the rest from `out` completes what was `started` to `all`. */
  ghost predicate Completes<F>(out: OutState<F>, max: nat, started: seq<(nat, F)>, all: (OutState<F>, seq<(nat, F)>)) {
    (out.Schedule(max).0, started + out.Schedule(max).1) == all
  }

  lemma ScheduleRound<F>(out: OutState<F>, max: nat, started: seq<(nat, F)>, all: (OutState<F>, seq<(nat, F)>))
    requires |out.active| < max && out.queue != [] && Completes(out, max, started, all)
    ensures Completes(out.(queue := out.queue[1..], active := out.active + {out.queue[0].0}), max,
                      started + [out.queue[0]], all)
  {
    var next := out.(queue := out.queue[1..], active := out.active + {out.queue[0].0}).Schedule(max);
    ScheduleUnfolds(out, max);
    assert started + ([out.queue[0]] + next.1) == started + [out.queue[0]] + next.1;
  }

  lemma TakeOneMore<X>(queue: seq<X>, n: nat)
    requires 0 < n <= |queue|
    ensures queue[..n] == [queue[0]] + queue[1..][..n - 1] && queue[n..] == queue[1..][n - 1..]
  {
  }

  lemma NextIsReady<F>(out: OutState<F>, next: OutState<F>)
    requires out.queue != [] && Distinct(Ids(out.queue))
    requires forall i :: 0 <= i < |out.queue| ==> out.queue[i].0 !in out.active
    requires next == out.(queue := out.queue[1..], active := out.active + {out.queue[0].0})
    ensures |next.active| == |out.active| + 1 && Distinct(Ids(next.queue))
    ensures forall i :: 0 <= i < |next.queue| ==> next.queue[i].0 !in next.active
  {
    TailIsDistinct(out.queue);
    assert out.queue[0].0 !in out.active;
    forall i | 0 <= i < |next.queue| ensures next.queue[i].0 !in next.active {
      assert next.queue[i] == out.queue[i + 1];
    }
  }

  /** When no queued id is queued twice or active, scheduling starts the head of the queue, one per free slot. */
  lemma {:induction false} ScheduleStarts<F>(out: OutState<F>, max: nat)
    requires |out.active| <= max
    requires Distinct(Ids(out.queue))
    requires forall i :: 0 <= i < |out.queue| ==> out.queue[i].0 !in out.active
    ensures var n := Min(|out.queue|, max - |out.active|);
            var (rest, started) := out.Schedule(max);
            && rest.queue == out.queue[n..]
            && started == out.queue[..n]
            && |rest.active| == |out.active| + n
    decreases |out.queue|
  {
    if |out.active| >= max || out.queue == [] {
    } else {
      var n := Min(|out.queue|, max - |out.active|);
      var next := out.(queue := out.queue[1..], active := out.active + {out.queue[0].0});
      NextIsReady(out, next);
      ScheduleStarts(next, max);
      ScheduleUnfolds(out, max);
      TakeOneMore(out.queue, n);
    }
  }

  /** Scheduling clears no cancel flag and sets none. */
  lemma {:induction false} ScheduleFlags<F>(out: OutState<F>, max: nat)
    ensures out.Schedule(max).0.cancelled == out.cancelled
    decreases |out.queue|
  {
    if |out.active| >= max || out.queue == [] {
    } else {
      ScheduleFlags(out.(queue := out.queue[1..], active := out.active + {out.queue[0].0}), max);
    }
  }

  class Outgoing<F> {
    var offered: map<nat, F>
    var queue: seq<(nat, F)>
    var active: set<nat>
    var cancelled: set<nat>

    ghost function View(): OutState<F>
      reads this
    {
      OutState(offered, queue, active, cancelled)
    }

    constructor ()
      ensures View() == OutState(map[], [], {}, {})
    {
      offered, queue, active, cancelled := map[], [], {}, {};
    }

    method EnqueueAccepted(id: nat)
      modifies this
      ensures View() == old(View()).EnqueueAccepted(id)
    {
      if id in offered {
        var file := offered[id];
        offered := offered - {id};
        queue := queue + [(id, file)];
      }
    }

    method Schedule(max: nat) returns (started: seq<(nat, F)>)
      modifies this
      ensures (View(), started) == old(View()).Schedule(max)
    {
      ghost var all := View().Schedule(max);
      started := [];
      assert started + all.1 == all.1;
      while |active| < max && queue != []
        invariant Completes(View(), max, started, all)
        decreases |queue|
      {
        ScheduleRound(View(), max, started, all);
        var next := queue[0];
        queue := queue[1..];
        active := active + {next.0};
        started := started + [next];
      }
      assert started + [] == started;
    }

    method CancelOutgoing(id: nat)
      modifies this
      ensures View() == old(View()).CancelOutgoing(id)
    {
      offered := offered - {id};
      var kept, i := [], 0;
      while i < |queue|
        invariant i <= |queue| && queue == old(queue)
        invariant offered == old(offered) - {id} && active == old(active) && cancelled == old(cancelled)
        invariant kept + Without(queue[i..], id) == Without(queue, id)
      {
        if queue[i].0 != id {
          kept := kept + [queue[i]];
        }
        i := i + 1;
      }
      queue := kept;
      cancelled := cancelled + {id};
    }
  }

  // ----- receiver -----

  /** Milliseconds after which the speed window closes. */
  const WINDOW_MS: real := 250.0

  datatype IncState = IncState(
    meta: Option<FileStart>,
    chunks: seq<seq<byte>>,
    received: real,
    speed: real,
    winStart: real,
    winBytes: real)
  {
    function UpdateSpeed(len: real, now: real): IncState {
      var bytes := winBytes + len;
      if winStart == 0.0 then
        this.(winBytes := bytes, winStart := now)
      else if now - winStart >= WINDOW_MS then
        this.(speed := bytes / ((now - winStart) / 1000.0), winStart := now, winBytes := 0.0)
      else
        this.(winBytes := bytes)
    }

    function AccountChunk(len: real, now: real): IncState {
      this.(received := received + len).UpdateSpeed(len, now)
    }
  }

  const EMPTY_INCOMING := IncState(None, [], 0.0, 0.0, 0.0, 0.0)

  /** What is reported to the UI: id, name, size, bytes received, speed. */
  datatype Progress = Progress(id: nat, name: string, size: nat, received: real, speed: real)

  class Incoming {
    var meta: Option<FileStart>
    var chunks: seq<seq<byte>>
    var received: real
    var speed: real
    var winStart: real
    var winBytes: real

    ghost function View(): IncState
      reads this
    {
      IncState(meta, chunks, received, speed, winStart, winBytes)
    }

    constructor ()
      ensures View() == EMPTY_INCOMING
    {
      meta, chunks := None, [];
      received, speed, winStart, winBytes := 0.0, 0.0, 0.0, 0.0;
    }

    method UpdateSpeed(len: real, now: real)
      modifies this
      ensures View() == old(View()).UpdateSpeed(len, now)
    {
      winBytes := winBytes + len;
      if winStart == 0.0 {
        winStart := now;
        return;
      }
      var dt := now - winStart;
      if dt >= WINDOW_MS {
        speed := winBytes / (dt / 1000.0);
        winStart := now;
        winBytes := 0.0;
      }
    }

    method AccountChunk(len: real, now: real) returns (progress: Option<Progress>)
      modifies this
      ensures View() == old(View()).AccountChunk(len, now)
      ensures match meta
              case None => progress == None
              case Some(m) => progress == Some(Progress(m.id, m.name, m.size, received, speed))
    {
      received := received + len;
      UpdateSpeed(len, now);
      match meta
      case None => progress := None;
      case Some(m) => progress := Some(Progress(m.id, m.name, m.size, received, speed));
    }

    method FinalizeDecision() returns (m: Option<FileStart>)
      modifies this
      ensures m == old(meta) && View() == old(View()).(meta := None)
    {
      m := meta;
      meta := None;
    }
  }

  // ----- the speed window loses no byte -----

  /** A closed window: its reported speed in bytes per second, and how long it was open. */
  datatype Window = Window(speed: real, elapsedMs: real)

  function ClosedBy(inc: IncState, len: real, now: real): seq<Window> {
    var after := inc.UpdateSpeed(len, now);
    if inc.winStart != 0.0 && now - inc.winStart >= WINDOW_MS
    then [Window(after.speed, now - inc.winStart)]
    else []
  }

  /** Feed a whole chunk sequence of (length, clock) samples, collecting every window that closes. */
  function Feed(inc: IncState, samples: seq<(real, real)>): (IncState, seq<Window>)
    decreases |samples|
  {
    if samples == [] then (inc, [])
    else
      var (len, now) := samples[0];
      var (last, windows) := Feed(inc.AccountChunk(len, now), samples[1..]);
      (last, ClosedBy(inc, len, now) + windows)
  }

  function TotalLength(samples: seq<(real, real)>): real {
    if samples == [] then 0.0 else samples[0].0 + TotalLength(samples[1..])
  }

  /** The bytes that the reported speeds account for. */
  function Attributed(windows: seq<Window>): real {
    if windows == [] then 0.0
    else windows[0].speed * (windows[0].elapsedMs / 1000.0) + Attributed(windows[1..])
  }

  lemma RateTimesTime(bytes: real, seconds: real)
    requires seconds > 0.0
    ensures bytes / seconds * seconds == bytes
  {
  }

  lemma ClosedByConserves(inc: IncState, len: real, now: real)
    ensures var windows := ClosedBy(inc, len, now);
            && Attributed(windows) + inc.UpdateSpeed(len, now).winBytes == inc.winBytes + len
            && forall w :: w in windows ==> w.elapsedMs >= WINDOW_MS
  {
    var windows := ClosedBy(inc, len, now);
    if windows != [] {
      RateTimesTime(inc.winBytes + len, (now - inc.winStart) / 1000.0);
      assert Attributed(windows[1..]) == 0.0;
    }
  }

  lemma {:induction false} AttributedAppend(a: seq<Window>, b: seq<Window>)
    ensures Attributed(a + b) == Attributed(a) + Attributed(b)
  {
    if a == [] {
      assert a + b == b;
    } else {
      assert (a + b)[1..] == a[1..] + b;
      AttributedAppend(a[1..], b);
    }
  }

  function TotalMs(windows: seq<Window>): real {
    if windows == [] then 0.0 else windows[0].elapsedMs + TotalMs(windows[1..])
  }

  /**
   * Windows follow one another without a gap or an overlap, the open one is younger than 250 ms, and the
   * speed on show is that of the last one closed.
   */
  lemma {:induction false} WindowsAbut(inc: IncState, samples: seq<(real, real)>)
    requires inc.winStart != 0.0 && forall i :: 0 <= i < |samples| ==> samples[i].1 != 0.0
    ensures var (last, windows) := Feed(inc, samples);
            && last.winStart != 0.0
            && TotalMs(windows) == last.winStart - inc.winStart
            && (samples != [] ==> samples[|samples| - 1].1 - last.winStart < WINDOW_MS)
            && last.speed == (if windows == [] then inc.speed else windows[|windows| - 1].speed)
    decreases |samples|
  {
    if samples == [] {
    } else {
      var (len, now) := samples[0];
      WindowsAbut(inc.AccountChunk(len, now), samples[1..]);
      var closed, windows := ClosedBy(inc, len, now), Feed(inc.AccountChunk(len, now), samples[1..]).1;
      if closed == [] {
        assert closed + windows == windows;
      } else {
        assert (closed + windows)[1..] == windows;
      }
      assert |samples| > 1 ==> samples[1..][|samples| - 2] == samples[|samples| - 1];
    }
  }

  /** The first sample of a new buffer opens the first window. */
  lemma FirstWindowOpens(samples: seq<(real, real)>)
    requires samples != [] && forall i :: 0 <= i < |samples| ==> samples[i].1 != 0.0
    ensures var (last, windows) := Feed(EMPTY_INCOMING, samples);
            TotalMs(windows) == last.winStart - samples[0].1
  {
    var (len, now) := samples[0];
    var first := EMPTY_INCOMING.AccountChunk(len, now);
    WindowsAbut(first, samples[1..]);
    assert ClosedBy(EMPTY_INCOMING, len, now) + Feed(first, samples[1..]).1 == Feed(first, samples[1..]).1;
  }

  /** Closed windows and the open one together account for exactly the bytes received. */
  lemma {:induction false} SpeedWindowConserves(inc: IncState, samples: seq<(real, real)>)
    ensures var (last, windows) := Feed(inc, samples);
            && Attributed(windows) + last.winBytes == inc.winBytes + TotalLength(samples)
            && last.received == inc.received + TotalLength(samples)
            && forall w :: w in windows ==> w.elapsedMs >= WINDOW_MS
    decreases |samples|
  {
    if samples == [] {
    } else {
      var (len, now) := samples[0];
      var (last, windows) := Feed(inc.AccountChunk(len, now), samples[1..]);
      ClosedByConserves(inc, len, now);
      SpeedWindowConserves(inc.AccountChunk(len, now), samples[1..]);
      AttributedAppend(ClosedBy(inc, len, now), windows);
    }
  }
}
