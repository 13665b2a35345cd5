/** What a coroutine counts: its reports, its buffer, its message sizes, and how far one wake-up gets. */
module SendCounts {
  import opened Prelude
  import opened Protocol
  import opened SendTask

  // ----- reports and message sizes -----

  /** The `i`-th report is the number of bytes in the first `i + 1` messages. */
  ghost predicate Reported(payloads: seq<seq<byte>>, progress: seq<nat>) {
    && |progress| == |payloads|
    && forall i :: 0 <= i < |progress| ==> progress[i] == |Flatten(payloads[..i + 1])|
  }

  ghost predicate Sized(payloads: seq<seq<byte>>, most: nat) {
    forall i :: 0 <= i < |payloads| ==> 0 < |payloads[i]| <= most
  }

  ghost predicate Accounted(t: Task) {
    && t.sent == |Flatten(Payloads(t.frames))|
    && Reported(Payloads(t.frames), t.progress)
    && Sized(Payloads(t.frames), t.chunk)
    && (t.phase.AwaitOpen? ==> t.frames == [])
    && (t.sent > 0 ==> t.buffered <= t.peak)
  }

  lemma ReportedPush(payloads: seq<seq<byte>>, progress: seq<nat>, next: seq<byte>)
    requires Reported(payloads, progress)
    ensures Reported(payloads + [next], progress + [|Flatten(payloads)| + |next|])
  {
    var more := payloads + [next];
    FlattenPush(payloads, next);
    var counts := progress + [|Flatten(payloads)| + |next|];
    forall i | 0 <= i < |counts| ensures counts[i] == |Flatten(more[..i + 1])| {
      if i < |payloads| {
        assert more[..i + 1] == payloads[..i + 1];
      } else {
        assert more[..i + 1] == more;
      }
    }
  }

  lemma SizedPush(payloads: seq<seq<byte>>, most: nat, next: seq<byte>)
    requires Sized(payloads, most) && 0 < |next| <= most
    ensures Sized(payloads + [next], most)
  {
  }

  /** The coroutine with one more message out. */
  function Pushed(t: Task, next: seq<byte>): Task {
    t.(frames := t.frames + [Binary(next)], sent := t.sent + |next|, buffered := t.buffered + |next|,
       peak := Max(t.peak, t.buffered + |next|), progress := t.progress + [t.sent + |next|])
  }

  lemma PushAccounts(t: Task, next: seq<byte>)
    requires Accounted(t) && !t.phase.AwaitOpen? && 0 < |next| <= t.chunk
    ensures Accounted(Pushed(t, next))
  {
    PayloadsPush(t.frames, Binary(next));
    FlattenPush(Payloads(t.frames), next);
    ReportedPush(Payloads(t.frames), t.progress, next);
    SizedPush(Payloads(t.frames), t.chunk, next);
  }

  lemma SendAccounts(t: Task, idx: nat, off: nat)
    requires Accounted(t) && !t.phase.AwaitOpen? && off < t.SlabLength(idx)
    ensures Accounted(t.SendChunk(idx, off))
  {
    var base, end := idx * SLAB_SIZE, t.ChunkEnd(idx, off);
    var next := t.file.bytes[base + off..base + end];
    assert |next| == end - off;
    PushAccounts(t, next);
    assert t.SendChunk(idx, off) == Pushed(t, next);
  }

  lemma EndAccounts(t: Task, phase: Phase)
    requires Accounted(t) && !t.phase.AwaitOpen? && !phase.AwaitOpen?
    ensures Accounted(t.(phase := phase)) && Accounted(t.(frames := t.frames + [Text(End(t.id))], phase := phase))
  {
    PayloadsPush(t.frames, Text(End(t.id)));
    assert Payloads(t.frames + [Text(End(t.id))]) == Payloads(t.frames);
  }

  lemma {:induction false} PumpAccounts(t: Task, idx: nat, off: nat)
    requires Accounted(t) && !t.phase.AwaitOpen?
    ensures Accounted(t.Pump(idx, off))
    decreases t.SlabLength(idx) - off
  {
    if off >= t.SlabLength(idx) {
      EndAccounts(t, t.AfterSlab(idx).phase);
    } else if t.buffered > BUFFER_HIGH {
    } else {
      SendAccounts(t, idx, off);
      PumpAccounts(t.SendChunk(idx, off), idx, t.ChunkEnd(idx, off));
    }
  }

  lemma OpenAccounts(t: Task, cancelled: bool, negotiated: Option<real>, startLength: nat)
    requires Accounted(t) && t.phase.AwaitOpen?
    ensures Accounted(t.ResumeOpen(cancelled, negotiated, startLength))
  {
    OpenedFrames(t, cancelled, negotiated, startLength);
  }

  lemma StepAccounts(t: Task, wake: Wake, cancelled: bool)
    requires Accounted(t)
    ensures Accounted(Step(t, wake, cancelled))
  {
    match wake
    case Opened(negotiated, startLength) =>
      if t.phase.AwaitOpen? { OpenAccounts(t, cancelled, negotiated, startLength); }
    case SlabRead => if t.phase.AwaitSlab? && !cancelled { PumpAccounts(t, t.phase.idx, 0); }
    case SlabRefused =>
    case Drained =>
      if t.phase.AwaitDrain? && t.phase.off < t.SlabLength(t.phase.idx) && !cancelled {
        SendAccounts(t, t.phase.idx, t.phase.off);
        PumpAccounts(t.SendChunk(t.phase.idx, t.phase.off), t.phase.idx, t.ChunkEnd(t.phase.idx, t.phase.off));
      }
    case Drains(_) =>
  }

  lemma {:induction false} ExecAccounts(t: Task, wakes: seq<(Wake, bool)>)
    requires Accounted(t)
    ensures Accounted(Exec(t, wakes))
    decreases |wakes|
  {
    if wakes == [] {
    } else {
      StepAccounts(t, wakes[0].0, wakes[0].1);
      ExecAccounts(Step(t, wakes[0].0, wakes[0].1), wakes[1..]);
    }
  }

  /**
   * After any wake-ups: one report per message, each the bytes sent so far; and once a chunk is sent, the
   * buffer is never fuller than the largest amount noted after a send.
   */
  lemma ReportsCount(id: nat, file: File, wakes: seq<(Wake, bool)>)
    ensures var t := Exec(NewTask(id, file), wakes);
            && |t.progress| == |Payloads(t.frames)|
            && (forall i :: 0 <= i < |t.progress| ==> t.progress[i] == |Flatten(Payloads(t.frames)[..i + 1])|)
            && t.sent == |Flatten(Payloads(t.frames))|
            && (t.sent > 0 ==> t.buffered <= t.peak)
  {
    ExecAccounts(NewTask(id, file), wakes);
  }

  // ----- the negotiated limit -----

  /** The limit found when the channel opened. */
  function Negotiated(wakes: seq<(Wake, bool)>): Option<Option<real>> {
    if wakes == [] then None else if wakes[0].0.Opened? then Some(wakes[0].0.negotiated) else Negotiated(wakes[1..])
  }

  lemma {:induction false} PumpKeepsChunk(t: Task, idx: nat, off: nat)
    requires !t.phase.AwaitOpen?
    ensures t.Pump(idx, off).chunk == t.chunk && !t.Pump(idx, off).phase.AwaitOpen?
    decreases t.SlabLength(idx) - off
  {
    if off >= t.SlabLength(idx) || t.buffered > BUFFER_HIGH {
    } else {
      PumpKeepsChunk(t.SendChunk(idx, off), idx, t.ChunkEnd(idx, off));
    }
  }

  lemma StepChunk(t: Task, wake: Wake, cancelled: bool)
    ensures var t' := Step(t, wake, cancelled);
            && t'.chunk == (if t.phase.AwaitOpen? && wake.Opened? then ChunkFor(wake.negotiated) else t.chunk)
            && (t'.phase.AwaitOpen? <==> t.phase.AwaitOpen? && !wake.Opened?)
  {
    match wake
    case Opened(_, _) =>
    case SlabRead => if t.phase.AwaitSlab? && !cancelled { PumpKeepsChunk(t, t.phase.idx, 0); }
    case SlabRefused =>
    case Drained =>
      if t.phase.AwaitDrain? && t.phase.off < t.SlabLength(t.phase.idx) && !cancelled {
        PumpKeepsChunk(t.SendChunk(t.phase.idx, t.phase.off), t.phase.idx, t.ChunkEnd(t.phase.idx, t.phase.off));
      }
    case Drains(_) =>
  }

  lemma {:induction false} ExecChunk(t: Task, wakes: seq<(Wake, bool)>)
    ensures Exec(t, wakes).chunk
            == if t.phase.AwaitOpen? && Negotiated(wakes).Some? then ChunkFor(Negotiated(wakes).value)
               else t.chunk
    decreases |wakes|
  {
    if wakes == [] {
    } else {
      StepChunk(t, wakes[0].0, wakes[0].1);
      ExecChunk(Step(t, wakes[0].0, wakes[0].1), wakes[1..]);
    }
  }

  /** No message is empty, and none is larger than the limit that the connection negotiated. */
  lemma MessagesFitTheLimit(id: nat, file: File, wakes: seq<(Wake, bool)>, i: nat)
    requires i < |Payloads(Exec(NewTask(id, file), wakes).frames)|
    ensures var p := Payloads(Exec(NewTask(id, file), wakes).frames)[i];
            && 0 < |p| <= CHUNK_SIZE
            && (Negotiated(wakes).Some? ==>
                  var limit := Negotiated(wakes).value;
                  limit.Some? && limit.value >= 1.0 ==> |p| as real <= limit.value)
  {
    ExecAccounts(NewTask(id, file), wakes);
    ExecChunk(NewTask(id, file), wakes);
    if Negotiated(wakes).Some? {
      ChunkBounds(Negotiated(wakes).value, 0);
    }
  }

  // ----- the buffer -----

  /** What a wake-up adds to the buffer besides file bytes, and what it takes out. */
  function Announced(t: Task, wake: Wake): nat {
    if wake.Opened? && t.phase.AwaitOpen? then wake.startLength else 0
  }

  function Flushed(t: Task, wake: Wake): nat {
    if wake.Drains? then Min(wake.amount, t.buffered) else 0
  }

  function AllAnnounced(t: Task, wakes: seq<(Wake, bool)>): nat
    decreases |wakes|
  {
    if wakes == [] then 0
    else Announced(t, wakes[0].0) + AllAnnounced(Step(t, wakes[0].0, wakes[0].1), wakes[1..])
  }

  function AllFlushed(t: Task, wakes: seq<(Wake, bool)>): nat
    decreases |wakes|
  {
    if wakes == [] then 0 else Flushed(t, wakes[0].0) + AllFlushed(Step(t, wakes[0].0, wakes[0].1), wakes[1..])
  }

  lemma {:induction false} PumpFills(t: Task, idx: nat, off: nat)
    ensures t.Pump(idx, off).buffered - t.buffered == t.Pump(idx, off).sent - t.sent
    decreases t.SlabLength(idx) - off
  {
    if off >= t.SlabLength(idx) || t.buffered > BUFFER_HIGH {
    } else {
      PumpFills(t.SendChunk(idx, off), idx, t.ChunkEnd(idx, off));
    }
  }

  lemma StepFills(t: Task, wake: Wake, cancelled: bool)
    ensures var t' := Step(t, wake, cancelled);
            t'.buffered + Flushed(t, wake) == t.buffered + Announced(t, wake) + (t'.sent - t.sent)
  {
    match wake
    case Opened(_, _) =>
    case SlabRead => if t.phase.AwaitSlab? && !cancelled { PumpFills(t, t.phase.idx, 0); }
    case SlabRefused =>
    case Drained =>
      if t.phase.AwaitDrain? && t.phase.off < t.SlabLength(t.phase.idx) && !cancelled {
        PumpFills(t.SendChunk(t.phase.idx, t.phase.off), t.phase.idx, t.ChunkEnd(t.phase.idx, t.phase.off));
      }
    case Drains(_) =>
  }

  /** Over any wake-ups, what went into the buffer is what was flushed from it and what is in it. */
  lemma {:induction false} BufferConserves(t: Task, wakes: seq<(Wake, bool)>)
    ensures var t' := Exec(t, wakes);
            t'.buffered + AllFlushed(t, wakes) == t.buffered + AllAnnounced(t, wakes) + (t'.sent - t.sent)
    decreases |wakes|
  {
    if wakes == [] {
    } else {
      StepFills(t, wakes[0].0, wakes[0].1);
      BufferConserves(Step(t, wakes[0].0, wakes[0].1), wakes[1..]);
    }
  }

  // ----- how far one wake-up gets -----

  /** From the middle of slab `idx`: to the slab's end, or to where the buffer is too full. */
  lemma {:induction false} PumpGoes(t: Task, idx: nat, off: nat)
    requires off <= t.SlabLength(idx) && t.sent == idx * SLAB_SIZE + off && idx * SLAB_SIZE < t.Size()
    ensures var t', end := t.Pump(idx, off), idx * SLAB_SIZE + t.SlabLength(idx);
            && t'.file == t.file
            && (if t'.phase.AwaitDrain? then t'.buffered > BUFFER_HIGH && t.sent <= t'.sent < end
                else t'.sent == end
                     && t'.phase == if (idx + 1) * SLAB_SIZE < t.Size() then AwaitSlab(idx + 1) else Ended(Sent))
    decreases t.SlabLength(idx) - off
  {
    if off >= t.SlabLength(idx) || t.buffered > BUFFER_HIGH {
    } else {
      PumpGoes(t.SendChunk(idx, off), idx, t.ChunkEnd(idx, off));
    }
  }

  lemma SlabIsAt(t: Task, idx: nat, off: nat)
    requires idx * SLAB_SIZE < t.Size() && off < t.SlabLength(idx)
    ensures Min(SlabEnd(idx * SLAB_SIZE + off), t.Size()) == idx * SLAB_SIZE + t.SlabLength(idx)
    ensures (idx + 1) * SLAB_SIZE < t.Size() <==> idx * SLAB_SIZE + t.SlabLength(idx) < t.Size()
  {
    SlabsAreAligned(idx);
    SlabEndIs(idx * SLAB_SIZE, off);
  }

  /** Where a coroutine in mid-file stands when it wakes. */
  predicate Resumes(t: Task, wake: Wake) {
    (t.phase.AwaitSlab? && wake.SlabRead?) || (t.phase.AwaitDrain? && wake.Drained? && t.buffered <= BUFFER_LOW)
  }

  lemma ReadFinishesSlabUnlessFull(t: Task)
    requires Inv(t) && t.phase.AwaitSlab?
    ensures var t', end := t.ResumeSlab(false), Min(SlabEnd(t.sent), t.Size());
            if t'.phase.AwaitDrain? then t'.buffered > BUFFER_HIGH && t.sent <= t'.sent < end
            else t'.sent == end && (if end < t.Size() then t'.phase.AwaitSlab? else t'.phase == Ended(Sent))
  {
    SlabIsAt(t, t.phase.idx, 0);
    PumpGoes(t, t.phase.idx, 0);
  }

  lemma DrainFinishesSlabUnlessFull(t: Task)
    requires Inv(t) && t.phase.AwaitDrain?
    ensures var t', end := t.ResumeDrain(false), Min(SlabEnd(t.sent), t.Size());
            if t'.phase.AwaitDrain? then t'.buffered > BUFFER_HIGH && t.sent <= t'.sent < end
            else t'.sent == end && (if end < t.Size() then t'.phase.AwaitSlab? else t'.phase == Ended(Sent))
  {
    SlabIsAt(t, t.phase.idx, t.phase.off);
    PumpGoes(t.SendChunk(t.phase.idx, t.phase.off), t.phase.idx, t.ChunkEnd(t.phase.idx, t.phase.off));
  }

  /**
   * An unflagged wake-up sends all of the slab it stands in and no byte of the next, and then awaits the
   * next slab or has sent `End`; it stops short of that only where the buffer is above the high mark.
   */
  lemma WakeFinishesSlabUnlessFull(t: Task, wake: Wake)
    requires Inv(t) && Resumes(t, wake)
    ensures var t', end := Step(t, wake, false), Min(SlabEnd(t.sent), t.Size());
            if t'.phase.AwaitDrain? then t'.buffered > BUFFER_HIGH && t.sent <= t'.sent < end
            else t'.sent == end && (if end < t.Size() then t'.phase.AwaitSlab? else t'.phase == Ended(Sent))
  {
    if wake.SlabRead? {
      ReadFinishesSlabUnlessFull(t);
    } else {
      DrainFinishesSlabUnlessFull(t);
    }
  }

  lemma SmallSlabSuffices(t: Task)
    requires Inv(t) && t.phase == AwaitSlab(0) && t.buffered + t.Size() <= BUFFER_HIGH
    ensures t.ResumeSlab(false).phase == Ended(Sent)
  {
    PumpGoes(t, 0, 0);
    PumpFills(t, 0, 0);
  }

  lemma SmallOpens(id: nat, file: File, negotiated: Option<real>, startLength: nat)
    ensures var t := NewTask(id, file).ResumeOpen(false, negotiated, startLength);
            && Inv(t) && t.buffered == startLength && t.Size() == |file.bytes|
            && t.phase == if file.bytes == [] then Ended(Sent) else AwaitSlab(0)
  {
    NewTaskInv(id, file);
    ResumeOpenKeeps(NewTask(id, file), false, negotiated, startLength);
  }

  /** A file that fits the high mark together with its `Start` needs no drain: two wake-ups send it whole. */
  lemma SmallFileNeedsNoDrain(id: nat, file: File, negotiated: Option<real>, startLength: nat)
    requires startLength + |file.bytes| <= BUFFER_HIGH
    ensures Exec(NewTask(id, file), [(Opened(negotiated, startLength), false), (SlabRead, false)]).phase == Ended(Sent)
  {
    var t, open, read := NewTask(id, file), (Opened(negotiated, startLength), false), (SlabRead, false);
    var t' := t.ResumeOpen(false, negotiated, startLength);
    SmallOpens(id, file, negotiated, startLength);
    assert [open, read][1..] == [read] && [read][1..] == [];
    assert Exec(t, [open, read]) == Exec(t', [read]) == Step(t', SlabRead, false);
    if file.bytes != [] {
      SmallSlabSuffices(t');
    }
  }
}
