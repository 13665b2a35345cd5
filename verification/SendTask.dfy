/**
 * The coroutine that streams one accepted file. Its resume points are its awaits: the channel
 * opening, a slab read, and the buffer draining. Between two awaits nothing else runs, so the
 * cancel flag is the same at every test within one resume.
 */
module SendTask {
  import opened Prelude
  import opened Protocol

  const BUFFER_HIGH: nat := 8 * 1024 * 1024

  const BUFFER_LOW: nat := 1024 * 1024

  const USIZE_MAX: nat := 0xFFFF_FFFF

  /** The browser's send-buffer ceiling. */
  const BUFFER_CEILING: nat := 16 * 1024 * 1024

  /** The negotiated limit, `None` when missing or not finite. */
  function MaxMessageSize(negotiated: Option<real>): nat {
    match negotiated
    case Some(m) => if m >= 1.0 then Min(m.Floor, USIZE_MAX) else USIZE_MAX
    case None => USIZE_MAX
  }

  type ChunkSize = n: nat | 1 <= n <= CHUNK_SIZE witness 1

  function ChunkFor(negotiated: Option<real>): ChunkSize {
    Min(MaxMessageSize(negotiated), CHUNK_SIZE)
  }

  /** A chunk is never above the negotiated limit, and `off + chunk` fits 32 bits inside a slab. */
  lemma ChunkBounds(negotiated: Option<real>, off: nat)
    requires off <= SLAB_SIZE
    ensures negotiated.Some? && negotiated.value >= 1.0 ==> ChunkFor(negotiated) as real <= negotiated.value
    ensures off + ChunkFor(negotiated) < U32_RANGE
  {
    if negotiated.Some? && negotiated.value >= 1.0 {
      assert negotiated.value.Floor as real <= negotiated.value;
      assert negotiated.value.Floor >= 1;
    }
  }

  /** And no larger chunk would do: it is the largest the program and the negotiated limit both allow. */
  lemma ChunkIsLargest(negotiated: Option<real>, chunk: nat)
    requires 1 <= chunk <= CHUNK_SIZE
    requires negotiated.Some? && negotiated.value >= 1.0 ==> chunk as real <= negotiated.value
    ensures chunk <= ChunkFor(negotiated)
  {
  }

  datatype Outcome = Sent | Stopped | Failed

  datatype Phase = AwaitOpen | AwaitSlab(idx: nat) | AwaitDrain(idx: nat, off: nat) | Ended(outcome: Outcome)

  /**
   * `frames` is everything put on the channel and `progress` every reported byte count, oldest
   * first; `peak` is the largest buffered amount seen right after a binary send.
   */
  datatype Task = Task(
    id: nat,
    file: File,
    chunk: ChunkSize,
    phase: Phase,
    frames: seq<Frame>,
    sent: nat,
    buffered: nat,
    peak: nat,
    progress: seq<nat>)
  {
    function Size(): nat { |file.bytes| }

    function SlabLength(idx: nat): nat {
      if idx * SLAB_SIZE >= Size() then 0 else Min(SLAB_SIZE, Size() - idx * SLAB_SIZE)
    }

    function ChunkEnd(idx: nat, off: nat): nat {
      Min(off + chunk, SlabLength(idx))
    }

    function SendChunk(idx: nat, off: nat): Task
      requires off < SlabLength(idx)
    {
      var end := ChunkEnd(idx, off);
      var base := idx * SLAB_SIZE;
      this.(frames := frames + [Binary(file.bytes[base + off..base + end])],
            sent := sent + (end - off),
            buffered := buffered + (end - off),
            peak := Max(peak, buffered + (end - off)),
            progress := progress + [sent + (end - off)])
    }

    /** After a slab's last byte: wait for the next slab, or send `End`. */
    function AfterSlab(idx: nat): Task {
      if (idx + 1) * SLAB_SIZE < Size()
      then this.(phase := AwaitSlab(idx + 1))
      else this.(frames := frames + [Text(End(id))], phase := Ended(Sent))
    }

    /** Stream a slab from `off` until it is done or the buffer is too full. */
    function Pump(idx: nat, off: nat): Task
      decreases SlabLength(idx) - off
    {
      if off >= SlabLength(idx) then AfterSlab(idx)
      else if buffered > BUFFER_HIGH then this.(phase := AwaitDrain(idx, off))
      else SendChunk(idx, off).Pump(idx, ChunkEnd(idx, off))
    }

    /** The channel opened. `startLength` is how much the `Start` text adds to the buffer. */
    function ResumeOpen(cancelled: bool, negotiated: Option<real>, startLength: nat): Task
      requires phase.AwaitOpen?
    {
      var t := this.(frames := frames + [Text(Start(MetaOf(id, file)))],
                     chunk := ChunkFor(negotiated),
                     buffered := buffered + startLength);
      if Size() == 0 then t.(frames := t.frames + [Text(End(id))], phase := Ended(Sent))
      else if cancelled then t.(phase := Ended(Stopped))
      else t.(phase := AwaitSlab(0))
    }

    function ResumeSlab(cancelled: bool): Task
      requires phase.AwaitSlab?
    {
      if cancelled then this.(phase := Ended(Stopped)) else Pump(phase.idx, 0)
    }

    /** The buffer drained: re-check the flag, send the parked chunk, go on. */
    function ResumeDrain(cancelled: bool): Task
      requires phase.AwaitDrain? && phase.off < SlabLength(phase.idx)
    {
      if cancelled then this.(phase := Ended(Stopped))
      else SendChunk(phase.idx, phase.off).Pump(phase.idx, ChunkEnd(phase.idx, phase.off))
    }

    /** The slab read was refused: the coroutine returns early, without `End`. */
    function ReadFails(): Task
      requires phase.AwaitSlab?
    {
      this.(phase := Ended(Failed))
    }
  }

  function NewTask(id: nat, file: File): Task {
    Task(id, file, CHUNK_SIZE, AwaitOpen, [], 0, 0, 0, [])
  }

  // ----- the coroutine's own loops -----

  class Sender {
    const id: nat
    const file: File
    var chunk: ChunkSize
    var phase: Phase
    var frames: seq<Frame>
    var sent: nat
    var buffered: nat
    var peak: nat
    var progress: seq<nat>

    ghost function View(): Task
      reads this
    {
      Task(id, file, chunk, phase, frames, sent, buffered, peak, progress)
    }

    constructor (id: nat, file: File)
      ensures View() == NewTask(id, file)
    {
      this.id, this.file := id, file;
      chunk, phase, frames := CHUNK_SIZE, AwaitOpen, [];
      sent, buffered, peak, progress := 0, 0, 0, [];
    }

    /** Put the next chunk of slab `idx` on the channel and report it. */
    method SendOne(idx: nat, off: nat) returns (end: nat)
      requires off < View().SlabLength(idx)
      modifies this
      ensures View() == old(View()).SendChunk(idx, off)
      ensures end == old(View()).ChunkEnd(idx, off)
    {
      var base := idx * SLAB_SIZE;
      end := Min(off + chunk, Min(SLAB_SIZE, |file.bytes| - base));
      frames := frames + [Binary(file.bytes[base + off..base + end])];
      buffered := buffered + (end - off);
      peak := Max(peak, buffered);
      sent := sent + (end - off);
      progress := progress + [sent];
    }

    /** The chunk loop of one slab, entered afresh or right after a drained wait. */
    method StreamSlab(idx: nat, from: nat, drained: bool, cancelled: bool)
      requires from < View().SlabLength(idx)
      modifies this
      ensures cancelled ==> View() == old(View()).(phase := Ended(Stopped))
      ensures !cancelled && drained ==>
                View() == old(View()).SendChunk(idx, from).Pump(idx, old(View()).ChunkEnd(idx, from))
      ensures !cancelled && !drained ==> View() == old(View()).Pump(idx, from)
    {
      ghost var t := View();
      ghost var goal := if drained then t.SendChunk(idx, from).Pump(idx, t.ChunkEnd(idx, from)) else t.Pump(idx, from);
      var off, justDrained := from, drained;
      while off < Min(SLAB_SIZE, |file.bytes| - idx * SLAB_SIZE)
        invariant off <= t.SlabLength(idx) == View().SlabLength(idx)
        invariant justDrained ==> off == from && drained
        invariant off == from ==> View() == t
        invariant off != from ==> !cancelled
        invariant !justDrained ==> View().Pump(idx, off) == goal
        decreases t.SlabLength(idx) - off
      {
        if cancelled {
          phase := Ended(Stopped);
          return;
        }
        if !justDrained && buffered > BUFFER_HIGH {
          phase := AwaitDrain(idx, off);
          return;
        }
        justDrained := false;
        off := SendOne(idx, off);
      }
      if (idx + 1) * SLAB_SIZE < |file.bytes| {
        phase := AwaitSlab(idx + 1);
      } else {
        frames := frames + [Text(End(id))];
        phase := Ended(Sent);
      }
    }

    method ResumeOpen(cancelled: bool, negotiated: Option<real>, startLength: nat)
      requires phase.AwaitOpen?
      modifies this
      ensures View() == old(View()).ResumeOpen(cancelled, negotiated, startLength)
    {
      chunk := Min(MaxMessageSize(negotiated), CHUNK_SIZE);
      frames := frames + [Text(Start(MetaOf(id, file)))];
      buffered := buffered + startLength;
      if |file.bytes| == 0 {
        frames := frames + [Text(End(id))];
        phase := Ended(Sent);
      } else if cancelled {
        phase := Ended(Stopped);
      } else {
        phase := AwaitSlab(0);
      }
    }

    method ResumeSlab(cancelled: bool)
      requires phase.AwaitSlab? && 0 < View().SlabLength(phase.idx)
      modifies this
      ensures View() == old(View()).ResumeSlab(cancelled)
    {
      StreamSlab(phase.idx, 0, false, cancelled);
    }

    method ResumeDrain(cancelled: bool)
      requires phase.AwaitDrain? && phase.off < View().SlabLength(phase.idx)
      modifies this
      ensures View() == old(View()).ResumeDrain(cancelled)
    {
      StreamSlab(phase.idx, phase.off, true, cancelled);
    }
  }

  // ----- what is on the channel -----

  /** The binary payloads among `frames`, oldest first. */
  function Payloads(frames: seq<Frame>): seq<seq<byte>> {
    if frames == [] then []
    else
      var last := frames[|frames| - 1];
      Payloads(frames[..|frames| - 1]) + (if last.Binary? then [last.bytes] else [])
  }

  function Slices(bytes: seq<byte>, ranges: seq<Range>): seq<seq<byte>>
    requires forall i :: 0 <= i < |ranges| ==> ranges[i].0 <= ranges[i].1 <= |bytes|
  {
    if ranges == [] then [] else [bytes[ranges[0].0..ranges[0].1]] + Slices(bytes, ranges[1..])
  }

  /** Where the slab that holds position `pos` ends. */
  function SlabEnd(pos: nat): (end: nat)
    ensures pos < end
  {
    (pos / SLAB_SIZE + 1) * SLAB_SIZE
  }

  /** What is left to send from position `pos`: greedy chunks that never straddle a slab boundary. */
  function Remaining(pos: nat, size: nat, chunk: nat): (rs: seq<Range>)
    requires 0 < chunk
    ensures forall i :: 0 <= i < |rs| ==> pos <= rs[i].0 <= rs[i].1 <= size
    decreases size - pos
  {
    if pos >= size then []
    else
      var end := Min(Min(pos + chunk, SlabEnd(pos)), size);
      [(pos, end)] + Remaining(end, size, chunk)
  }

  /** A prefix of the file's messages is on the channel, framed by `Start` and, once all is sent, `End`. */
  ghost predicate Framed(t: Task) {
    && (t.phase.AwaitOpen? ==> t.frames == [])
    && (!t.phase.AwaitOpen? ==> |t.frames| > 0 && t.frames[0] == Text(Start(MetaOf(t.id, t.file))))
    && (forall i :: 0 < i < |t.frames| ==>
          t.frames[i].Binary? || (i == |t.frames| - 1 && t.phase == Ended(Sent)))
    && (t.phase == Ended(Sent) ==> |t.frames| > 1 && t.frames[|t.frames| - 1] == Text(End(t.id)))
  }

  ghost predicate Positioned(t: Task) {
    && t.sent <= t.Size()
    && match t.phase
       case AwaitOpen => t.sent == 0 && t.peak == 0 && t.progress == []
       case AwaitSlab(idx) => t.sent == idx * SLAB_SIZE < t.Size()
       case AwaitDrain(idx, off) => t.sent == idx * SLAB_SIZE + off && off < t.SlabLength(idx)
       case Ended(Sent) => t.sent == t.Size()
       case Ended(_) => t.sent < t.Size()
  }

  /** What was sent followed by what is left is the file's message sequence. */
  ghost predicate OnCourse(t: Task) {
    Payloads(t.frames) + Slices(t.file.bytes, Remaining(t.sent, t.Size(), t.chunk))
    == Slices(t.file.bytes, Remaining(0, t.Size(), t.chunk))
  }

  ghost predicate Inv(t: Task) {
    && Framed(t)
    && Positioned(t)
    && OnCourse(t)
    && t.peak <= BUFFER_HIGH + t.chunk
    && (forall i :: 0 <= i < |t.progress| ==> t.progress[i] <= t.sent)
  }

  // ----- every resume keeps the course -----

  lemma PayloadsPush(frames: seq<Frame>, f: Frame)
    ensures Payloads(frames + [f]) == Payloads(frames) + (if f.Binary? then [f.bytes] else [])
  {
    assert (frames + [f])[..|frames|] == frames;
  }

  /** In the middle of a slab, between two sends. */
  ghost predicate Streaming(t: Task, idx: nat, off: nat) {
    && |t.frames| > 0 && t.frames[0] == Text(Start(MetaOf(t.id, t.file)))
    && (forall i :: 0 < i < |t.frames| ==> t.frames[i].Binary?)
    && idx * SLAB_SIZE < t.Size() && off <= t.SlabLength(idx)
    && t.sent == idx * SLAB_SIZE + off
    && OnCourse(t)
    && t.peak <= BUFFER_HIGH + t.chunk
    && (forall i :: 0 <= i < |t.progress| ==> t.progress[i] <= t.sent)
  }

  /** `base` is where a slab starts. */
  predicate Aligned(base: nat) {
    base % SLAB_SIZE == 0
  }

  lemma SlabEndIs(base: nat, off: nat)
    requires Aligned(base) && off < SLAB_SIZE
    ensures SlabEnd(base + off) == base + SLAB_SIZE
  {
    assert base == base / SLAB_SIZE * SLAB_SIZE;
    assert (base + off) / SLAB_SIZE == base / SLAB_SIZE;
  }

  lemma SlabsAreAligned(idx: nat)
    ensures Aligned(idx * SLAB_SIZE)
  {
    MultipleMod(idx, SLAB_SIZE);
  }

  lemma NextIsAligned(base: nat)
    requires Aligned(base)
    ensures Aligned(base + SLAB_SIZE)
  {
  }

  lemma RemainingFrom(base: nat, off: nat, size: nat, chunk: nat)
    requires 0 < chunk && base < size && off < Min(SLAB_SIZE, size - base)
    requires SlabEnd(base + off) == base + SLAB_SIZE
    ensures var next := base + Min(off + chunk, Min(SLAB_SIZE, size - base));
            Remaining(base + off, size, chunk) == [(base + off, next)] + Remaining(next, size, chunk)
  {
  }

  lemma RemainingStep(idx: nat, off: nat, size: nat, chunk: nat)
    requires 0 < chunk && idx * SLAB_SIZE < size
    requires off < Min(SLAB_SIZE, size - idx * SLAB_SIZE)
    ensures var pos := idx * SLAB_SIZE + off;
            var next := idx * SLAB_SIZE + Min(off + chunk, Min(SLAB_SIZE, size - idx * SLAB_SIZE));
            Remaining(pos, size, chunk) == [(pos, next)] + Remaining(next, size, chunk)
  {
    SlabsAreAligned(idx);
    SlabEndIs(idx * SLAB_SIZE, off);
    RemainingFrom(idx * SLAB_SIZE, off, size, chunk);
  }

  lemma SlicesStep(bytes: seq<byte>, pos: nat, next: nat, chunk: nat)
    requires 0 < chunk && pos <= next <= |bytes|
    requires Remaining(pos, |bytes|, chunk) == [(pos, next)] + Remaining(next, |bytes|, chunk)
    ensures Slices(bytes, Remaining(pos, |bytes|, chunk))
            == [bytes[pos..next]] + Slices(bytes, Remaining(next, |bytes|, chunk))
  {
    assert Remaining(pos, |bytes|, chunk)[1..] == Remaining(next, |bytes|, chunk);
  }

  lemma CourseStep(payloads: seq<seq<byte>>, bytes: seq<byte>, pos: nat, next: nat, chunk: nat)
    requires 0 < chunk && pos <= next <= |bytes|
    requires Remaining(pos, |bytes|, chunk) == [(pos, next)] + Remaining(next, |bytes|, chunk)
    requires payloads + Slices(bytes, Remaining(pos, |bytes|, chunk)) == Slices(bytes, Remaining(0, |bytes|, chunk))
    ensures payloads + [bytes[pos..next]] + Slices(bytes, Remaining(next, |bytes|, chunk))
            == Slices(bytes, Remaining(0, |bytes|, chunk))
  {
    SlicesStep(bytes, pos, next, chunk);
  }

  /** A chunk is the head of what remains. */
  lemma SendChunkMoves(t: Task, idx: nat, off: nat)
    requires off < t.SlabLength(idx) && t.sent == idx * SLAB_SIZE + off
    ensures var t' := t.SendChunk(idx, off);
            && t'.file == t.file && t'.chunk == t.chunk && t.sent <= t'.sent <= t.Size()
            && t'.frames == t.frames + [Binary(t.file.bytes[t.sent..t'.sent])]
            && Remaining(t.sent, t.Size(), t.chunk) == [(t.sent, t'.sent)] + Remaining(t'.sent, t.Size(), t.chunk)
  {
    RemainingStep(idx, off, t.Size(), t.chunk);
  }

  lemma SentOnCourse(t: Task, t': Task)
    requires OnCourse(t) && t'.file == t.file && t'.chunk == t.chunk && t.sent <= t'.sent <= t.Size()
    requires t'.frames == t.frames + [Binary(t.file.bytes[t.sent..t'.sent])]
    requires Remaining(t.sent, t.Size(), t.chunk) == [(t.sent, t'.sent)] + Remaining(t'.sent, t.Size(), t.chunk)
    ensures OnCourse(t')
  {
    PayloadsPush(t.frames, Binary(t.file.bytes[t.sent..t'.sent]));
    CourseStep(Payloads(t.frames), t.file.bytes, t.sent, t'.sent, t.chunk);
  }

  lemma SendChunkOnCourse(t: Task, idx: nat, off: nat)
    requires OnCourse(t)
    requires off < t.SlabLength(idx) && t.sent == idx * SLAB_SIZE + off
    ensures OnCourse(t.SendChunk(idx, off))
  {
    SendChunkMoves(t, idx, off);
    SentOnCourse(t, t.SendChunk(idx, off));
  }

  lemma SendChunkKeeps(t: Task, idx: nat, off: nat)
    requires Streaming(t, idx, off) && off < t.SlabLength(idx) && t.buffered <= BUFFER_HIGH
    ensures Streaming(t.SendChunk(idx, off), idx, t.ChunkEnd(idx, off))
  {
    SendChunkOnCourse(t, idx, off);
  }

  lemma AfterSlabKeeps(t: Task, idx: nat)
    requires Streaming(t, idx, t.SlabLength(idx))
    ensures Inv(t.AfterSlab(idx))
  {
    if (idx + 1) * SLAB_SIZE >= t.Size() {
      PayloadsPush(t.frames, Text(End(t.id)));
    }
  }

  lemma {:induction false} PumpKeeps(t: Task, idx: nat, off: nat)
    requires Streaming(t, idx, off)
    ensures Inv(t.Pump(idx, off))
    decreases t.SlabLength(idx) - off
  {
    if off >= t.SlabLength(idx) {
      AfterSlabKeeps(t, idx);
    } else if t.buffered > BUFFER_HIGH {
    } else {
      SendChunkKeeps(t, idx, off);
      PumpKeeps(t.SendChunk(idx, off), idx, t.ChunkEnd(idx, off));
    }
  }

  lemma AtZeroOnCourse(t: Task)
    requires Payloads(t.frames) == [] && t.sent == 0
    ensures OnCourse(t)
  {
    var all := Slices(t.file.bytes, Remaining(0, t.Size(), t.chunk));
    assert [] + all == all;
  }

  lemma StartCarriesNothing(t: Task)
    ensures var start := Text(Start(MetaOf(t.id, t.file)));
            Payloads([start]) == [] && Payloads([start, Text(End(t.id))]) == []
  {
    var start := Text(Start(MetaOf(t.id, t.file)));
    assert Payloads([start]) == Payloads([]) + [];
    PayloadsPush([start], Text(End(t.id)));
    assert [start] + [Text(End(t.id))] == [start, Text(End(t.id))];
  }

  lemma OpenedFrames(t: Task, cancelled: bool, negotiated: Option<real>, startLength: nat)
    requires t.phase.AwaitOpen? && t.frames == []
    ensures var t', start := t.ResumeOpen(cancelled, negotiated, startLength), Text(Start(MetaOf(t.id, t.file)));
            && t'.frames == (if t.Size() == 0 then [start, Text(End(t.id))] else [start])
            && Payloads(t'.frames) == []
  {
    StartCarriesNothing(t);
  }

  lemma ResumeOpenKeeps(t: Task, cancelled: bool, negotiated: Option<real>, startLength: nat)
    requires Inv(t) && t.phase.AwaitOpen?
    ensures Inv(t.ResumeOpen(cancelled, negotiated, startLength))
  {
    var t' := t.ResumeOpen(cancelled, negotiated, startLength);
    OpenedFrames(t, cancelled, negotiated, startLength);
    AtZeroOnCourse(t');
  }

  lemma ResumeSlabKeeps(t: Task, cancelled: bool)
    requires Inv(t) && t.phase.AwaitSlab?
    ensures Inv(t.ResumeSlab(cancelled))
  {
    if !cancelled {
      PumpKeeps(t, t.phase.idx, 0);
    }
  }

  lemma ResumeDrainKeeps(t: Task, cancelled: bool)
    requires Inv(t) && t.phase.AwaitDrain? && t.buffered <= BUFFER_LOW
    ensures Inv(t.ResumeDrain(cancelled))
  {
    if !cancelled {
      SendChunkKeeps(t, t.phase.idx, t.phase.off);
      PumpKeeps(t.SendChunk(t.phase.idx, t.phase.off), t.phase.idx, t.ChunkEnd(t.phase.idx, t.phase.off));
    }
  }

  // ----- whole runs of one coroutine -----

  datatype Wake =
    | Opened(negotiated: Option<real>, startLength: nat)
    | SlabRead
    | SlabRefused
    | Drained
    | Drains(amount: nat)

  /** One wake-up or one drain of the buffer; `Drained` fires only once the low threshold is reached. */
  function Step(t: Task, wake: Wake, cancelled: bool): Task {
    match wake
    case Opened(negotiated, startLength) =>
      if t.phase.AwaitOpen? then t.ResumeOpen(cancelled, negotiated, startLength) else t
    case SlabRead => if t.phase.AwaitSlab? then t.ResumeSlab(cancelled) else t
    case SlabRefused => if t.phase.AwaitSlab? then t.ReadFails() else t
    case Drained =>
      if t.phase.AwaitDrain? && t.phase.off < t.SlabLength(t.phase.idx) && t.buffered <= BUFFER_LOW
      then t.ResumeDrain(cancelled) else t
    case Drains(amount) => t.(buffered := t.buffered - Min(amount, t.buffered))
  }

  lemma ReadFailsKeeps(t: Task)
    requires Inv(t) && t.phase.AwaitSlab?
    ensures Inv(t.ReadFails())
  {
  }

  lemma DrainKeeps(t: Task, left: nat)
    requires Inv(t) && left <= t.buffered
    ensures Inv(t.(buffered := left))
  {
  }

  lemma StepKeeps(t: Task, wake: Wake, cancelled: bool)
    requires Inv(t)
    ensures Inv(Step(t, wake, cancelled))
  {
    if wake.Opened? {
      if t.phase.AwaitOpen? { ResumeOpenKeeps(t, cancelled, wake.negotiated, wake.startLength); }
    } else if wake.SlabRead? {
      if t.phase.AwaitSlab? { ResumeSlabKeeps(t, cancelled); }
    } else if wake.Drained? {
      if t.phase.AwaitDrain? && t.buffered <= BUFFER_LOW { ResumeDrainKeeps(t, cancelled); }
    } else if wake.SlabRefused? {
      if t.phase.AwaitSlab? { ReadFailsKeeps(t); }
    } else {
      DrainKeeps(t, t.buffered - Min(wake.amount, t.buffered));
    }
  }

  lemma NewTaskInv(id: nat, file: File)
    ensures Inv(NewTask(id, file))
  {
  }

  function Exec(t: Task, wakes: seq<(Wake, bool)>): Task
    decreases |wakes|
  {
    if wakes == [] then t else Exec(Step(t, wakes[0].0, wakes[0].1), wakes[1..])
  }

  lemma {:induction false} ExecKeeps(t: Task, wakes: seq<(Wake, bool)>)
    requires Inv(t)
    ensures Inv(Exec(t, wakes))
    decreases |wakes|
  {
    if wakes == [] {
    } else {
      StepKeeps(t, wakes[0].0, wakes[0].1);
      ExecKeeps(Step(t, wakes[0].0, wakes[0].1), wakes[1..]);
    }
  }

  /** Whatever the drain schedule, no binary send leaves more than `BUFFER_HIGH + chunk` in the buffer. */
  lemma BufferStaysBelowCeiling(id: nat, file: File, wakes: seq<(Wake, bool)>)
    ensures var t := Exec(NewTask(id, file), wakes);
            t.peak <= BUFFER_HIGH + t.chunk < BUFFER_CEILING
  {
    NewTaskInv(id, file);
    ExecKeeps(NewTask(id, file), wakes);
  }

  // ----- what the receiver can reassemble -----

  lemma RangesHead(pos: nat, end: nat, chunk: nat)
    requires 0 < chunk && pos < end
    ensures RangesFrom(pos, end, chunk)
            == [(pos, Min(pos + chunk, end))] + RangesFrom(Min(pos + chunk, end), end, chunk)
  {
  }

  lemma ConsAppend<X>(x: X, a: seq<X>, b: seq<X>)
    ensures [x] + (a + b) == ([x] + a) + b
  {
  }

  lemma RemainingHead(pos: nat, end: nat, size: nat, chunk: nat)
    requires 0 < chunk && pos < end <= size && Min(SlabEnd(pos), size) == end
    ensures var next := Min(pos + chunk, end);
            Remaining(pos, size, chunk) == [(pos, next)] + Remaining(next, size, chunk)
  {
  }

  /** Up to the slab's `end`, what is left is cut like one interval. */
  lemma {:induction false} RemainingInSlab(pos: nat, end: nat, size: nat, chunk: nat)
    requires 0 < chunk && pos <= end <= size
    requires forall p: nat :: pos <= p < end ==> Min(SlabEnd(p), size) == end
    ensures Remaining(pos, size, chunk) == RangesFrom(pos, end, chunk) + Remaining(end, size, chunk)
    decreases end - pos
  {
    if pos == end {
      assert RangesFrom(end, end, chunk) == [];
    } else {
      var next := Min(pos + chunk, end);
      RemainingHead(pos, end, size, chunk);
      RemainingInSlab(next, end, size, chunk);
      RangesHead(pos, end, chunk);
      ConsAppend((pos, next), RangesFrom(next, end, chunk), Remaining(end, size, chunk));
    }
  }

  lemma RemainingFromSlab(base: nat, size: nat, chunk: nat)
    requires 0 < chunk && Aligned(base) && base < size
    ensures var end := Min(base + SLAB_SIZE, size);
            Remaining(base, size, chunk) == RangesFrom(base, end, chunk) + Remaining(end, size, chunk)
  {
    var end := Min(base + SLAB_SIZE, size);
    forall p: nat | base <= p < end ensures Min(SlabEnd(p), size) == end {
      SlabEndIs(base, p - base);
    }
    RemainingInSlab(base, end, size, chunk);
  }

  /** From a slab's start on, what is left is the slabs that are left, each cut on its own. */
  lemma {:induction false} RemainingIsCutSlabs(base: nat, size: nat, chunk: nat)
    requires 0 < chunk && Aligned(base)
    ensures Remaining(base, size, chunk) == CutSlabs(RangesFrom(base, size, SLAB_SIZE), chunk)
    decreases size - base
  {
    if base >= size {
    } else {
      var slabs, end := RangesFrom(base, size, SLAB_SIZE), Min(base + SLAB_SIZE, size);
      assert slabs[0] == (base, end) && slabs[1..] == RangesFrom(end, size, SLAB_SIZE);
      RemainingFromSlab(base, size, chunk);
      if end == base + SLAB_SIZE {
        NextIsAligned(base);
        RemainingIsCutSlabs(end, size, chunk);
      } else {
        assert Remaining(end, size, chunk) == [] && slabs[1..] == [];
        assert CutSlabs(slabs[1..], chunk) == [];
      }
    }
  }

  lemma FlattenCons<T>(head: seq<T>, rest: seq<seq<T>>)
    ensures Flatten([head] + rest) == head + Flatten(rest)
  {
    FlattenAppend([head], rest);
    assert Flatten([head]) == Flatten<T>([]) + head;
  }

  lemma {:induction false} RemainingIsTheRest(pos: nat, bytes: seq<byte>, chunk: nat)
    requires 0 < chunk && pos <= |bytes|
    ensures Flatten(Slices(bytes, Remaining(pos, |bytes|, chunk))) == bytes[pos..]
    decreases |bytes| - pos
  {
    if pos >= |bytes| {
    } else {
      var rest := Remaining(pos, |bytes|, chunk);
      var next := rest[0].1;
      assert pos < SlabEnd(pos);
      RemainingIsTheRest(next, bytes, chunk);
      SlicesStep(bytes, pos, next, chunk);
      FlattenCons(bytes[pos..next], Slices(bytes, Remaining(next, |bytes|, chunk)));
      assert bytes[pos..] == bytes[pos..next] + bytes[next..];
    }
  }

  /** At every moment the payloads on the channel are exactly the first `sent` bytes of the file. */
  lemma PayloadsArePrefix(t: Task)
    requires Inv(t)
    ensures Flatten(Payloads(t.frames)) == t.file.bytes[..t.sent]
  {
    var bytes := t.file.bytes;
    RemainingIsTheRest(t.sent, bytes, t.chunk);
    RemainingIsTheRest(0, bytes, t.chunk);
    FlattenAppend(Payloads(t.frames), Slices(bytes, Remaining(t.sent, t.Size(), t.chunk)));
    assert bytes == bytes[..t.sent] + bytes[t.sent..];
    assert Flatten(Payloads(t.frames)) + bytes[t.sent..] == bytes;
  }

  /** A coroutine that sent `End` sent the whole file, cut along `WireRanges`. */
  lemma SentIsWhole(t: Task)
    requires Inv(t) && t.phase == Ended(Sent)
    ensures Flatten(Payloads(t.frames)) == t.file.bytes
    ensures var ranges := WireRanges(t.Size(), t.chunk);
            && (forall i :: 0 <= i < |ranges| ==> ranges[i].0 <= ranges[i].1 <= t.Size())
            && Payloads(t.frames) == Slices(t.file.bytes, ranges)
  {
    PayloadsArePrefix(t);
    RemainingIsCutSlabs(0, t.Size(), t.chunk);
    assert Remaining(t.sent, t.Size(), t.chunk) == [];
    assert Slices(t.file.bytes, []) == [];
  }

  lemma FlaggedStops(t: Task, wake: Wake)
    requires !wake.Opened?
    ensures var t' := Step(t, wake, true);
            && t'.frames == t.frames && t'.progress == t.progress
            && (t'.phase == t.phase || t'.phase == Ended(Stopped) || (t.phase.AwaitSlab? && t'.phase == Ended(Failed)))
  {
  }

  /** A flagged coroutine of a non-empty file never sends a byte or `End` and never reports again. */
  lemma FlaggedIsSilent(t: Task, wake: Wake)
    requires Inv(t) && t.Size() > 0
    ensures var t' := Step(t, wake, true);
            && Payloads(t'.frames) == Payloads(t.frames)
            && t'.progress == t.progress
            && (t'.phase == Ended(Sent) <==> t.phase == Ended(Sent))
  {
    if wake.Opened? {
      PayloadsPush(t.frames, Text(Start(MetaOf(t.id, t.file))));
    } else {
      FlaggedStops(t, wake);
    }
  }

  lemma {:induction false} PumpExtends(t: Task, idx: nat, off: nat)
    ensures var t' := t.Pump(idx, off);
            && t'.id == t.id && t'.file == t.file
            && t.frames <= t'.frames && t.progress <= t'.progress
            && (t'.phase == Ended(Sent) && t.phase != Ended(Sent) ==> t.frames < t'.frames)
            && t'.phase != Ended(Stopped)
    decreases t.SlabLength(idx) - off
  {
    if off >= t.SlabLength(idx) || t.buffered > BUFFER_HIGH {
    } else {
      PumpExtends(t.SendChunk(idx, off), idx, t.ChunkEnd(idx, off));
    }
  }

  /** Frames are only ever appended, and a coroutine that sent `End` is finished for good. */
  lemma StepExtends(t: Task, wake: Wake, cancelled: bool)
    ensures var t' := Step(t, wake, cancelled);
            && t'.id == t.id && t'.file == t.file
            && t.frames <= t'.frames && t.progress <= t'.progress
            && (t.phase.Ended? ==> t'.phase == t.phase && t'.frames == t.frames && t'.progress == t.progress)
            && (t'.phase == Ended(Sent) && t.phase != Ended(Sent) ==> t.frames < t'.frames)
            && (t'.phase == Ended(Stopped) ==> cancelled || t.phase == Ended(Stopped))
  {
    match wake
    case Opened(negotiated, startLength) =>
    case SlabRead => if t.phase.AwaitSlab? && !cancelled { PumpExtends(t, t.phase.idx, 0); }
    case SlabRefused =>
    case Drained =>
      if t.phase.AwaitDrain? && t.phase.off < t.SlabLength(t.phase.idx) && t.buffered <= BUFFER_LOW && !cancelled {
        PumpExtends(t.SendChunk(t.phase.idx, t.phase.off), t.phase.idx, t.ChunkEnd(t.phase.idx, t.phase.off));
      }
    case Drains(amount) =>
  }

  /** The slab indices of the send loop walk the ranges of `split_ranges(size, SLAB_SIZE)`. */
  lemma {:induction false} SlabsAreRanges(first: nat, idx: nat, size: nat)
    requires first <= idx
    ensures var slabs := RangesFrom(first * SLAB_SIZE, size, SLAB_SIZE);
            && (idx - first < |slabs| <==> idx * SLAB_SIZE < size)
            && (idx - first < |slabs| ==>
                  slabs[idx - first] == (idx * SLAB_SIZE, Min((idx + 1) * SLAB_SIZE, size)))
    decreases idx - first
  {
    if first >= idx {
    } else {
      if (first + 1) * SLAB_SIZE <= size {
        SlabsAreRanges(first + 1, idx, size);
      }
    }
  }

  // ----- a coroutine can always go on -----

  /** The wake-up a coroutine waits for. */
  function Next(t: Task): Wake {
    if t.phase.AwaitOpen? then Opened(None, 0) else if t.phase.AwaitSlab? then SlabRead else Drained
  }

  function ToGo(t: Task): nat {
    if t.phase.AwaitOpen? then t.Size() + 1 else if t.sent <= t.Size() then t.Size() - t.sent else 0
  }

  lemma {:induction false} PumpSends(t: Task, idx: nat, off: nat)
    ensures t.Pump(idx, off).sent >= t.sent
    ensures t.Pump(idx, off).phase != Ended(Failed)
    decreases t.SlabLength(idx) - off
  {
    if off >= t.SlabLength(idx) || t.buffered > BUFFER_HIGH {
    } else {
      PumpSends(t.SendChunk(idx, off), idx, t.ChunkEnd(idx, off));
    }
  }

  /** Nothing but a refused read makes a coroutine fail. */
  lemma FailsOnlyRefused(t: Task, wake: Wake, cancelled: bool)
    ensures Step(t, wake, cancelled).phase == Ended(Failed)
            <==> t.phase == Ended(Failed) || (t.phase.AwaitSlab? && wake.SlabRefused?)
  {
    match wake
    case SlabRead =>
      if t.phase.AwaitSlab? && !cancelled { PumpSends(t, t.phase.idx, 0); }
    case Drained =>
      if t.phase.AwaitDrain? && t.phase.off < t.SlabLength(t.phase.idx) && !cancelled {
        PumpSends(t.SendChunk(t.phase.idx, t.phase.off), t.phase.idx, t.ChunkEnd(t.phase.idx, t.phase.off));
      }
    case _ =>
  }

  /** The chunk loop of an unhindered coroutine sends at least the chunk it stands at, if the buffer has room. */
  lemma PumpNears(t: Task, idx: nat, off: nat)
    requires off < t.SlabLength(idx) && t.sent + t.SlabLength(idx) - off <= t.Size()
    ensures var t' := t.SendChunk(idx, off).Pump(idx, t.ChunkEnd(idx, off));
            t'.sent > t.sent && t'.phase != Ended(Failed)
  {
    PumpSends(t.SendChunk(idx, off), idx, t.ChunkEnd(idx, off));
  }

  lemma SlabReadProgresses(t: Task)
    requires Inv(t) && t.phase.AwaitSlab? && t.buffered == 0
    ensures var t' := t.ResumeSlab(false); t'.sent > t.sent && t'.phase != Ended(Failed)
  {
    PumpNears(t, t.phase.idx, 0);
  }

  lemma DrainedProgresses(t: Task)
    requires Inv(t) && t.phase.AwaitDrain?
    ensures var t' := t.ResumeDrain(false); t'.sent > t.sent && t'.phase != Ended(Failed)
  {
    PumpNears(t, t.phase.idx, t.phase.off);
  }

  /** After a wake-up that sent something, unstopped and unrefused, less is left. */
  lemma SentIsNearer(t: Task, t': Task)
    requires Inv(t') && t'.file == t.file && !t.phase.AwaitOpen? && t'.sent > t.sent
    ensures ToGo(t') < ToGo(t)
  {
  }

  lemma OpenProgresses(t: Task, cancelled: bool)
    requires Inv(t) && t.phase.AwaitOpen?
    ensures var t' := Step(t, Next(t), cancelled);
            if t.Size() == 0 then t'.phase == Ended(Sent)
            else if cancelled then t'.phase == Ended(Stopped)
            else !t'.phase.Ended? && ToGo(t') < ToGo(t)
  {
  }

  lemma NextIsResume(t: Task, cancelled: bool)
    requires Inv(t) && !t.phase.Ended? && !t.phase.AwaitOpen? && t.buffered == 0
    ensures t.Size() > 0
    ensures Step(t, Next(t), cancelled)
            == if t.phase.AwaitSlab? then t.ResumeSlab(cancelled) else t.ResumeDrain(cancelled)
  {
  }

  /** In the middle of a stream the flag stops a coroutine, and without it more is sent. */
  lemma StreamProgresses(t: Task, cancelled: bool)
    requires Inv(t) && !t.phase.Ended? && !t.phase.AwaitOpen? && t.buffered == 0
    ensures var t' := Step(t, Next(t), cancelled);
            && t.Size() > 0
            && (if cancelled then t'.phase == Ended(Stopped) else t'.sent > t.sent && t'.phase != Ended(Failed))
  {
    NextIsResume(t, cancelled);
    if !cancelled {
      if t.phase.AwaitSlab? {
        SlabReadProgresses(t);
      } else {
        DrainedProgresses(t);
      }
    }
  }

  /**
   * Once its buffer is empty, the awaited wake-up stops a flagged coroutine of a non-empty file; any
   * other finishes the file or gets nearer to it. A file without bytes is finished although flagged.
   */
  lemma NextProgresses(t: Task, cancelled: bool)
    requires Inv(t) && !t.phase.Ended? && t.buffered == 0
    ensures var t' := Step(t, Next(t), cancelled);
            if cancelled && t.Size() > 0 then t'.phase == Ended(Stopped)
            else t'.phase == Ended(Sent) || (t.Size() > 0 && !t'.phase.Ended? && ToGo(t') < ToGo(t))
  {
    var t' := Step(t, Next(t), cancelled);
    if t.phase.AwaitOpen? {
      OpenProgresses(t, cancelled);
    } else {
      StreamProgresses(t, cancelled);
      if !cancelled {
        StepKeeps(t, Next(t), false);
        StepExtends(t, Next(t), false);
        SentIsNearer(t, t');
      }
    }
  }
}
