/** What the rows of both peers show, over every run of the page: names, sizes, fractions, speeds and states. */
module RowFacts {
  import opened Prelude
  import opened Protocol
  import opened TransferState
  import opened Receiver
  import opened TransferEngine
  import opened ReceiverRows
  import Cancellation
  import Delivery
  import S = Scheduler
  import T = SendTask
  import R = RowMaps

  // ----- the receiver's rows -----

  /** The incoming row of `id` carries the name and size of the file that was offered as `id`. */
  ghost predicate Named(s: Page, id: nat) {
    (id, true) in s.rows ==>
      && id in s.e.sched.files
      && var row, file := s.rows[(id, true)], s.e.sched.files[id];
         row.id == id && row.incoming && row.name == file.name && row.size == |file.bytes| as real
  }

  /**
   * Fraction and speed of an incoming row: nothing before the first bytes, the buffer's own while they
   * come, all at the end.
   */
  ghost predicate Gauged(s: Page, id: nat) {
    && (StateOf(s.rows, (id, true)) == Some(R.Offered) ==>
          s.rows[(id, true)].fraction == 0.0 && s.rows[(id, true)].speed == 0.0)
    && (StateOf(s.rows, (id, true)) == Some(R.Done) ==>
          s.rows[(id, true)].fraction == 1.0 && s.rows[(id, true)].speed == 0.0)
    && (id in s.e.recv.incoming && s.e.recv.incoming[id].chunks != [] ==>
          && StateOf(s.rows, (id, true)) == Some(R.Active)
          && s.rows[(id, true)].fraction == R.Frac(s.e.recv.incoming[id].received, s.rows[(id, true)].size)
          && s.rows[(id, true)].speed == s.e.recv.incoming[id].speed)
  }

  ghost predicate RowTrue(s: Page, id: nat) {
    Named(s, id) && Gauged(s, id)
  }

  /** Bytes of channel `k` arrive in its buffer. */
  ghost predicate TakesBytes(s: Page, k: nat) {
    && k < |s.e.tasks| && k < |s.e.recv.routers|
    && var t, r := s.e.tasks[k], s.e.recv.routers[k];
       && r.read < |t.frames| && t.frames[r.read].Binary? && r.cur == Some(t.id)
       && t.id in s.e.recv.incoming && s.e.recv.incoming[t.id].meta == Some(MetaOf(t.id, t.file))
  }

  lemma BytesShow(s: Page, k: nat, now: real)
    requires TakesBytes(s, k)
    ensures var t, s' := s.e.tasks[k], Move(s, Deliver(k, now));
            && t.id in s'.e.recv.incoming
            && var inc := s'.e.recv.incoming[t.id];
               && inc.chunks != []
               && s'.e.recv.incoming == s.e.recv.incoming[t.id := inc]
               && s'.rows == R.RecvProgress(s.rows, t.id, t.file.name, inc.received, |t.file.bytes| as real, inc.speed)
               && s'.e.sched == s.e.sched
  {
  }

  lemma BytesTrue(s: Page, k: nat, now: real, id: nat)
    requires TakesBytes(s, k) && RowTrue(s, id)
    requires s.e.tasks[k].id in s.e.sched.files && s.e.sched.files[s.e.tasks[k].id] == s.e.tasks[k].file
    ensures RowTrue(Move(s, Deliver(k, now)), id)
  {
    BytesShow(s, k, now);
  }

  /** The `End` of channel `k` arrives while its buffer stands. */
  ghost predicate TakesEnd(s: Page, k: nat) {
    && k < |s.e.tasks| && k < |s.e.recv.routers|
    && var t, r := s.e.tasks[k], s.e.recv.routers[k];
       && r.read < |t.frames| && t.frames[r.read] == Text(End(t.id)) && r.cur == Some(t.id)
       && t.id in s.e.recv.incoming && s.e.recv.incoming[t.id].meta == Some(MetaOf(t.id, t.file))
  }

  lemma EndShows(s: Page, k: nat, now: real)
    requires TakesEnd(s, k)
    ensures var t, s' := s.e.tasks[k], Move(s, Deliver(k, now));
            && s'.e.recv.incoming == s.e.recv.incoming - {t.id}
            && s'.rows == R.RecvComplete(s.rows, t.id, t.file.name)
            && s'.e.sched == s.e.sched
  {
  }

  lemma EndTrue(s: Page, k: nat, now: real, id: nat)
    requires TakesEnd(s, k) && RowTrue(s, id)
    requires s.e.tasks[k].id in s.e.sched.files && s.e.sched.files[s.e.tasks[k].id] == s.e.tasks[k].file
    requires Flatten(s.e.recv.incoming[s.e.tasks[k].id].chunks) == s.e.tasks[k].file.bytes
    ensures RowTrue(Move(s, Deliver(k, now)), id)
  {
    EndShows(s, k, now);
  }

  /** A frame that shows nothing can only put an empty buffer up. */
  lemma QuietTrue(s: Page, k: nat, now: real, id: nat)
    requires k < |s.e.tasks| && k < |s.e.recv.routers| && RowTrue(s, id)
    requires var t, r, recv := s.e.tasks[k], s.e.recv.routers[k], s.e.recv;
             && r.read < |t.frames|
             && ((t.frames[r.read] == Text(Start(MetaOf(t.id, t.file))) && t.id !in recv.incoming)
                 || (r.cur == Some(t.id) && t.id !in recv.incoming
                     && !(t.frames[r.read].Text? && t.frames[r.read].control.Start?)))
    ensures RowTrue(Move(s, Deliver(k, now)), id)
  {
    var t, r := s.e.tasks[k], s.e.recv.routers[k];
    var s' := Move(s, Deliver(k, now));
    if t.frames[r.read] == Text(Start(MetaOf(t.id, t.file))) {
      QuietFrame(s, k, now);
      assert s'.e.recv.incoming == s.e.recv.incoming[t.id := EMPTY_INCOMING.(meta := Some(MetaOf(t.id, t.file)))];
    } else {
      assert s'.rows == s.rows && s'.e.recv.incoming == s.e.recv.incoming;
    }
  }

  lemma TaskIsOffered(e: Engine, k: nat)
    requires Reachable(e) && k < |e.tasks|
    ensures e.tasks[k].id in e.sched.files && e.sched.files[e.tasks[k].id] == e.tasks[k].file
  {
    Cancellation.ReachableFits(e, e.tasks[k].id);
  }

  lemma FrameTrue(s: Page, k: nat, now: real, id: nat)
    requires Reachable(s.e) && RowTrue(s, id)
    requires k < |s.e.tasks| && k < |s.e.recv.routers| && s.e.recv.routers[k].read < |s.e.tasks[k].frames|
    ensures RowTrue(Move(s, Deliver(k, now)), id)
  {
    var t, r := s.e.tasks[k], s.e.recv.routers[k];
    ReachableChannel(s.e, k);
    TaskIsOffered(s.e, k);
    NextFrame(t, r);
    if r.read == 0 || t.id !in s.e.recv.incoming {
      QuietTrue(s, k, now, id);
    } else if t.frames[r.read].Binary? {
      BytesTrue(s, k, now, id);
    } else {
      EndEntry(t, r, s.e.recv.incoming[t.id]);
      EndTrue(s, k, now, id);
    }
  }

  lemma OfferTrue(s: Page, id: nat)
    requires RowTrue(s, id) && s.e.toReceiver != [] && s.e.toReceiver[0].Offer?
    requires var meta := s.e.toReceiver[0].meta;
             meta.id in s.e.sched.files && Describes(meta, meta.id, s.e.sched.files[meta.id])
    ensures RowTrue(Move(s, CtrlToReceiver), id)
  {
    assert Move(s, CtrlToReceiver).e.recv == s.e.recv;
  }

  lemma AbortTrue(s: Page, id: nat)
    requires RowTrue(s, id) && s.e.toReceiver != [] && !s.e.toReceiver[0].Offer?
    ensures RowTrue(Move(s, CtrlToReceiver), id)
  {
    var c, s' := s.e.toReceiver[0], Move(s, CtrlToReceiver);
    assert s'.e.sched == s.e.sched;
    assert s'.e.recv.incoming == if c.Abort? then s.e.recv.incoming - {c.id} else s.e.recv.incoming;
  }

  lemma ControlTrue(s: Page, id: nat)
    requires Reachable(s.e) && RowTrue(s, id)
    ensures RowTrue(Move(s, CtrlToReceiver), id)
  {
    if s.e.toReceiver != [] {
      if s.e.toReceiver[0].Offer? {
        OffersAreTrue(s.e);
        OfferTrue(s, id);
      } else {
        AbortTrue(s, id);
      }
    }
  }

  lemma ClickTrue(s: Page, op: Op, id: nat)
    requires RowTrue(s, id) && Shown(s, op) && (op.UserAccept? || op.UserReject? || op.UserCancel?)
    ensures RowTrue(Move(s, op), id)
  {
  }

  /** What the sender does moves neither the receiver's rows nor its buffers. */
  lemma SenderStepApart(e: Engine, op: Op)
    requires op.AddFile? || op.UserAbort? || op.CtrlToSender? || op.Wake?
    ensures Step(e, op).recv.incoming == e.recv.incoming
  {
  }

  lemma SenderTrue(s: Page, op: Op, id: nat)
    requires Reachable(s.e) && RowTrue(s, id) && (op.AddFile? || op.UserAbort? || op.CtrlToSender? || op.Wake?)
    ensures RowTrue(Move(s, op), id)
  {
    ReachableFiles(s.e);
    StepFiles(s.e, op);
    SenderStepApart(s.e, op);
  }

  lemma MoveTrue(s: Page, op: Op, id: nat)
    requires Reachable(s.e) && RowTrue(s, id)
    ensures RowTrue(Move(s, op), id)
  {
    if op.Deliver? {
      if op.k < |s.e.tasks| && op.k < |s.e.recv.routers| && s.e.recv.routers[op.k].read < |s.e.tasks[op.k].frames| {
        FrameTrue(s, op.k, op.now, id);
      }
    } else if op.CtrlToReceiver? {
      ControlTrue(s, id);
    } else if op.UserAccept? || op.UserReject? || op.UserCancel? {
      if Shown(s, op) { ClickTrue(s, op, id); }
    } else {
      SenderTrue(s, op, id);
    }
  }

  lemma {:induction false} PlayTrue(s: Page, ops: seq<Op>, id: nat)
    requires Reachable(s.e) && RowTrue(s, id)
    ensures RowTrue(Play(s, ops), id) && Reachable(Play(s, ops).e)
    decreases |ops|
  {
    if ops == [] {
    } else {
      MoveTrue(s, ops[0], id);
      if Shown(s, ops[0]) {
        ReachableStep(s.e, ops[0]);
      }
      PlayTrue(Move(s, ops[0]), ops[1..], id);
    }
  }

  /**
   * In every run, an incoming row has the name and size of the file offered under its id; it shows nothing
   * received before it is accepted, and everything once it is done.
   */
  lemma IncomingRowTells(ops: seq<Op>, id: nat)
    requires (id, true) in Play(Blank(), ops).rows
    ensures var s := Play(Blank(), ops);
            && id in s.e.sched.files
            && var row, file := s.rows[(id, true)], s.e.sched.files[id];
               && row.name == file.name && row.size == |file.bytes| as real
               && (row.state == R.Offered ==> row.fraction == 0.0 && row.speed == 0.0)
               && (row.state == R.Done ==> row.fraction == 1.0 && row.speed == 0.0)
  {
    BlankInv();
    PlayTrue(Blank(), ops, id);
  }

  /** The received bytes of channel `k`, as long as they are buffered. */
  function Delivered(e: Engine, k: nat): seq<seq<byte>>
    requires k < |e.tasks| && k < |e.recv.routers| && e.recv.routers[k].read <= |e.tasks[k].frames|
  {
    T.Payloads(e.tasks[k].frames[..e.recv.routers[k].read])
  }

  /** `fraction` of `whole` is `part`. */
  ghost predicate IsShare(fraction: real, part: nat, whole: nat) {
    fraction * whole as real == part as real
  }

  lemma FracIsShare(part: nat, whole: nat)
    requires 0 < whole
    ensures IsShare(R.Frac(part as real, whole as real), part, whole)
  {
  }

  /** File bytes have been delivered on channel `k`, and their buffer still stands. */
  ghost predicate Receiving(e: Engine, k: nat) {
    && k < |e.tasks| && k < |e.recv.routers| && e.recv.routers[k].read <= |e.tasks[k].frames|
    && e.tasks[k].id in e.recv.incoming && Delivered(e, k) != []
  }

  ghost predicate ShowsBytes(s: Page, k: nat)
    requires Receiving(s.e, k)
  {
    var id, size := s.e.tasks[k].id, s.e.tasks[k].Size();
    && StateOf(s.rows, (id, true)) == Some(R.Active)
    && s.rows[(id, true)].speed == s.e.recv.incoming[id].speed
    && (size > 0 ==> IsShare(s.rows[(id, true)].fraction, |Flatten(Delivered(s.e, k))|, size))
  }

  lemma BufferGauge(s: Page, k: nat)
    requires Reachable(s.e) && Receiving(s.e, k) && RowTrue(s, s.e.tasks[k].id)
    ensures var row, inc := (s.e.tasks[k].id, true), s.e.recv.incoming[s.e.tasks[k].id];
            && StateOf(s.rows, row) == Some(R.Active) && s.rows[row].speed == inc.speed
            && s.rows[row].fraction == R.Frac(|Flatten(Delivered(s.e, k))| as real, s.e.tasks[k].Size() as real)
  {
    ReachableChannel(s.e, k);
    TaskIsOffered(s.e, k);
  }

  lemma GaugeShows(s: Page, k: nat)
    requires Receiving(s.e, k)
    requires var row, inc := (s.e.tasks[k].id, true), s.e.recv.incoming[s.e.tasks[k].id];
             && StateOf(s.rows, row) == Some(R.Active) && s.rows[row].speed == inc.speed
             && s.rows[row].fraction == R.Frac(|Flatten(Delivered(s.e, k))| as real, s.e.tasks[k].Size() as real)
    ensures ShowsBytes(s, k)
  {
    if s.e.tasks[k].Size() > 0 {
      FracIsShare(|Flatten(Delivered(s.e, k))|, s.e.tasks[k].Size());
    }
  }

  /**
   * In every run, while a file comes in, its row is active and shows exactly the fraction of its bytes that
   * have been delivered on its channel, and the speed of the last closed window.
   */
  lemma IncomingRowShowsBytes(ops: seq<Op>, k: nat)
    requires Receiving(Play(Blank(), ops).e, k)
    ensures ShowsBytes(Play(Blank(), ops), k)
  {
    BlankInv();
    PlayTrue(Blank(), ops, Play(Blank(), ops).e.tasks[k].id);
    BufferGauge(Play(Blank(), ops), k);
    GaugeShows(Play(Blank(), ops), k);
  }

  // ----- the speed on show -----

  /** Channel `k` has begun, and the buffer of its file is gone. */
  ghost predicate ClosedAt(recv: RecvState, k: nat, id: nat) {
    k < |recv.routers| && recv.routers[k].read > 0 && id !in recv.incoming
  }

  ghost predicate Closed(e: Engine, k: nat) {
    k < |e.tasks| && ClosedAt(e.recv, k, e.tasks[k].id)
  }

  lemma WakeKeepsReceiver(e: Engine, j: nat, wake: T.Wake, k: nat)
    requires j < |e.tasks| && k < |e.recv.routers|
    ensures var recv := WakeTask(e, j, wake).recv;
            recv.incoming == e.recv.incoming && k < |recv.routers| && recv.routers[k] == e.recv.routers[k]
  {
  }

  lemma StepKeepsChannel(e: Engine, op: Op, k: nat)
    requires k < |e.tasks| && k < |e.recv.routers| && !op.Deliver?
    ensures var e' := Step(e, op);
            && k < |e'.tasks| && e'.tasks[k].id == e.tasks[k].id
            && k < |e'.recv.routers| && e'.recv.routers[k] == e.recv.routers[k]
            && (forall id :: id in e'.recv.incoming ==>
                  id in e.recv.incoming && e'.recv.incoming[id] == e.recv.incoming[id])
  {
    Delivery.IdsStay(e, op, k);
    match op
    case Wake(j, wake) => if j < |e.tasks| { WakeKeepsReceiver(e, j, wake, k); }
    case _ =>
  }

  lemma OwnStaysClosed(tasks: seq<T.Task>, recv: RecvState, k: nat, now: real)
    requires RecvInv(tasks, recv) && k < |tasks| && ClosedAt(recv, k, tasks[k].id)
    requires recv.routers[k].read < |tasks[k].frames|
    ensures ClosedAt(recv.Receive(k, tasks[k].frames[recv.routers[k].read], now), k, tasks[k].id)
  {
    InvIsOwnOk(tasks, recv, k);
    UnbufferedFrame(tasks[k], recv, k, now);
  }

  lemma OtherStaysClosed(tasks: seq<T.Task>, recv: RecvState, j: nat, now: real, k: nat)
    requires RecvInv(tasks, recv) && k < |tasks| && ClosedAt(recv, k, tasks[k].id)
    requires j < |tasks| && j != k && recv.routers[j].read < |tasks[j].frames|
    ensures ClosedAt(recv.Receive(j, tasks[j].frames[recv.routers[j].read], now), k, tasks[k].id)
  {
    ReceiveKeeps(tasks, recv, j, now);
    assert tasks[j].id != tasks[k].id;
  }

  lemma DeliverStaysClosed(e: Engine, j: nat, now: real, k: nat)
    requires Reachable(e) && Closed(e, k)
    requires j < |e.tasks| && j < |e.recv.routers| && e.recv.routers[j].read < |e.tasks[j].frames|
    ensures Closed(Step(e, Deliver(j, now)), k)
  {
    ReachableReceiver(e);
    if j == k {
      OwnStaysClosed(e.tasks, e.recv, k, now);
    } else {
      OtherStaysClosed(e.tasks, e.recv, j, now, k);
    }
  }

  lemma StepStaysClosed(e: Engine, op: Op, k: nat)
    requires Reachable(e) && Closed(e, k)
    ensures Closed(Step(e, op), k)
  {
    if op.Deliver? {
      if op.k < |e.tasks| && op.k < |e.recv.routers| && e.recv.routers[op.k].read < |e.tasks[op.k].frames| {
        DeliverStaysClosed(e, op.k, op.now, k);
      }
    } else {
      StepKeepsChannel(e, op, k);
    }
  }

  lemma {:induction false} ClosedForGood(e: Engine, ops: seq<Op>, k: nat)
    requires Reachable(e) && Closed(e, k)
    ensures Closed(Exec(e, ops), k) && Exec(e, ops).tasks[k].id == e.tasks[k].id
    decreases |ops|
  {
    if ops == [] {
    } else {
      StepStaysClosed(e, ops[0], k);
      Delivery.IdsStay(e, ops[0], k);
      ReachableStep(e, ops[0]);
      ClosedForGood(Step(e, ops[0]), ops[1..], k);
    }
  }

  /** The length and the clock of the file bytes that `op` delivers on channel `k`, if it does. */
  function Sample(e: Engine, op: Op, k: nat): seq<(real, real)> {
    if op.Deliver? && op.k == k && k < |e.tasks| && k < |e.recv.routers|
       && e.recv.routers[k].read < |e.tasks[k].frames| && e.tasks[k].frames[e.recv.routers[k].read].Binary?
    then [(|e.tasks[k].frames[e.recv.routers[k].read].bytes| as real, op.now)]
    else []
  }

  function Samples(e: Engine, ops: seq<Op>, k: nat): seq<(real, real)>
    decreases |ops|
  {
    if ops == [] then [] else Sample(e, ops[0], k) + Samples(Step(e, ops[0]), ops[1..], k)
  }

  /** Equal as to bytes and speed. */
  predicate SameGauge(a: IncState, b: IncState) {
    a.received == b.received && a.speed == b.speed && a.winStart == b.winStart && a.winBytes == b.winBytes
  }

  lemma {:induction false} FeedSame(a: IncState, b: IncState, samples: seq<(real, real)>)
    requires SameGauge(a, b)
    ensures SameGauge(Feed(a, samples).0, Feed(b, samples).0)
    decreases |samples|
  {
    if samples == [] {
    } else {
      FeedSame(a.AccountChunk(samples[0].0, samples[0].1), b.AccountChunk(samples[0].0, samples[0].1), samples[1..]);
    }
  }

  lemma FeedOne(inc: IncState, len: real, now: real)
    ensures Feed(inc, [(len, now)]).0 == inc.AccountChunk(len, now)
  {
    assert [(len, now)][1..] == [];
  }

  lemma StartGauge(recv: RecvState, k: nat, meta: FileStart, now: real)
    requires k < |recv.routers|
    ensures SameGauge(recv.Receive(k, Text(Start(meta)), now).Entry(meta.id), recv.Entry(meta.id))
  {
  }

  lemma BytesGauge(recv: RecvState, k: nat, id: nat, bytes: seq<byte>, now: real)
    requires k < |recv.routers| && recv.routers[k].cur == Some(id) && id in recv.incoming
    ensures SameGauge(recv.Receive(k, Binary(bytes), now).Entry(id),
                      recv.Entry(id).AccountChunk(|bytes| as real, now))
  {
  }

  lemma EndCloses(recv: RecvState, k: nat, id: nat, now: real)
    requires k < |recv.routers| && recv.routers[k].cur == Some(id)
    ensures id !in recv.Receive(k, Text(End(id)), now).incoming
  {
  }

  /** One delivery on the own channel: the buffer's gauge takes the sample. */
  lemma OwnDelivery(t: T.Task, recv: RecvState, k: nat, now: real)
    requires k < |recv.routers| && T.Inv(t) && RouterOk(t, recv.routers[k]) && recv.routers[k].read < |t.frames|
    requires var frame := t.frames[recv.routers[k].read]; t.id in recv.Receive(k, frame, now).incoming
    ensures var frame := t.frames[recv.routers[k].read];
            var sample := if frame.Binary? then [(|frame.bytes| as real, now)] else [];
            SameGauge(recv.Receive(k, frame, now).Entry(t.id), Feed(recv.Entry(t.id), sample).0)
  {
    var frame := t.frames[recv.routers[k].read];
    NextFrame(t, recv.routers[k]);
    if recv.routers[k].read == 0 {
      StartGauge(recv, k, MetaOf(t.id, t.file), now);
    } else if frame.Binary? {
      if t.id !in recv.incoming { UnbufferedFrame(t, recv, k, now); }
      BytesGauge(recv, k, t.id, frame.bytes, now);
      FeedOne(recv.Entry(t.id), |frame.bytes| as real, now);
    } else {
      EndCloses(recv, k, t.id, now);
    }
  }

  lemma OtherDelivery(tasks: seq<T.Task>, recv: RecvState, j: nat, now: real, k: nat)
    requires RecvInv(tasks, recv) && j < |tasks| && recv.routers[j].read < |tasks[j].frames| && k < |tasks| && j != k
    ensures recv.Receive(j, tasks[j].frames[recv.routers[j].read], now).Entry(tasks[k].id) == recv.Entry(tasks[k].id)
  {
    ReceiveKeeps(tasks, recv, j, now);
    assert tasks[j].id != tasks[k].id;
  }

  lemma StepGauge(e: Engine, op: Op, k: nat)
    requires Reachable(e) && k < |e.tasks| && e.tasks[k].id in Step(e, op).recv.incoming
    ensures var id := e.tasks[k].id;
            SameGauge(Step(e, op).recv.Entry(id), Feed(e.recv.Entry(id), Sample(e, op, k)).0)
  {
    ReachableChannel(e, k);
    if op.Deliver? {
      if op.k < |e.tasks| && op.k < |e.recv.routers| && e.recv.routers[op.k].read < |e.tasks[op.k].frames| {
        Delivery.DeliverIsReceive(e, op.k, op.now);
        if op.k == k {
          OwnDelivery(e.tasks[k], e.recv, k, op.now);
        } else {
          ReachableReceiver(e);
          OtherDelivery(e.tasks, e.recv, op.k, op.now, k);
        }
      }
    } else {
      StepKeepsChannel(e, op, k);
    }
  }

  lemma {:induction false} FeedJoin(inc: IncState, a: seq<(real, real)>, b: seq<(real, real)>)
    ensures Feed(inc, a + b).0 == Feed(Feed(inc, a).0, b).0
    decreases |a|
  {
    if a == [] {
      assert a + b == b;
    } else {
      assert (a + b)[1..] == a[1..] + b;
      FeedJoin(inc.AccountChunk(a[0].0, a[0].1), a[1..], b);
    }
  }

  /** A channel at its start is one on which nothing was delivered. */
  lemma ReadsGrow(e: Engine, op: Op, k: nat)
    requires Reachable(e) && k < |e.tasks| && k < |e.recv.routers| && k < |Step(e, op).recv.routers|
    requires Step(e, op).recv.routers[k].read == 0
    ensures e.recv.routers[k].read == 0 && Sample(e, op, k) == []
  {
    if op.Deliver? {
      if op.k < |e.tasks| && op.k < |e.recv.routers| && e.recv.routers[op.k].read < |e.tasks[op.k].frames| {
        ReachableReceiver(e);
        ReceiveKeeps(e.tasks, e.recv, op.k, op.now);
        Delivery.DeliverIsReceive(e, op.k, op.now);
      }
    } else {
      StepKeepsChannel(e, op, k);
    }
  }

  lemma NotClosedBefore(e: Engine, ops: seq<Op>, k: nat)
    requires Reachable(e) && k < |e.tasks| && k < |e.recv.routers|
    requires e.tasks[k].id !in e.recv.incoming && e.tasks[k].id in Exec(e, ops).recv.incoming
    ensures e.recv.routers[k].read == 0
  {
    if e.recv.routers[k].read > 0 {
      ClosedForGood(e, ops, k);
    }
  }

  lemma FirstGauge(e: Engine, op: Op, ops: seq<Op>, k: nat)
    requires Reachable(e) && k < |e.tasks|
    requires e.tasks[k].id !in Step(e, op).recv.incoming
    requires e.tasks[k].id in Exec(Step(e, op), ops).recv.incoming
    ensures Sample(e, op, k) == [] && Step(e, op).recv.Entry(e.tasks[k].id) == e.recv.Entry(e.tasks[k].id)
  {
    var e1 := Step(e, op);
    ReachableStep(e, op);
    Delivery.IdsStay(e, op, k);
    ReachableChannel(e1, k);
    NotClosedBefore(e1, ops, k);
    ReachableChannel(e, k);
    ReadsGrow(e, op, k);
  }

  lemma {:induction false} ExecGauge(e: Engine, ops: seq<Op>, k: nat)
    requires Reachable(e) && k < |e.tasks| && e.tasks[k].id in Exec(e, ops).recv.incoming
    ensures var id := e.tasks[k].id;
            SameGauge(Exec(e, ops).recv.Entry(id), Feed(e.recv.Entry(id), Samples(e, ops, k)).0)
    decreases |ops|
  {
    if ops == [] {
    } else {
      var id, e1 := e.tasks[k].id, Step(e, ops[0]);
      var first, rest := Sample(e, ops[0], k), Samples(e1, ops[1..], k);
      ReachableStep(e, ops[0]);
      Delivery.IdsStay(e, ops[0], k);
      ExecGauge(e1, ops[1..], k);
      FeedJoin(e.recv.Entry(id), first, rest);
      if id in e1.recv.incoming {
        StepGauge(e, ops[0], k);
      } else {
        FirstGauge(e, ops[0], ops[1..], k);
      }
      FeedSame(e1.recv.Entry(id), Feed(e.recv.Entry(id), first).0, rest);
    }
  }

  /**
   * From a channel's opening on, over every run: the bytes and the speed of a buffer are what its own deliveries,
   * with their lengths and clocks, make of an empty one.
   */
  lemma SpeedIsOfItsDeliveries(e: Engine, ops: seq<Op>, k: nat)
    requires Reachable(e) && k < |e.tasks| && k < |e.recv.routers| && e.recv.routers[k].read == 0
    requires e.tasks[k].id in Exec(e, ops).recv.incoming
    ensures var inc, fed := Exec(e, ops).recv.incoming[e.tasks[k].id], Feed(EMPTY_INCOMING, Samples(e, ops, k)).0;
            inc.received == fed.received && inc.speed == fed.speed
  {
    ReachableChannel(e, k);
    ExecGauge(e, ops, k);
  }
}
