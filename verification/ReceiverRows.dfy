/** The receiver's rows beside the transfer engine, under the buttons the page shows. */
module ReceiverRows {
  import opened Prelude
  import opened Protocol
  import opened Receiver
  import opened TransferEngine
  import opened Cancellation
  import opened Delivery
  import S = Scheduler
  import T = SendTask
  import R = RowMaps

  // ----- what the handlers do to the rows -----

  /** A frame of the control channel, as shown to the user. */
  function RowsOnControl(rows: R.RowMap, c: Control): R.RowMap {
    match c
    case Offer(meta) => R.IncomingOffer(rows, meta.id, meta.name, meta.size as real)
    case Reject(id) => R.MarkRejected(rows, id)
    case Cancel(id) => R.MarkCancelledRemote(rows, id)
    case Abort(id) => R.Cancel(rows, id)
    case _ => rows
  }

  /** Bytes of `id` were buffered. */
  function RowsOnBytes(rows: R.RowMap, recv: RecvState, id: nat): R.RowMap {
    if id !in recv.incoming || recv.incoming[id].meta.None? then rows
    else
      var inc := recv.incoming[id];
      R.RecvProgress(rows, inc.meta.value.id, inc.meta.value.name, inc.received, inc.meta.value.size as real, inc.speed)
  }

  /** The buffer of `id` is about to be saved. */
  function RowsOnEnd(rows: R.RowMap, recv: RecvState, id: nat): R.RowMap {
    if id !in recv.incoming || recv.incoming[id].meta.None? then rows
    else R.RecvComplete(rows, recv.incoming[id].meta.value.id, recv.incoming[id].meta.value.name)
  }

  /** A frame of file channel `k`: progress for bytes that are buffered, completion when a save happens. */
  function RowsOnFrame(rows: R.RowMap, recv: RecvState, k: nat, frame: Frame, now: real): R.RowMap
    requires k < |recv.routers|
  {
    match recv.routers[k].cur
    case None => rows
    case Some(id) =>
      match frame
      case Binary(bytes) => RowsOnBytes(rows, recv.OnBytes(id, bytes, now), id)
      case Text(End(_)) => RowsOnEnd(rows, recv, id)
      case _ => rows
  }

  // ----- the page -----

  datatype Page = Page(e: Engine, rows: R.RowMap)

  function StateOf(rows: R.RowMap, key: R.Key): Option<R.RowState> {
    if key in rows then Some(rows[key].state) else None
  }

  /** A click needs its button: accept and decline on an offered row, cancel on an active one. */
  predicate Shown(s: Page, op: Op) {
    match op
    case UserAccept(id) => StateOf(s.rows, (id, true)) == Some(R.Offered)
    case UserReject(id) => StateOf(s.rows, (id, true)) == Some(R.Offered)
    case UserCancel(id) => StateOf(s.rows, (id, true)) == Some(R.Active)
    case UserAbort(id) => StateOf(s.e.rows, (id, false)) == Some(R.Active)
    case _ => true
  }

  function RowsAfter(s: Page, op: Op): R.RowMap {
    match op
    case UserAccept(id) => R.Accept(s.rows, id)
    case UserReject(id) => R.Decline(s.rows, id)
    case UserCancel(id) => R.Cancel(s.rows, id)
    case CtrlToReceiver => if s.e.toReceiver == [] then s.rows else RowsOnControl(s.rows, s.e.toReceiver[0])
    case Deliver(k, now) =>
      if k < |s.e.tasks| && k < |s.e.recv.routers| && s.e.recv.routers[k].read < |s.e.tasks[k].frames|
      then RowsOnFrame(s.rows, s.e.recv, k, s.e.tasks[k].frames[s.e.recv.routers[k].read], now) else s.rows
    case _ => s.rows
  }

  function Move(s: Page, op: Op): Page {
    if Shown(s, op) then Page(Step(s.e, op), RowsAfter(s, op)) else s
  }

  function Play(s: Page, ops: seq<Op>): Page
    decreases |ops|
  {
    if ops == [] then s else Play(Move(s, ops[0]), ops[1..])
  }

  function Blank(): Page {
    Page(Init(), map[])
  }

  // ----- a sender's active row belongs to an unsent file -----

  ghost predicate Unsent(tasks: seq<T.Task>, id: nat) {
    exists k :: 0 <= k < |tasks| && tasks[k].id == id && tasks[k].Size() > 0 && tasks[k].phase != T.Ended(T.Sent)
  }

  ghost predicate ActiveIsUnsent(e: Engine) {
    forall id :: StateOf(e.rows, (id, false)) == Some(R.Active) ==> Unsent(e.tasks, id)
  }

  lemma UnsentGrows(tasks: seq<T.Task>, more: seq<T.Task>, id: nat)
    requires Unsent(tasks, id) && tasks <= more
    ensures Unsent(more, id)
  {
    var k :| 0 <= k < |tasks| && tasks[k].id == id && tasks[k].Size() > 0 && tasks[k].phase != T.Ended(T.Sent);
    assert more[k] == tasks[k];
  }

  lemma RunActive(e: Engine, rows: R.RowMap, op: S.Op<File>)
    requires ActiveIsUnsent(e)
    requires forall id ::
               StateOf(rows, (id, false)) == Some(R.Active) ==> StateOf(e.rows, (id, false)) == Some(R.Active)
    ensures ActiveIsUnsent(Run(e.(rows := rows), op))
  {
    forall id | StateOf(rows, (id, false)) == Some(R.Active) ensures Unsent(Run(e.(rows := rows), op).tasks, id) {
      UnsentGrows(e.tasks, Run(e.(rows := rows), op).tasks, id);
    }
  }

  /** A report is of a non-empty file. */
  lemma ReportsHaveBytes(t: T.Task, wake: T.Wake, flagged: bool)
    requires T.Inv(t)
    ensures var t' := T.Step(t, wake, flagged);
            t'.Size() == t.Size() && (t.Size() == 0 ==> t'.progress == t.progress)
  {
    T.StepExtends(t, wake, flagged);
  }

  lemma ActiveOwn(e: Engine, k: nat)
    requires ActiveIsUnsent(e) && DistinctIds(e.tasks) && k < |e.tasks|
    requires StateOf(e.rows, (e.tasks[k].id, false)) == Some(R.Active)
    ensures e.tasks[k].Size() > 0 && e.tasks[k].phase != T.Ended(T.Sent)
  {
    assert Unsent(e.tasks, e.tasks[k].id);
  }

  lemma WokenOwnRow(e: Engine, k: nat, wake: T.Wake)
    requires ActiveIsUnsent(e) && DistinctIds(e.tasks) && k < |e.tasks| && T.Inv(e.tasks[k])
    requires StateOf(Woken(e, k, wake).rows, (e.tasks[k].id, false)) == Some(R.Active)
    ensures e.tasks[k].Size() > 0 && e.tasks[k].phase != T.Ended(T.Sent)
  {
    var t, flagged := e.tasks[k], e.tasks[k].id in e.sched.out.cancelled;
    T.StepExtends(t, wake, flagged);
    ReportsHaveBytes(t, wake, flagged);
    if Woken(e, k, wake).tasks[k].progress == t.progress {
      ActiveOwn(e, k);
    }
  }

  lemma FullReportIsDone(rows: R.RowMap, t: T.Task)
    ensures var size := t.Size() as real;
            StateOf(R.SendProgress(rows, t.id, t.file.name, size, size), (t.id, false)) == Some(R.Done)
  {
    if t.Size() > 0 {
      assert R.Frac(t.Size() as real, t.Size() as real) == 1.0;
    }
  }

  /** The row of a woken coroutine is active afterwards only if its file is still unsent. */
  lemma OwnRowActive(e: Engine, k: nat, wake: T.Wake)
    requires ActiveIsUnsent(e) && DistinctIds(e.tasks) && k < |e.tasks| && T.Inv(e.tasks[k])
    requires StateOf(WakeTask(e, k, wake).rows, (e.tasks[k].id, false)) == Some(R.Active)
    ensures var t' := Woken(e, k, wake).tasks[k]; t'.Size() > 0 && t'.phase != T.Ended(T.Sent)
  {
    var t, flagged, e' := e.tasks[k], e.tasks[k].id in e.sched.out.cancelled, Woken(e, k, wake);
    T.StepExtends(t, wake, flagged);
    FullReportIsDone(e'.rows, e'.tasks[k]);
    WokenOwnRow(e, k, wake);
    if flagged {
      T.FlaggedIsSilent(t, wake);
    }
  }

  lemma OtherRowActive(e: Engine, k: nat, wake: T.Wake, id: nat)
    requires ActiveIsUnsent(e) && k < |e.tasks| && id != e.tasks[k].id
    requires StateOf(WakeTask(e, k, wake).rows, (id, false)) == Some(R.Active)
    ensures Unsent(WakeTask(e, k, wake).tasks, id)
  {
    var t, e', e2 := e.tasks[k], Woken(e, k, wake), WakeTask(e, k, wake);
    var t' := e'.tasks[k];
    T.StepExtends(t, wake, t.id in e.sched.out.cancelled);
    ReportIs(e.rows, t', t'.progress[|t.progress|..]);
    assert Unsent(e.tasks, id);
    var j :| 0 <= j < |e.tasks| && e.tasks[j].id == id && e.tasks[j].Size() > 0 && e.tasks[j].phase != T.Ended(T.Sent);
    assert e2.tasks[j] == e.tasks[j];
  }

  lemma WakeActive(e: Engine, k: nat, wake: T.Wake)
    requires ActiveIsUnsent(e) && DistinctIds(e.tasks) && k < |e.tasks| && T.Inv(e.tasks[k])
    ensures ActiveIsUnsent(WakeTask(e, k, wake))
  {
    var t, e2 := e.tasks[k], WakeTask(e, k, wake);
    T.StepExtends(t, wake, t.id in e.sched.out.cancelled);
    forall id | StateOf(e2.rows, (id, false)) == Some(R.Active) ensures Unsent(e2.tasks, id) {
      if id == t.id {
        OwnRowActive(e, k, wake);
        assert e2.tasks[k] == Woken(e, k, wake).tasks[k];
      } else {
        OtherRowActive(e, k, wake, id);
      }
    }
  }

  lemma AsksActive(e: Engine, op: Op)
    requires ActiveIsUnsent(e) && Asks(e, op)
    ensures ActiveIsUnsent(Step(e, op))
  {
    match op
    case UserAbort(id) => RunActive(e, R.MarkCancelledRemote(e.rows, id), S.Cancel(id));
    case CtrlToSender =>
      match e.toSender[0]
      case Accept(id) => RunActive(e, e.rows, S.Accept(id));
      case Reject(id) => RunActive(e, R.MarkRejected(e.rows, id), S.Reject(id));
      case Cancel(id) => RunActive(e, R.MarkCancelledRemote(e.rows, id), S.Cancel(id));
  }

  lemma AddActive(e: Engine, file: File)
    requires ActiveIsUnsent(e)
    ensures ActiveIsUnsent(Step(e, AddFile(file)))
  {
    var id := e.sched.nextId;
    var rows := R.MarkOffered(R.PushPending(e.rows, id, file.name, |file.bytes| as real), id);
    RunActive(e, rows, S.Offer(file));
  }

  lemma WakeStepActive(e: Engine, op: Op)
    requires ActiveIsUnsent(e) && Reachable(e) && op.Wake?
    ensures ActiveIsUnsent(Step(e, op))
  {
    StepIsWake(e, op);
    if op.k < |e.tasks| {
      ReachableTask(e, op.k);
      ReachableDistinct(e);
      WakeActive(e, op.k, op.wake);
    }
  }

  lemma QuietActive(e: Engine, op: Op)
    requires ActiveIsUnsent(e) && !op.AddFile? && !op.Wake? && !Asks(e, op)
    ensures ActiveIsUnsent(Step(e, op))
  {
    assert Step(e, op).rows == e.rows && Step(e, op).tasks == e.tasks;
  }

  lemma StepActive(e: Engine, op: Op)
    requires ActiveIsUnsent(e) && Reachable(e)
    ensures ActiveIsUnsent(Step(e, op))
  {
    if op.AddFile? {
      AddActive(e, op.file);
    } else if op.Wake? {
      WakeStepActive(e, op);
    } else if Asks(e, op) {
      AsksActive(e, op);
    } else {
      QuietActive(e, op);
    }
  }

  // ----- an abort on its way is of a file that is never saved -----

  ghost predicate AbortsBar(e: Engine) {
    forall i :: 0 <= i < |e.toReceiver| && e.toReceiver[i].Abort? ==> Barred(e, e.toReceiver[i].id)
  }

  lemma CancelRun(e: Engine, id: nat)
    ensures var e' := Run(e, S.Cancel(id));
            e'.tasks == e.tasks && id in e'.sched.out.cancelled && e'.sched.files == e.sched.files
  {
    assert e.tasks + [] == e.tasks;
  }

  lemma UnsentAlone(tasks: seq<T.Task>, id: nat)
    requires DistinctIds(tasks) && Unsent(tasks, id)
    ensures forall j :: 0 <= j < |tasks| && tasks[j].id == id ==>
              tasks[j].Size() > 0 && tasks[j].phase != T.Ended(T.Sent)
  {
  }

  lemma AbortBars(e: Engine, id: nat)
    requires Fits(e, id) && Unsent(e.tasks, id)
    ensures Barred(Step(e, UserAbort(id)), id)
  {
    UnsentAlone(e.tasks, id);
    var e', _ := AsksRun(e, UserAbort(id));
    CancelRun(e', id);
  }

  /** Only an abort button puts an abort on the control channel. */
  lemma QueuedBefore(e: Engine, op: Op, i: nat)
    requires i < |Step(e, op).toReceiver| && Step(e, op).toReceiver[i].Abort?
    requires op != UserAbort(Step(e, op).toReceiver[i].id)
    ensures exists j :: 0 <= j < |e.toReceiver| && e.toReceiver[j] == Step(e, op).toReceiver[i]
  {
    var e' := Step(e, op);
    if op.CtrlToReceiver? && e.toReceiver != [] {
      assert e'.toReceiver[i] == e.toReceiver[i + 1];
    } else {
      assert e.toReceiver <= e'.toReceiver;
      assert e'.toReceiver[i] == e.toReceiver[i];
    }
  }

  lemma StepAborts(s: Page, op: Op)
    requires Reachable(s.e) && AbortsBar(s.e) && ActiveIsUnsent(s.e) && Shown(s, op)
    ensures AbortsBar(Step(s.e, op))
  {
    var e, e' := s.e, Step(s.e, op);
    forall i | 0 <= i < |e'.toReceiver| && e'.toReceiver[i].Abort? ensures Barred(e', e'.toReceiver[i].id) {
      var id := e'.toReceiver[i].id;
      ReachableFits(e, id);
      if op == UserAbort(id) {
        AbortBars(e, id);
      } else {
        QueuedBefore(e, op, i);
        StepBars(e, op, id);
      }
    }
  }

  // ----- done means saved, and saved means done -----

  ghost predicate Truthful(s: Page) {
    forall id :: StateOf(s.rows, (id, true)) == Some(R.Done) <==> IsSaved(s.e.recv.saved, id)
  }

  /** Every incoming row is of a file that was offered. */
  ghost predicate RowsOffered(s: Page) {
    forall id :: (id, true) in s.rows ==> id in s.e.sched.files
  }

  ghost predicate PageInv(s: Page) {
    Reachable(s.e) && ActiveIsUnsent(s.e) && AbortsBar(s.e) && Truthful(s) && RowsOffered(s)
  }

  lemma FrameKeys(rows: R.RowMap, recv: RecvState, k: nat, frame: Frame, now: real, id: nat)
    requires k < |recv.routers| && (id, true) in RowsOnFrame(rows, recv, k, frame, now) && (id, true) !in rows
    ensures var cur := recv.routers[k].cur;
            && cur.Some? && cur.value in recv.incoming
            && recv.incoming[cur.value].meta.Some? && recv.incoming[cur.value].meta.value.id == id
  {
  }

  lemma ChannelIsOffered(e: Engine, k: nat)
    requires Reachable(e) && k < |e.tasks| && k < |e.recv.routers|
    ensures e.tasks[k].id in e.sched.files
    ensures e.recv.routers[k].cur in {None, Some(e.tasks[k].id)}
    ensures e.tasks[k].id in e.recv.incoming && e.recv.incoming[e.tasks[k].id].meta.Some? ==>
              e.recv.incoming[e.tasks[k].id].meta.value.id == e.tasks[k].id
  {
    ReachableChannel(e, k);
    ReachableFits(e, e.tasks[k].id);
  }

  lemma FrameOffered(s: Page, k: nat, now: real)
    requires Reachable(s.e) && RowsOffered(s)
    requires k < |s.e.tasks| && k < |s.e.recv.routers| && s.e.recv.routers[k].read < |s.e.tasks[k].frames|
    ensures RowsOffered(Move(s, Deliver(k, now)))
  {
    var t, r := s.e.tasks[k], s.e.recv.routers[k];
    var rows' := RowsOnFrame(s.rows, s.e.recv, k, t.frames[r.read], now);
    ChannelIsOffered(s.e, k);
    forall id | (id, true) in rows' ensures id in s.e.sched.files {
      if (id, true) !in s.rows {
        FrameKeys(s.rows, s.e.recv, k, t.frames[r.read], now, id);
      }
    }
  }

  lemma MoveOffered(s: Page, op: Op)
    requires Reachable(s.e) && RowsOffered(s) && Shown(s, op)
    ensures RowsOffered(Move(s, op))
  {
    ReachableFiles(s.e);
    StepFiles(s.e, op);
    OffersAreTrue(s.e);
    if op.Deliver? && op.k < |s.e.tasks| && op.k < |s.e.recv.routers|
       && s.e.recv.routers[op.k].read < |s.e.tasks[op.k].frames| {
      FrameOffered(s, op.k, op.now);
    }
  }

  lemma BufferedIsUnsaved(e: Engine, k: nat)
    requires Reachable(e) && k < |e.tasks| && e.tasks[k].id in e.recv.incoming
    ensures !IsSaved(e.recv.saved, e.tasks[k].id)
  {
    ReachableReceiver(e);
    forall i | 0 <= i < |e.recv.saved| ensures e.recv.saved[i].meta.id != e.tasks[k].id {
      assert HasSource(e.tasks, e.recv.routers, e.recv.saved[i]);
      var j :| 0 <= j < |e.tasks| && SavedFrom(e.tasks[j], e.recv.routers[j], e.recv.saved[i]);
      assert !EndSeen(e.tasks[k], e.recv.routers[k]);
      assert j != k;
    }
  }

  /** One save more is one id more. */
  lemma SavedPush(saved: seq<Saved>, s: Saved, id: nat)
    ensures IsSaved(saved + [s], id) <==> IsSaved(saved, id) || id == s.meta.id
  {
    var more := saved + [s];
    assert more[|saved|] == s;
    if i :| 0 <= i < |saved| && saved[i].meta.id == id {
      assert more[i].meta.id == id;
    }
  }

  lemma EndTruthful(s: Page, k: nat, now: real)
    requires Truthful(s) && k < |s.e.tasks| && k < |s.e.recv.routers|
    requires var t, r := s.e.tasks[k], s.e.recv.routers[k];
             && r.read < |t.frames| && t.frames[r.read] == Text(End(t.id))
             && r.cur == Some(t.id) && t.id in s.e.recv.incoming
             && s.e.recv.incoming[t.id].meta == Some(MetaOf(t.id, t.file))
    ensures Truthful(Move(s, Deliver(k, now)))
  {
    var t, recv := s.e.tasks[k], s.e.recv;
    var saved := Saved(MetaOf(t.id, t.file), Flatten(recv.incoming[t.id].chunks));
    var s' := Move(s, Deliver(k, now));
    assert s'.e.recv.saved == recv.saved + [saved];
    forall id ensures IsSaved(s'.e.recv.saved, id) <==> IsSaved(recv.saved, id) || id == t.id {
      SavedPush(recv.saved, saved, id);
    }
  }

  lemma BytesTruthful(s: Page, k: nat, now: real)
    requires Truthful(s) && k < |s.e.tasks| && k < |s.e.recv.routers|
    requires var t, r := s.e.tasks[k], s.e.recv.routers[k];
             && r.read < |t.frames| && t.frames[r.read].Binary?
             && r.cur == Some(t.id) && t.id in s.e.recv.incoming
             && s.e.recv.incoming[t.id].meta == Some(MetaOf(t.id, t.file))
             && !IsSaved(s.e.recv.saved, t.id)
    ensures Truthful(Move(s, Deliver(k, now)))
  {
    assert Move(s, Deliver(k, now)).e.recv.saved == s.e.recv.saved;
  }

  /** A `Start`, or a frame whose buffer is gone, shows nothing and saves nothing. */
  lemma QuietFrame(s: Page, k: nat, now: real)
    requires k < |s.e.tasks| && k < |s.e.recv.routers|
    requires var t, r := s.e.tasks[k], s.e.recv.routers[k];
             && r.read < |t.frames|
             && (t.frames[r.read] == Text(Start(MetaOf(t.id, t.file)))
                 || r.cur == None || (r.cur == Some(t.id) && t.id !in s.e.recv.incoming))
    ensures var s' := Move(s, Deliver(k, now)); s'.rows == s.rows && s'.e.recv.saved == s.e.recv.saved
  {
  }

  lemma FrameTruthful(s: Page, k: nat, now: real)
    requires Reachable(s.e) && Truthful(s)
    requires k < |s.e.tasks| && k < |s.e.recv.routers| && s.e.recv.routers[k].read < |s.e.tasks[k].frames|
    ensures Truthful(Move(s, Deliver(k, now)))
  {
    var t, r, recv := s.e.tasks[k], s.e.recv.routers[k], s.e.recv;
    ReachableChannel(s.e, k);
    NextFrame(t, r);
    if r.read == 0 || t.id !in recv.incoming {
      QuietFrame(s, k, now);
    } else if t.frames[r.read].Binary? {
      BufferedIsUnsaved(s.e, k);
      BytesTruthful(s, k, now);
    } else {
      EndTruthful(s, k, now);
    }
  }

  lemma ToldTruthful(s: Page, c: Control)
    requires Truthful(s) && s.e.toReceiver != [] && s.e.toReceiver[0] == c
    requires c.Abort? ==> !IsSaved(s.e.recv.saved, c.id)
    ensures Truthful(Move(s, CtrlToReceiver))
  {
    assert Move(s, CtrlToReceiver).e.recv.saved == s.e.recv.saved;
    var rows' := RowsOnControl(s.rows, c);
    assert forall id :: StateOf(rows', (id, true)) == Some(R.Done) <==> StateOf(s.rows, (id, true)) == Some(R.Done);
  }

  lemma ControlTruthful(s: Page)
    requires Reachable(s.e) && Truthful(s) && AbortsBar(s.e)
    ensures Truthful(Move(s, CtrlToReceiver))
  {
    if s.e.toReceiver != [] {
      if s.e.toReceiver[0].Abort? {
        UnsentIsUnsaved(s.e, s.e.toReceiver[0].id);
      }
      ToldTruthful(s, s.e.toReceiver[0]);
    }
  }

  lemma StepSaves(e: Engine, op: Op)
    requires !op.Deliver?
    ensures Step(e, op).recv.saved == e.recv.saved
  {
  }

  lemma MoveTruthful(s: Page, op: Op)
    requires Reachable(s.e) && Truthful(s) && AbortsBar(s.e) && Shown(s, op)
    ensures Truthful(Move(s, op))
  {
    if op.CtrlToReceiver? {
      ControlTruthful(s);
    } else if op.Deliver? {
      if op.k < |s.e.tasks| && op.k < |s.e.recv.routers| && s.e.recv.routers[op.k].read < |s.e.tasks[op.k].frames| {
        FrameTruthful(s, op.k, op.now);
      }
    } else {
      StepSaves(s.e, op);
    }
  }

  lemma MoveKeeps(s: Page, op: Op)
    requires PageInv(s)
    ensures PageInv(Move(s, op))
  {
    if Shown(s, op) {
      ReachableStep(s.e, op);
      StepActive(s.e, op);
      StepAborts(s, op);
      MoveTruthful(s, op);
      MoveOffered(s, op);
    }
  }

  lemma {:induction false} PlayKeeps(s: Page, ops: seq<Op>)
    requires PageInv(s)
    ensures PageInv(Play(s, ops))
    decreases |ops|
  {
    if ops == [] {
    } else {
      MoveKeeps(s, ops[0]);
      PlayKeeps(Move(s, ops[0]), ops[1..]);
    }
  }

  lemma BlankInv()
    ensures PageInv(Blank())
  {
    assert Exec(Init(), []) == Init();
  }

  /** Whatever is clicked and delivered: a row says done exactly when its file was saved. */
  lemma DoneIffSaved(ops: seq<Op>, id: nat)
    ensures var s := Play(Blank(), ops);
            StateOf(s.rows, (id, true)) == Some(R.Done) <==> IsSaved(s.e.recv.saved, id)
  {
    BlankInv();
    PlayKeeps(Blank(), ops);
  }

  // ----- a receiver's cancel is final -----

  lemma PageEngine(s: Page, ops: seq<Op>) returns (done: seq<Op>)
    ensures Play(s, ops).e == Exec(s.e, done)
    decreases |ops|
  {
    if ops == [] {
      done := [];
    } else {
      var rest := PageEngine(Move(s, ops[0]), ops[1..]);
      if Shown(s, ops[0]) {
        ExecJoin(s.e, [ops[0]], rest);
        ExecOne(s.e, ops[0]);
        done := [ops[0]] + rest;
      } else {
        done := rest;
      }
    }
  }

  /** A click on abort shows an unsent file: it has bytes, and its coroutine has not sent `End`. */
  lemma AbortShowsUnsent(ops: seq<Op>, id: nat)
    requires Shown(Play(Blank(), ops), UserAbort(id))
    ensures Unsent(Play(Blank(), ops).e.tasks, id)
  {
    BlankInv();
    PlayKeeps(Blank(), ops);
  }

  lemma {:induction false} IdsStayExec(e: Engine, ops: seq<Op>, k: nat)
    requires k < |e.tasks|
    ensures k < |Exec(e, ops).tasks| && Exec(e, ops).tasks[k].id == e.tasks[k].id
    decreases |ops|
  {
    if ops == [] {
    } else {
      IdsStay(e, ops[0], k);
      IdsStayExec(Step(e, ops[0]), ops[1..], k);
    }
  }

  lemma HaltsAt(e: Engine, ops: seq<Op>, k: nat, data: seq<seq<byte>>, progress: seq<nat>)
    requires Reachable(e) && Halted(e, k, data, progress)
    ensures StateOf(Exec(e, ops).rows, (e.tasks[k].id, false)) in {Some(R.Cancelled), Some(R.Declined)}
  {
    CancelIsFinal(e, ops, k, data, progress);
    IdsStayExec(e, ops, k);
  }

  lemma AbortedStaysCancelled(e: Engine, ops: seq<Op>, id: nat)
    requires Reachable(e) && Unsent(e.tasks, id) && StateOf(e.rows, (id, false)) == Some(R.Active)
    ensures StateOf(Exec(Step(e, UserAbort(id)), ops).rows, (id, false)) in {Some(R.Cancelled), Some(R.Declined)}
  {
    var k :| 0 <= k < |e.tasks| && e.tasks[k].id == id && e.tasks[k].Size() > 0 && e.tasks[k].phase != T.Ended(T.Sent);
    ReachableStep(e, UserAbort(id));
    LocalAbortReaches(e, k);
    IdsStay(e, UserAbort(id), k);
    HaltsAt(Step(e, UserAbort(id)), ops, k, T.Payloads(e.tasks[k].frames), e.tasks[k].progress);
  }

  /**
   * A click on abort is final on both pages: whatever follows, the file is never saved, the receiver's
   * row never says done, and the sender's row never becomes active or done again.
   */
  lemma AbortIsFinal(ops: seq<Op>, more: seq<Op>, id: nat)
    requires Shown(Play(Blank(), ops), UserAbort(id))
    ensures var s' := Play(Move(Play(Blank(), ops), UserAbort(id)), more);
            && !IsSaved(s'.e.recv.saved, id)
            && StateOf(s'.rows, (id, true)) != Some(R.Done)
            && StateOf(s'.e.rows, (id, false)) in {Some(R.Cancelled), Some(R.Declined)}
  {
    var s := Play(Blank(), ops);
    var s1 := Move(s, UserAbort(id));
    BlankInv();
    PlayKeeps(Blank(), ops);
    MoveKeeps(s, UserAbort(id));
    PlayKeeps(s1, more);
    ReachableFits(s.e, id);
    AbortBars(s.e, id);
    var done := PageEngine(s1, more);
    BarredIsNeverSaved(s1.e, done, id);
    AbortedStaysCancelled(s.e, done, id);
  }

  /** Without clicks the page follows the engine. */
  lemma {:induction false} AutomaticPlays(s: Page, ops: seq<Op>)
    requires Automatic(ops)
    ensures Play(s, ops).e == Exec(s.e, ops)
    decreases |ops|
  {
    if ops == [] {
    } else {
      AutomaticPlays(Move(s, ops[0]), ops[1..]);
    }
  }

  /** File `id` was cancelled in mid-channel `k`, and its row shows it. */
  ghost predicate CutOff(s: Page, id: nat, k: nat) {
    Gone(s.e, k) && s.e.tasks[k].id == id && StateOf(s.rows, (id, true)) == Some(R.Cancelled)
  }

  lemma FrameCutsOff(s: Page, j: nat, now: real, id: nat, k: nat)
    requires Reachable(s.e) && CutOff(s, id, k)
    requires j < |s.e.tasks| && j < |s.e.recv.routers| && s.e.recv.routers[j].read < |s.e.tasks[j].frames|
    ensures StateOf(Move(s, Deliver(j, now)).rows, (id, true)) == Some(R.Cancelled)
  {
    var t, r := s.e.tasks[j], s.e.recv.routers[j];
    ReachableChannel(s.e, j);
    NextFrame(t, r);
    if r.read == 0 || t.id !in s.e.recv.incoming {
      QuietFrame(s, j, now);
    }
  }

  lemma MoveCutsOff(s: Page, op: Op, id: nat, k: nat)
    requires Reachable(s.e) && CutOff(s, id, k)
    ensures CutOff(Move(s, op), id, k)
  {
    if Shown(s, op) {
      GoneForGood(s.e, [op], k);
      ExecOne(s.e, op);
      if op.Deliver? && op.k < |s.e.tasks| && op.k < |s.e.recv.routers|
         && s.e.recv.routers[op.k].read < |s.e.tasks[op.k].frames| {
        FrameCutsOff(s, op.k, op.now, id, k);
      }
    }
  }

  lemma {:induction false} CutOffForGood(s: Page, ops: seq<Op>, id: nat, k: nat)
    requires Reachable(s.e) && CutOff(s, id, k)
    ensures CutOff(Play(s, ops), id, k)
    decreases |ops|
  {
    if ops == [] {
    } else {
      MoveCutsOff(s, ops[0], id, k);
      if Shown(s, ops[0]) {
        ReachableStep(s.e, ops[0]);
      }
      CutOffForGood(Move(s, ops[0]), ops[1..], id, k);
    }
  }

  /**
   * A click on cancel after the file's `Start` is final: no late frame, abort or further click ever makes
   * the row active or done again, and the file is never saved.
   */
  lemma ReceiverCancelIsFinal(ops: seq<Op>, more: seq<Op>, k: nat)
    requires var s := Play(Blank(), ops);
             && k < |s.e.tasks| && k < |s.e.recv.routers| && s.e.recv.routers[k].read > 0
             && StateOf(s.rows, (s.e.tasks[k].id, true)) == Some(R.Active)
    ensures var s, id := Play(Blank(), ops), Play(Blank(), ops).e.tasks[k].id;
            var s' := Play(Move(s, UserCancel(id)), more);
            StateOf(s'.rows, (id, true)) == Some(R.Cancelled) && !IsSaved(s'.e.recv.saved, id)
  {
    var s, id := Play(Blank(), ops), Play(Blank(), ops).e.tasks[k].id;
    BlankInv();
    PlayKeeps(Blank(), ops);
    ReachableStep(s.e, UserCancel(id));
    assert CutOff(Move(s, UserCancel(id)), id, k);
    CutOffForGood(Move(s, UserCancel(id)), more, id, k);
  }

  ghost predicate NeverDone(s: Page, id: nat) {
    forall ops :: StateOf(Play(s, ops).rows, (id, true)) != Some(R.Done)
  }

  /** And a cancel at any time keeps the row from ever saying done exactly when nothing overtakes it. */
  lemma CancelledNeverDoneUnlessOvertaken(ops: seq<Op>, id: nat)
    requires var s := Play(Blank(), ops);
             StateOf(s.rows, (id, true)) == Some(R.Active)
    ensures var s := Play(Blank(), ops);
            id in s.e.sched.files && (NeverDone(Move(s, UserCancel(id)), id) <==> !Overtakes(s.e, id))
  {
    var s := Play(Blank(), ops);
    var s1 := Move(s, UserCancel(id));
    BlankInv();
    PlayKeeps(Blank(), ops);
    MoveKeeps(s, UserCancel(id));
    CancelLastsUnlessOvertaken(s.e, id);
    if Overtakes(s.e, id) {
      var all := OvertakingLands(s.e, id);
      AutomaticPlays(s1, all);
      PlayKeeps(s1, all);
      assert StateOf(Play(s1, all).rows, (id, true)) == Some(R.Done);
    } else {
      forall more ensures StateOf(Play(s1, more).rows, (id, true)) != Some(R.Done) {
        PlayKeeps(s1, more);
        var done := PageEngine(s1, more);
        assert !IsSaved(Exec(s1.e, done).recv.saved, id);
      }
    }
  }
}
