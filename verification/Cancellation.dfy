/** What a cancel or an abort of a streaming file promises, over every run that follows it. */
module Cancellation {
  import opened Prelude
  import opened Protocol
  import opened TransferState
  import opened Receiver
  import opened TransferEngine
  import S = Scheduler
  import T = SendTask
  import R = RowMaps

  // ----- the sender -----

  /**
   * Coroutine `k` of a non-empty file was flagged while streaming: it has sent `data` and
   * reported `progress`, and its row shows the cancel (or a late decline).
   */
  ghost predicate Halted(e: Engine, k: nat, data: seq<seq<byte>>, progress: seq<nat>) {
    && k < |e.tasks|
    && var t := e.tasks[k];
       && t.Size() > 0 && t.phase != T.Ended(T.Sent)
       && (t.phase.Ended? || t.id in e.sched.out.cancelled)
       && T.Payloads(t.frames) == data && t.progress == progress
       && (t.id, false) in e.rows && e.rows[(t.id, false)].state in {R.Cancelled, R.Declined}
  }

  lemma RunHalts(e: Engine, op: S.Op<File>, k: nat, data: seq<seq<byte>>, progress: seq<nat>)
    requires Halted(e, k, data, progress)
    requires op.Finish? && op.id == e.tasks[k].id ==> e.tasks[k].phase.Ended?
    ensures Halted(Run(e, op), k, data, progress)
  {
    assert Run(e, op).tasks[k] == e.tasks[k];
    assert S.Step(e.sched, op).out.cancelled >= e.sched.out.cancelled - if op.Finish? then {op.id} else {} by {
      S.StepFlags(e.sched, op);
    }
  }

  lemma OwnWakeHalts(e: Engine, k: nat, wake: T.Wake, data: seq<seq<byte>>, progress: seq<nat>)
    requires k < |e.tasks| && T.Inv(e.tasks[k]) && Halted(e, k, data, progress)
    ensures Halted(WakeTask(e, k, wake), k, data, progress)
  {
    var t, c, e' := e.tasks[k], e.tasks[k].id in e.sched.out.cancelled, Woken(e, k, wake);
    T.StepExtends(t, wake, c);
    if c {
      T.FlaggedIsSilent(t, wake);
    }
    assert e'.rows == e.rows;
    assert Halted(e', k, data, progress);
    if e'.tasks[k].phase.Ended? && !t.phase.Ended? {
      RunHalts(e', S.Finish(t.id), k, data, progress);
    }
  }

  lemma OtherWakeHalts(e: Engine, j: nat, wake: T.Wake, k: nat, data: seq<seq<byte>>, progress: seq<nat>)
    requires DistinctIds(e.tasks) && j < |e.tasks| && j != k && Halted(e, k, data, progress)
    ensures Halted(WakeTask(e, j, wake), k, data, progress)
  {
    var t, c, e' := e.tasks[j], e.tasks[j].id in e.sched.out.cancelled, Woken(e, j, wake);
    T.StepExtends(t, wake, c);
    var t' := e'.tasks[j];
    assert t.id != e.tasks[k].id;
    ReportIs(e.rows, t', t'.progress[|t.progress|..]);
    assert Halted(e', k, data, progress);
    if t'.phase.Ended? && !t.phase.Ended? {
      var rows := if c then e'.rows
                  else R.SendProgress(e'.rows, t'.id, t'.file.name, t'.Size() as real, t'.Size() as real);
      RunHalts(e'.(rows := rows), S.Finish(t'.id), k, data, progress);
    }
  }

  lemma HandleHalts(e: Engine, c: Control, k: nat, data: seq<seq<byte>>, progress: seq<nat>)
    requires Halted(e, k, data, progress)
    ensures Halted(HandleAtSender(e, c), k, data, progress)
  {
    match c
    case Accept(id) => RunHalts(e, S.Accept(id), k, data, progress);
    case Reject(id) => RunHalts(e.(rows := R.MarkRejected(e.rows, id)), S.Reject(id), k, data, progress);
    case Cancel(id) => RunHalts(e.(rows := R.MarkCancelledRemote(e.rows, id)), S.Cancel(id), k, data, progress);
    case _ =>
  }

  /** The part of the invariant that keeps other files' steps away from coroutine `k`. */
  ghost predicate Apart(e: Engine, k: nat) {
    k < |e.tasks| && T.Inv(e.tasks[k]) && DistinctIds(e.tasks) && e.tasks[k].id < e.sched.nextId
  }

  lemma ReachableIsApart(e: Engine, k: nat)
    requires Reachable(e) && k < |e.tasks|
    ensures Apart(e, k)
  {
    ReachableInv(e);
    assert (e.tasks[k].id, e.tasks[k].file) == e.sched.started[k];
  }

  lemma AddHalts(e: Engine, file: File, k: nat, data: seq<seq<byte>>, progress: seq<nat>)
    requires Apart(e, k) && Halted(e, k, data, progress)
    ensures Halted(Step(e, AddFile(file)), k, data, progress)
  {
    var id := e.sched.nextId;
    var rows := R.MarkOffered(R.PushPending(e.rows, id, file.name, |file.bytes| as real), id);
    RunHalts(e.(toReceiver := e.toReceiver + [Offer(MetaOf(id, file))], rows := rows), S.Offer(file),
             k, data, progress);
  }

  lemma AbortHalts(e: Engine, id: nat, k: nat, data: seq<seq<byte>>, progress: seq<nat>)
    requires Halted(e, k, data, progress)
    ensures Halted(Step(e, UserAbort(id)), k, data, progress)
  {
    var rows := R.MarkCancelledRemote(e.rows, id);
    RunHalts(e.(toReceiver := e.toReceiver + [Abort(id)], rows := rows), S.Cancel(id), k, data, progress);
  }

  lemma WakeHalts(e: Engine, op: Op, k: nat, data: seq<seq<byte>>, progress: seq<nat>)
    requires Apart(e, k) && Halted(e, k, data, progress) && op.Wake?
    ensures Halted(Step(e, op), k, data, progress)
  {
    StepIsWake(e, op);
    if op.k == k {
      OwnWakeHalts(e, k, op.wake, data, progress);
    } else if op.k < |e.tasks| {
      OtherWakeHalts(e, op.k, op.wake, k, data, progress);
    }
  }

  lemma ControlHalts(e: Engine, k: nat, data: seq<seq<byte>>, progress: seq<nat>)
    requires Halted(e, k, data, progress)
    ensures Halted(Step(e, CtrlToSender), k, data, progress)
  {
    if e.toSender != [] {
      HandleHalts(e.(toSender := e.toSender[1..]), e.toSender[0], k, data, progress);
    }
  }

  lemma StepHalts(e: Engine, op: Op, k: nat, data: seq<seq<byte>>, progress: seq<nat>)
    requires Apart(e, k) && Halted(e, k, data, progress)
    ensures Halted(Step(e, op), k, data, progress)
  {
    match op
    case AddFile(file) => AddHalts(e, file, k, data, progress);
    case UserAbort(id) => AbortHalts(e, id, k, data, progress);
    case CtrlToSender => ControlHalts(e, k, data, progress);
    case Wake(_, _) => WakeHalts(e, op, k, data, progress);
    case _ =>
  }

  /**
   * Cancellation is final: from the moment a streaming coroutine is flagged, no run makes it send a
   * byte or `End` or report progress, and its row never becomes active or done again.
   */
  lemma {:induction false} CancelIsFinal(e: Engine, ops: seq<Op>, k: nat, data: seq<seq<byte>>, progress: seq<nat>)
    requires Reachable(e) && Halted(e, k, data, progress)
    ensures Halted(Exec(e, ops), k, data, progress)
    decreases |ops|
  {
    if ops == [] {
    } else {
      ReachableIsApart(e, k);
      StepHalts(e, ops[0], k, data, progress);
      ReachableStep(e, ops[0]);
      CancelIsFinal(Step(e, ops[0]), ops[1..], k, data, progress);
    }
  }

  /** Coroutine `k` has a non-empty file that it has not sent, and the row does not say done. */
  ghost predicate Streams(e: Engine, k: nat) {
    && k < |e.tasks|
    && e.tasks[k].phase != T.Ended(T.Sent) && e.tasks[k].Size() > 0
    && (e.tasks[k].id, false) in e.rows && e.rows[(e.tasks[k].id, false)].state != R.Done
  }

  /** Every added file has a row for good. */
  ghost predicate HasRows(e: Engine) {
    forall id: nat :: id < e.sched.nextId ==> (id, false) in e.rows
  }

  lemma WakeKeepsRows(e: Engine, k: nat, wake: T.Wake)
    requires HasRows(e) && k < |e.tasks|
    ensures HasRows(WakeTask(e, k, wake))
  {
    var t := e.tasks[k];
    T.StepExtends(t, wake, t.id in e.sched.out.cancelled);
    var t' := Woken(e, k, wake).tasks[k];
    ReportIs(e.rows, t', t'.progress[|t.progress|..]);
    assert HasRows(Woken(e, k, wake));
  }

  lemma StepKeepsRows(e: Engine, op: Op)
    requires HasRows(e)
    ensures HasRows(Step(e, op))
  {
    if op.Wake? && op.k < |e.tasks| {
      WakeKeepsRows(e, op.k, op.wake);
    }
  }

  lemma {:induction false} ExecKeepsRows(e: Engine, ops: seq<Op>)
    requires HasRows(e)
    ensures HasRows(Exec(e, ops))
    decreases |ops|
  {
    if ops == [] {
    } else {
      StepKeepsRows(e, ops[0]);
      ExecKeepsRows(Step(e, ops[0]), ops[1..]);
    }
  }

  lemma RunningIsNotDone(e: Engine, k: nat)
    requires Reachable(e) && k < |e.tasks| && !e.tasks[k].phase.Ended?
    ensures (e.tasks[k].id, false) in e.rows ==> e.rows[(e.tasks[k].id, false)].state != R.Done
  {
    ReachableDistinct(e);
    if (e.tasks[k].id, false) in e.rows && e.rows[(e.tasks[k].id, false)].state == R.Done {
      var _ := ReachableDone(e, e.tasks[k].id);
    }
  }

  /** A running coroutine of a non-empty file has a row, and the row is not done. */
  lemma RunningStreams(e: Engine, k: nat)
    requires Reachable(e) && k < |e.tasks| && !e.tasks[k].phase.Ended? && e.tasks[k].Size() > 0
    ensures Streams(e, k)
  {
    var ops :| e == Exec(Init(), ops);
    ExecKeepsRows(Init(), ops);
    ReachableIsApart(e, k);
    RunningIsNotDone(e, k);
  }

  lemma CancelReaches(e: Engine, e': Engine, k: nat)
    requires Streams(e, k)
    requires e' == e.(rows := R.MarkCancelledRemote(e.rows, e.tasks[k].id),
                      toReceiver := e'.toReceiver, toSender := e'.toSender)
    ensures Halted(Run(e', S.Cancel(e.tasks[k].id)), k, T.Payloads(e.tasks[k].frames), e.tasks[k].progress)
  {
    assert Run(e', S.Cancel(e.tasks[k].id)).tasks[k] == e.tasks[k];
  }

  lemma PeerCancelReaches(e: Engine, k: nat)
    requires Streams(e, k) && e.toSender != [] && e.toSender[0] == Cancel(e.tasks[k].id)
    ensures Halted(Step(e, CtrlToSender), k, T.Payloads(e.tasks[k].frames), e.tasks[k].progress)
  {
    var id := e.tasks[k].id;
    var e' := e.(toSender := e.toSender[1..], rows := R.MarkCancelledRemote(e.rows, id));
    assert Step(e, CtrlToSender) == Run(e', S.Cancel(id));
    CancelReaches(e, e', k);
  }

  lemma LocalAbortReaches(e: Engine, k: nat)
    requires Streams(e, k)
    ensures Halted(Step(e, UserAbort(e.tasks[k].id)), k, T.Payloads(e.tasks[k].frames), e.tasks[k].progress)
  {
    var id := e.tasks[k].id;
    var e' := e.(toReceiver := e.toReceiver + [Abort(id)], rows := R.MarkCancelledRemote(e.rows, id));
    assert Step(e, UserAbort(id)) == Run(e', S.Cancel(id));
    CancelReaches(e, e', k);
  }

  /** A peer's cancel of a streaming file, once delivered, halts its coroutine for good. */
  lemma PeerCancelHalts(e: Engine, k: nat, ops: seq<Op>)
    requires Reachable(e) && k < |e.tasks| && !e.tasks[k].phase.Ended? && e.tasks[k].Size() > 0
    requires e.toSender != [] && e.toSender[0] == Cancel(e.tasks[k].id)
    ensures Halted(Exec(Step(e, CtrlToSender), ops), k, T.Payloads(e.tasks[k].frames), e.tasks[k].progress)
  {
    RunningStreams(e, k);
    PeerCancelReaches(e, k);
    ReachableStep(e, CtrlToSender);
    CancelIsFinal(Step(e, CtrlToSender), ops, k, T.Payloads(e.tasks[k].frames), e.tasks[k].progress);
  }

  /** So does the local user's abort. */
  lemma LocalAbortHalts(e: Engine, k: nat, ops: seq<Op>)
    requires Reachable(e) && k < |e.tasks| && !e.tasks[k].phase.Ended? && e.tasks[k].Size() > 0
    ensures Halted(Exec(Step(e, UserAbort(e.tasks[k].id)), ops), k,
                   T.Payloads(e.tasks[k].frames), e.tasks[k].progress)
  {
    RunningStreams(e, k);
    LocalAbortReaches(e, k);
    ReachableStep(e, UserAbort(e.tasks[k].id));
    CancelIsFinal(Step(e, UserAbort(e.tasks[k].id)), ops, k, T.Payloads(e.tasks[k].frames), e.tasks[k].progress);
  }

  // ----- what both sides make of it -----

  ghost predicate NeverSaved(e: Engine, id: nat) {
    forall ops :: !IsSaved(Exec(e, ops).recv.saved, id)
  }

  ghost predicate HasEnded(tasks: seq<T.Task>, id: nat) {
    exists k :: 0 <= k < |tasks| && tasks[k].id == id && tasks[k].phase.Ended?
  }

  /** File `id` has bytes that are not all sent, and its coroutine is flagged or ended: it will never send `End`. */
  ghost predicate Barred(e: Engine, id: nat) {
    && id in e.sched.files && |e.sched.files[id].bytes| > 0
    && (forall k :: 0 <= k < |e.tasks| && e.tasks[k].id == id ==> e.tasks[k].phase != T.Ended(T.Sent))
    && (id in e.sched.out.cancelled || HasEnded(e.tasks, id))
  }

  /** The part of the invariant that speaks of file `id`. */
  ghost predicate Fits(e: Engine, id: nat) {
    && DistinctIds(e.tasks)
    && (forall i :: i in e.sched.files ==> i < e.sched.nextId)
    && (forall k :: 0 <= k < |e.tasks| && e.tasks[k].id == id ==>
          T.Inv(e.tasks[k]) && id in e.sched.files && e.tasks[k].file == e.sched.files[id])
  }

  lemma ReachableFits(e: Engine, id: nat)
    requires Reachable(e)
    ensures Fits(e, id)
  {
    ReachableInv(e);
    ReachableFiles(e);
    ReachableDistinct(e);
    forall k | 0 <= k < |e.tasks| && e.tasks[k].id == id
      ensures T.Inv(e.tasks[k]) && id in e.sched.files && e.tasks[k].file == e.sched.files[id]
    {
      assert (e.tasks[k].id, e.tasks[k].file) == e.sched.started[k];
    }
  }

  lemma RunBars(e: Engine, op: S.Op<File>, id: nat)
    requires Barred(e, id) && forall i :: i in e.sched.files ==> i < e.sched.nextId
    requires op == S.Finish(id) ==> HasEnded(e.tasks, id)
    ensures Barred(Run(e, op), id)
  {
    RunFiles(e.sched, op);
    S.StepFlags(e.sched, op);
    if HasEnded(e.tasks, id) {
      var k :| 0 <= k < |e.tasks| && e.tasks[k].id == id && e.tasks[k].phase.Ended?;
      assert Run(e, op).tasks[k].id == id;
    }
  }

  lemma BarredNeverSends(t: T.Task, wake: T.Wake, flagged: bool)
    requires T.Inv(t) && t.Size() > 0 && t.phase != T.Ended(T.Sent) && (t.phase.Ended? || flagged)
    ensures T.Step(t, wake, flagged).phase != T.Ended(T.Sent)
  {
    T.StepExtends(t, wake, flagged);
    if flagged {
      T.FlaggedIsSilent(t, wake);
    }
  }

  lemma EndedStays(tasks: seq<T.Task>, k: nat, t: T.Task, id: nat)
    requires k < |tasks| && t.id == tasks[k].id && (tasks[k].phase.Ended? ==> t.phase.Ended?)
    requires HasEnded(tasks, id)
    ensures HasEnded(tasks[k := t], id)
  {
    var j :| 0 <= j < |tasks| && tasks[j].id == id && tasks[j].phase.Ended?;
    assert tasks[k := t][j].id == id;
  }

  lemma WokenBars(e: Engine, k: nat, wake: T.Wake, id: nat)
    requires Fits(e, id) && Barred(e, id) && k < |e.tasks|
    ensures Barred(Woken(e, k, wake), id)
  {
    var t, t', flagged := e.tasks[k], Woken(e, k, wake).tasks[k], e.tasks[k].id in e.sched.out.cancelled;
    T.StepExtends(t, wake, flagged);
    if HasEnded(e.tasks, id) {
      EndedStays(e.tasks, k, t', id);
    }
    if t.id == id {
      BarredNeverSends(t, wake, flagged);
    }
  }

  lemma WakeBars(e: Engine, k: nat, wake: T.Wake, id: nat)
    requires Fits(e, id) && Barred(e, id) && k < |e.tasks|
    ensures Barred(WakeTask(e, k, wake), id)
  {
    var t, e' := e.tasks[k], Woken(e, k, wake);
    T.StepExtends(t, wake, t.id in e.sched.out.cancelled);
    WokenBars(e, k, wake, id);
    var t' := e'.tasks[k];
    if t'.phase.Ended? && !t.phase.Ended? {
      var ends := Ends(e', t', t.id in e.sched.out.cancelled);
      assert t'.id == id ==> HasEnded(e'.tasks, id);
      RunBars(e'.(rows := ends.rows), S.Finish(t'.id), id);
    }
  }

  lemma AddBars(e: Engine, file: File, id: nat)
    requires Fits(e, id) && Barred(e, id)
    ensures Barred(Step(e, AddFile(file)), id)
  {
    RunBars(e, S.Offer(file), id);
    assert Step(e, AddFile(file)).tasks == Run(e, S.Offer(file)).tasks;
    assert Step(e, AddFile(file)).sched == Run(e, S.Offer(file)).sched;
  }

  lemma AskBars(e: Engine, op: Op, id: nat)
    requires Fits(e, id) && Barred(e, id) && Asks(e, op)
    ensures Barred(Step(e, op), id)
  {
    var e', ask := AsksRun(e, op);
    RunBars(e', ask, id);
  }

  lemma StepBars(e: Engine, op: Op, id: nat)
    requires Fits(e, id) && Barred(e, id)
    ensures Barred(Step(e, op), id)
  {
    if op.AddFile? {
      AddBars(e, op.file, id);
    } else if op.Wake? {
      if op.k < |e.tasks| { WakeBars(e, op.k, op.wake, id); }
    } else if Asks(e, op) {
      AskBars(e, op, id);
    }
  }

  lemma UnsentIsUnsaved(e: Engine, id: nat)
    requires Reachable(e)
    requires forall k :: 0 <= k < |e.tasks| && e.tasks[k].id == id ==> e.tasks[k].phase != T.Ended(T.Sent)
    ensures !IsSaved(e.recv.saved, id)
  {
    ReachableReceiver(e);
    forall i | 0 <= i < |e.recv.saved| ensures e.recv.saved[i].meta.id != id {
      assert HasSource(e.tasks, e.recv.routers, e.recv.saved[i]);
      var j :| 0 <= j < |e.tasks| && SavedFrom(e.tasks[j], e.recv.routers[j], e.recv.saved[i]);
    }
  }

  /** A barred file stays barred, so the other peer never saves it. */
  lemma {:induction false} BarredIsNeverSaved(e: Engine, ops: seq<Op>, id: nat)
    requires Reachable(e) && Barred(e, id)
    ensures !IsSaved(Exec(e, ops).recv.saved, id)
    decreases |ops|
  {
    if ops == [] {
      UnsentIsUnsaved(e, id);
    } else {
      ReachableFits(e, id);
      StepBars(e, ops[0], id);
      ReachableStep(e, ops[0]);
      BarredIsNeverSaved(Step(e, ops[0]), ops[1..], id);
    }
  }

  lemma NeverSavedWhenBarred(e: Engine, id: nat)
    requires Reachable(e) && Barred(e, id)
    ensures NeverSaved(e, id)
  {
    forall ops ensures !IsSaved(Exec(e, ops).recv.saved, id) {
      BarredIsNeverSaved(e, ops, id);
    }
  }

  lemma UnsentIsBarred(e: Engine, k: nat)
    requires k < |e.tasks| && Fits(e, e.tasks[k].id) && e.tasks[k].Size() > 0
    requires e.tasks[k].phase != T.Ended(T.Sent)
    requires e.tasks[k].phase.Ended? || e.tasks[k].id in e.sched.out.cancelled
    ensures Barred(e, e.tasks[k].id)
  {
    assert e.tasks[k].phase.Ended? ==> HasEnded(e.tasks, e.tasks[k].id);
    forall j | 0 <= j < |e.tasks| && e.tasks[j].id == e.tasks[k].id ensures j == k {
    }
  }

  lemma HaltedIsBarred(e: Engine, k: nat, data: seq<seq<byte>>, progress: seq<nat>)
    requires Reachable(e) && Halted(e, k, data, progress)
    ensures Barred(e, e.tasks[k].id)
  {
    ReachableFits(e, e.tasks[k].id);
    UnsentIsBarred(e, k);
  }

  /** A cancel or abort that reached a streaming file wins on both sides: the other peer never saves it. */
  lemma HaltedIsNeverSaved(e: Engine, k: nat, data: seq<seq<byte>>, progress: seq<nat>)
    requires Reachable(e) && Halted(e, k, data, progress)
    ensures NeverSaved(e, e.tasks[k].id)
  {
    HaltedIsBarred(e, k, data, progress);
    NeverSavedWhenBarred(e, e.tasks[k].id);
  }
}
