/** What the sender's rows show, over every run, and that every click arrives at the other peer. */
module SenderRows {
  import opened Prelude
  import opened Protocol
  import opened TransferState
  import opened Receiver
  import opened TransferEngine
  import opened ReceiverRows
  import C = SendCounts
  import Cancellation
  import RowFacts
  import S = Scheduler
  import T = SendTask
  import R = RowMaps

  // ----- every coroutine of a session keeps its counts -----

  ghost predicate AllAccounted(tasks: seq<T.Task>) {
    forall k :: 0 <= k < |tasks| ==> C.Accounted(tasks[k])
  }

  lemma NewTaskAccounts(id: nat, file: File)
    ensures C.Accounted(T.NewTask(id, file))
  {
  }

  lemma RunAccounts(e: Engine, op: S.Op<File>)
    requires AllAccounted(e.tasks)
    ensures AllAccounted(Run(e, op).tasks)
  {
    var tasks := Run(e, op).tasks;
    forall k | 0 <= k < |tasks| ensures C.Accounted(tasks[k]) {
      if k >= |e.tasks| {
        NewTaskAccounts(tasks[k].id, tasks[k].file);
      }
    }
  }

  lemma WakeAccounts(e: Engine, k: nat, wake: T.Wake)
    requires AllAccounted(e.tasks) && k < |e.tasks|
    ensures AllAccounted(WakeTask(e, k, wake).tasks)
  {
    var t, e' := e.tasks[k], Woken(e, k, wake);
    C.StepAccounts(t, wake, t.id in e.sched.out.cancelled);
    var ends := Ends(e', e'.tasks[k], t.id in e.sched.out.cancelled);
    RunAccounts(e'.(rows := ends.rows), S.Finish(e'.tasks[k].id));
  }

  lemma StepAccounts(e: Engine, op: Op)
    requires AllAccounted(e.tasks)
    ensures AllAccounted(Step(e, op).tasks)
  {
    if op.Wake? {
      StepIsWake(e, op);
      if op.k < |e.tasks| { WakeAccounts(e, op.k, op.wake); }
    } else if op.AddFile? {
      RunAccounts(e, S.Offer(op.file));
      assert Step(e, op).tasks == Run(e, S.Offer(op.file)).tasks;
    } else if Asks(e, op) {
      var e', ask := AsksRun(e, op);
      RunAccounts(e', ask);
    }
  }

  lemma {:induction false} ExecAccounts(e: Engine, ops: seq<Op>)
    requires AllAccounted(e.tasks)
    ensures AllAccounted(Exec(e, ops).tasks)
    decreases |ops|
  {
    if ops == [] {
    } else {
      StepAccounts(e, ops[0]);
      ExecAccounts(Step(e, ops[0]), ops[1..]);
    }
  }

  lemma ReachableAccounts(e: Engine, k: nat)
    requires Reachable(e) && k < |e.tasks|
    ensures C.Accounted(e.tasks[k])
  {
    var ops :| e == Exec(Init(), ops);
    ExecAccounts(Init(), ops);
  }

  // ----- the sender's rows -----

  /** The last report of some coroutine of `id` is this fraction of `size`. */
  ghost predicate Reports(tasks: seq<T.Task>, id: nat, fraction: real, size: nat) {
    exists k :: 0 <= k < |tasks| && tasks[k].id == id && tasks[k].progress != []
      && fraction == R.Frac(tasks[k].progress[|tasks[k].progress| - 1] as real, size as real)
  }

  ghost predicate RowTells(row: R.Row, tasks: seq<T.Task>, id: nat, file: File) {
    && row.id == id && !row.incoming && row.name == file.name && row.size == |file.bytes| as real && row.speed == 0.0
    && row.state != R.Pending
    && (row.state == R.Offered ==> row.fraction == 0.0)
    && (row.state == R.Done ==> row.fraction == 1.0)
    && (row.state == R.Active ==> Reports(tasks, id, row.fraction, |file.bytes|))
  }

  /** There is an outgoing row exactly for every file ever offered, and it tells the truth about that file. */
  ghost predicate OwnTrue(e: Engine, id: nat) {
    && ((id, false) in e.rows <==> id in e.sched.files)
    && ((id, false) in e.rows ==> RowTells(e.rows[(id, false)], e.tasks, id, e.sched.files[id]))
  }

  lemma FracAtMostOne(done: nat, total: nat)
    requires done <= total
    ensures R.Frac(done as real, total as real) <= 1.0
    ensures R.Frac(total as real, total as real) == 1.0
  {
    if total > 0 {
      assert done as real / total as real * total as real == done as real;
    }
  }

  lemma SendProgressTwice(rows: R.RowMap, id: nat, name: string, a: real, b: real, total: real)
    requires (id, false) in rows
    ensures R.SendProgress(R.SendProgress(rows, id, name, a, total), id, name, b, total)
            == R.SendProgress(rows, id, name, b, total)
  {
  }

  /** Of several reports the last one stands. */
  lemma {:induction false} LastReportStands(rows: R.RowMap, t: T.Task, counts: seq<nat>)
    requires (t.id, false) in rows && counts != []
    ensures Report(rows, t, counts)
            == R.SendProgress(rows, t.id, t.file.name, counts[|counts| - 1] as real, t.Size() as real)
    decreases |counts|
  {
    var first := R.SendProgress(rows, t.id, t.file.name, counts[0] as real, t.Size() as real);
    if |counts| == 1 {
      assert Report(first, t, counts[1..]) == first;
    } else {
      LastReportStands(first, t, counts[1..]);
      SendProgressTwice(rows, t.id, t.file.name, counts[0] as real, counts[|counts| - 1] as real, t.Size() as real);
    }
  }

  lemma ReportsGrow(tasks: seq<T.Task>, more: seq<T.Task>, id: nat, fraction: real, size: nat)
    requires Reports(tasks, id, fraction, size) && tasks <= more
    ensures Reports(more, id, fraction, size)
  {
    var k :| 0 <= k < |tasks| && tasks[k].id == id && tasks[k].progress != []
             && fraction == R.Frac(tasks[k].progress[|tasks[k].progress| - 1] as real, size as real);
    assert more[k] == tasks[k];
  }

  lemma RowTellsMore(row: R.Row, tasks: seq<T.Task>, more: seq<T.Task>, id: nat, file: File)
    requires RowTells(row, tasks, id, file) && tasks <= more
    ensures RowTells(row, more, id, file)
  {
    if row.state == R.Active { ReportsGrow(tasks, more, id, row.fraction, |file.bytes|); }
  }

  lemma RunOwn(e: Engine, op: S.Op<File>, id: nat)
    requires OwnTrue(e, id) && !op.Offer?
    ensures OwnTrue(Run(e, op), id)
  {
    if (id, false) in e.rows {
      RowTellsMore(e.rows[(id, false)], e.tasks, Run(e, op).tasks, id, e.sched.files[id]);
    }
  }

  /** A mark changes a state, to declined or cancelled. */
  lemma MarksOwn(e: Engine, id: nat, marked: nat)
    requires OwnTrue(e, id)
    ensures OwnTrue(e.(rows := R.MarkRejected(e.rows, marked)), id)
    ensures OwnTrue(e.(rows := R.MarkCancelledRemote(e.rows, marked)), id)
  {
  }

  lemma AddOwn(e: Engine, file: File, id: nat)
    requires OwnTrue(e, id) && forall i :: i in e.sched.files ==> i < e.sched.nextId
    ensures OwnTrue(Step(e, AddFile(file)), id)
  {
    var e' := Step(e, AddFile(file));
    if id != e.sched.nextId && (id, false) in e.rows {
      RowTellsMore(e.rows[(id, false)], e.tasks, e'.tasks, id, e.sched.files[id]);
    }
  }

  /** A row that shows the last of `counts`, which coroutine `k` has reported. */
  lemma ShownReport(row: R.Row, tasks: seq<T.Task>, k: nat, file: File)
    requires k < |tasks| && tasks[k].progress != [] && tasks[k].file == file
    requires tasks[k].progress[|tasks[k].progress| - 1] <= |file.bytes|
    requires row.id == tasks[k].id && !row.incoming && row.name == file.name && row.size == |file.bytes| as real
    requires row.speed == 0.0
    ensures var f := R.Frac(tasks[k].progress[|tasks[k].progress| - 1] as real, |file.bytes| as real);
            RowTells(row.(fraction := f, state := if f >= 1.0 then R.Done else R.Active), tasks, tasks[k].id, file)
  {
    FracAtMostOne(tasks[k].progress[|tasks[k].progress| - 1], |file.bytes|);
  }

  lemma OthersReport(row: R.Row, tasks: seq<T.Task>, k: nat, t: T.Task, id: nat, file: File)
    requires k < |tasks| && t.id == tasks[k].id && RowTells(row, tasks, id, file)
    requires id == t.id ==> t.progress == tasks[k].progress
    ensures RowTells(row, tasks[k := t], id, file)
  {
    if row.state == R.Active {
      var j :| 0 <= j < |tasks| && tasks[j].id == id && tasks[j].progress != []
               && row.fraction == R.Frac(tasks[j].progress[|tasks[j].progress| - 1] as real, |file.bytes| as real);
      assert tasks[k := t][j].progress == tasks[j].progress && tasks[k := t][j].id == id;
    }
  }

  lemma SilentOwn(e: Engine, k: nat, t: T.Task, id: nat)
    requires OwnTrue(e, id) && k < |e.tasks| && t.id == e.tasks[k].id && t.progress == e.tasks[k].progress
    ensures OwnTrue(e.(tasks := e.tasks[k := t]), id)
  {
    if (id, false) in e.rows {
      OthersReport(e.rows[(id, false)], e.tasks, k, t, id, e.sched.files[id]);
    }
  }

  lemma ReportOwn(e: Engine, k: nat, t: T.Task, id: nat)
    requires OwnTrue(e, id) && OwnTrue(e, t.id) && k < |e.tasks| && t.id == e.tasks[k].id && t.file == e.tasks[k].file
    requires t.id in e.sched.files && e.sched.files[t.id] == t.file
    requires t.progress != [] && t.progress[|t.progress| - 1] <= t.Size()
    ensures var last := t.progress[|t.progress| - 1] as real;
            OwnTrue(e.(tasks := e.tasks[k := t],
                       rows := R.SendProgress(e.rows, t.id, t.file.name, last, t.Size() as real)), id)
  {
    var tasks := e.tasks[k := t];
    if id == t.id {
      ShownReport(e.rows[(id, false)], tasks, k, t.file);
    } else if (id, false) in e.rows {
      OthersReport(e.rows[(id, false)], e.tasks, k, t, id, e.sched.files[id]);
    }
  }

  lemma WokenOwn(e: Engine, k: nat, wake: T.Wake, id: nat)
    requires k < |e.tasks| && OwnTrue(e, id) && OwnTrue(e, e.tasks[k].id) && T.Inv(e.tasks[k])
    requires e.tasks[k].id in e.sched.files && e.sched.files[e.tasks[k].id] == e.tasks[k].file
    ensures OwnTrue(Woken(e, k, wake), id)
  {
    var t, c := e.tasks[k], e.tasks[k].id in e.sched.out.cancelled;
    var t' := T.Step(t, wake, c);
    T.StepExtends(t, wake, c);
    T.StepKeeps(t, wake, c);
    var more := t'.progress[|t.progress|..];
    if more == [] {
      assert t'.progress == t.progress;
      SilentOwn(e, k, t', id);
    } else {
      assert more[|more| - 1] == t'.progress[|t'.progress| - 1];
      LastReportStands(e.rows, t', more);
      ReportOwn(e, k, t', id);
    }
  }

  lemma EndsOwn(e: Engine, t: T.Task, cancelled: bool, id: nat)
    requires OwnTrue(e, id) && OwnTrue(e, t.id) && t.id in e.sched.files && e.sched.files[t.id] == t.file
    ensures OwnTrue(Ends(e, t, cancelled), id)
  {
    FracAtMostOne(0, t.Size());
    var rows := if cancelled then e.rows
                else R.SendProgress(e.rows, t.id, t.file.name, t.Size() as real, t.Size() as real);
    assert OwnTrue(e.(rows := rows), id);
    RunOwn(e.(rows := rows), S.Finish(t.id), id);
  }

  lemma WakeOwn(e: Engine, k: nat, wake: T.Wake, id: nat)
    requires k < |e.tasks| && OwnTrue(e, id) && OwnTrue(e, e.tasks[k].id) && T.Inv(e.tasks[k])
    requires e.tasks[k].id in e.sched.files && e.sched.files[e.tasks[k].id] == e.tasks[k].file
    ensures OwnTrue(WakeTask(e, k, wake), id)
  {
    var t, e' := e.tasks[k], Woken(e, k, wake);
    T.StepExtends(t, wake, t.id in e.sched.out.cancelled);
    WokenOwn(e, k, wake, id);
    WokenOwn(e, k, wake, t.id);
    EndsOwn(e', e'.tasks[k], t.id in e.sched.out.cancelled, id);
  }

  lemma AsksOwn(e: Engine, op: Op, id: nat)
    requires OwnTrue(e, id) && Asks(e, op)
    ensures OwnTrue(Step(e, op), id)
  {
    if op.UserAbort? {
      MarksOwn(e, id, op.id);
      RunOwn(e.(toReceiver := e.toReceiver + [Abort(op.id)], rows := R.MarkCancelledRemote(e.rows, op.id)),
             S.Cancel(op.id), id);
    } else {
      var c, popped := e.toSender[0], e.(toSender := e.toSender[1..]);
      MarksOwn(popped, id, c.id);
      match c
      case Accept(x) => RunOwn(popped, S.Accept(x), id);
      case Reject(x) => RunOwn(popped.(rows := R.MarkRejected(e.rows, x)), S.Reject(x), id);
      case Cancel(x) => RunOwn(popped.(rows := R.MarkCancelledRemote(e.rows, x)), S.Cancel(x), id);
    }
  }

  lemma QuietOwn(e: Engine, op: Op, id: nat)
    requires OwnTrue(e, id) && !op.AddFile? && !op.Wake? && !Asks(e, op)
    ensures OwnTrue(Step(e, op), id)
  {
    assert Step(e, op).rows == e.rows && Step(e, op).tasks == e.tasks && Step(e, op).sched == e.sched;
  }

  lemma StepOwn(e: Engine, op: Op, id: nat)
    requires Reachable(e) && forall i :: OwnTrue(e, i)
    ensures OwnTrue(Step(e, op), id)
  {
    if op.AddFile? {
      ReachableFiles(e);
      AddOwn(e, op.file, id);
    } else if op.Wake? {
      StepIsWake(e, op);
      if op.k < |e.tasks| {
        ReachableTask(e, op.k);
        RowFacts.TaskIsOffered(e, op.k);
        WakeOwn(e, op.k, op.wake, id);
      }
    } else if Asks(e, op) {
      AsksOwn(e, op, id);
    } else {
      QuietOwn(e, op, id);
    }
  }

  lemma {:induction false} ExecOwn(e: Engine, ops: seq<Op>, id: nat)
    requires Reachable(e) && forall i :: OwnTrue(e, i)
    ensures OwnTrue(Exec(e, ops), id)
    decreases |ops|
  {
    if ops == [] {
    } else {
      forall i ensures OwnTrue(Step(e, ops[0]), i) {
        StepOwn(e, ops[0], i);
      }
      ReachableStep(e, ops[0]);
      ExecOwn(Step(e, ops[0]), ops[1..], id);
    }
  }

  lemma ReachableOwn(e: Engine, id: nat)
    requires Reachable(e)
    ensures OwnTrue(e, id)
  {
    var ops :| e == Exec(Init(), ops);
    assert Exec(Init(), []) == Init();
    ExecOwn(Init(), ops, id);
  }

  /**
   * In every reachable state there is an outgoing row for every file offered and for nothing else. It has the
   * file's name and size, shows nothing sent while it is only offered, and everything when it is done.
   */
  lemma OutgoingRowTells(e: Engine, id: nat)
    requires Reachable(e)
    ensures (id, false) in e.rows <==> id in e.sched.files
    ensures (id, false) in e.rows ==>
              var row, file := e.rows[(id, false)], e.sched.files[id];
              && row.name == file.name && row.size == |file.bytes| as real && row.state != R.Pending
              && (row.state == R.Offered ==> row.fraction == 0.0)
              && (row.state == R.Done ==> row.fraction == 1.0)
  {
    ReachableOwn(e, id);
  }

  lemma LastReportIsSent(t: T.Task)
    requires C.Accounted(t) && t.progress != []
    ensures 0 < t.progress[|t.progress| - 1] == |Flatten(T.Payloads(t.frames))| == t.sent
  {
    var payloads := T.Payloads(t.frames);
    assert Flatten(payloads) == Flatten(payloads[..|payloads| - 1]) + payloads[|payloads| - 1];
    assert payloads[..|payloads|] == payloads;
  }

  lemma ActiveShowsLast(e: Engine, k: nat)
    requires Reachable(e) && k < |e.tasks| && StateOf(e.rows, (e.tasks[k].id, false)) == Some(R.Active)
    ensures var t := e.tasks[k];
            && t.progress != []
            && e.rows[(t.id, false)].fraction == R.Frac(t.progress[|t.progress| - 1] as real, t.Size() as real)
  {
    ReachableOwn(e, e.tasks[k].id);
    RowFacts.TaskIsOffered(e, k);
    ReachableDistinct(e);
  }

  lemma SentFits(t: T.Task)
    requires T.Inv(t)
    ensures t.sent <= t.Size()
  {
  }

  /** While a file goes out, its row shows exactly the fraction of its bytes that its coroutine has sent. */
  lemma OutgoingRowShowsBytes(e: Engine, k: nat)
    requires Reachable(e) && k < |e.tasks| && StateOf(e.rows, (e.tasks[k].id, false)) == Some(R.Active)
    ensures var t, sent := e.tasks[k], |Flatten(T.Payloads(e.tasks[k].frames))|;
            0 < sent <= t.Size() && RowFacts.IsShare(e.rows[(t.id, false)].fraction, sent, t.Size())
  {
    ActiveShowsLast(e, k);
    ReachableAccounts(e, k);
    ReachableTask(e, k);
    SentFits(e.tasks[k]);
    LastReportIsSent(e.tasks[k]);
    RowFacts.FracIsShare(e.tasks[k].sent, e.tasks[k].Size());
  }
}
