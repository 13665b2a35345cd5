/**
 * One direction of a transfer session: the sender's scheduler, coroutines and rows, the receiver,
 * the two control queues and one channel per started file, under every interleaving.
 */
module TransferEngine {
  import opened Prelude
  import opened Protocol
  import opened TransferState
  import opened Receiver
  import S = Scheduler
  import T = SendTask
  import R = RowMaps

  /** `rows` are the sender's rows; the control queues hold undelivered frames, oldest first. */
  datatype Engine = Engine(
    sched: S.Sched<File>,
    tasks: seq<T.Task>,
    rows: R.RowMap,
    toReceiver: seq<Control>,
    toSender: seq<Control>,
    recv: RecvState)

  /** What can happen next. An operation that is not enabled changes nothing. */
  datatype Op =
    | AddFile(file: File)
    | UserAccept(id: nat)
    | UserReject(id: nat)
    | UserCancel(id: nat)
    | UserAbort(id: nat)
    | CtrlToSender
    | CtrlToReceiver
    | Wake(k: nat, wake: T.Wake)
    | Deliver(k: nat, now: real)

  function Init(): Engine {
    Engine(S.Init(), [], map[], [], [], RecvState([], map[], [], {}))
  }

  function NewTasks(started: seq<(nat, File)>): (tasks: seq<T.Task>)
    ensures |tasks| == |started|
    ensures forall i :: 0 <= i < |tasks| ==> tasks[i] == T.NewTask(started[i].0, started[i].1)
  {
    seq(|started|, i requires 0 <= i < |started| => T.NewTask(started[i].0, started[i].1))
  }

  function NewRouters(n: nat): (routers: seq<Router>)
    ensures |routers| == n
    ensures forall i :: 0 <= i < n ==> routers[i] == Router(0, None)
  {
    seq(n, i => Router(0, None))
  }

  /** Run the scheduler and open a channel for every file it starts. */
  function Run(e: Engine, op: S.Op<File>): Engine {
    var sched := S.Step(e.sched, op);
    var more := if |e.sched.started| <= |sched.started| then sched.started[|e.sched.started|..] else [];
    e.(sched := sched,
       tasks := e.tasks + NewTasks(more),
       recv := e.recv.(routers := e.recv.routers + NewRouters(|more|)))
  }

  function Report(rows: R.RowMap, t: T.Task, counts: seq<nat>): R.RowMap
    decreases |counts|
  {
    if counts == [] then rows
    else Report(R.SendProgress(rows, t.id, t.file.name, counts[0] as real, t.Size() as real), t, counts[1..])
  }

  /** After the stream: a cancelled file reports nothing more, any other is driven to 100%; then the slot is freed. */
  function Ends(e: Engine, t: T.Task, cancelled: bool): Engine {
    var rows := if cancelled then e.rows
                else R.SendProgress(e.rows, t.id, t.file.name, t.Size() as real, t.Size() as real);
    Run(e.(rows := rows), S.Finish(t.id))
  }

  /** The engine after the coroutine has run to its next await, before its slot is freed. */
  function Woken(e: Engine, k: nat, wake: T.Wake): Engine
    requires k < |e.tasks|
  {
    var t := e.tasks[k];
    var t' := T.Step(t, wake, t.id in e.sched.out.cancelled);
    T.StepExtends(t, wake, t.id in e.sched.out.cancelled);
    e.(tasks := e.tasks[k := t'], rows := Report(e.rows, t', t'.progress[|t.progress|..]))
  }

  function WakeTask(e: Engine, k: nat, wake: T.Wake): Engine
    requires k < |e.tasks|
  {
    var t, e' := e.tasks[k], Woken(e, k, wake);
    if e'.tasks[k].phase.Ended? && !t.phase.Ended?
    then Ends(e', e'.tasks[k], t.id in e.sched.out.cancelled) else e'
  }

  function HandleAtSender(e: Engine, c: Control): Engine {
    match c
    case Accept(id) => Run(e, S.Accept(id))
    case Reject(id) => Run(e.(rows := R.MarkRejected(e.rows, id)), S.Reject(id))
    case Cancel(id) => Run(e.(rows := R.MarkCancelledRemote(e.rows, id)), S.Cancel(id))
    case _ => e
  }

  function Step(e: Engine, op: Op): Engine {
    match op
    case AddFile(file) =>
      var id := e.sched.nextId;
      Run(e.(toReceiver := e.toReceiver + [Offer(MetaOf(id, file))],
             rows := R.MarkOffered(R.PushPending(e.rows, id, file.name, |file.bytes| as real), id)),
          S.Offer(file))
    case UserAccept(id) => e.(toSender := e.toSender + [Accept(id)])
    case UserReject(id) => e.(toSender := e.toSender + [Reject(id)])
    case UserCancel(id) => e.(toSender := e.toSender + [Cancel(id)], recv := e.recv.Drop(id))
    case UserAbort(id) =>
      Run(e.(toReceiver := e.toReceiver + [Abort(id)], rows := R.MarkCancelledRemote(e.rows, id)), S.Cancel(id))
    case CtrlToSender =>
      if e.toSender == [] then e else HandleAtSender(e.(toSender := e.toSender[1..]), e.toSender[0])
    case CtrlToReceiver =>
      if e.toReceiver == [] then e
      else
        var e' := e.(toReceiver := e.toReceiver[1..]);
        if e.toReceiver[0].Abort? then e'.(recv := e.recv.Drop(e.toReceiver[0].id)) else e'
    case Wake(k, wake) => if k < |e.tasks| then WakeTask(e, k, wake) else e
    case Deliver(k, now) =>
      if k < |e.tasks| && k < |e.recv.routers| && e.recv.routers[k].read < |e.tasks[k].frames|
      then e.(recv := e.recv.Receive(k, e.tasks[k].frames[e.recv.routers[k].read], now))
      else e
  }

  function Exec(e: Engine, ops: seq<Op>): Engine
    decreases |ops|
  {
    if ops == [] then e else Exec(Step(e, ops[0]), ops[1..])
  }

  // ----- what holds in every reachable state -----

  /** One channel per start, in the order of the starts; a slot is held exactly while its coroutine runs. */
  ghost predicate TasksMatch(e: Engine) {
    && |e.tasks| == |e.sched.started|
    && (forall k :: 0 <= k < |e.tasks| ==>
          && (e.tasks[k].id, e.tasks[k].file) == e.sched.started[k]
          && (e.tasks[k].phase.Ended? <==> e.tasks[k].id in e.sched.finished))
  }

  /** The coroutine of `id` ran to its end without being stopped. */
  ghost predicate RanOut(tasks: seq<T.Task>, id: nat) {
    exists k :: 0 <= k < |tasks| && tasks[k].id == id && tasks[k].phase.Ended? && tasks[k].phase != T.Ended(T.Stopped)
  }

  ghost predicate RowsOk(e: Engine) {
    forall id :: (id, false) in e.rows && e.rows[(id, false)].state == R.Done ==> RanOut(e.tasks, id)
  }

  ghost predicate Inv(e: Engine) {
    S.Inv(e.sched) && TasksMatch(e) && RecvInv(e.tasks, e.recv) && RowsOk(e)
  }

  // ----- running the scheduler -----

  /** A scheduler step that completes nothing, or completes a coroutine that has just ended. */
  ghost predicate Ready(e: Engine, op: S.Op<File>) {
    && |e.tasks| == |e.sched.started|
    && (forall k :: 0 <= k < |e.tasks| ==> (e.tasks[k].id, e.tasks[k].file) == e.sched.started[k])
    && (forall k :: 0 <= k < |e.tasks| ==>
          (e.tasks[k].phase.Ended?
           <==> e.tasks[k].id in e.sched.finished || (S.Completes(e.sched, op) && e.tasks[k].id == op.id)))
  }

  lemma SchedGrows(s: S.Sched<File>, op: S.Op<File>)
    ensures s.started <= S.Step(s, op).started
    ensures S.Step(s, op).finished == s.finished + if S.Completes(s, op) then {op.id} else {}
    ensures s.files.Keys <= S.Step(s, op).files.Keys
  {
  }

  lemma StartedOnce(s: S.Sched<File>, i: nat, j: nat)
    requires S.Ordered(s) && i < j < |s.started|
    ensures s.started[i].0 != s.started[j].0
  {
    var ids := Ids(s.started + s.out.queue);
    assert ids[i] != ids[j];
  }

  /** A file that starts now was not finished before, nor is it the one completing. */
  lemma NewStartIsUnfinished(s: S.Sched<File>, op: S.Op<File>, k: nat)
    requires S.Inv(s) && |s.started| <= k < |S.Step(s, op).started|
    ensures S.Step(s, op).started[k].0 !in S.Step(s, op).finished
  {
    var s', id := S.Step(s, op), S.Step(s, op).started[k].0;
    S.StepKeeps(s, op);
    SchedGrows(s, op);
    if S.Has(s.started, id) {
      var j :| 0 <= j < |s.started| && s.started[j].0 == id;
      StartedOnce(s', j, k);
      assert false;
    }
  }

  lemma NewTasksExtend(tasks: seq<T.Task>, before: seq<(nat, File)>, after: seq<(nat, File)>)
    requires |tasks| == |before| && before <= after
    ensures var all, n := tasks + NewTasks(after[|before|..]), |tasks|;
            && |all| == |after|
            && (forall k :: 0 <= k < n ==> all[k] == tasks[k] && after[k] == before[k])
            && (forall k :: n <= k < |all| ==> all[k] == T.NewTask(after[k].0, after[k].1))
  {
    var more, n := after[|before|..], |tasks|;
    var added := NewTasks(more);
    forall k | n <= k < |after| ensures (tasks + added)[k] == T.NewTask(after[k].0, after[k].1) {
      assert after[k] == more[k - n] && (tasks + added)[k] == added[k - n];
    }
  }

  /** Old channels stay in front; behind them, one new channel per new start. */
  lemma RunExtends(e: Engine, op: S.Op<File>)
    requires |e.tasks| == |e.sched.started|
    ensures var e', n := Run(e, op), |e.tasks|;
            && n <= |e'.tasks| == |e'.sched.started|
            && (forall k :: 0 <= k < n ==> e'.tasks[k] == e.tasks[k] && e'.sched.started[k] == e.sched.started[k])
            && (forall k :: n <= k < |e'.tasks| ==>
                  e'.tasks[k] == T.NewTask(e'.sched.started[k].0, e'.sched.started[k].1))
  {
    SchedGrows(e.sched, op);
    NewTasksExtend(e.tasks, e.sched.started, S.Step(e.sched, op).started);
  }

  lemma RunMatchesAt(e: Engine, op: S.Op<File>, k: nat)
    requires S.Inv(e.sched) && Ready(e, op) && k < |Run(e, op).tasks| && k < |Run(e, op).sched.started|
    ensures var e' := Run(e, op);
            && (e'.tasks[k].id, e'.tasks[k].file) == e'.sched.started[k]
            && (e'.tasks[k].phase.Ended? <==> e'.tasks[k].id in e'.sched.finished)
  {
    RunExtends(e, op);
    if k < |e.tasks| {
      SchedGrows(e.sched, op);
    } else {
      NewStartIsUnfinished(e.sched, op, k);
    }
  }

  lemma RunMatches(e: Engine, op: S.Op<File>)
    requires S.Inv(e.sched) && Ready(e, op)
    ensures TasksMatch(Run(e, op))
  {
    var e' := Run(e, op);
    RunExtends(e, op);
    forall k | 0 <= k < |e'.tasks|
      ensures (e'.tasks[k].id, e'.tasks[k].file) == e'.sched.started[k]
      ensures e'.tasks[k].phase.Ended? <==> e'.tasks[k].id in e'.sched.finished
    {
      RunMatchesAt(e, op, k);
    }
  }

  lemma MatchIsDistinct(e: Engine)
    requires S.Ordered(e.sched) && TasksMatch(e)
    ensures DistinctIds(e.tasks)
  {
    forall j, k | 0 <= j < k < |e.tasks| ensures e.tasks[j].id != e.tasks[k].id {
      StartedOnce(e.sched, j, k);
    }
  }

  lemma RunTasks(e: Engine, op: S.Op<File>)
    requires |e.recv.routers| == |e.tasks| == |e.sched.started|
    requires forall k :: 0 <= k < |e.tasks| ==> T.Inv(e.tasks[k])
    ensures forall k :: 0 <= k < |Run(e, op).tasks| ==> T.Inv(Run(e, op).tasks[k])
    ensures Carries(e.tasks, e.recv, Run(e, op).tasks, Run(e, op).recv)
  {
    var e' := Run(e, op);
    RunExtends(e, op);
    forall k | 0 <= k < |e'.tasks| ensures T.Inv(e'.tasks[k]) {
      if k >= |e.tasks| {
        T.NewTaskInv(e'.tasks[k].id, e'.tasks[k].file);
      }
    }
  }

  lemma RunCarries(e: Engine, op: S.Op<File>)
    requires S.Inv(e.sched) && Ready(e, op) && RecvInv(e.tasks, e.recv)
    ensures RecvInv(Run(e, op).tasks, Run(e, op).recv)
  {
    RunMatches(e, op);
    S.StepKeeps(e.sched, op);
    MatchIsDistinct(Run(e, op));
    RunTasks(e, op);
    CarryKeeps(e.tasks, e.recv, Run(e, op).tasks, Run(e, op).recv);
  }

  lemma RanOutGrows(tasks: seq<T.Task>, more: seq<T.Task>, id: nat)
    requires RanOut(tasks, id)
    ensures RanOut(tasks + more, id)
  {
    var k :| 0 <= k < |tasks| && tasks[k].id == id && tasks[k].phase.Ended? && tasks[k].phase != T.Ended(T.Stopped);
    assert (tasks + more)[k] == tasks[k];
  }

  lemma RunKeeps(e: Engine, op: S.Op<File>)
    requires S.Inv(e.sched) && Ready(e, op) && RecvInv(e.tasks, e.recv) && RowsOk(e)
    ensures Inv(Run(e, op))
  {
    var e' := Run(e, op);
    S.StepKeeps(e.sched, op);
    RunMatches(e, op);
    RunCarries(e, op);
    forall id | (id, false) in e'.rows && e'.rows[(id, false)].state == R.Done ensures RanOut(e'.tasks, id) {
      RanOutGrows(e.tasks, e'.tasks[|e.tasks|..], id);
      assert e'.tasks == e.tasks + e'.tasks[|e.tasks|..];
    }
  }

  lemma MatchIsReady(e: Engine, op: S.Op<File>)
    requires TasksMatch(e) && !S.Completes(e.sched, op)
    ensures Ready(e, op)
  {
  }

  // ----- waking one coroutine -----

  lemma FracBelowOne(done: real, total: real)
    requires 0.0 <= done < total
    ensures R.Frac(done, total) < 1.0
  {
    assert done / total * total == done;
  }

  /** Reports touch one row, and leave it done only if the last count reached the size. */
  lemma {:induction false} ReportIs(rows: R.RowMap, t: T.Task, counts: seq<nat>)
    ensures var rows' := Report(rows, t, counts);
            && (forall key :: key != (t.id, false) ==>
                  (key in rows' <==> key in rows) && (key in rows ==> rows'[key] == rows[key]))
            && (counts == [] ==> rows' == rows)
            && (counts != [] ==>
                  && (t.id, false) in rows'
                  && (rows'[(t.id, false)].state == R.Done ==> counts[|counts| - 1] >= t.Size())
                  && (rows'[(t.id, false)].state in {R.Done, R.Active}))
    decreases |counts|
  {
    if counts == [] {
    } else {
      var rows1 := R.SendProgress(rows, t.id, t.file.name, counts[0] as real, t.Size() as real);
      ReportIs(rows1, t, counts[1..]);
      if counts[0] < t.Size() {
        FracBelowOne(counts[0] as real, t.Size() as real);
      }
    }
  }

  lemma RanOutUpdate(tasks: seq<T.Task>, k: nat, t: T.Task, id: nat)
    requires k < |tasks| && t.id == tasks[k].id && (tasks[k].phase.Ended? ==> t.phase == tasks[k].phase)
    requires RanOut(tasks, id)
    ensures RanOut(tasks[k := t], id)
  {
    var j :| 0 <= j < |tasks| && tasks[j].id == id && tasks[j].phase.Ended? && tasks[j].phase != T.Ended(T.Stopped);
    assert tasks[k := t][j].id == id;
  }

  /** A count that reaches the size is reported only by a coroutine that then ran out. */
  lemma ReportedAll(t: T.Task, wake: T.Wake, cancelled: bool)
    requires T.Inv(t)
    ensures var t' := T.Step(t, wake, cancelled);
            && |t.progress| <= |t'.progress|
            && (|t.progress| < |t'.progress| && t'.progress[|t'.progress| - 1] >= t'.Size() ==>
                  t'.phase == T.Ended(T.Sent))
  {
    T.StepExtends(t, wake, cancelled);
    T.StepKeeps(t, wake, cancelled);
  }

  lemma RowsUpdate(e: Engine, k: nat, t: T.Task, more: seq<nat>)
    requires RowsOk(e) && k < |e.tasks|
    requires t.id == e.tasks[k].id && (e.tasks[k].phase.Ended? ==> t.phase == e.tasks[k].phase)
    requires more != [] && more[|more| - 1] >= t.Size() ==> t.phase == T.Ended(T.Sent)
    ensures RowsOk(e.(tasks := e.tasks[k := t], rows := Report(e.rows, t, more)))
  {
    var tasks, rows := e.tasks[k := t], Report(e.rows, t, more);
    ReportIs(e.rows, t, more);
    forall id | (id, false) in rows && rows[(id, false)].state == R.Done ensures RanOut(tasks, id) {
      if id == t.id && more != [] {
        assert tasks[k].id == id;
      } else {
        assert (id, false) in e.rows && e.rows[(id, false)].state == R.Done;
        RanOutUpdate(e.tasks, k, t, id);
      }
    }
  }

  lemma WokenRows(e: Engine, k: nat, wake: T.Wake)
    requires RowsOk(e) && k < |e.tasks| && T.Inv(e.tasks[k])
    ensures RowsOk(Woken(e, k, wake))
  {
    var t, c := e.tasks[k], e.tasks[k].id in e.sched.out.cancelled;
    var t' := T.Step(t, wake, c);
    T.StepExtends(t, wake, c);
    ReportedAll(t, wake, c);
    RowsUpdate(e, k, t', t'.progress[|t.progress|..]);
  }

  lemma CarryUpdate(tasks: seq<T.Task>, recv: RecvState, k: nat, t: T.Task)
    requires |recv.routers| == |tasks| && DistinctIds(tasks) && k < |tasks| && Grows(tasks[k], t)
    ensures Carries(tasks, recv, tasks[k := t], recv) && DistinctIds(tasks[k := t])
  {
  }

  lemma WokenCarries(e: Engine, k: nat, wake: T.Wake)
    requires |e.recv.routers| == |e.tasks| && DistinctIds(e.tasks) && k < |e.tasks|
    requires forall j :: 0 <= j < |e.tasks| ==> T.Inv(e.tasks[j])
    ensures var e' := Woken(e, k, wake);
            && Carries(e.tasks, e.recv, e'.tasks, e.recv) && DistinctIds(e'.tasks)
            && forall j :: 0 <= j < |e'.tasks| ==> T.Inv(e'.tasks[j])
  {
    var t, c := e.tasks[k], e.tasks[k].id in e.sched.out.cancelled;
    T.StepExtends(t, wake, c);
    T.StepKeeps(t, wake, c);
    CarryUpdate(e.tasks, e.recv, k, T.Step(t, wake, c));
  }

  lemma WokenReceiver(e: Engine, k: nat, wake: T.Wake)
    requires RecvInv(e.tasks, e.recv) && k < |e.tasks|
    ensures RecvInv(Woken(e, k, wake).tasks, e.recv)
  {
    WokenCarries(e, k, wake);
    CarryKeeps(e.tasks, e.recv, Woken(e, k, wake).tasks, e.recv);
  }

  /** A coroutine that has just ended holds a slot, so freeing it is a completion. */
  lemma WokenReady(e: Engine, k: nat, wake: T.Wake)
    requires S.Ordered(e.sched) && TasksMatch(e) && k < |e.tasks|
    ensures var e' := Woken(e, k, wake);
            if e'.tasks[k].phase.Ended? && !e.tasks[k].phase.Ended?
            then Ready(e', S.Finish(e.tasks[k].id)) else TasksMatch(e')
  {
    var t, e' := e.tasks[k], Woken(e, k, wake);
    T.StepExtends(t, wake, t.id in e.sched.out.cancelled);
    MatchIsDistinct(e);
    assert e.sched.started[k].0 == t.id;
    assert S.Has(e.sched.started, t.id);
  }

  lemma EndsKeeps(e: Engine, t: T.Task, cancelled: bool)
    requires S.Inv(e.sched) && Ready(e, S.Finish(t.id)) && RecvInv(e.tasks, e.recv) && RowsOk(e)
    requires !cancelled ==> RanOut(e.tasks, t.id)
    ensures Inv(Ends(e, t, cancelled))
  {
    var rows := if cancelled then e.rows
                else R.SendProgress(e.rows, t.id, t.file.name, t.Size() as real, t.Size() as real);
    RunKeeps(e.(rows := rows), S.Finish(t.id));
  }

  lemma WakeKeeps(e: Engine, k: nat, wake: T.Wake)
    requires Inv(e) && k < |e.tasks|
    ensures Inv(WakeTask(e, k, wake))
  {
    var t, c, e' := e.tasks[k], e.tasks[k].id in e.sched.out.cancelled, Woken(e, k, wake);
    WokenRows(e, k, wake);
    WokenReceiver(e, k, wake);
    WokenReady(e, k, wake);
    T.StepExtends(t, wake, c);
    if e'.tasks[k].phase.Ended? && !t.phase.Ended? {
      assert !c ==> RanOut(e'.tasks, t.id) by { assert e'.tasks[k].id == t.id; }
      EndsKeeps(e', e'.tasks[k], c);
    }
  }

  // ----- every step, and every run -----

  lemma AddFileKeeps(e: Engine, file: File)
    requires Inv(e)
    ensures Inv(Step(e, AddFile(file)))
  {
    var id := e.sched.nextId;
    var rows := R.MarkOffered(R.PushPending(e.rows, id, file.name, |file.bytes| as real), id);
    var e' := e.(toReceiver := e.toReceiver + [Offer(MetaOf(id, file))], rows := rows);
    MatchIsReady(e', S.Offer(file));
    RunKeeps(e', S.Offer(file));
  }

  /** Every outgoing row done in `rows'` was done in `rows`. */
  ghost predicate NoneNewlyDone(rows: R.RowMap, rows': R.RowMap) {
    forall id {:trigger (id, false) in rows'} :: (id, false) in rows' && rows'[(id, false)].state == R.Done ==>
      (id, false) in rows && rows[(id, false)].state == R.Done
  }

  lemma RefusalsAreNotDone(rows: R.RowMap, id: nat)
    ensures NoneNewlyDone(rows, rows)
    ensures NoneNewlyDone(rows, R.MarkRejected(rows, id))
    ensures NoneNewlyDone(rows, R.MarkCancelledRemote(rows, id))
  {
  }

  /** Only what the scheduler step leaves alone differs, and no row became done. */
  ghost predicate OnlyMarks(e: Engine, e': Engine) {
    e'.sched == e.sched && e'.tasks == e.tasks && e'.recv == e.recv && NoneNewlyDone(e.rows, e'.rows)
  }

  lemma MarkedRunKeeps(e: Engine, e': Engine, op: S.Op<File>)
    requires Inv(e) && OnlyMarks(e, e') && !S.Completes(e.sched, op)
    ensures Inv(Run(e', op))
  {
    MatchIsReady(e', op);
    RunKeeps(e', op);
  }

  /** What a control message, or the local user's abort, asks of the scheduler. */
  predicate Asks(e: Engine, op: Op) {
    || op.UserAbort?
    || (op.CtrlToSender? && e.toSender != []
        && (e.toSender[0].Accept? || e.toSender[0].Reject? || e.toSender[0].Cancel?))
  }

  lemma AsksRun(e: Engine, op: Op) returns (e': Engine, ask: S.Op<File>)
    requires Asks(e, op)
    ensures OnlyMarks(e, e') && Step(e, op) == Run(e', ask)
    ensures ask.Accept? || ask.Reject? || ask.Cancel?
    ensures op.CtrlToSender? ==> ask.id == e.toSender[0].id && e'.toSender == e.toSender[1..]
    ensures op.UserAbort? ==> ask == S.Cancel(op.id) && e'.toSender == e.toSender
  {
    match op
    case UserAbort(id) =>
      RefusalsAreNotDone(e.rows, id);
      e' := e.(toReceiver := e.toReceiver + [Abort(id)], rows := R.MarkCancelledRemote(e.rows, id));
      ask := S.Cancel(id);
    case CtrlToSender =>
      var c, popped := e.toSender[0], e.(toSender := e.toSender[1..]);
      RefusalsAreNotDone(e.rows, c.id);
      match c
      case Accept(id) => e', ask := popped, S.Accept(id);
      case Reject(id) => e', ask := popped.(rows := R.MarkRejected(e.rows, id)), S.Reject(id);
      case Cancel(id) => e', ask := popped.(rows := R.MarkCancelledRemote(e.rows, id)), S.Cancel(id);
  }

  lemma AsksKeeps(e: Engine, op: Op)
    requires Inv(e) && Asks(e, op)
    ensures Inv(Step(e, op))
  {
    var e', ask := AsksRun(e, op);
    MarkedRunKeeps(e, e', ask);
  }

  lemma ReceiverSteps(e: Engine, op: Op)
    requires RecvInv(e.tasks, e.recv) && !op.AddFile? && !op.Wake? && !Asks(e, op)
    ensures var e' := Step(e, op);
            && e'.sched == e.sched && e'.tasks == e.tasks && e'.rows == e.rows
            && RecvInv(e'.tasks, e'.recv)
  {
    match op
    case UserCancel(id) => DropKeeps(e.tasks, e.recv, id);
    case CtrlToReceiver =>
      if e.toReceiver != [] && e.toReceiver[0].Abort? {
        DropKeeps(e.tasks, e.recv, e.toReceiver[0].id);
      }
    case Deliver(k, now) =>
      if k < |e.tasks| && e.recv.routers[k].read < |e.tasks[k].frames| {
        ReceiveKeeps(e.tasks, e.recv, k, now);
      }
    case _ =>
  }

  /** Steps of the receiver, and control messages that ask for nothing, leave the sender's state alone. */
  lemma ReceiverKeeps(e: Engine, op: Op)
    requires Inv(e) && !op.AddFile? && !op.Wake? && !Asks(e, op)
    ensures Inv(Step(e, op))
  {
    ReceiverSteps(e, op);
  }

  lemma StepIsWake(e: Engine, op: Op)
    requires op.Wake?
    ensures Step(e, op) == if op.k < |e.tasks| then WakeTask(e, op.k, op.wake) else e
  {
  }

  lemma WakeStepKeeps(e: Engine, op: Op)
    requires Inv(e) && op.Wake?
    ensures Inv(Step(e, op))
  {
    StepIsWake(e, op);
    if op.k < |e.tasks| {
      WakeKeeps(e, op.k, op.wake);
    }
  }

  lemma StepKeeps(e: Engine, op: Op)
    requires Inv(e)
    ensures Inv(Step(e, op))
  {
    if op.AddFile? {
      AddFileKeeps(e, op.file);
    } else if op.Wake? {
      WakeStepKeeps(e, op);
    } else if Asks(e, op) {
      AsksKeeps(e, op);
    } else {
      ReceiverKeeps(e, op);
    }
  }

  lemma {:induction false} ExecKeeps(e: Engine, ops: seq<Op>)
    requires Inv(e)
    ensures Inv(Exec(e, ops))
    decreases |ops|
  {
    if ops == [] {
    } else {
      StepKeeps(e, ops[0]);
      ExecKeeps(Step(e, ops[0]), ops[1..]);
    }
  }

  lemma EmptyReceiver()
    ensures RecvInv([], RecvState([], map[], [], {}))
  {
  }

  lemma InitInv()
    ensures Inv(Init())
  {
    EmptyReceiver();
    S.RunsAreSafe<File>([]);
  }

  /** Some run of the session leads here. */
  ghost predicate Reachable(e: Engine) {
    exists ops :: e == Exec(Init(), ops)
  }

  lemma {:induction false} ExecJoin(e: Engine, a: seq<Op>, b: seq<Op>)
    ensures Exec(e, a + b) == Exec(Exec(e, a), b)
    decreases |a|
  {
    if a == [] {
      assert a + b == b;
    } else {
      assert (a + b)[1..] == a[1..] + b;
      ExecJoin(Step(e, a[0]), a[1..], b);
    }
  }

  lemma ExecOne(e: Engine, op: Op)
    ensures Exec(e, [op]) == Step(e, op)
  {
    assert [op][1..] == [];
    assert Exec(Step(e, op), []) == Step(e, op);
  }

  lemma ReachableStep(e: Engine, op: Op)
    requires Reachable(e)
    ensures Reachable(Step(e, op))
  {
    var ops :| e == Exec(Init(), ops);
    ExecJoin(Init(), ops, [op]);
    ExecOne(e, op);
  }

  lemma ReachableInv(e: Engine)
    requires Reachable(e)
    ensures Inv(e)
  {
    var ops :| e == Exec(Init(), ops);
    InitInv();
    ExecKeeps(Init(), ops);
  }

  lemma ReachableReceiver(e: Engine)
    requires Reachable(e)
    ensures RecvInv(e.tasks, e.recv)
  {
    ReachableInv(e);
  }

  lemma ReachableTask(e: Engine, k: nat)
    requires Reachable(e) && k < |e.tasks|
    ensures |e.tasks| == |e.recv.routers| && T.Inv(e.tasks[k])
  {
    ReachableReceiver(e);
  }

  lemma ReachableChannel(e: Engine, k: nat)
    requires Reachable(e) && k < |e.tasks|
    ensures |e.tasks| == |e.recv.routers| && T.Inv(e.tasks[k]) && RouterOk(e.tasks[k], e.recv.routers[k])
    ensures e.tasks[k].id in e.recv.incoming ==>
              EntryOk(e.tasks[k], e.recv.routers[k], e.recv.incoming[e.tasks[k].id])
  {
    ReachableReceiver(e);
  }

  lemma ReachableDistinct(e: Engine)
    requires Reachable(e)
    ensures DistinctIds(e.tasks)
  {
    ReachableReceiver(e);
  }

  // ----- what a session promises -----

  /** A saved file is the offered file of its id, byte for byte. */
  ghost predicate Exact(e: Engine, s: Saved) {
    && s.meta.id in e.sched.files
    && Describes(s.meta, s.meta.id, e.sched.files[s.meta.id])
    && s.bytes == e.sched.files[s.meta.id].bytes
  }

  lemma SavedIsExact(e: Engine, i: nat)
    requires Inv(e) && i < |e.recv.saved|
    ensures Exact(e, e.recv.saved[i])
  {
    assert HasSource(e.tasks, e.recv.routers, e.recv.saved[i]);
    var k :| 0 <= k < |e.tasks| && SavedFrom(e.tasks[k], e.recv.routers[k], e.recv.saved[i]);
    assert (e.tasks[k].id, e.tasks[k].file) == e.sched.started[k];
  }

  /** Whatever the interleaving and the cancels, every saved file is exact and no id is saved twice. */
  lemma EndToEndExact(e: Engine)
    requires Reachable(e)
    ensures forall i :: 0 <= i < |e.recv.saved| ==> Exact(e, e.recv.saved[i])
    ensures forall i, j :: 0 <= i < j < |e.recv.saved| ==> e.recv.saved[i].meta.id != e.recv.saved[j].meta.id
  {
    ReachableInv(e);
    forall i | 0 <= i < |e.recv.saved| ensures Exact(e, e.recv.saved[i]) {
      SavedIsExact(e, i);
    }
  }

  /** A channel read to its `End` has saved its file, unless the receiver dropped that id. */
  lemma NothingLostAtEnd(e: Engine, k: nat)
    requires Reachable(e) && k < |e.tasks| && k < |e.recv.routers|
    requires EndSeen(e.tasks[k], e.recv.routers[k]) && e.tasks[k].id !in e.recv.dropped
    ensures IsSaved(e.recv.saved, e.tasks[k].id)
  {
    ReachableReceiver(e);
    assert T.Framed(e.tasks[k]);
    assert RouterOk(e.tasks[k], e.recv.routers[k]);
  }

  /** The coroutine sent everything, or was refused a read of the file. */
  ghost predicate SentOrRefused(t: T.Task) {
    || t.phase == T.Ended(T.Failed)
    || (t.phase == T.Ended(T.Sent) && Flatten(T.Payloads(t.frames)) == t.file.bytes)
  }

  lemma EndedIsSentOrRefused(t: T.Task)
    requires T.Inv(t) && t.phase.Ended? && t.phase != T.Ended(T.Stopped)
    ensures SentOrRefused(t)
  {
    if t.phase == T.Ended(T.Sent) {
      T.SentIsWhole(t);
    }
  }

  lemma ReachableDone(e: Engine, id: nat) returns (k: nat)
    requires Reachable(e)
    requires (id, false) in e.rows && e.rows[(id, false)].state == R.Done
    ensures k < |e.tasks| && e.tasks[k].id == id && e.tasks[k].phase.Ended?
    ensures e.tasks[k].phase != T.Ended(T.Stopped)
  {
    ReachableInv(e);
    assert RanOut(e.tasks, id);
    k :| 0 <= k < |e.tasks| && e.tasks[k].id == id && e.tasks[k].phase.Ended?
         && e.tasks[k].phase != T.Ended(T.Stopped);
  }

  /** The sender's row says done only if its coroutine sent everything, or was refused a read. */
  lemma DoneMeansSentOrRefused(e: Engine, id: nat)
    requires Reachable(e)
    requires (id, false) in e.rows && e.rows[(id, false)].state == R.Done
    ensures exists k :: 0 <= k < |e.tasks| && e.tasks[k].id == id && SentOrRefused(e.tasks[k])
  {
    var k := ReachableDone(e, id);
    ReachableTask(e, k);
    EndedIsSentOrRefused(e.tasks[k]);
  }

  // ----- when done means sent -----

  /** Some step of the run refused coroutine `k` the slab it was waiting for. */
  predicate Refused(e: Engine, ops: seq<Op>, k: nat)
    decreases |ops|
  {
    && ops != []
    && ((k < |e.tasks| && e.tasks[k].phase.AwaitSlab? && ops[0] == Wake(k, T.SlabRefused))
        || Refused(Step(e, ops[0]), ops[1..], k))
  }

  ghost predicate HasFailed(e: Engine, k: nat) {
    k < |e.tasks| && e.tasks[k].phase == T.Ended(T.Failed)
  }

  lemma RunFails(e: Engine, op: S.Op<File>, k: nat)
    ensures HasFailed(Run(e, op), k) <==> HasFailed(e, k)
  {
  }

  lemma EndsFails(e: Engine, t: T.Task, cancelled: bool, k: nat)
    ensures HasFailed(Ends(e, t, cancelled), k) <==> HasFailed(e, k)
  {
    RunFails(e.(rows := Ends(e, t, cancelled).rows), S.Finish(t.id), k);
  }

  lemma WokenFails(e: Engine, i: nat, wake: T.Wake, k: nat)
    requires i < |e.tasks|
    ensures HasFailed(Woken(e, i, wake), k)
            <==> HasFailed(e, k) || (k == i && e.tasks[k].phase.AwaitSlab? && wake.SlabRefused?)
  {
    T.FailsOnlyRefused(e.tasks[i], wake, e.tasks[i].id in e.sched.out.cancelled);
  }

  lemma WakeFails(e: Engine, i: nat, wake: T.Wake, k: nat)
    requires i < |e.tasks|
    ensures HasFailed(WakeTask(e, i, wake), k)
            <==> HasFailed(e, k) || (k == i && e.tasks[k].phase.AwaitSlab? && wake.SlabRefused?)
  {
    var e' := Woken(e, i, wake);
    WokenFails(e, i, wake, k);
    EndsFails(e', e'.tasks[i], e.tasks[i].id in e.sched.out.cancelled, k);
  }

  lemma StepFails(e: Engine, op: Op, k: nat)
    ensures HasFailed(Step(e, op), k)
            <==> HasFailed(e, k)
                 || (k < |e.tasks| && e.tasks[k].phase.AwaitSlab? && op == Wake(k, T.SlabRefused))
  {
    if op.Wake? {
      StepIsWake(e, op);
      if op.k < |e.tasks| { WakeFails(e, op.k, op.wake, k); }
    }
  }

  lemma {:induction false} FailedIffRefused(e: Engine, ops: seq<Op>, k: nat)
    ensures HasFailed(Exec(e, ops), k) <==> HasFailed(e, k) || Refused(e, ops, k)
    decreases |ops|
  {
    if ops == [] {
    } else {
      StepFails(e, ops[0], k);
      FailedIffRefused(Step(e, ops[0]), ops[1..], k);
    }
  }

  /** Over every run, a done row means that the whole file was sent exactly when no read of it was refused. */
  lemma DoneIsSentIffNeverRefused(ops: seq<Op>, k: nat)
    requires var e := Exec(Init(), ops);
             && k < |e.tasks|
             && (e.tasks[k].id, false) in e.rows && e.rows[(e.tasks[k].id, false)].state == R.Done
    ensures Flatten(T.Payloads(Exec(Init(), ops).tasks[k].frames)) == Exec(Init(), ops).tasks[k].file.bytes
            <==> !Refused(Init(), ops, k)
  {
    var e := Exec(Init(), ops);
    var j := ReachableDone(e, e.tasks[k].id);
    ReachableDistinct(e);
    assert j == k;
    ReachableTask(e, k);
    FailedIffRefused(Init(), ops, k);
    T.PayloadsArePrefix(e.tasks[k]);
    EndedIsSentOrRefused(e.tasks[k]);
  }

  // ----- what is offered is what is saved -----

  /** Every offer under way describes the file of its id. */
  ghost predicate OffersTrue(e: Engine) {
    forall i :: 0 <= i < |e.toReceiver| && e.toReceiver[i].Offer? ==>
      && e.toReceiver[i].meta.id in e.sched.files
      && Describes(e.toReceiver[i].meta, e.toReceiver[i].meta.id, e.sched.files[e.toReceiver[i].meta.id])
  }

  lemma RunFiles(s: S.Sched<File>, op: S.Op<File>)
    requires forall id :: id in s.files ==> id < s.nextId
    ensures forall id :: id in s.files ==> id in S.Step(s, op).files && S.Step(s, op).files[id] == s.files[id]
  {
  }

  lemma StepFiles(e: Engine, op: Op)
    requires forall id :: id in e.sched.files ==> id < e.sched.nextId
    ensures forall id :: id in e.sched.files ==>
              id in Step(e, op).sched.files && Step(e, op).sched.files[id] == e.sched.files[id]
  {
    if op.AddFile? {
      RunFiles(e.sched, S.Offer(op.file));
    } else if op.Wake? && op.k < |e.tasks| {
      RunFiles(e.sched, S.Finish(Woken(e, op.k, op.wake).tasks[op.k].id));
    } else if Asks(e, op) {
      var e', ask := AsksRun(e, op);
      RunFiles(e.sched, ask);
    }
  }

  lemma AddOffers(e: Engine, file: File)
    requires OffersTrue(e) && forall id :: id in e.sched.files ==> id < e.sched.nextId
    ensures OffersTrue(Step(e, AddFile(file)))
  {
    RunFiles(e.sched, S.Offer(file));
  }

  lemma StepOffers(e: Engine, op: Op)
    requires OffersTrue(e) && forall id :: id in e.sched.files ==> id < e.sched.nextId
    ensures OffersTrue(Step(e, op))
  {
    if op.AddFile? {
      AddOffers(e, op.file);
    } else if op.Wake? && op.k < |e.tasks| {
      var t := Woken(e, op.k, op.wake).tasks[op.k];
      RunFiles(e.sched, S.Finish(t.id));
    } else if Asks(e, op) {
      var id := if op.UserAbort? then op.id else e.toSender[0].id;
      RunFiles(e.sched, S.Accept(id));
      RunFiles(e.sched, S.Reject(id));
      RunFiles(e.sched, S.Cancel(id));
    }
  }

  lemma ReachableFiles(e: Engine)
    requires Reachable(e)
    ensures forall id :: id in e.sched.files ==> id < e.sched.nextId
  {
    ReachableInv(e);
    assert S.Conserved(e.sched);
  }

  lemma {:induction false} ExecOffers(e: Engine, ops: seq<Op>)
    requires Reachable(e) && OffersTrue(e)
    ensures OffersTrue(Exec(e, ops))
    decreases |ops|
  {
    if ops == [] {
    } else {
      ReachableFiles(e);
      StepOffers(e, ops[0]);
      ReachableStep(e, ops[0]);
      ExecOffers(Step(e, ops[0]), ops[1..]);
    }
  }

  /** The receiver decides on true descriptions: name, size and type of an offer are those of the file it stands for. */
  lemma OffersAreTrue(e: Engine)
    requires Reachable(e)
    ensures OffersTrue(e)
  {
    var ops :| e == Exec(Init(), ops);
    assert Exec(Init(), []) == Init();
    ExecOffers(Init(), ops);
  }

  // ----- nothing is saved without the receiver's consent -----

  ghost predicate Consented(e: Engine, granted: set<nat>) {
    && (forall i :: 0 <= i < |e.toSender| && e.toSender[i].Accept? ==> e.toSender[i].id in granted)
    && (forall id :: id in e.sched.accepted ==> id in granted)
  }

  function Granted(ops: seq<Op>): set<nat> {
    if ops == [] then {}
    else (if ops[0].UserAccept? then {ops[0].id} else {}) + Granted(ops[1..])
  }

  lemma RunConsents(e: Engine, op: S.Op<File>, granted: set<nat>)
    requires Consented(e, granted) && (op.Accept? ==> op.id in granted)
    ensures Consented(Run(e, op), granted)
  {
    assert forall id :: id in S.Step(e.sched, op).accepted ==>
        id in e.sched.accepted || (op.Accept? && id == op.id);
  }

  lemma StepConsents(e: Engine, op: Op, granted: set<nat>)
    requires Consented(e, granted)
    ensures Consented(Step(e, op), granted + if op.UserAccept? then {op.id} else {})
  {
    match op
    case AddFile(file) =>
      var id := e.sched.nextId;
      var rows := R.MarkOffered(R.PushPending(e.rows, id, file.name, |file.bytes| as real), id);
      RunConsents(e.(toReceiver := e.toReceiver + [Offer(MetaOf(id, file))], rows := rows), S.Offer(file), granted);
    case UserAbort(id) =>
      var rows := R.MarkCancelledRemote(e.rows, id);
      RunConsents(e.(toReceiver := e.toReceiver + [Abort(id)], rows := rows), S.Cancel(id), granted);
    case CtrlToSender =>
      if e.toSender != [] {
        var e' := e.(toSender := e.toSender[1..]);
        match e.toSender[0]
        case Accept(id) => RunConsents(e', S.Accept(id), granted);
        case Reject(id) => RunConsents(e'.(rows := R.MarkRejected(e.rows, id)), S.Reject(id), granted);
        case Cancel(id) => RunConsents(e'.(rows := R.MarkCancelledRemote(e.rows, id)), S.Cancel(id), granted);
        case _ =>
      }
    case Wake(k, wake) =>
      if k < |e.tasks| {
        var e' := Woken(e, k, wake);
        assert Consented(e', granted);
        var t := e'.tasks[k];
        var rows := R.SendProgress(e'.rows, t.id, t.file.name, t.Size() as real, t.Size() as real);
        RunConsents(e', S.Finish(t.id), granted);
        RunConsents(e'.(rows := rows), S.Finish(t.id), granted);
      }
    case _ =>
  }

  lemma {:induction false} ExecConsents(e: Engine, ops: seq<Op>, granted: set<nat>)
    requires Consented(e, granted)
    ensures Consented(Exec(e, ops), granted + Granted(ops))
    decreases |ops|
  {
    if ops == [] {
      assert granted + Granted(ops) == granted;
    } else {
      StepConsents(e, ops[0], granted);
      var now := granted + if ops[0].UserAccept? then {ops[0].id} else {};
      ExecConsents(Step(e, ops[0]), ops[1..], now);
      assert now + Granted(ops[1..]) == granted + Granted(ops);
    }
  }

  lemma {:induction false} GrantedByUser(ops: seq<Op>, id: nat)
    requires id in Granted(ops)
    ensures UserAccept(id) in ops
  {
    if ops[0] == UserAccept(id) {
    } else {
      GrantedByUser(ops[1..], id);
    }
  }

  lemma SavedWasAccepted(e: Engine, i: nat)
    requires Reachable(e) && i < |e.recv.saved|
    ensures e.recv.saved[i].meta.id in e.sched.accepted
  {
    ReachableInv(e);
    assert HasSource(e.tasks, e.recv.routers, e.recv.saved[i]);
    var k :| 0 <= k < |e.tasks| && SavedFrom(e.tasks[k], e.recv.routers[k], e.recv.saved[i]);
    assert (e.tasks[k].id, e.tasks[k].file) == e.sched.started[k];
    assert S.Has(e.sched.started, e.tasks[k].id);
  }

  /** A file lands only if the receiving user accepted it. */
  lemma SavedOnlyWithConsent(ops: seq<Op>, i: nat)
    requires i < |Exec(Init(), ops).recv.saved|
    ensures UserAccept(Exec(Init(), ops).recv.saved[i].meta.id) in ops
  {
    var e := Exec(Init(), ops);
    SavedWasAccepted(e, i);
    ExecConsents(Init(), ops, {});
    GrantedByUser(ops, e.recv.saved[i].meta.id);
  }
}
