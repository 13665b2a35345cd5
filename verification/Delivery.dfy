/** Which files can still land: what a receiver's cancel or a sender's abort settles, and what overtakes it. */
module Delivery {
  import opened Prelude
  import opened Protocol
  import opened TransferState
  import opened Receiver
  import opened TransferEngine
  import opened Cancellation
  import S = Scheduler
  import T = SendTask
  import R = RowMaps

  /** No user acts: only coroutines are woken and frames delivered. */
  predicate Automatic(ops: seq<Op>) {
    forall i :: 0 <= i < |ops| ==> ops[i].Wake? || ops[i].Deliver? || ops[i].CtrlToSender?
  }

  // ----- driving one coroutine to its end -----

  /** New channels may have opened; nothing the receiver holds has changed. */
  ghost predicate Undisturbed(recv: RecvState, recv': RecvState) {
    && recv.routers <= recv'.routers
    && (forall j :: |recv.routers| <= j < |recv'.routers| ==> recv'.routers[j] == Router(0, None))
    && recv' == recv.(routers := recv'.routers)
  }

  /** From `e` to `e'` only coroutine `k` was woken; if it ended, its slot was freed. */
  ghost predicate Drove(e: Engine, e': Engine, k: nat) {
    && k < |e.tasks| <= |e'.tasks|
    && e'.tasks[k].id == e.tasks[k].id && e'.tasks[k].file == e.tasks[k].file
    && Undisturbed(e.recv, e'.recv) && e'.toSender == e.toSender
    && e'.sched == (if e'.tasks[k].phase.Ended? && !e.tasks[k].phase.Ended?
                    then S.Step(e.sched, S.Finish(e.tasks[k].id)) else e.sched)
  }

  lemma DroveTwice(e: Engine, e1: Engine, e2: Engine, k: nat)
    requires Drove(e, e1, k) && Drove(e1, e2, k) && !e.tasks[k].phase.Ended? && !e1.tasks[k].phase.Ended?
    ensures Drove(e, e2, k)
  {
    var a, b, c := e.recv.routers, e1.recv.routers, e2.recv.routers;
    forall j | |a| <= j < |c| ensures c[j] == Router(0, None) {
      if j < |b| {
        assert b[j] == c[j];
      }
    }
  }

  lemma RunUndisturbs(e: Engine, op: S.Op<File>)
    ensures var e' := Run(e, op);
            && Undisturbed(e.recv, e'.recv) && e'.toSender == e.toSender
            && e.tasks <= e'.tasks && e'.sched == S.Step(e.sched, op)
  {
  }

  lemma WakeTaskDrives(e: Engine, k: nat, wake: T.Wake)
    requires k < |e.tasks|
    ensures var e' := WakeTask(e, k, wake);
            && Drove(e, e', k)
            && e'.tasks[k] == T.Step(e.tasks[k], wake, e.tasks[k].id in e.sched.out.cancelled)
  {
    var t, e1 := e.tasks[k], Woken(e, k, wake);
    T.StepExtends(t, wake, t.id in e.sched.out.cancelled);
    if e1.tasks[k].phase.Ended? && !t.phase.Ended? {
      var ends := Ends(e1, e1.tasks[k], t.id in e.sched.out.cancelled);
      RunUndisturbs(e1.(rows := ends.rows), S.Finish(t.id));
    }
  }

  lemma WakeDrives(e: Engine, k: nat, wake: T.Wake)
    requires Reachable(e) && k < |e.tasks|
    ensures var e' := Step(e, Wake(k, wake));
            && Reachable(e') && Drove(e, e', k)
            && e'.tasks[k] == T.Step(e.tasks[k], wake, e.tasks[k].id in e.sched.out.cancelled)
  {
    ReachableStep(e, Wake(k, wake));
    StepIsWake(e, Wake(k, wake));
    WakeTaskDrives(e, k, wake);
  }

  lemma ExecTwo(e: Engine, a: Op, b: Op)
    ensures Exec(e, [a, b]) == Step(Step(e, a), b)
  {
    assert [a, b] == [a] + [b];
    ExecJoin(e, [a], [b]);
    ExecOne(e, a);
    ExecOne(Step(e, a), b);
  }

  lemma DrainedWaits(t: T.Task, flagged: bool)
    requires T.Inv(t) && !t.phase.Ended?
    ensures var t' := T.Step(t, T.Drains(t.buffered), flagged);
            && T.Inv(t') && t'.phase == t.phase && t'.buffered == 0 && T.ToGo(t') == T.ToGo(t)
  {
    T.StepKeeps(t, T.Drains(t.buffered), flagged);
  }

  /** No flag will stop coroutine `k`: it has none, or a file without bytes, which is not stopped by it. */
  ghost predicate Unhindered(e: Engine, k: nat)
    requires k < |e.tasks|
  {
    e.tasks[k].id !in e.sched.out.cancelled || e.tasks[k].Size() == 0
  }

  lemma NudgedTask(t: T.Task, flagged: bool)
    requires T.Inv(t) && !t.phase.Ended?
    ensures var t1 := T.Step(t, T.Drains(t.buffered), flagged);
            var t2 := T.Step(t1, T.Next(t1), flagged);
            && !t1.phase.Ended?
            && (if flagged && t.Size() > 0 then t2.phase == T.Ended(T.Stopped)
                else t2.phase == T.Ended(T.Sent) || (!t2.phase.Ended? && T.ToGo(t2) < T.ToGo(t)))
  {
    DrainedWaits(t, flagged);
    T.NextProgresses(T.Step(t, T.Drains(t.buffered), flagged), flagged);
  }

  /** Empty the buffer, then wake the coroutine for what it waits for. */
  lemma Nudge(e: Engine, k: nat) returns (ops: seq<Op>)
    requires Reachable(e) && k < |e.tasks| && !e.tasks[k].phase.Ended?
    ensures Automatic(ops)
    ensures var e' := Exec(e, ops);
            && Reachable(e') && Drove(e, e', k)
            && (if !Unhindered(e, k) then e'.tasks[k].phase == T.Ended(T.Stopped)
                else e'.tasks[k].phase == T.Ended(T.Sent)
                     || (!e'.tasks[k].phase.Ended? && T.ToGo(e'.tasks[k]) < T.ToGo(e.tasks[k])))
  {
    var flagged, drains := e.tasks[k].id in e.sched.out.cancelled, T.Drains(e.tasks[k].buffered);
    ReachableTask(e, k);
    NudgedTask(e.tasks[k], flagged);
    WakeDrives(e, k, drains);
    var e1 := Step(e, Wake(k, drains));
    var next := T.Next(e1.tasks[k]);
    WakeDrives(e1, k, next);
    DroveTwice(e, e1, Step(e1, Wake(k, next)), k);
    ops := [Wake(k, drains), Wake(k, next)];
    ExecTwo(e, ops[0], ops[1]);
  }

  /** Wake-ups alone bring any running coroutine to its end, and to `End` exactly when no flag hinders it. */
  lemma {:induction false} DriveToEnd(e: Engine, k: nat) returns (ops: seq<Op>)
    requires Reachable(e) && k < |e.tasks| && !e.tasks[k].phase.Ended?
    ensures Automatic(ops)
    ensures var e' := Exec(e, ops);
            && Reachable(e') && Drove(e, e', k) && e'.tasks[k].phase.Ended?
            && (e'.tasks[k].phase == T.Ended(T.Sent) <==> Unhindered(e, k))
    decreases T.ToGo(e.tasks[k])
  {
    ops := Nudge(e, k);
    var e1 := Exec(e, ops);
    if e1.tasks[k].phase.Ended? {
    } else {
      var rest := DriveToEnd(e1, k);
      DroveTwice(e, e1, Exec(e1, rest), k);
      ExecJoin(e, ops, rest);
      ops := ops + rest;
    }
  }

  // ----- reading one channel to its end -----

  /** The channel of `k` was not begun, or what was read is still buffered. */
  ghost predicate Listening(e: Engine, k: nat) {
    && k < |e.tasks| && k < |e.recv.routers|
    && (e.recv.routers[k].read == 0 || e.tasks[k].id in e.recv.incoming)
  }

  lemma DeliverIsReceive(e: Engine, k: nat, now: real)
    requires k < |e.tasks| && k < |e.recv.routers| && e.recv.routers[k].read < |e.tasks[k].frames|
    ensures Step(e, Deliver(k, now)).recv == e.recv.Receive(k, e.tasks[k].frames[e.recv.routers[k].read], now)
  {
  }

  lemma DeliveredKeepsBuffer(e: Engine, k: nat)
    requires Reachable(e) && Listening(e, k) && e.recv.routers[k].read < |e.tasks[k].frames|
    ensures var recv := Step(e, Deliver(k, 0.0)).recv;
            && k < |recv.routers| && recv.routers[k].read == e.recv.routers[k].read + 1
            && (IsSaved(recv.saved, e.tasks[k].id) || e.tasks[k].id in recv.incoming)
  {
    ReachableChannel(e, k);
    DeliverIsReceive(e, k, 0.0);
    ReceiveProgresses(e.tasks[k], e.recv, k, 0.0);
  }

  lemma ListeningHasMore(e: Engine, k: nat)
    requires Reachable(e) && Listening(e, k) && e.tasks[k].phase == T.Ended(T.Sent)
    ensures e.recv.routers[k].read < |e.tasks[k].frames|
  {
    ReachableChannel(e, k);
  }

  lemma DeliverProgresses(e: Engine, k: nat)
    requires Reachable(e) && Listening(e, k) && e.tasks[k].phase == T.Ended(T.Sent)
    ensures var e' := Step(e, Deliver(k, 0.0));
            && Reachable(e') && e'.tasks == e.tasks
            && k < |e'.recv.routers|
            && e'.recv.routers[k].read == e.recv.routers[k].read + 1 <= |e.tasks[k].frames|
            && (IsSaved(e'.recv.saved, e.tasks[k].id) || Listening(e', k))
  {
    ListeningHasMore(e, k);
    DeliveredKeepsBuffer(e, k);
    ReachableStep(e, Deliver(k, 0.0));
  }

  /** Delivering the rest of a finished channel whose buffer is intact saves the file. */
  lemma {:induction false} DeliverToEnd(e: Engine, k: nat) returns (ops: seq<Op>)
    requires Reachable(e) && Listening(e, k) && e.tasks[k].phase == T.Ended(T.Sent)
    requires e.recv.routers[k].read <= |e.tasks[k].frames|
    ensures Automatic(ops) && IsSaved(Exec(e, ops).recv.saved, e.tasks[k].id)
    decreases |e.tasks[k].frames| - e.recv.routers[k].read
  {
    DeliverProgresses(e, k);
    var e' := Step(e, Deliver(k, 0.0));
    var rest: seq<Op> := [];
    if IsSaved(e'.recv.saved, e.tasks[k].id) {
    } else {
      rest := DeliverToEnd(e', k);
    }
    ops := [Deliver(k, 0.0)] + rest;
    ExecJoin(e, [Deliver(k, 0.0)], rest);
    ExecOne(e, Deliver(k, 0.0));
  }

  /** Coroutine `k` has sent everything, or runs and no flag hinders it. */
  ghost predicate Willing(e: Engine, k: nat) {
    && k < |e.tasks| && k < |e.recv.routers|
    && ((!e.tasks[k].phase.Ended? && Unhindered(e, k)) || e.tasks[k].phase == T.Ended(T.Sent))
  }

  /** A willing coroutine whose receiver still listens can always be brought to a saved file. */
  lemma CanStillBeSaved(e: Engine, k: nat) returns (ops: seq<Op>)
    requires Reachable(e) && Willing(e, k) && Listening(e, k)
    ensures Automatic(ops) && IsSaved(Exec(e, ops).recv.saved, e.tasks[k].id)
  {
    var a: seq<Op> := [];
    if !e.tasks[k].phase.Ended? {
      a := DriveToEnd(e, k);
    }
    ListeningHasMore(Exec(e, a), k);
    var b := DeliverToEnd(Exec(e, a), k);
    ops := a + b;
    ExecJoin(e, a, b);
  }

  lemma SavedSomehow(e: Engine, ops: seq<Op>, id: nat)
    requires IsSaved(Exec(e, ops).recv.saved, id)
    ensures !NeverSaved(e, id)
  {
  }

  // ----- flagged coroutines -----

  lemma UnsentHasBytes(e: Engine, k: nat)
    requires k < |e.tasks| && T.Inv(e.tasks[k])
    requires e.tasks[k].phase.Ended? && e.tasks[k].phase != T.Ended(T.Sent)
    ensures e.tasks[k].Size() > 0
  {
  }

  lemma HinderedIsNeverSaved(e: Engine, k: nat)
    requires Reachable(e) && k < |e.tasks|
    requires e.tasks[k].phase != T.Ended(T.Sent) && (e.tasks[k].phase.Ended? || !Unhindered(e, k))
    ensures NeverSaved(e, e.tasks[k].id)
  {
    ReachableFits(e, e.tasks[k].id);
    if e.tasks[k].phase.Ended? { UnsentHasBytes(e, k); }
    UnsentIsBarred(e, k);
    NeverSavedWhenBarred(e, e.tasks[k].id);
  }

  lemma EmptyWaits(t: T.Task)
    requires T.Inv(t) && !t.phase.Ended? && t.Size() == 0
    ensures t.frames == []
  {
    assert t.phase.AwaitOpen?;
  }

  lemma EmptyWaitsUnread(e: Engine, k: nat)
    requires Reachable(e) && k < |e.tasks| && !e.tasks[k].phase.Ended? && e.tasks[k].Size() == 0
    ensures Listening(e, k)
  {
    ReachableChannel(e, k);
    EmptyWaits(e.tasks[k]);
  }

  /** A flagged running coroutine's file is never saved, over every run, exactly when it has bytes. */
  lemma FlaggedIsNeverSavedIffNonEmpty(e: Engine, k: nat)
    requires Reachable(e) && k < |e.tasks| && !e.tasks[k].phase.Ended?
    requires e.tasks[k].id in e.sched.out.cancelled
    ensures NeverSaved(e, e.tasks[k].id) <==> e.tasks[k].Size() > 0
  {
    if e.tasks[k].Size() > 0 {
      HinderedIsNeverSaved(e, k);
    } else {
      EmptyWaitsUnread(e, k);
      var ops := CanStillBeSaved(e, k);
      SavedSomehow(e, ops, e.tasks[k].id);
    }
  }

  // ----- a buffer dropped in mid-channel -----

  /** The channel of `k` had begun, its buffer is gone, and its file was not saved. */
  ghost predicate Gone(e: Engine, k: nat) {
    Lost(e.tasks, e.recv, k)
  }

  lemma WakeStaysGone(e: Engine, j: nat, wake: T.Wake, k: nat)
    requires Gone(e, k) && j < |e.tasks|
    ensures Gone(WakeTask(e, j, wake), k)
  {
    T.StepExtends(e.tasks[j], wake, e.tasks[j].id in e.sched.out.cancelled);
    assert Gone(Woken(e, j, wake), k);
  }

  lemma HandleStaysGone(e: Engine, c: Control, k: nat)
    requires Gone(e, k)
    ensures Gone(HandleAtSender(e, c), k)
  {
  }

  lemma DeliverStaysGone(e: Engine, j: nat, now: real, k: nat)
    requires RecvInv(e.tasks, e.recv) && Gone(e, k)
    ensures Gone(Step(e, Deliver(j, now)), k)
  {
    if j < |e.tasks| && j < |e.recv.routers| && e.recv.routers[j].read < |e.tasks[j].frames| {
      ReceiveForgets(e.tasks, e.recv, j, now, k);
    }
  }

  lemma StepStaysGone(e: Engine, op: Op, k: nat)
    requires Gone(e, k) && !op.Deliver?
    ensures Gone(Step(e, op), k)
  {
    match op
    case CtrlToSender =>
      if e.toSender != [] { HandleStaysGone(e.(toSender := e.toSender[1..]), e.toSender[0], k); }
    case Wake(j, wake) =>
      if j < |e.tasks| { WakeStaysGone(e, j, wake, k); }
    case _ =>
  }

  lemma WakeIdsStay(e: Engine, i: nat, wake: T.Wake, k: nat)
    requires i < |e.tasks| && k < |e.tasks|
    ensures k < |WakeTask(e, i, wake).tasks| && WakeTask(e, i, wake).tasks[k].id == e.tasks[k].id
  {
    T.StepExtends(e.tasks[i], wake, e.tasks[i].id in e.sched.out.cancelled);
  }

  lemma IdsStay(e: Engine, op: Op, k: nat)
    requires k < |e.tasks|
    ensures k < |Step(e, op).tasks| && Step(e, op).tasks[k].id == e.tasks[k].id
  {
    if op.Wake? {
      if op.k < |e.tasks| { WakeIdsStay(e, op.k, op.wake, k); }
    }
  }

  lemma {:induction false} GoneForGood(e: Engine, ops: seq<Op>, k: nat)
    requires Reachable(e) && Gone(e, k)
    ensures Gone(Exec(e, ops), k) && Exec(e, ops).tasks[k].id == e.tasks[k].id
    decreases |ops|
  {
    if ops == [] {
    } else {
      if ops[0].Deliver? {
        ReachableReceiver(e);
        DeliverStaysGone(e, ops[0].k, ops[0].now, k);
      } else {
        StepStaysGone(e, ops[0], k);
      }
      ReachableStep(e, ops[0]);
      IdsStay(e, ops[0], k);
      GoneForGood(Step(e, ops[0]), ops[1..], k);
    }
  }

  lemma GoneIsNeverSaved(e: Engine, k: nat)
    requires Reachable(e) && Gone(e, k)
    ensures NeverSaved(e, e.tasks[k].id)
  {
    forall ops ensures !IsSaved(Exec(e, ops).recv.saved, e.tasks[k].id) {
      GoneForGood(e, ops, k);
    }
  }

  /** The receiver forgot the id of coroutine `k`; of the session nothing else that matters changed. */
  ghost predicate Forgot(e: Engine, e1: Engine, k: nat) {
    k < |e.tasks| && e1.tasks == e.tasks && e1.sched == e.sched && e1.recv == e.recv.Drop(e.tasks[k].id)
  }

  lemma DropSticksIffStarted(e: Engine, e1: Engine, k: nat)
    requires Reachable(e1) && Willing(e, k) && Forgot(e, e1, k) && !IsSaved(e.recv.saved, e.tasks[k].id)
    ensures NeverSaved(e1, e.tasks[k].id) <==> e.recv.routers[k].read > 0
  {
    var id := e.tasks[k].id;
    if e.recv.routers[k].read > 0 {
      assert Gone(e1, k);
      GoneIsNeverSaved(e1, k);
    } else {
      var ops := CanStillBeSaved(e1, k);
      SavedSomehow(e1, ops, id);
    }
  }

  // ----- from the queue to a channel -----

  /** Coroutine `k` of `id` runs in `e'`, unread; flags of `id`, files and buffers are as they were in `e`. */
  ghost predicate Begun(e: Engine, e': Engine, id: nat, k: nat) {
    && Reachable(e')
    && k < |e'.tasks| && k < |e'.recv.routers|
    && e'.tasks[k].id == id && !e'.tasks[k].phase.Ended? && e'.recv.routers[k] == Router(0, None)
    && (id in e'.sched.out.cancelled <==> id in e.sched.out.cancelled)
    && e'.sched.files == e.sched.files
  }

  lemma ReachableSched(e: Engine)
    requires Reachable(e)
    ensures S.Inv(e.sched) && |e.tasks| == |e.sched.started| == |e.recv.routers|
  {
    ReachableInv(e);
  }

  lemma ReachableMatch(e: Engine, k: nat)
    requires Reachable(e) && k < |e.tasks|
    ensures k < |e.sched.started| && e.tasks[k].id == e.sched.started[k].0
    ensures e.tasks[k].phase.Ended? <==> e.tasks[k].id in e.sched.finished
  {
    ReachableInv(e);
    assert (e.tasks[k].id, e.tasks[k].file) == e.sched.started[k];
  }

  lemma StartedHasTask(e: Engine, id: nat) returns (k: nat)
    requires Reachable(e) && S.Has(e.sched.started, id)
    ensures k < |e.tasks| && e.tasks[k].id == id
  {
    ReachableSched(e);
    k :| 0 <= k < |e.sched.started| && e.sched.started[k].0 == id;
    ReachableMatch(e, k);
  }

  lemma OnePlace(s: S.Sched<File>, id: nat)
    requires S.Inv(s)
    ensures S.Places(s, id) == S.One(id in s.files)
    ensures S.Has(s.started, id) <==> id in s.out.active || id in s.finished
  {
  }

  lemma ActiveRuns(e: Engine, id: nat) returns (k: nat)
    requires Reachable(e) && id in e.sched.out.active
    ensures k < |e.tasks| && e.tasks[k].id == id && !e.tasks[k].phase.Ended?
  {
    ReachableSched(e);
    OnePlace(e.sched, id);
    k := StartedHasTask(e, id);
    ReachableMatch(e, k);
  }

  lemma FinishFlags(s: S.Sched<File>, id: nat)
    requires id in s.out.active
    ensures S.Step(s, S.Finish(id)).out.cancelled == s.out.cancelled - {id}
    ensures S.Step(s, S.Finish(id)).files == s.files
  {
    ScheduleFlags(s.out.(active := s.out.active - {id}, cancelled := s.out.cancelled - {id}), S.MAX_CONCURRENT);
  }

  lemma HeadStarts(s: S.Sched<File>, a: nat, i: nat)
    requires S.Inv(s) && a in s.out.active && i < |s.out.queue|
    ensures var s', id := S.Step(s, S.Finish(a)), s.out.queue[i].0;
            && s'.files == s.files
            && (id in s'.out.cancelled <==> id in s.out.cancelled)
            && s'.out.queue == s.out.queue[1..]
            && s'.started == s.started + [s.out.queue[0]]
            && id !in s'.finished
  {
    S.QueuedIsIdle(s, i);
    assert S.Has(s.out.queue, s.out.queue[i].0);
    OnePlace(s, s.out.queue[i].0);
    S.FinishAdvances(s, a);
    FinishFlags(s, a);
    SchedGrows(s, S.Finish(a));
  }

  /** End one streaming coroutine: the head of a waiting queue starts, everything behind it moves up. */
  lemma FreeOneSlot(e: Engine, i: nat) returns (ops: seq<Op>)
    requires Reachable(e) && i < |e.sched.out.queue|
    ensures Automatic(ops)
    ensures var e', id := Exec(e, ops), e.sched.out.queue[i].0;
            && Reachable(e') && e'.sched.files == e.sched.files && Undisturbed(e.recv, e'.recv)
            && (id in e'.sched.out.cancelled <==> id in e.sched.out.cancelled)
            && e'.sched.out.queue == e.sched.out.queue[1..]
            && e'.sched.started == e.sched.started + [e.sched.out.queue[0]]
            && id !in e'.sched.finished
  {
    ReachableSched(e);
    assert S.Capped(e.sched) && e.sched.out.active != {};
    var a :| a in e.sched.out.active;
    var j := ActiveRuns(e, a);
    ops := DriveToEnd(e, j);
    HeadStarts(e.sched, a, i);
  }

  /** One start more, of a file that has not finished, is one running coroutine more, still unread. */
  lemma StartedIsBegun(e: Engine, e': Engine, id: nat)
    requires Reachable(e) && Reachable(e') && Undisturbed(e.recv, e'.recv)
    requires |e'.sched.started| == |e.sched.started| + 1 && e'.sched.started[|e.sched.started|].0 == id
    requires id !in e'.sched.finished && e'.sched.files == e.sched.files
    requires id in e'.sched.out.cancelled <==> id in e.sched.out.cancelled
    ensures Begun(e, e', id, |e.tasks|)
  {
    ReachableSched(e);
    ReachableSched(e');
    ReachableMatch(e', |e.tasks|);
  }

  lemma BegunLater(e: Engine, ops: seq<Op>, more: seq<Op>, id: nat, k: nat)
    requires Begun(Exec(e, ops), Exec(Exec(e, ops), more), id, k) && Exec(e, ops).sched.files == e.sched.files
    requires id in Exec(e, ops).sched.out.cancelled <==> id in e.sched.out.cancelled
    ensures Begun(e, Exec(e, ops + more), id, k)
  {
    ExecJoin(e, ops, more);
  }

  lemma HeadIsBegun(e: Engine, ops: seq<Op>)
    requires Reachable(e) && e.sched.out.queue != [] && Reachable(Exec(e, ops))
    requires var e', id := Exec(e, ops), e.sched.out.queue[0].0;
             && e'.sched.files == e.sched.files && Undisturbed(e.recv, e'.recv)
             && (id in e'.sched.out.cancelled <==> id in e.sched.out.cancelled)
             && e'.sched.started == e.sched.started + [e.sched.out.queue[0]]
             && id !in e'.sched.finished
    ensures Begun(e, Exec(e, ops), e.sched.out.queue[0].0, |e.tasks|)
  {
    StartedIsBegun(e, Exec(e, ops), e.sched.out.queue[0].0);
  }

  /** A queued file starts once enough streaming ones have ended, whoever may be flagged. */
  lemma {:induction false} StartQueued(e: Engine, i: nat) returns (ops: seq<Op>, k: nat)
    requires Reachable(e) && i < |e.sched.out.queue|
    ensures Automatic(ops) && Begun(e, Exec(e, ops), e.sched.out.queue[i].0, k)
    decreases i, 1
  {
    ops := FreeOneSlot(e, i);
    if i == 0 {
      k := |e.tasks|;
      HeadIsBegun(e, ops);
    } else {
      ops, k := StartBehind(e, ops, i);
    }
  }

  /** Once `first` has freed a slot, the file is one place further in the queue. */
  lemma {:induction false} StartBehind(e: Engine, first: seq<Op>, i: nat) returns (ops: seq<Op>, k: nat)
    requires Automatic(first) && 0 < i < |e.sched.out.queue|
    requires var e', id := Exec(e, first), e.sched.out.queue[i].0;
             && Reachable(e') && e'.sched.files == e.sched.files
             && (id in e'.sched.out.cancelled <==> id in e.sched.out.cancelled)
             && e'.sched.out.queue == e.sched.out.queue[1..]
    ensures Automatic(ops) && Begun(e, Exec(e, ops), e.sched.out.queue[i].0, k)
    decreases i, 0
  {
    assert Exec(e, first).sched.out.queue[i - 1] == e.sched.out.queue[i];
    var rest;
    rest, k := StartQueued(Exec(e, first), i - 1);
    BegunLater(e, first, rest, e.sched.out.queue[i].0, k);
    ops := first + rest;
  }

  // ----- from the control channel to the queue -----

  predicate Answers(c: Control, id: nat) {
    (c.Accept? || c.Reject? || c.Cancel?) && c.id == id
  }

  /** The answer about `id` that the sender will handle next. */
  function FirstAnswer(toSender: seq<Control>, id: nat): Option<Control> {
    if toSender == [] then None
    else if Answers(toSender[0], id) then Some(toSender[0])
    else FirstAnswer(toSender[1..], id)
  }

  lemma {:induction false} FirstAnswerAppend(toSender: seq<Control>, c: Control, id: nat)
    ensures FirstAnswer(toSender + [c], id)
            == if FirstAnswer(toSender, id).Some? then FirstAnswer(toSender, id)
               else if Answers(c, id) then Some(c) else None
  {
    if toSender == [] {
      assert [c][1..] == [];
    } else {
      assert (toSender + [c])[1..] == toSender[1..] + [c];
      FirstAnswerAppend(toSender[1..], c, id);
    }
  }

  lemma {:induction false} FirstAnswerIs(toSender: seq<Control>, id: nat)
    ensures FirstAnswer(toSender, id) in {None, Some(Accept(id)), Some(Reject(id)), Some(Cancel(id))}
  {
    if toSender == [] {
    } else {
      FirstAnswerIs(toSender[1..], id);
    }
  }

  lemma {:induction false} ScheduleOffers(out: OutState<File>)
    ensures out.Schedule(S.MAX_CONCURRENT).0.offered == out.offered
    decreases |out.queue|
  {
    if |out.active| >= S.MAX_CONCURRENT || out.queue == [] {
    } else {
      ScheduleOffers(out.(queue := out.queue[1..], active := out.active + {out.queue[0].0}));
    }
  }

  /** An answer about `i` changes the flag of no other file, and the offer of none. */
  lemma AnswerIsLocal(s: S.Sched<File>, ask: S.Op<File>, id: nat)
    requires ask.Accept? || ask.Reject? || ask.Cancel?
    ensures S.Step(s, ask).files == s.files
    ensures ask != S.Cancel(id) ==> (id in S.Step(s, ask).out.cancelled <==> id in s.out.cancelled)
    ensures ask.id != id ==> (id in S.Step(s, ask).out.offered <==> id in s.out.offered)
  {
    if ask.Accept? {
      ScheduleFlags(s.out.EnqueueAccepted(ask.id), S.MAX_CONCURRENT);
      ScheduleOffers(s.out.EnqueueAccepted(ask.id));
    }
  }

  /** Handling an answer about another file leaves an offered one as it is. */
  lemma OtherAnswer(e: Engine, id: nat)
    requires Reachable(e) && id in e.sched.out.offered && e.toSender != [] && !Answers(e.toSender[0], id)
    ensures var e' := Step(e, CtrlToSender);
            && Reachable(e') && e'.toSender == e.toSender[1..] && id in e'.sched.out.offered
            && (id in e'.sched.out.cancelled <==> id in e.sched.out.cancelled)
            && e'.sched.files == e.sched.files
  {
    ReachableStep(e, CtrlToSender);
    if Asks(e, CtrlToSender) {
      var e', ask := AsksRun(e, CtrlToSender);
      AnswerIsLocal(e.sched, ask, id);
      RunUndisturbs(e', ask);
    }
  }

  lemma AcceptIsRun(e: Engine, id: nat)
    requires e.toSender != [] && e.toSender[0] == Accept(id)
    ensures var e' := Step(e, CtrlToSender);
            e'.sched == S.Step(e.sched, S.Accept(id)) && Undisturbed(e.recv, e'.recv)
  {
    RunUndisturbs(e.(toSender := e.toSender[1..]), S.Accept(id));
  }

  lemma AcceptEnqueues(s: S.Sched<File>, id: nat)
    requires S.Inv(s) && id in s.out.offered
    ensures var s' := S.Step(s, S.Accept(id));
            || S.Has(s'.out.queue, id)
            || (|s'.started| == |s.started| + 1 && s'.started[|s.started|].0 == id)
  {
    var out := s.out.EnqueueAccepted(id);
    if s.out.queue != [] || |s.out.active| == S.MAX_CONCURRENT {
      assert out.Schedule(S.MAX_CONCURRENT) == (out, []);
      assert out.queue[|s.out.queue|].0 == id;
    } else {
      var next := out.(queue := [], active := out.active + {id});
      assert out.queue == [(id, s.out.offered[id])] && out.queue[1..] == [];
      assert next.Schedule(S.MAX_CONCURRENT) == (next, []);
      assert out.Schedule(S.MAX_CONCURRENT) == (next, [(id, s.out.offered[id])] + []);
    }
  }

  /** The Accept of an offered file puts it in the queue, or on a channel at once. */
  lemma AcceptPlaces(e: Engine, id: nat)
    requires Reachable(e) && id in e.sched.out.offered && e.toSender != [] && e.toSender[0] == Accept(id)
    ensures var e' := Step(e, CtrlToSender);
            && Reachable(e') && (id in e'.sched.out.cancelled <==> id in e.sched.out.cancelled)
            && e'.sched.files == e.sched.files
            && (S.Has(e'.sched.out.queue, id) || Begun(e, e', id, |e.tasks|))
  {
    var e' := Step(e, CtrlToSender);
    ReachableStep(e, CtrlToSender);
    ReachableSched(e);
    AnswerIsLocal(e.sched, S.Accept(id), id);
    AcceptIsRun(e, id);
    AcceptEnqueues(e.sched, id);
    if !S.Has(e'.sched.out.queue, id) {
      OnePlace(e.sched, id);
      SchedGrows(e.sched, S.Accept(id));
      StartedIsBegun(e, e', id);
    }
  }

  /** An offered file whose next answer is an Accept can be brought to a channel. */
  lemma {:induction false} StartOffered(e: Engine, id: nat) returns (ops: seq<Op>, k: nat)
    requires Reachable(e) && id in e.sched.out.offered && FirstAnswer(e.toSender, id) == Some(Accept(id))
    ensures Automatic(ops) && Begun(e, Exec(e, ops), id, k)
    decreases |e.toSender|
  {
    var e1 := Step(e, CtrlToSender);
    var rest: seq<Op> := [];
    if e.toSender[0] == Accept(id) {
      AcceptPlaces(e, id);
      if S.Has(e1.sched.out.queue, id) {
        var i :| 0 <= i < |e1.sched.out.queue| && e1.sched.out.queue[i].0 == id;
        rest, k := StartQueued(e1, i);
      } else {
        k := |e.tasks|;
      }
    } else {
      OtherAnswer(e, id);
      rest, k := StartOffered(e1, id);
    }
    ops := [CtrlToSender] + rest;
    ExecJoin(e, [CtrlToSender], rest);
    ExecOne(e, CtrlToSender);
  }

  // ----- refused for good -----

  ghost predicate SettledOut(s: S.Sched<File>, id: nat) {
    id in s.rejected || id in s.withdrawn || id in s.unqueued
  }

  /** File `id` never started, and it is out already or the next answer about it will take it out. */
  ghost predicate Refusing(s: S.Sched<File>, toSender: seq<Control>, id: nat) {
    || SettledOut(s, id)
    || (id in s.out.offered && FirstAnswer(toSender, id) in {Some(Reject(id)), Some(Cancel(id))})
  }

  lemma SchedRefuses(s: S.Sched<File>, op: S.Op<File>, id: nat)
    ensures SettledOut(s, id) ==> SettledOut(S.Step(s, op), id)
    ensures id in s.out.offered && (op == S.Reject(id) || op == S.Cancel(id)) ==> SettledOut(S.Step(s, op), id)
  {
  }

  lemma OfferedStays(s: S.Sched<File>, op: S.Op<File>, id: nat)
    requires id in s.out.offered && op != S.Accept(id) && op != S.Reject(id) && op != S.Cancel(id)
    ensures id in S.Step(s, op).out.offered
  {
    match op
    case Accept(i) => ScheduleOffers(s.out.EnqueueAccepted(i));
    case Finish(i) => ScheduleOffers(s.out.(active := s.out.active - {i}, cancelled := s.out.cancelled - {i}));
    case _ =>
  }

  lemma OtherOpRefuses(s: S.Sched<File>, toSender: seq<Control>, op: S.Op<File>, id: nat)
    requires Refusing(s, toSender, id) && op != S.Accept(id)
    ensures Refusing(S.Step(s, op), toSender, id)
  {
    SchedRefuses(s, op, id);
    if id in s.out.offered && op != S.Reject(id) && op != S.Cancel(id) {
      OfferedStays(s, op, id);
    }
  }

  lemma AnswerRefuses(s: S.Sched<File>, toSender: seq<Control>, ask: S.Op<File>, id: nat)
    requires Refusing(s, toSender, id) && toSender != []
    requires match toSender[0]
             case Accept(i) => ask == S.Accept(i)
             case Reject(i) => ask == S.Reject(i)
             case Cancel(i) => ask == S.Cancel(i)
             case _ => false
    ensures Refusing(S.Step(s, ask), toSender[1..], id)
  {
    SchedRefuses(s, ask, id);
    if id in s.out.offered && ask.id != id {
      OfferedStays(s, ask, id);
    }
  }

  lemma HandleRefuses(e: Engine, id: nat)
    requires Refusing(e.sched, e.toSender, id) && e.toSender != []
    ensures var e' := Step(e, CtrlToSender); Refusing(e'.sched, e'.toSender, id)
  {
    match e.toSender[0]
    case Accept(i) => AnswerRefuses(e.sched, e.toSender, S.Accept(i), id);
    case Reject(i) => AnswerRefuses(e.sched, e.toSender, S.Reject(i), id);
    case Cancel(i) => AnswerRefuses(e.sched, e.toSender, S.Cancel(i), id);
    case _ =>
  }

  lemma WakeRefuses(e: Engine, k: nat, wake: T.Wake, id: nat)
    requires Refusing(e.sched, e.toSender, id) && k < |e.tasks|
    ensures var e' := WakeTask(e, k, wake); Refusing(e'.sched, e'.toSender, id)
  {
    OtherOpRefuses(e.sched, e.toSender, S.Finish(Woken(e, k, wake).tasks[k].id), id);
  }

  lemma StepRefuses(e: Engine, op: Op, id: nat)
    requires Refusing(e.sched, e.toSender, id)
    ensures var e' := Step(e, op); Refusing(e'.sched, e'.toSender, id)
  {
    match op
    case AddFile(file) => OtherOpRefuses(e.sched, e.toSender, S.Offer(file), id);
    case UserAccept(i) => FirstAnswerAppend(e.toSender, Accept(i), id);
    case UserReject(i) => FirstAnswerAppend(e.toSender, Reject(i), id);
    case UserCancel(i) => FirstAnswerAppend(e.toSender, Cancel(i), id);
    case UserAbort(i) => OtherOpRefuses(e.sched, e.toSender, S.Cancel(i), id);
    case CtrlToSender => if e.toSender != [] { HandleRefuses(e, id); }
    case Wake(k, wake) => if k < |e.tasks| { WakeRefuses(e, k, wake, id); }
    case _ =>
  }

  lemma RefusingIsUnstarted(e: Engine, id: nat)
    requires Reachable(e) && Refusing(e.sched, e.toSender, id)
    ensures forall k :: 0 <= k < |e.tasks| ==> e.tasks[k].id != id
  {
    ReachableSched(e);
    OnePlace(e.sched, id);
    forall k | 0 <= k < |e.tasks| ensures e.tasks[k].id != id {
      ReachableMatch(e, k);
      assert !S.Has(e.sched.started, id);
    }
  }

  lemma RefusingIsUnsaved(e: Engine, id: nat)
    requires Reachable(e) && Refusing(e.sched, e.toSender, id)
    ensures !IsSaved(e.recv.saved, id)
  {
    RefusingIsUnstarted(e, id);
    UnsentIsUnsaved(e, id);
  }

  lemma {:induction false} RefusedForGood(e: Engine, ops: seq<Op>, id: nat)
    requires Reachable(e) && Refusing(e.sched, e.toSender, id)
    ensures !IsSaved(Exec(e, ops).recv.saved, id)
    decreases |ops|
  {
    if ops == [] {
      RefusingIsUnsaved(e, id);
    } else {
      StepRefuses(e, ops[0], id);
      ReachableStep(e, ops[0]);
      RefusedForGood(Step(e, ops[0]), ops[1..], id);
    }
  }

  // ----- exactly when a receiver's cancel lasts -----

  /** A flag that is already set will stop file `id` wherever it is. */
  ghost predicate Doomed(e: Engine, id: nat)
    requires id in e.sched.files
  {
    id in e.sched.out.cancelled && |e.sched.files[id].bytes| > 0
  }

  ghost predicate RunsUnread(e: Engine, id: nat, k: nat) {
    Willing(e, k) && e.tasks[k].id == id && e.recv.routers[k].read == 0
  }

  /**
   * What a cancel of `id` cannot stop: no flag is set for it already, and either its coroutine runs or
   * has run while its `Start` is still unread, or it waits in the queue, or its Accept is on the way.
   */
  ghost predicate Overtakes(e: Engine, id: nat)
    requires id in e.sched.files
  {
    || (exists k :: RunsUnread(e, id, k))
    || (!Doomed(e, id) && S.Has(e.sched.out.queue, id))
    || (!Doomed(e, id) && id in e.sched.out.offered && FirstAnswer(e.toSender, id) == Some(Accept(id)))
  }

  lemma BegunLands(e: Engine, ops: seq<Op>, id: nat, k: nat) returns (all: seq<Op>)
    requires id in e.sched.files && !Doomed(e, id) && Automatic(ops) && Begun(e, Exec(e, ops), id, k)
    ensures Automatic(all) && IsSaved(Exec(e, all).recv.saved, id)
  {
    var e1 := Exec(e, ops);
    ReachableFits(e1, id);
    var more := CanStillBeSaved(e1, k);
    ExecJoin(e, ops, more);
    all := ops + more;
  }

  /** A file that overtakes the cancel of `id` can be brought to a save without any further click. */
  lemma OvertakingLands(e: Engine, id: nat) returns (all: seq<Op>)
    requires Reachable(e) && id in e.sched.files && Overtakes(e, id)
    ensures Automatic(all) && IsSaved(Exec(Step(e, UserCancel(id)), all).recv.saved, id)
  {
    var e1 := Step(e, UserCancel(id));
    ReachableStep(e, UserCancel(id));
    if k :| RunsUnread(e, id, k) {
      assert Willing(e1, k) && Listening(e1, k);
      all := CanStillBeSaved(e1, k);
    } else if S.Has(e.sched.out.queue, id) {
      var i :| 0 <= i < |e.sched.out.queue| && e.sched.out.queue[i].0 == id;
      var ops, k := StartQueued(e1, i);
      all := BegunLands(e1, ops, id, k);
    } else {
      FirstAnswerAppend(e.toSender, Cancel(id), id);
      var ops, k := StartOffered(e1, id);
      all := BegunLands(e1, ops, id, k);
    }
  }

  lemma StartedCancelLasts(e: Engine, id: nat, k: nat)
    requires Reachable(e) && k < |e.tasks| && e.tasks[k].id == id && !IsSaved(e.recv.saved, id)
    requires !RunsUnread(e, id, k)
    ensures NeverSaved(Step(e, UserCancel(id)), id)
  {
    var e1 := Step(e, UserCancel(id));
    ReachableStep(e, UserCancel(id));
    ReachableSched(e);
    if e.recv.routers[k].read > 0 {
      GoneIsNeverSaved(e1, k);
    } else {
      HinderedIsNeverSaved(e1, k);
    }
  }

  lemma UnstartedCancelLasts(e: Engine, id: nat)
    requires Reachable(e) && id in e.sched.files && !S.Has(e.sched.started, id) && !Overtakes(e, id)
    ensures NeverSaved(Step(e, UserCancel(id)), id)
  {
    var e1 := Step(e, UserCancel(id));
    ReachableStep(e, UserCancel(id));
    ReachableSched(e);
    OnePlace(e.sched, id);
    FirstAnswerAppend(e.toSender, Cancel(id), id);
    FirstAnswerIs(e.toSender, id);
    if !SettledOut(e.sched, id) && Doomed(e, id) {
      forall k | 0 <= k < |e.tasks| ensures e.tasks[k].id != id {
        ReachableMatch(e, k);
      }
      assert Barred(e1, id);
      forall ops ensures !IsSaved(Exec(e1, ops).recv.saved, id) {
        BarredIsNeverSaved(e1, ops, id);
      }
    } else {
      assert Refusing(e1.sched, e1.toSender, id);
      forall ops ensures !IsSaved(Exec(e1, ops).recv.saved, id) {
        RefusedForGood(e1, ops, id);
      }
    }
  }

  /** A receiver's cancel of any offered, unsaved file keeps it away over every run unless the file overtakes it. */
  lemma CancelLastsUnlessOvertaken(e: Engine, id: nat)
    requires Reachable(e) && id in e.sched.files && !IsSaved(e.recv.saved, id)
    ensures NeverSaved(Step(e, UserCancel(id)), id) <==> !Overtakes(e, id)
  {
    if Overtakes(e, id) {
      var all := OvertakingLands(e, id);
      SavedSomehow(Step(e, UserCancel(id)), all, id);
    } else if S.Has(e.sched.started, id) {
      var k := StartedHasTask(e, id);
      assert !RunsUnread(e, id, k);
      StartedCancelLasts(e, id, k);
    } else {
      UnstartedCancelLasts(e, id);
    }
  }

  /** For a file that streams unhindered or was sent: exactly when its `Start` had arrived. */
  lemma CancelSticksIffStarted(e: Engine, k: nat)
    requires Reachable(e) && Willing(e, k) && !IsSaved(e.recv.saved, e.tasks[k].id)
    ensures NeverSaved(Step(e, UserCancel(e.tasks[k].id)), e.tasks[k].id) <==> e.recv.routers[k].read > 0
  {
    var cancel := UserCancel(e.tasks[k].id);
    ReachableStep(e, cancel);
    DropSticksIffStarted(e, Step(e, cancel), k);
  }
}
