/** Runs of the page that show what the program does not promise. Every click has its button. */
module Witnesses {
  import opened Prelude
  import opened Protocol
  import opened TransferState
  import opened Receiver
  import opened TransferEngine
  import opened Cancellation
  import opened Delivery
  import opened ReceiverRows
  import S = Scheduler
  import T = SendTask
  import R = RowMaps

  // ----- the first moves of a session -----

  lemma {:induction false} PlayPush(s: Page, ops: seq<Op>, op: Op)
    ensures Play(s, ops + [op]) == Move(Play(s, ops), op)
    decreases |ops|
  {
    if ops == [] {
      assert [op][1..] == [] && [] + [op] == [op];
    } else {
      assert (ops + [op])[1..] == ops[1..] + [op];
      PlayPush(Move(s, ops[0]), ops[1..], op);
    }
  }

  lemma FirstSchedule(file: File)
    ensures var s := S.Step(S.Step(S.Init<File>(), S.Offer(file)), S.Accept(0));
            && s.started == [(0, file)] && s.out == OutState(map[], [], {0}, {})
  {
    var out := S.Step(S.Init<File>(), S.Offer(file)).out.EnqueueAccepted(0);
    assert out == OutState(map[], [(0, file)], {}, {});
    var next: OutState<File> := OutState(map[], [], {0}, {});
    assert next.Schedule(S.MAX_CONCURRENT) == (next, []);
    assert out.queue[1..] == [] && {} + {0} == {0};
    assert out.Schedule(S.MAX_CONCURRENT) == (next, [(0, file)] + []);
  }

  /** A file is added, its offer arrives, and the receiver clicks accept. */
  lemma FirstAccept(file: File)
    ensures var s := Play(Blank(), [AddFile(file), CtrlToReceiver, UserAccept(0)]);
            && StateOf(s.rows, (0, true)) == Some(R.Active)
            && StateOf(s.e.rows, (0, false)) == Some(R.Offered)
            && s.e.sched == S.Step(S.Init<File>(), S.Offer(file))
            && s.e.tasks == [] && s.e.recv == RecvState([], map[], [], {})
            && s.e.toReceiver == [] && s.e.toSender == [Accept(0)]
  {
    var s1 := Move(Blank(), AddFile(file));
    var s2 := Move(s1, CtrlToReceiver);
    assert s1.e.tasks == [] && s1.e.recv.routers == [];
    assert s1.e.toReceiver == [Offer(MetaOf(0, file))];
    assert [AddFile(file), CtrlToReceiver, UserAccept(0)] == [AddFile(file), CtrlToReceiver] + [UserAccept(0)];
    assert [AddFile(file), CtrlToReceiver] == [AddFile(file)] + [CtrlToReceiver];
    assert [AddFile(file)] == [] + [AddFile(file)];
    PlayPush(Blank(), [], AddFile(file));
    PlayPush(Blank(), [AddFile(file)], CtrlToReceiver);
    PlayPush(Blank(), [AddFile(file), CtrlToReceiver], UserAccept(0));
    assert s2.e.toReceiver == [];
  }

  /** Its coroutine starts at once. */
  lemma FirstStart(file: File)
    ensures var s := Play(Blank(), [AddFile(file), CtrlToReceiver, UserAccept(0), CtrlToSender]);
            && StateOf(s.rows, (0, true)) == Some(R.Active)
            && StateOf(s.e.rows, (0, false)) == Some(R.Offered)
            && s.e.tasks == [T.NewTask(0, file)] && s.e.recv == RecvState([Router(0, None)], map[], [], {})
            && s.e.sched.out == OutState(map[], [], {0}, {})
            && s.e.toReceiver == [] && s.e.toSender == []
  {
    var front := [AddFile(file), CtrlToReceiver, UserAccept(0)];
    var s := Play(Blank(), front);
    FirstAccept(file);
    assert [AddFile(file), CtrlToReceiver, UserAccept(0), CtrlToSender] == front + [CtrlToSender];
    PlayPush(Blank(), front, CtrlToSender);
    FirstSchedule(file);
    var e' := Step(s.e, CtrlToSender);
    assert e'.sched.started[0..] == [(0, file)];
    assert e'.tasks == [] + NewTasks([(0, file)]);
    assert NewRouters(1) == [Router(0, None)] && [] + NewRouters(1) == NewRouters(1);
  }

  // ----- three failed promises -----

  lemma FirstWakes(e: Engine, file: File)
    requires |file.bytes| > 0 && e.tasks == [T.NewTask(0, file)] && e.sched.out == OutState(map[], [], {0}, {})
    ensures var e' := Step(e, Wake(0, T.Opened(None, 0)));
            && |e'.tasks| == 1 && e'.tasks[0].id == 0 && e'.tasks[0].file == file
            && e'.tasks[0].phase == T.AwaitSlab(0) && T.Payloads(e'.tasks[0].frames) == []
            && e'.sched == e.sched
  {
    var start := Text(Start(MetaOf(0, file)));
    T.PayloadsPush([], start);
    assert [] + [start] == [start];
  }

  lemma ThenRefused(e: Engine)
    requires |e.tasks| == 1 && e.tasks[0].id == 0 && e.tasks[0].phase == T.AwaitSlab(0)
    requires e.sched.out == OutState(map[], [], {0}, {})
    ensures var e' := Step(e, Wake(0, T.SlabRefused));
            && |e'.tasks| == 1 && e'.tasks[0].id == 0
            && e'.tasks[0].phase == T.Ended(T.Failed) && e'.tasks[0].frames == e.tasks[0].frames
            && StateOf(e'.rows, (0, false)) == Some(R.Done)
  {
    FullReportIsDone(e.rows, e.tasks[0]);
    var woken := Woken(e, 0, T.SlabRefused);
    assert woken.rows == e.rows;
    assert S.Step(e.sched, S.Finish(0)).started == e.sched.started + [];
  }

  /** A refused read still drives the sender's row to done, with not one byte sent. */
  lemma RefusedReadShowsDone(file: File)
    requires |file.bytes| > 0
    ensures var s := Play(Play(Blank(), [AddFile(file), CtrlToReceiver, UserAccept(0), CtrlToSender]),
                          [Wake(0, T.Opened(None, 0)), Wake(0, T.SlabRefused)]);
            && StateOf(s.e.rows, (0, false)) == Some(R.Done)
            && |s.e.tasks| == 1 && T.Payloads(s.e.tasks[0].frames) == []
            && NeverSaved(s.e, 0)
  {
    var front := [AddFile(file), CtrlToReceiver, UserAccept(0), CtrlToSender];
    var s := Play(Blank(), front);
    FirstStart(file);
    var wakes := [Wake(0, T.Opened(None, 0)), Wake(0, T.SlabRefused)];
    FirstWakes(s.e, file);
    ThenRefused(Step(s.e, wakes[0]));
    AutomaticPlays(s, wakes);
    ExecTwo(s.e, wakes[0], wakes[1]);
    BlankInv();
    PlayKeeps(Blank(), front);
    PlayKeeps(s, wakes);
    HinderedIsNeverSaved(Play(s, wakes).e, 0);
  }

  lemma CancelClicked(s: Page, file: File)
    requires StateOf(s.rows, (0, true)) == Some(R.Active) && StateOf(s.e.rows, (0, false)) == Some(R.Offered)
    requires s.e.tasks == [T.NewTask(0, file)] && s.e.toSender == []
    ensures var s' := Move(s, UserCancel(0));
            && StateOf(s'.rows, (0, true)) == Some(R.Cancelled) && s'.e.rows == s.e.rows
            && s'.e.tasks == s.e.tasks && s'.e.toSender == [Cancel(0)]
  {
  }

  lemma CancelHandled(s: Page)
    requires StateOf(s.e.rows, (0, false)) == Some(R.Offered) && s.e.toSender == [Cancel(0)]
    ensures var s' := Move(s, CtrlToSender);
            && s'.rows == s.rows && StateOf(s'.e.rows, (0, false)) == Some(R.Cancelled)
            && s'.e.tasks == s.e.tasks && 0 in s'.e.sched.out.cancelled
  {
    var marked := s.e.(toSender := [], rows := R.MarkCancelledRemote(s.e.rows, 0));
    assert Step(s.e, CtrlToSender) == Run(marked, S.Cancel(0));
    CancelRun(marked, 0);
  }

  /** Any file may be cancelled by its receiver right after its coroutine has started. */
  lemma FirstCancel(file: File)
    ensures var s := Play(Play(Blank(), [AddFile(file), CtrlToReceiver, UserAccept(0), CtrlToSender]),
                          [UserCancel(0), CtrlToSender]);
            && s.e.tasks == [T.NewTask(0, file)] && 0 in s.e.sched.out.cancelled
            && StateOf(s.rows, (0, true)) == Some(R.Cancelled) && StateOf(s.e.rows, (0, false)) == Some(R.Cancelled)
  {
    var s0 := Play(Blank(), [AddFile(file), CtrlToReceiver, UserAccept(0), CtrlToSender]);
    FirstStart(file);
    CancelClicked(s0, file);
    CancelHandled(Move(s0, UserCancel(0)));
    assert [UserCancel(0), CtrlToSender] == [UserCancel(0)] + [CtrlToSender] && [UserCancel(0)] == [] + [UserCancel(0)];
    PlayPush(s0, [], UserCancel(0));
    PlayPush(s0, [UserCancel(0)], CtrlToSender);
  }

  /** An empty file whose coroutine the receiver's cancel has flagged, cancelled on both pages, can still land. */
  lemma CancelledEmptyFileCanLand(file: File)
    requires |file.bytes| == 0
    ensures var s := Play(Play(Blank(), [AddFile(file), CtrlToReceiver, UserAccept(0), CtrlToSender]),
                          [UserCancel(0), CtrlToSender]);
            && |s.e.tasks| == 1 && s.e.tasks[0].id == 0 && !s.e.tasks[0].phase.Ended?
            && 0 in s.e.sched.out.cancelled
            && StateOf(s.rows, (0, true)) == Some(R.Cancelled) && StateOf(s.e.rows, (0, false)) == Some(R.Cancelled)
            && !NeverSaved(s.e, 0) && !NeverDone(s, 0)
  {
    var front := [AddFile(file), CtrlToReceiver, UserAccept(0), CtrlToSender];
    var s := Play(Play(Blank(), front), [UserCancel(0), CtrlToSender]);
    FirstCancel(file);
    BlankInv();
    PlayKeeps(Blank(), front);
    PlayKeeps(Play(Blank(), front), [UserCancel(0), CtrlToSender]);
    FlaggedIsNeverSavedIffNonEmpty(s.e, 0);
    EmptyWaitsUnread(s.e, 0);
    var ops := CanStillBeSaved(s.e, 0);
    AutomaticPlays(s, ops);
    PlayKeeps(s, ops);
    assert StateOf(Play(s, ops).rows, (0, true)) == Some(R.Done);
  }

  /** A file cancelled right after its accept overtakes the cancel: its row can still say done. */
  lemma CancelCanBeOvertaken(file: File)
    ensures var s := Play(Blank(), [AddFile(file), CtrlToReceiver, UserAccept(0)]);
            && Shown(s, UserCancel(0)) && 0 in s.e.sched.files && Overtakes(s.e, 0)
            && !NeverDone(Move(s, UserCancel(0)), 0)
  {
    FirstAccept(file);
    CancelledNeverDoneUnlessOvertaken([AddFile(file), CtrlToReceiver, UserAccept(0)], 0);
  }
}
