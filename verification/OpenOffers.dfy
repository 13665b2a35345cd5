/** An offer that waits for its decision is still open at the sender, so accepting it can always make it land. */
module OpenOffers {
  import opened Prelude
  import opened Protocol
  import opened Receiver
  import opened TransferEngine
  import opened Delivery
  import opened ReceiverRows
  import Cancellation
  import S = Scheduler
  import T = SendTask
  import R = RowMaps

  /** File `id` waits at the sender: unanswered, unflagged, and no answer about it is under way. */
  ghost predicate Open(e: Engine, id: nat) {
    id in e.sched.out.offered && id !in e.sched.out.cancelled && FirstAnswer(e.toSender, id) == None
  }

  ghost predicate Announces(c: Control, id: nat) {
    c.Offer? && c.meta.id == id
  }

  /** What waits for a decision about `id`, on the page or on its way there, is open and waits once. */
  ghost predicate Pending(s: Page, id: nat) {
    && (StateOf(s.rows, (id, true)) == Some(R.Offered) ==> Open(s.e, id))
    && (forall i :: 0 <= i < |s.e.toReceiver| && Announces(s.e.toReceiver[i], id) ==>
          Open(s.e, id) && (id, true) !in s.rows)
    && (forall i, j :: 0 <= i < j < |s.e.toReceiver| ==>
          !(Announces(s.e.toReceiver[i], id) && Announces(s.e.toReceiver[j], id)))
    && (id !in s.e.sched.files ==> id !in s.e.sched.out.cancelled && FirstAnswer(s.e.toSender, id) == None)
  }

  lemma StartedIsNotOpen(e: Engine, k: nat)
    requires Reachable(e) && k < |e.tasks|
    ensures e.tasks[k].id !in e.sched.out.offered
  {
    ReachableInv(e);
    var id := e.tasks[k].id;
    assert e.sched.started[k].0 == id;
    assert S.Has(e.sched.started, id);
    assert S.Places(e.sched, id) == S.One(id in e.sched.files);
  }

  lemma AddPending(s: Page, file: File, id: nat)
    requires Pending(s, id) && RowsOffered(s) && OffersTrue(s.e)
    requires forall i :: i in s.e.sched.files ==> i < s.e.sched.nextId
    ensures Pending(Move(s, AddFile(file)), id)
  {
    var s', n := Move(s, AddFile(file)), |s.e.toReceiver|;
    assert s'.e.toReceiver == s.e.toReceiver + [Offer(MetaOf(s.e.sched.nextId, file))];
    assert forall i :: 0 <= i < n ==> s'.e.toReceiver[i] == s.e.toReceiver[i];
    if id == s.e.sched.nextId {
      assert forall i :: 0 <= i < n ==> !Announces(s.e.toReceiver[i], id);
    }
  }

  lemma ClickPending(s: Page, op: Op, id: nat)
    requires Pending(s, id) && RowsOffered(s) && Shown(s, op) && (op.UserAccept? || op.UserReject? || op.UserCancel?)
    ensures Pending(Move(s, op), id)
  {
    var c := if op.UserAccept? then Accept(op.id) else if op.UserReject? then Reject(op.id) else Cancel(op.id);
    assert Move(s, op).e.toSender == s.e.toSender + [c];
    FirstAnswerAppend(s.e.toSender, c, id);
  }

  lemma ActiveIsNotOpen(e: Engine, x: nat)
    requires Reachable(e) && ActiveIsUnsent(e) && StateOf(e.rows, (x, false)) == Some(R.Active)
    ensures x !in e.sched.out.offered && x in e.sched.files
  {
    var k :| 0 <= k < |e.tasks| && e.tasks[k].id == x && e.tasks[k].Size() > 0 && e.tasks[k].phase != T.Ended(T.Sent);
    StartedIsNotOpen(e, k);
    Cancellation.ReachableFits(e, x);
  }

  lemma AbortPending(s: Page, x: nat, id: nat)
    requires Pending(s, id) && Shown(s, UserAbort(x)) && x !in s.e.sched.out.offered && x in s.e.sched.files
    ensures Pending(Move(s, UserAbort(x)), id)
  {
    var e' := Move(s, UserAbort(x)).e;
    assert e'.toReceiver == s.e.toReceiver + [Abort(x)];
  }

  lemma HandleFiles(e: Engine, id: nat)
    requires id in e.sched.files && e.toSender != []
    ensures id in Step(e, CtrlToSender).sched.files
  {
  }

  lemma HandleOther(e: Engine, id: nat)
    requires e.toSender != [] && !Answers(e.toSender[0], id)
    ensures var e' := Step(e, CtrlToSender);
            && (id in e'.sched.out.offered <==> id in e.sched.out.offered)
            && (id in e'.sched.out.cancelled <==> id in e.sched.out.cancelled)
            && e'.sched.files == e.sched.files
  {
    if Asks(e, CtrlToSender) {
      var e1, ask := AsksRun(e, CtrlToSender);
      AnswerIsLocal(e.sched, ask, id);
    }
  }

  lemma HandlePending(s: Page, id: nat)
    requires Pending(s, id) && Reachable(s.e)
    ensures Pending(Move(s, CtrlToSender), id)
  {
    var e, e' := s.e, Step(s.e, CtrlToSender);
    if e.toSender != [] {
      assert e'.toSender == e.toSender[1..] && e'.toReceiver == e.toReceiver;
      if Answers(e.toSender[0], id) {
        assert FirstAnswer(e.toSender, id).Some?;
        HandleFiles(e, id);
      } else {
        HandleOther(e, id);
      }
    }
  }

  lemma HearPending(s: Page, id: nat)
    requires Pending(s, id)
    ensures Pending(Move(s, CtrlToReceiver), id)
  {
    var s' := Move(s, CtrlToReceiver);
    if s.e.toReceiver != [] {
      assert forall i :: 0 <= i < |s'.e.toReceiver| ==> s'.e.toReceiver[i] == s.e.toReceiver[i + 1];
      assert s'.e.sched == s.e.sched && s'.e.toSender == s.e.toSender;
      if Announces(s.e.toReceiver[0], id) {
        assert forall i :: 0 <= i < |s'.e.toReceiver| ==> !Announces(s'.e.toReceiver[i], id);
      }
    }
  }

  lemma WakePending(s: Page, k: nat, wake: T.Wake, id: nat)
    requires Pending(s, id) && k < |s.e.tasks|
    ensures Pending(Page(WakeTask(s.e, k, wake), s.rows), id)
  {
    var t, e' := s.e.tasks[k], Woken(s.e, k, wake);
    var finish := S.Finish(e'.tasks[k].id);
    S.StepFlags(s.e.sched, finish);
    if e'.tasks[k].id in s.e.sched.out.active {
      ScheduleOffers(s.e.sched.out.(active := s.e.sched.out.active - {e'.tasks[k].id},
                                    cancelled := s.e.sched.out.cancelled - {e'.tasks[k].id}));
    }
  }

  lemma DeliverPending(s: Page, k: nat, now: real, id: nat)
    requires Pending(s, id) && Reachable(s.e)
    requires k < |s.e.tasks| && k < |s.e.recv.routers| && s.e.recv.routers[k].read < |s.e.tasks[k].frames|
    ensures Pending(Move(s, Deliver(k, now)), id)
  {
    var s' := Move(s, Deliver(k, now));
    ChannelIsOffered(s.e, k);
    StartedIsNotOpen(s.e, k);
    assert s'.e.sched == s.e.sched && s'.e.toSender == s.e.toSender && s'.e.toReceiver == s.e.toReceiver;
    var rows', t, r := s'.rows, s.e.tasks[k], s.e.recv.routers[k];
    if (id, true) in rows' && (id, true) !in s.rows {
      FrameKeys(s.rows, s.e.recv, k, t.frames[r.read], now, id);
    }
    assert StateOf(rows', (id, true)) == Some(R.Offered) ==> StateOf(s.rows, (id, true)) == Some(R.Offered);
  }

  lemma MovePending(s: Page, op: Op, id: nat)
    requires Pending(s, id) && PageInv(s)
    ensures Pending(Move(s, op), id)
  {
    if !Shown(s, op) {
    } else if op.AddFile? {
      ReachableFiles(s.e);
      OffersAreTrue(s.e);
      AddPending(s, op.file, id);
    } else if op.UserAccept? || op.UserReject? || op.UserCancel? {
      ClickPending(s, op, id);
    } else if op.UserAbort? {
      ActiveIsNotOpen(s.e, op.id);
      AbortPending(s, op.id, id);
    } else if op.CtrlToSender? {
      HandlePending(s, id);
    } else if op.CtrlToReceiver? {
      HearPending(s, id);
    } else if op.Wake? {
      StepIsWake(s.e, op);
      if op.k < |s.e.tasks| { WakePending(s, op.k, op.wake, id); }
    } else if op.k < |s.e.tasks| && op.k < |s.e.recv.routers|
        && s.e.recv.routers[op.k].read < |s.e.tasks[op.k].frames| {
      DeliverPending(s, op.k, op.now, id);
    }
  }

  lemma {:induction false} PlayPending(s: Page, ops: seq<Op>, id: nat)
    requires Pending(s, id) && PageInv(s)
    ensures Pending(Play(s, ops), id)
    decreases |ops|
  {
    if ops == [] {
    } else {
      MovePending(s, ops[0], id);
      MoveKeeps(s, ops[0]);
      PlayPending(Move(s, ops[0]), ops[1..], id);
    }
  }

  /** In every run, a row that waits for its decision is of a file that the sender still offers, unanswered. */
  lemma OfferedIsOpen(ops: seq<Op>, id: nat)
    requires StateOf(Play(Blank(), ops).rows, (id, true)) == Some(R.Offered)
    ensures Open(Play(Blank(), ops).e, id)
  {
    BlankInv();
    PlayPending(Blank(), ops, id);
  }
}
