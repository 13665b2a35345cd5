/** Clicks and their effects on the other page: every click arrives, and nothing is shown that was not clicked. */
module Clicks {
  import opened Prelude
  import opened Protocol
  import opened Receiver
  import opened TransferEngine
  import opened ReceiverRows
  import SenderRows
  import TransferState
  import Delivery
  import OpenOffers
  import S = Scheduler
  import T = SendTask
  import R = RowMaps

  // ----- nothing is shown that was not clicked -----

  function Rejects(ops: seq<Op>): set<nat> {
    if ops == [] then {} else (if ops[0].UserReject? then {ops[0].id} else {}) + Rejects(ops[1..])
  }

  function Cancels(ops: seq<Op>): set<nat> {
    if ops == [] then {}
    else (if ops[0].UserCancel? || ops[0].UserAbort? then {ops[0].id} else {}) + Cancels(ops[1..])
  }

  ghost predicate RowCaused(rows: R.RowMap, rejects: set<nat>, cancels: set<nat>) {
    && (forall id :: StateOf(rows, (id, false)) == Some(R.Declined) ==> id in rejects)
    && (forall id :: StateOf(rows, (id, false)) == Some(R.Cancelled) ==> id in cancels)
  }

  ghost predicate MailCaused(mail: seq<Control>, rejects: set<nat>, cancels: set<nat>) {
    forall i :: 0 <= i < |mail| ==>
      (mail[i].Reject? ==> mail[i].id in rejects) && (mail[i].Cancel? ==> mail[i].id in cancels)
  }

  ghost predicate Caused(e: Engine, rejects: set<nat>, cancels: set<nat>) {
    RowCaused(e.rows, rejects, cancels) && MailCaused(e.toSender, rejects, cancels)
  }

  lemma WokenCaused(e: Engine, k: nat, wake: T.Wake, rejects: set<nat>, cancels: set<nat>)
    requires RowCaused(e.rows, rejects, cancels) && k < |e.tasks|
    ensures RowCaused(Woken(e, k, wake).rows, rejects, cancels)
  {
    var t, c := e.tasks[k], e.tasks[k].id in e.sched.out.cancelled;
    var t' := T.Step(t, wake, c);
    T.StepExtends(t, wake, c);
    ReportIs(e.rows, t', t'.progress[|t.progress|..]);
  }

  lemma ReportCaused(
      rows: R.RowMap, id: nat, name: string, sent: real, total: real, rejects: set<nat>, cancels: set<nat>)
    requires RowCaused(rows, rejects, cancels)
    ensures RowCaused(R.SendProgress(rows, id, name, sent, total), rejects, cancels)
  {
  }

  lemma WakeCaused(e: Engine, k: nat, wake: T.Wake, rejects: set<nat>, cancels: set<nat>)
    requires Caused(e, rejects, cancels) && k < |e.tasks|
    ensures Caused(WakeTask(e, k, wake), rejects, cancels)
  {
    WokenCaused(e, k, wake, rejects, cancels);
    var e' := Woken(e, k, wake);
    var t := e'.tasks[k];
    ReportCaused(e'.rows, t.id, t.file.name, t.Size() as real, t.Size() as real, rejects, cancels);
  }

  lemma HandleCaused(e: Engine, rejects: set<nat>, cancels: set<nat>)
    requires Caused(e, rejects, cancels) && e.toSender != []
    ensures Caused(Step(e, CtrlToSender), rejects, cancels)
  {
    var c := e.toSender[0];
    if c.Reject? {
      assert RowCaused(R.MarkRejected(e.rows, c.id), rejects, cancels);
    } else if c.Cancel? {
      assert RowCaused(R.MarkCancelledRemote(e.rows, c.id), rejects, cancels);
    }
  }

  lemma StepCaused(e: Engine, op: Op, rejects: set<nat>, cancels: set<nat>)
    requires Caused(e, rejects, cancels)
    requires op.UserReject? ==> op.id in rejects
    requires op.UserCancel? || op.UserAbort? ==> op.id in cancels
    ensures Caused(Step(e, op), rejects, cancels)
  {
    match op
    case Wake(k, wake) => if k < |e.tasks| { WakeCaused(e, k, wake, rejects, cancels); }
    case CtrlToSender => if e.toSender != [] { HandleCaused(e, rejects, cancels); }
    case _ =>
  }

  lemma {:induction false} ExecCaused(e: Engine, ops: seq<Op>, rejects: set<nat>, cancels: set<nat>)
    requires Caused(e, rejects, cancels) && Rejects(ops) <= rejects && Cancels(ops) <= cancels
    ensures Caused(Exec(e, ops), rejects, cancels)
    decreases |ops|
  {
    if ops == [] {
    } else {
      assert ops[0].UserReject? ==> ops[0].id in Rejects(ops);
      assert ops[0].UserCancel? || ops[0].UserAbort? ==> ops[0].id in Cancels(ops);
      StepCaused(e, ops[0], rejects, cancels);
      ExecCaused(Step(e, ops[0]), ops[1..], rejects, cancels);
    }
  }

  lemma {:induction false} ClickedOnce(ops: seq<Op>, id: nat)
    ensures id in Rejects(ops) ==> UserReject(id) in ops
    ensures id in Cancels(ops) ==> UserCancel(id) in ops || UserAbort(id) in ops
  {
    if ops == [] {
    } else {
      ClickedOnce(ops[1..], id);
      assert ops == [ops[0]] + ops[1..];
    }
  }

  /** A sender's row says declined only if the receiver declined, and cancelled only if one of the two cancelled. */
  lemma ShownWasClicked(ops: seq<Op>, id: nat)
    ensures var rows := Exec(Init(), ops).rows;
            && (StateOf(rows, (id, false)) == Some(R.Declined) ==> UserReject(id) in ops)
            && (StateOf(rows, (id, false)) == Some(R.Cancelled) ==> UserCancel(id) in ops || UserAbort(id) in ops)
  {
    ExecCaused(Init(), ops, Rejects(ops), Cancels(ops));
    ClickedOnce(ops, id);
  }

  // ----- what was clicked arrives -----

  /** The session after `n` frames of the control channel were delivered to the sender. */
  function Handled(e: Engine, n: nat): Engine {
    if n == 0 then e else Step(Handled(e, n - 1), CtrlToSender)
  }

  /** `after` is `e` with the first `n` frames of the control channel handled, and row `id` kept. */
  ghost predicate Drained(e: Engine, after: Engine, n: nat, id: nat) {
    && n <= |e.toSender| && after.toSender == e.toSender[n..]
    && ((id, false) in e.rows ==> (id, false) in after.rows)
  }

  lemma HandleKeepsRow(e: Engine, id: nat)
    requires e.toSender != []
    ensures Drained(e, Step(e, CtrlToSender), 1, id)
  {
  }

  lemma DrainedMore(e: Engine, before: Engine, after: Engine, n: nat, id: nat)
    requires n < |e.toSender| && Drained(e, before, n, id) && Drained(before, after, 1, id)
    ensures Drained(e, after, n + 1, id)
  {
  }

  lemma {:induction false} ChannelDrains(e: Engine, n: nat, id: nat)
    requires n <= |e.toSender|
    ensures Drained(e, Handled(e, n), n, id)
    decreases n
  {
    if n == 0 {
    } else {
      var before := Handled(e, n - 1);
      ChannelDrains(e, n - 1, id);
      HandleKeepsRow(before, id);
      DrainedMore(e, before, Step(before, CtrlToSender), n - 1, id);
    }
  }

  /** Everything before a frame is handled, and then the frame. */
  lemma LastIsHandled(e: Engine, click: Op, c: Control, id: nat) returns (before: Engine)
    requires Step(e, click).toSender == e.toSender + [c]
    requires (id, false) in e.rows ==> (id, false) in Step(e, click).rows
    ensures before.toSender == [c] && ((id, false) in e.rows ==> (id, false) in before.rows)
    ensures Handled(Step(e, click), |e.toSender| + 1) == Step(before, CtrlToSender)
  {
    var e1, n := Step(e, click), |e.toSender|;
    ChannelDrains(e1, n, id);
    before := Handled(e1, n);
    assert e1.toSender[n..] == [c];
  }

  /** A click on decline arrives: once its frame is delivered, the sender's row says declined. */
  lemma DeclineArrives(e: Engine, id: nat)
    requires Reachable(e) && id in e.sched.files
    ensures var e' := Handled(Step(e, UserReject(id)), |e.toSender| + 1);
            StateOf(e'.rows, (id, false)) == Some(R.Declined) && id !in e'.sched.out.offered
  {
    SenderRows.OutgoingRowTells(e, id);
    var before := LastIsHandled(e, UserReject(id), Reject(id), id);
  }

  lemma {:induction false} WithoutHasNone(queue: seq<(nat, File)>, id: nat)
    ensures !S.Has(TransferState.Without(queue, id), id)
  {
    if queue == [] {
    } else {
      WithoutHasNone(queue[1..], id);
    }
  }

  /** A click on cancel arrives: the file is flagged, out of the queue, and its row cancelled unless it was done. */
  lemma CancelArrives(e: Engine, id: nat)
    requires Reachable(e) && id in e.sched.files
    ensures var e' := Handled(Step(e, UserCancel(id)), |e.toSender| + 1);
            && StateOf(e'.rows, (id, false)) in {Some(R.Cancelled), Some(R.Done)}
            && id in e'.sched.out.cancelled && id !in e'.sched.out.offered && !S.Has(e'.sched.out.queue, id)
  {
    SenderRows.OutgoingRowTells(e, id);
    var before := LastIsHandled(e, UserCancel(id), Cancel(id), id);
    WithoutHasNone(before.sched.out.queue, id);
  }

  /**
   * A click on accept of a waiting offer arrives: the file comes to a channel without any further click, and
   * can be brought to a save.
   */
  lemma AcceptLands(e: Engine, id: nat) returns (all: seq<Op>)
    requires Reachable(e) && id in e.sched.out.offered && Delivery.FirstAnswer(e.toSender, id) == None
    requires id in e.sched.files && !Delivery.Doomed(e, id)
    ensures Delivery.Automatic(all) && IsSaved(Exec(Step(e, UserAccept(id)), all).recv.saved, id)
  {
    var e1 := Step(e, UserAccept(id));
    ReachableStep(e, UserAccept(id));
    Delivery.FirstAnswerAppend(e.toSender, Accept(id), id);
    var ops, k := Delivery.StartOffered(e1, id);
    all := Delivery.BegunLands(e1, ops, id, k);
  }

  /**
   * In every run, whenever the page asks for a decision, a click on accept can be followed, without any further
   * click, by the file being saved and its row saying done.
   */
  lemma AcceptedCanBeDone(ops: seq<Op>, id: nat) returns (all: seq<Op>)
    requires Shown(Play(Blank(), ops), UserAccept(id))
    ensures Delivery.Automatic(all)
    ensures StateOf(Play(Move(Play(Blank(), ops), UserAccept(id)), all).rows, (id, true)) == Some(R.Done)
  {
    var s := Play(Blank(), ops);
    var s1 := Move(s, UserAccept(id));
    BlankInv();
    PlayKeeps(Blank(), ops);
    OpenOffers.OfferedIsOpen(ops, id);
    all := AcceptLands(s.e, id);
    MoveKeeps(s, UserAccept(id));
    PlayKeeps(s1, all);
    AutomaticPlays(s1, all);
  }

  /** The page after `n` frames of the control channel were delivered to the receiver. */
  function Heard(s: Page, n: nat): Page {
    if n == 0 then s else Move(Heard(s, n - 1), CtrlToReceiver)
  }

  lemma HearKeepsRow(s: Page, id: nat)
    requires s.e.toReceiver != []
    ensures Move(s, CtrlToReceiver).e.toReceiver == s.e.toReceiver[1..]
    ensures (id, true) in s.rows ==> (id, true) in Move(s, CtrlToReceiver).rows
  {
  }

  lemma {:induction false} NewsDrains(s: Page, n: nat, id: nat)
    requires n <= |s.e.toReceiver|
    ensures Heard(s, n).e.toReceiver == s.e.toReceiver[n..]
    ensures (id, true) in s.rows ==> (id, true) in Heard(s, n).rows
    decreases n
  {
    if n == 0 {
    } else {
      NewsDrains(s, n - 1, id);
      HearKeepsRow(Heard(s, n - 1), id);
    }
  }

  lemma LastRemains<X>(s: seq<X>)
    requires s != []
    ensures s[|s| - 1..] == [s[|s| - 1]]
  {
  }

  lemma LastIsHeard(s: Page, c: Control, id: nat) returns (before: Page)
    requires s.e.toReceiver != [] && s.e.toReceiver[|s.e.toReceiver| - 1] == c
    ensures before.e.toReceiver == [c] && ((id, true) in s.rows ==> (id, true) in before.rows)
    ensures Heard(s, |s.e.toReceiver|) == Move(before, CtrlToReceiver)
  {
    var n := |s.e.toReceiver| - 1;
    NewsDrains(s, n, id);
    before := Heard(s, n);
    LastRemains(s.e.toReceiver);
  }

  /** A click on abort arrives: the receiver's buffer is gone, and its row says cancelled. */
  lemma AbortArrives(s: Page, id: nat)
    requires Shown(s, UserAbort(id)) && (id, true) in s.rows
    ensures var s1 := Move(s, UserAbort(id));
            var s' := Heard(s1, |s1.e.toReceiver|);
            StateOf(s'.rows, (id, true)) == Some(R.Cancelled) && id !in s'.e.recv.incoming
  {
    var before := LastIsHeard(Move(s, UserAbort(id)), Abort(id), id);
  }

  /** An added file arrives: the receiver has a row for it, to be decided upon if it had none. */
  lemma OfferArrives(s: Page, file: File)
    ensures var s1 := Move(s, AddFile(file));
            var s' := Heard(s1, |s1.e.toReceiver|);
            (s.e.sched.nextId, true) in s'.rows
  {
    var id := s.e.sched.nextId;
    var before := LastIsHeard(Move(s, AddFile(file)), Offer(MetaOf(id, file)), id);
  }

  // ----- a declined file is gone from the page -----

  /** File `id` has no row, no offer of it is under way, and the sender is or will be told that it is refused. */
  ghost predicate Dismissed(s: Page, id: nat) {
    && (id, true) !in s.rows && id in s.e.sched.files
    && Delivery.Refusing(s.e.sched, s.e.toSender, id)
    && forall i :: 0 <= i < |s.e.toReceiver| ==> !OpenOffers.Announces(s.e.toReceiver[i], id)
  }

  lemma StepNewsDismissed(s: Page, op: Op, id: nat)
    requires Dismissed(s, id) && forall i :: i in s.e.sched.files ==> i < s.e.sched.nextId
    ensures forall i :: 0 <= i < |Step(s.e, op).toReceiver| ==>
              !OpenOffers.Announces(Step(s.e, op).toReceiver[i], id)
  {
    var news, news' := s.e.toReceiver, Step(s.e, op).toReceiver;
    if op.CtrlToReceiver? && news != [] {
      assert forall i :: 0 <= i < |news'| ==> news'[i] == news[i + 1];
    } else {
      assert news <= news';
      assert forall i :: 0 <= i < |news| ==> news'[i] == news[i];
    }
  }

  lemma RowsDismissed(s: Page, op: Op, id: nat)
    requires Reachable(s.e) && Dismissed(s, id)
    ensures (id, true) !in Move(s, op).rows
  {
    if op.Deliver? && op.k < |s.e.tasks| && op.k < |s.e.recv.routers|
       && s.e.recv.routers[op.k].read < |s.e.tasks[op.k].frames| {
      Delivery.RefusingIsUnstarted(s.e, id);
      ChannelIsOffered(s.e, op.k);
      if (id, true) in Move(s, op).rows {
        FrameKeys(s.rows, s.e.recv, op.k, s.e.tasks[op.k].frames[s.e.recv.routers[op.k].read], op.now, id);
      }
    }
  }

  lemma MoveDismissed(s: Page, op: Op, id: nat)
    requires Reachable(s.e) && Dismissed(s, id)
    ensures Dismissed(Move(s, op), id)
  {
    RowsDismissed(s, op, id);
    if Shown(s, op) {
      ReachableFiles(s.e);
      StepFiles(s.e, op);
      StepNewsDismissed(s, op, id);
      Delivery.StepRefuses(s.e, op, id);
    }
  }

  lemma {:induction false} PlayDismissed(s: Page, ops: seq<Op>, id: nat)
    requires Reachable(s.e) && Dismissed(s, id)
    ensures Dismissed(Play(s, ops), id) && !IsSaved(Play(s, ops).e.recv.saved, id)
    decreases |ops|
  {
    if ops == [] {
      Delivery.RefusingIsUnsaved(s.e, id);
    } else {
      MoveDismissed(s, ops[0], id);
      if Shown(s, ops[0]) {
        ReachableStep(s.e, ops[0]);
      }
      PlayDismissed(Move(s, ops[0]), ops[1..], id);
    }
  }

  /** A click on decline is final: in no run after it does the file show up again on the page, or is it saved. */
  lemma DeclinedIsGone(ops: seq<Op>, more: seq<Op>, id: nat)
    requires Shown(Play(Blank(), ops), UserReject(id))
    ensures var s' := Play(Move(Play(Blank(), ops), UserReject(id)), more);
            (id, true) !in s'.rows && !IsSaved(s'.e.recv.saved, id)
  {
    var s := Play(Blank(), ops);
    BlankInv();
    PlayKeeps(Blank(), ops);
    OpenOffers.PlayPending(Blank(), ops, id);
    ReachableStep(s.e, UserReject(id));
    Delivery.FirstAnswerAppend(s.e.toSender, Reject(id), id);
    assert Dismissed(Move(s, UserReject(id)), id);
    PlayDismissed(Move(s, UserReject(id)), more, id);
  }
}
