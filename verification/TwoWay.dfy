/**
 * Both directions of a session at once: two peers that send and receive over one shared control channel
 * each way and keep one row list each. File ids of the two directions overlap freely.
 */
module TwoWay {
  import opened Prelude
  import opened Protocol
  import opened Receiver
  import opened TransferEngine
  import opened ReceiverRows
  import S = Scheduler
  import T = SendTask
  import R = RowMaps

  datatype Party = Party(sched: S.Sched<File>, tasks: seq<T.Task>, rows: R.RowMap, recv: RecvState)

  datatype Session = Session(left: Party, right: Party, toRight: seq<Control>, toLeft: seq<Control>)

  function Mirror(d: Session): Session {
    Session(d.right, d.left, d.toLeft, d.toRight)
  }

  /** What the left peer, or the network on its behalf, does. */
  datatype Act =
    | Add(file: File)
    | ClickAccept(id: nat)
    | ClickReject(id: nat)
    | ClickCancel(id: nat)
    | ClickAbort(id: nat)
    | Hears
    | Wakes(k: nat, wake: T.Wake)
    | Takes(k: nat, now: real)

  /** The engine functions run on the left peer's sending half, on the whole row list it shares. */
  function Sending(d: Session): Engine {
    Engine(d.left.sched, d.left.tasks, d.left.rows, [], [], d.right.recv)
  }

  function PutBack(d: Session, e: Engine): Session {
    d.(left := d.left.(sched := e.sched, tasks := e.tasks, rows := e.rows), right := d.right.(recv := e.recv))
  }

  predicate IsAnswer(c: Control) {
    c.Accept? || c.Reject? || c.Cancel?
  }

  /** The control handler of the left peer: answers are for its sending half, all else for its receiving half. */
  function OnControl(d: Session, c: Control): Session {
    if IsAnswer(c) then PutBack(d, HandleAtSender(Sending(d), c))
    else
      d.(left := d.left.(rows := RowsOnControl(d.left.rows, c),
                         recv := if c.Abort? then d.left.recv.Drop(c.id) else d.left.recv))
  }

  function OnLeft(d: Session, act: Act): Session {
    match act
    case Add(file) =>
      var id := d.left.sched.nextId;
      var rows := R.MarkOffered(R.PushPending(d.left.rows, id, file.name, |file.bytes| as real), id);
      PutBack(d, Run(Sending(d).(rows := rows), S.Offer(file))).(toRight := d.toRight + [Offer(MetaOf(id, file))])
    case ClickAccept(id) =>
      if StateOf(d.left.rows, (id, true)) != Some(R.Offered) then d
      else d.(left := d.left.(rows := R.Accept(d.left.rows, id)), toRight := d.toRight + [Accept(id)])
    case ClickReject(id) =>
      if StateOf(d.left.rows, (id, true)) != Some(R.Offered) then d
      else d.(left := d.left.(rows := R.Decline(d.left.rows, id)), toRight := d.toRight + [Reject(id)])
    case ClickCancel(id) =>
      if StateOf(d.left.rows, (id, true)) != Some(R.Active) then d
      else
        d.(left := d.left.(rows := R.Cancel(d.left.rows, id), recv := d.left.recv.Drop(id)),
           toRight := d.toRight + [Cancel(id)])
    case ClickAbort(id) =>
      if StateOf(d.left.rows, (id, false)) != Some(R.Active) then d
      else
        PutBack(d, Run(Sending(d).(rows := R.MarkCancelledRemote(d.left.rows, id)), S.Cancel(id)))
          .(toRight := d.toRight + [Abort(id)])
    case Hears => if d.toLeft == [] then d else OnControl(d.(toLeft := d.toLeft[1..]), d.toLeft[0])
    case Wakes(k, wake) => if k < |d.left.tasks| then PutBack(d, WakeTask(Sending(d), k, wake)) else d
    case Takes(k, now) =>
      if k < |d.right.tasks| && k < |d.left.recv.routers| && d.left.recv.routers[k].read < |d.right.tasks[k].frames|
      then
        var frame := d.right.tasks[k].frames[d.left.recv.routers[k].read];
        d.(left := d.left.(recv := d.left.recv.Receive(k, frame, now),
                           rows := RowsOnFrame(d.left.rows, d.left.recv, k, frame, now)))
      else d
  }

  datatype Op = OfLeft(act: Act) | OfRight(act: Act)

  function Next(d: Session, op: Op): Session {
    match op
    case OfLeft(act) => OnLeft(d, act)
    case OfRight(act) => Mirror(OnLeft(Mirror(d), act))
  }

  function Live(d: Session, ops: seq<Op>): Session
    decreases |ops|
  {
    if ops == [] then d else Live(Next(d, ops[0]), ops[1..])
  }

  function Idle(): Session {
    var party := Party(S.Init(), [], map[], RecvState([], map[], [], {}));
    Session(party, party, [], [])
  }

  // ----- one direction, seen alone -----

  /** The part of a shared control channel that is about one direction. */
  function Answering(queue: seq<Control>): seq<Control> {
    if queue == [] then [] else (if IsAnswer(queue[0]) then [queue[0]] else []) + Answering(queue[1..])
  }

  function Telling(queue: seq<Control>): seq<Control> {
    if queue == [] then [] else (if IsAnswer(queue[0]) then [] else [queue[0]]) + Telling(queue[1..])
  }

  /** Files from left to right: the sender's half of the left rows, the receiver's half of the right ones. */
  function Rightward(d: Session): Page {
    Page(Engine(d.left.sched, d.left.tasks, R.HalfOf(d.left.rows, false), Telling(d.toRight), Answering(d.toLeft),
                d.right.recv),
         R.HalfOf(d.right.rows, true))
  }

  lemma {:induction false} AnsweringPush(queue: seq<Control>, c: Control)
    ensures Answering(queue + [c]) == Answering(queue) + (if IsAnswer(c) then [c] else [])
  {
    if queue == [] {
      assert [] + [c] == [c] && [c][1..] == [];
    } else {
      var first, last := if IsAnswer(queue[0]) then [queue[0]] else [], if IsAnswer(c) then [c] else [];
      assert (queue + [c])[1..] == queue[1..] + [c] && (queue + [c])[0] == queue[0];
      AnsweringPush(queue[1..], c);
      assert first + (Answering(queue[1..]) + last) == (first + Answering(queue[1..])) + last;
    }
  }

  lemma {:induction false} TellingPush(queue: seq<Control>, c: Control)
    ensures Telling(queue + [c]) == Telling(queue) + (if IsAnswer(c) then [] else [c])
  {
    if queue == [] {
      assert [] + [c] == [c] && [c][1..] == [];
    } else {
      var first, last := if IsAnswer(queue[0]) then [] else [queue[0]], if IsAnswer(c) then [] else [c];
      assert (queue + [c])[1..] == queue[1..] + [c] && (queue + [c])[0] == queue[0];
      TellingPush(queue[1..], c);
      assert first + (Telling(queue[1..]) + last) == (first + Telling(queue[1..])) + last;
    }
  }

  /** An engine whose row list is cut to the sender's half and whose control channels are `up` and `down`. */
  function Cut(e: Engine, down: seq<Control>, up: seq<Control>): Engine {
    e.(rows := R.HalfOf(e.rows, false), toReceiver := down, toSender := up)
  }

  lemma {:induction false} ReportCut(rows: R.RowMap, t: T.Task, counts: seq<nat>)
    ensures R.HalfOf(Report(rows, t, counts), false) == Report(R.HalfOf(rows, false), t, counts)
    ensures R.HalfOf(Report(rows, t, counts), true) == R.HalfOf(rows, true)
    decreases |counts|
  {
    if counts == [] {
    } else {
      var op := R.DoSendProgress(t.id, t.file.name, counts[0] as real, t.Size() as real);
      R.ApplyHalf(rows, op, false);
      ReportCut(R.Apply(rows, op), t, counts[1..]);
    }
  }

  lemma WokenCut(e: Engine, k: nat, wake: T.Wake, down: seq<Control>, up: seq<Control>)
    requires k < |e.tasks|
    ensures Cut(Woken(e, k, wake), down, up) == Woken(Cut(e, down, up), k, wake)
    ensures R.HalfOf(Woken(e, k, wake).rows, true) == R.HalfOf(e.rows, true)
  {
    var t := e.tasks[k];
    T.StepExtends(t, wake, t.id in e.sched.out.cancelled);
    var t' := T.Step(t, wake, t.id in e.sched.out.cancelled);
    ReportCut(e.rows, t', t'.progress[|t.progress|..]);
  }

  lemma EndsCut(e: Engine, t: T.Task, cancelled: bool, down: seq<Control>, up: seq<Control>)
    ensures Cut(Ends(e, t, cancelled), down, up) == Ends(Cut(e, down, up), t, cancelled)
    ensures R.HalfOf(Ends(e, t, cancelled).rows, true) == R.HalfOf(e.rows, true)
  {
    R.ApplyHalf(e.rows, R.DoSendProgress(t.id, t.file.name, t.Size() as real, t.Size() as real), false);
  }

  lemma WakeCut(e: Engine, k: nat, wake: T.Wake, down: seq<Control>, up: seq<Control>)
    requires k < |e.tasks|
    ensures Cut(WakeTask(e, k, wake), down, up) == WakeTask(Cut(e, down, up), k, wake)
    ensures R.HalfOf(WakeTask(e, k, wake).rows, true) == R.HalfOf(e.rows, true)
  {
    WokenCut(e, k, wake, down, up);
    var t, e' := e.tasks[k], Woken(e, k, wake);
    EndsCut(e', e'.tasks[k], t.id in e.sched.out.cancelled, down, up);
  }

  lemma HandleCut(e: Engine, c: Control, down: seq<Control>, up: seq<Control>)
    requires IsAnswer(c)
    ensures Cut(HandleAtSender(e, c), down, up) == HandleAtSender(Cut(e, down, up), c)
    ensures R.HalfOf(HandleAtSender(e, c).rows, true) == R.HalfOf(e.rows, true)
  {
    R.ApplyHalf(e.rows, R.DoMarkRejected(c.id), false);
    R.ApplyHalf(e.rows, R.DoMarkCancelled(c.id), false);
  }

  // ----- an act of one peer is at most one move of each direction -----

  /** What an act of the left peer is to the files it sends. */
  function AsSender(d: Session, act: Act): seq<TransferEngine.Op> {
    match act
    case Add(file) => [AddFile(file)]
    case ClickAbort(id) => [UserAbort(id)]
    case Hears => if d.toLeft != [] && IsAnswer(d.toLeft[0]) then [CtrlToSender] else []
    case Wakes(k, wake) => [Wake(k, wake)]
    case _ => []
  }

  /** What it is to the files it receives. */
  function AsReceiver(d: Session, act: Act): seq<TransferEngine.Op> {
    match act
    case ClickAccept(id) => [UserAccept(id)]
    case ClickReject(id) => [UserReject(id)]
    case ClickCancel(id) => [UserCancel(id)]
    case Hears => if d.toLeft != [] && !IsAnswer(d.toLeft[0]) then [CtrlToReceiver] else []
    case Takes(k, now) => [Deliver(k, now)]
    case _ => []
  }

  lemma PlayOne(s: Page, op: TransferEngine.Op)
    ensures Play(s, [op]) == Move(s, op)
  {
    assert [op][1..] == [];
    assert Play(Move(s, op), []) == Move(s, op);
  }

  lemma HalfState(rows: R.RowMap, id: nat, incoming: bool)
    ensures StateOf(R.HalfOf(rows, incoming), (id, incoming)) == StateOf(rows, (id, incoming))
  {
  }

  /** A frame that is no answer is told, and answers nothing. */
  lemma TellsMore(queue: seq<Control>, c: Control)
    requires !IsAnswer(c)
    ensures Telling(queue + [c]) == Telling(queue) + [c] && Answering(queue + [c]) == Answering(queue)
  {
    AnsweringPush(queue, c);
    TellingPush(queue, c);
    assert Answering(queue) + [] == Answering(queue);
  }

  lemma AddMoves(d: Session, file: File)
    ensures Rightward(OnLeft(d, Add(file))) == Move(Rightward(d), AddFile(file))
    ensures Rightward(Mirror(OnLeft(d, Add(file)))) == Rightward(Mirror(d))
  {
    var id := d.left.sched.nextId;
    var push, mark := R.DoPush(id, file.name, |file.bytes| as real), R.DoMarkOffered(id);
    R.ApplyHalf(d.left.rows, push, false);
    R.ApplyHalf(R.Apply(d.left.rows, push), mark, false);
    TellsMore(d.toRight, Offer(MetaOf(id, file)));
  }

  lemma AbortMoves(d: Session, id: nat)
    ensures Rightward(OnLeft(d, ClickAbort(id))) == Move(Rightward(d), UserAbort(id))
    ensures Rightward(Mirror(OnLeft(d, ClickAbort(id)))) == Rightward(Mirror(d))
  {
    HalfState(d.left.rows, id, false);
    R.ApplyHalf(d.left.rows, R.DoMarkCancelled(id), false);
    TellsMore(d.toRight, Abort(id));
  }

  lemma WakesMove(d: Session, k: nat, wake: T.Wake)
    ensures Rightward(OnLeft(d, Wakes(k, wake))) == Move(Rightward(d), Wake(k, wake))
    ensures Rightward(Mirror(OnLeft(d, Wakes(k, wake)))) == Rightward(Mirror(d))
  {
    if k < |d.left.tasks| {
      WakeCut(Sending(d), k, wake, Telling(d.toRight), Answering(d.toLeft));
    }
  }

  lemma AnswerFirst(queue: seq<Control>)
    requires queue != [] && IsAnswer(queue[0])
    ensures Answering(queue) == [queue[0]] + Answering(queue[1..]) && Telling(queue) == Telling(queue[1..])
    ensures Answering(queue)[1..] == Answering(queue[1..])
  {
    assert Telling(queue) == [] + Telling(queue[1..]);
  }

  lemma TellFirst(queue: seq<Control>)
    requires queue != [] && !IsAnswer(queue[0])
    ensures Telling(queue) == [queue[0]] + Telling(queue[1..]) && Answering(queue) == Answering(queue[1..])
    ensures Telling(queue)[1..] == Telling(queue[1..])
  {
    assert Answering(queue) == [] + Answering(queue[1..]);
  }

  /** Handling an answer on the whole row list, seen from the direction it belongs to. */
  lemma AnswerSeen(d: Session, c: Control)
    requires IsAnswer(c)
    ensures Rightward(OnControl(d, c)) == Rightward(d).(e := HandleAtSender(Rightward(d).e, c))
    ensures Rightward(Mirror(OnControl(d, c))) == Rightward(Mirror(d))
  {
    HandleCut(Sending(d), c, Telling(d.toRight), Answering(d.toLeft));
  }

  lemma HearingIs(s: Page)
    requires s.e.toSender != []
    ensures Move(s, CtrlToSender)
            == s.(e := HandleAtSender(s.e.(toSender := s.e.toSender[1..]), s.e.toSender[0]))
  {
  }

  lemma AnswerMoves(d: Session)
    requires d.toLeft != [] && IsAnswer(d.toLeft[0])
    ensures Rightward(OnLeft(d, Hears)) == Move(Rightward(d), CtrlToSender)
    ensures Rightward(Mirror(OnLeft(d, Hears))) == Rightward(Mirror(d))
  {
    AnswerFirst(d.toLeft);
    AnswerSeen(d.(toLeft := d.toLeft[1..]), d.toLeft[0]);
    HearingIs(Rightward(d));
  }

  lemma ToldMoves(d: Session)
    requires d.toLeft != [] && !IsAnswer(d.toLeft[0])
    ensures Rightward(OnLeft(d, Hears)) == Rightward(d)
    ensures Rightward(Mirror(OnLeft(d, Hears))) == Move(Rightward(Mirror(d)), CtrlToReceiver)
  {
    var c := d.toLeft[0];
    TellFirst(d.toLeft);
    if c.Offer? {
      R.ApplyHalf(d.left.rows, R.DoOffer(c.meta.id, c.meta.name, c.meta.size as real), true);
    } else if c.Abort? {
      R.ApplyHalf(d.left.rows, R.DoCancel(c.id), true);
    }
  }

  lemma AnswersMore(queue: seq<Control>, c: Control)
    requires IsAnswer(c)
    ensures Answering(queue + [c]) == Answering(queue) + [c] && Telling(queue + [c]) == Telling(queue)
  {
    AnsweringPush(queue, c);
    TellingPush(queue, c);
    assert Telling(queue) + [] == Telling(queue);
  }

  lemma AcceptMoves(d: Session, id: nat)
    ensures Rightward(OnLeft(d, ClickAccept(id))) == Rightward(d)
    ensures Rightward(Mirror(OnLeft(d, ClickAccept(id)))) == Move(Rightward(Mirror(d)), UserAccept(id))
  {
    HalfState(d.left.rows, id, true);
    R.ApplyHalf(d.left.rows, R.DoAccept(id), true);
    AnswersMore(d.toRight, Accept(id));
  }

  lemma RejectMoves(d: Session, id: nat)
    ensures Rightward(OnLeft(d, ClickReject(id))) == Rightward(d)
    ensures Rightward(Mirror(OnLeft(d, ClickReject(id)))) == Move(Rightward(Mirror(d)), UserReject(id))
  {
    HalfState(d.left.rows, id, true);
    R.ApplyHalf(d.left.rows, R.DoDecline(id), true);
    AnswersMore(d.toRight, Reject(id));
  }

  lemma CancelMoves(d: Session, id: nat)
    ensures Rightward(OnLeft(d, ClickCancel(id))) == Rightward(d)
    ensures Rightward(Mirror(OnLeft(d, ClickCancel(id)))) == Move(Rightward(Mirror(d)), UserCancel(id))
  {
    HalfState(d.left.rows, id, true);
    R.ApplyHalf(d.left.rows, R.DoCancel(id), true);
    AnswersMore(d.toRight, Cancel(id));
  }

  lemma FrameHalf(rows: R.RowMap, recv: RecvState, k: nat, frame: Frame, now: real)
    requires k < |recv.routers|
    ensures R.HalfOf(RowsOnFrame(rows, recv, k, frame, now), true)
            == RowsOnFrame(R.HalfOf(rows, true), recv, k, frame, now)
    ensures R.HalfOf(RowsOnFrame(rows, recv, k, frame, now), false) == R.HalfOf(rows, false)
  {
    match recv.routers[k].cur
    case None =>
    case Some(id) =>
      match frame
      case Binary(bytes) =>
        var after := recv.OnBytes(id, bytes, now);
        if id in after.incoming && after.incoming[id].meta.Some? {
          var inc, meta := after.incoming[id], after.incoming[id].meta.value;
          R.ApplyHalf(rows, R.DoRecvProgress(meta.id, meta.name, inc.received, meta.size as real, inc.speed), true);
        }
      case Text(End(_)) =>
        if id in recv.incoming && recv.incoming[id].meta.Some? {
          var meta := recv.incoming[id].meta.value;
          R.ApplyHalf(rows, R.DoRecvComplete(meta.id, meta.name), true);
        }
      case _ =>
  }

  lemma TakesMove(d: Session, k: nat, now: real)
    ensures Rightward(OnLeft(d, Takes(k, now))) == Rightward(d)
    ensures Rightward(Mirror(OnLeft(d, Takes(k, now)))) == Move(Rightward(Mirror(d)), Deliver(k, now))
  {
    if k < |d.right.tasks| && k < |d.left.recv.routers| && d.left.recv.routers[k].read < |d.right.tasks[k].frames| {
      FrameHalf(d.left.rows, d.left.recv, k, d.right.tasks[k].frames[d.left.recv.routers[k].read], now);
    }
  }

  /** Each direction sees an act of the left peer as the move that is its own, or not at all. */
  lemma ActMoves(d: Session, act: Act)
    ensures Rightward(OnLeft(d, act)) == Play(Rightward(d), AsSender(d, act))
    ensures Rightward(Mirror(OnLeft(d, act))) == Play(Rightward(Mirror(d)), AsReceiver(d, act))
  {
    var out, back := Rightward(d), Rightward(Mirror(d));
    match act {
      case Add(file) => AddMoves(d, file); PlayOne(out, AddFile(file));
      case ClickAbort(id) => AbortMoves(d, id); PlayOne(out, UserAbort(id));
      case Wakes(k, wake) => WakesMove(d, k, wake); PlayOne(out, Wake(k, wake));
      case Takes(k, now) => TakesMove(d, k, now); PlayOne(back, Deliver(k, now));
      case Hears =>
        if d.toLeft != [] {
          if IsAnswer(d.toLeft[0]) {
            AnswerMoves(d);
            PlayOne(out, CtrlToSender);
          } else {
            ToldMoves(d);
            PlayOne(back, CtrlToReceiver);
          }
        }
      case ClickAccept(id) => AcceptMoves(d, id); PlayOne(back, UserAccept(id));
      case ClickReject(id) => RejectMoves(d, id); PlayOne(back, UserReject(id));
      case ClickCancel(id) => CancelMoves(d, id); PlayOne(back, UserCancel(id));
    }
  }

  // ----- every run -----

  lemma {:induction false} PlayJoin(s: Page, a: seq<TransferEngine.Op>, b: seq<TransferEngine.Op>)
    ensures Play(s, a + b) == Play(Play(s, a), b)
    decreases |a|
  {
    if a == [] {
      assert a + b == b;
    } else {
      assert (a + b)[1..] == a[1..] + b;
      PlayJoin(Move(s, a[0]), a[1..], b);
    }
  }

  /** A run of both directions is, seen from either, a run of that direction alone. */
  lemma {:induction false} BothFollow(d: Session, ops: seq<Op>)
    returns (out: seq<TransferEngine.Op>, back: seq<TransferEngine.Op>)
    ensures Rightward(Live(d, ops)) == Play(Rightward(d), out)
    ensures Rightward(Mirror(Live(d, ops))) == Play(Rightward(Mirror(d)), back)
    decreases |ops|
  {
    if ops == [] {
      out, back := [], [];
    } else {
      var first, firstBack;
      match ops[0] {
        case OfLeft(act) =>
          ActMoves(d, act);
          first, firstBack := AsSender(d, act), AsReceiver(d, act);
        case OfRight(act) =>
          ActMoves(Mirror(d), act);
          first, firstBack := AsReceiver(Mirror(d), act), AsSender(Mirror(d), act);
      }
      out, back := BothFollow(Next(d, ops[0]), ops[1..]);
      PlayJoin(Rightward(d), first, out);
      PlayJoin(Rightward(Mirror(d)), firstBack, back);
      out, back := first + out, firstBack + back;
    }
  }

  /** What every file from one party to the other can rely on. */
  ghost predicate Served(from: Party, to: Party) {
    && (forall i :: 0 <= i < |to.recv.saved| ==>
          && to.recv.saved[i].meta.id in from.sched.files
          && Describes(to.recv.saved[i].meta, to.recv.saved[i].meta.id, from.sched.files[to.recv.saved[i].meta.id])
          && to.recv.saved[i].bytes == from.sched.files[to.recv.saved[i].meta.id].bytes)
    && (forall i, j :: 0 <= i < j < |to.recv.saved| ==> to.recv.saved[i].meta.id != to.recv.saved[j].meta.id)
    && (forall id :: StateOf(to.rows, (id, true)) == Some(R.Done) <==> IsSaved(to.recv.saved, id))
    && (forall id :: StateOf(from.rows, (id, false)) == Some(R.Done) ==>
          exists k :: 0 <= k < |from.tasks| && from.tasks[k].id == id && SentOrRefused(from.tasks[k]))
  }

  lemma RightwardServed(d: Session, out: seq<TransferEngine.Op>)
    requires Rightward(d) == Play(Blank(), out)
    ensures Served(d.left, d.right)
  {
    var s := Rightward(d);
    BlankInv();
    PlayKeeps(Blank(), out);
    EndToEndExact(s.e);
    forall i | 0 <= i < |d.right.recv.saved|
      ensures d.right.recv.saved[i].meta.id in d.left.sched.files
      ensures Describes(d.right.recv.saved[i].meta, d.right.recv.saved[i].meta.id,
                        d.left.sched.files[d.right.recv.saved[i].meta.id])
      ensures d.right.recv.saved[i].bytes == d.left.sched.files[d.right.recv.saved[i].meta.id].bytes
    {
      assert Exact(s.e, s.e.recv.saved[i]);
    }
    forall id ensures StateOf(d.right.rows, (id, true)) == Some(R.Done) <==> IsSaved(d.right.recv.saved, id) {
      HalfState(d.right.rows, id, true);
      DoneIffSaved(out, id);
    }
    forall id | StateOf(d.left.rows, (id, false)) == Some(R.Done)
      ensures exists k :: 0 <= k < |d.left.tasks| && d.left.tasks[k].id == id && SentOrRefused(d.left.tasks[k])
    {
      HalfState(d.left.rows, id, false);
      DoneMeansSentOrRefused(s.e, id);
    }
  }

  /**
   * Over every run of both directions, however their frames share the channels and their ids overlap:
   * each peer saves exactly what the other offered, and each row tells the truth about its own direction.
   */
  lemma BothWaysExact(ops: seq<Op>)
    ensures var d := Live(Idle(), ops); Served(d.left, d.right) && Served(d.right, d.left)
  {
    var d := Live(Idle(), ops);
    var out, back := BothFollow(Idle(), ops);
    assert Rightward(Idle()) == Blank() && Rightward(Mirror(Idle())) == Blank();
    RightwardServed(d, out);
    RightwardServed(Mirror(d), back);
  }
}
