/** How two pages come to a connection: who offers, who answers, and whose descriptions are used. */
module Handshake {
  import opened Prelude
  import opened Rooms
  import opened Limiter
  import opened Server
  import opened SignalingSystem
  import opened Recovery
  import R = Reconnect
  import W = Signaling

  // ----- a page does what its mail calls for -----

  /** What a page does to its connection, or shows or keeps for its user. */
  datatype Effect =
    | MakesOffer
    | MakesAnswer(sdp: string)
    | TearsDown
    | Shows(status: R.Status)
    | Owns(room: string)

  /** Requests, answers applied and candidates apart, and what is shown when a room is missing. */
  function Does(action: R.Action): seq<Effect> {
    match action
    case BuildPcAndOffer => [MakesOffer]
    case BuildPcAndAnswer(sdp) => [MakesAnswer(sdp)]
    case TeardownPc => [TearsDown]
    case SetStatus(status) => if status == R.Status.RoomNotFound then [] else [Shows(status)]
    case PersistRoom(room) => [Owns(room)]
    case _ => []
  }

  function CallsFor(msg: SignalMsg): seq<Effect> {
    match msg
    case PeerJoined => [MakesOffer]
    case Sdp(sdp, kind) => if kind == "offer" then [MakesAnswer(sdp)] else []
    case PeerLeft => [TearsDown, Shows(R.Status.PeerLeft)]
    case RoomFull => [Shows(R.Status.RoomFull)]
    case Created(room) => [Owns(room), Shows(R.WaitingForPeer)]
    case _ => []
  }

  function Effects(acts: seq<R.Action>): seq<Effect> {
    if acts == [] then [] else Effects(acts[..|acts| - 1]) + Does(acts[|acts| - 1])
  }

  function Called(mail: seq<SignalMsg>): seq<Effect> {
    if mail == [] then [] else Called(mail[..|mail| - 1]) + CallsFor(mail[|mail| - 1])
  }

  lemma EffectsPush(acts: seq<R.Action>, action: R.Action)
    ensures Effects(acts + [action]) == Effects(acts) + Does(action)
  {
    assert (acts + [action])[..|acts|] == acts;
  }

  lemma CalledPush(mail: seq<SignalMsg>, msg: SignalMsg)
    ensures Called(mail + [msg]) == Called(mail) + CallsFor(msg)
  {
    assert (mail + [msg])[..|mail|] == mail;
  }

  /** All effects of a page on connection `p`, in order, are those its mail so far called for. */
  ghost predicate FollowsMail(l: Link, queue: seq<SignalMsg>) {
    l.read <= |queue| && Effects(l.acts) == Called(queue[..l.read])
  }

  /** Every answer it applied came by mail as one. */
  ghost predicate AppliesMail(l: Link, queue: seq<SignalMsg>) {
    l.read <= |queue|
    && forall sdp :: R.SetRemoteAnswer(sdp) in l.acts ==>
         exists i :: 0 <= i < l.read && queue[i].Sdp? && queue[i].sdp == sdp && queue[i].kind != "offer"
  }

  lemma {:induction false} EffectsAppend(acts: seq<R.Action>, more: seq<R.Action>)
    ensures Effects(acts + more) == Effects(acts) + Effects(more)
    decreases |more|
  {
    if more == [] {
      assert acts + more == acts;
    } else {
      var n := |more| - 1;
      assert acts + more == (acts + more[..n]) + [more[n]];
      EffectsAppend(acts, more[..n]);
      EffectsPush(acts + more[..n], more[n]);
    }
  }

  lemma EffectsOfOne(a: R.Action)
    ensures Effects([a]) == Does(a)
  {
    EffectsPush([], a);
    assert [] + [a] == [a] && [] + Does(a) == Does(a);
  }

  lemma EffectsOfTwo(a: R.Action, b: R.Action)
    ensures Effects([a, b]) == Does(a) + Does(b)
  {
    EffectsOfOne(a);
    EffectsPush([a], b);
    assert [a] + [b] == [a, b];
  }

  lemma StepShape(session: R.SessionState, msg: SignalMsg, ev: R.Event)
    requires EventOf(msg) == Some(ev)
    ensures var actions := session.Step(ev).1;
            || (actions == [] && CallsFor(msg) == [])
            || (|actions| == 1 && CallsFor(msg) == Does(actions[0]))
            || (|actions| == 2 && CallsFor(msg) == Does(actions[0]) + Does(actions[1]))
  {
  }

  lemma StepDoes(session: R.SessionState, msg: SignalMsg, ev: R.Event)
    requires EventOf(msg) == Some(ev)
    ensures Effects(session.Step(ev).1) == CallsFor(msg)
  {
    var actions := session.Step(ev).1;
    StepShape(session, msg, ev);
    if |actions| == 1 {
      EffectsOfOne(actions[0]);
      assert actions == [actions[0]];
    } else if |actions| == 2 {
      EffectsOfTwo(actions[0], actions[1]);
      assert actions == [actions[0], actions[1]];
    }
  }

  /** The effects of a reducer step are what the event's message called for. */
  lemma StepFollows(session: R.SessionState, acts: seq<R.Action>, msg: SignalMsg, ev: R.Event)
    requires EventOf(msg) == Some(ev)
    ensures Effects(acts + session.Step(ev).1) == Effects(acts) + CallsFor(msg)
  {
    EffectsAppend(acts, session.Step(ev).1);
    StepDoes(session, msg, ev);
  }

  lemma OpenFollows(session: R.SessionState, acts: seq<R.Action>)
    ensures Effects(acts + session.Step(R.Event.Open).1) == Effects(acts)
  {
    EffectsPush(acts, session.Step(R.Event.Open).1[0]);
    assert Effects(acts) + [] == Effects(acts);
  }

  lemma ReadFollows(l: Link, l': Link, queue: seq<SignalMsg>)
    requires FollowsMail(l, queue) && l.read < |queue| && l'.read == l.read + 1
    requires Effects(l'.acts) == Effects(l.acts) + CallsFor(queue[l.read])
    ensures FollowsMail(l', queue)
  {
    assert queue[..l.read + 1] == queue[..l.read] + [queue[l.read]];
    CalledPush(queue[..l.read], queue[l.read]);
  }

  /** A delivery reads one message and acts on it. */
  lemma DeliverReads(s: System, c: nat, p: PeerId)
    requires s.Online(c) && s.clients[c].link == Some(p) && s.links[p].read < |s.server.Queue(p)|
    ensures Step(s, Delivers(c)).server == s.server
    ensures var l, l', ev := s.links[p], Step(s, Delivers(c)).links[p], EventOf(s.server.Queue(p)[s.links[p].read]);
            && l'.read == l.read + 1
            && l'.acts == if ev.Some? then l.acts + s.clients[c].session.Step(ev.value).1 else l.acts
  {
    assert s.links[p].acts + [] == s.links[p].acts;
  }

  lemma DeliverFollows(s: System, c: nat, p: PeerId)
    requires s.Online(c) && s.clients[c].link == Some(p) && s.links[p].read < |s.server.Queue(p)|
    requires FollowsMail(s.links[p], s.server.Queue(p))
    ensures FollowsMail(Step(s, Delivers(c)).links[p], Step(s, Delivers(c)).server.Queue(p))
  {
    var l, l', queue := s.links[p], Step(s, Delivers(c)).links[p], s.server.Queue(p);
    DeliverReads(s, c, p);
    var ev := EventOf(queue[l.read]);
    if ev.Some? {
      StepFollows(s.clients[c].session, l.acts, queue[l.read], ev.value);
    } else {
      assert Effects(l.acts) + [] == Effects(l.acts);
    }
    ReadFollows(l, l', queue);
  }

  lemma DeliverApplies(s: System, c: nat, p: PeerId)
    requires s.Online(c) && s.clients[c].link == Some(p) && s.links[p].read < |s.server.Queue(p)|
    requires AppliesMail(s.links[p], s.server.Queue(p))
    ensures AppliesMail(Step(s, Delivers(c)).links[p], Step(s, Delivers(c)).server.Queue(p))
  {
    var l, queue := s.links[p], s.server.Queue(p);
    var l' := Step(s, Delivers(c)).links[p];
    forall sdp | R.SetRemoteAnswer(sdp) in l'.acts
      ensures exists i :: 0 <= i < l'.read && queue[i].Sdp? && queue[i].sdp == sdp && queue[i].kind != "offer"
    {
      if R.SetRemoteAnswer(sdp) in l.acts {
        var i :| 0 <= i < l.read && queue[i].Sdp? && queue[i].sdp == sdp && queue[i].kind != "offer";
      } else {
        assert queue[l.read].Sdp? && queue[l.read].sdp == sdp && queue[l.read].kind != "offer";
      }
    }
  }

  // ----- every run -----

  /** No message waits for a connection that does not exist yet. */
  ghost predicate Unborn(s: System) {
    forall p :: p >= s.server.nextId ==> s.server.Queue(p) == []
  }

  ghost predicate FaithfulAt(s: System, p: PeerId) {
    p in s.links && FollowsMail(s.links[p], s.server.Queue(p)) && AppliesMail(s.links[p], s.server.Queue(p))
  }

  lemma HandleGrows(s: ServerState, p: PeerId, ip: Ip, msg: SignalMsg, now: nat, newRoom: string, q: PeerId)
    ensures s.Queue(q) <= s.Handle(p, ip, msg, now, newRoom).Queue(q)
    ensures q !in s.senders ==> s.Handle(p, ip, msg, now, newRoom).Queue(q) == s.Queue(q)
  {
    var sent := HandleSends(s, p, ip, msg, now, newRoom, q);
  }

  lemma CleanupGrows(s: ServerState, p: PeerId, q: PeerId)
    ensures s.Queue(q) <= s.Cleanup(p).Queue(q)
    ensures q !in s.senders ==> s.Cleanup(p).Queue(q) == s.Queue(q)
  {
  }

  lemma CleanupSends(s: ServerState, p: PeerId, q: PeerId)
    ensures s.Cleanup(p).Queue(q) in {s.Queue(q), s.Queue(q) + [SignalMsg.PeerLeft]}
  {
  }

  lemma GrowthKeeps(l: Link, queue: seq<SignalMsg>, queue': seq<SignalMsg>)
    requires FollowsMail(l, queue) && AppliesMail(l, queue) && queue <= queue'
    ensures FollowsMail(l, queue') && AppliesMail(l, queue')
  {
    assert queue'[..l.read] == queue[..l.read];
    forall sdp | R.SetRemoteAnswer(sdp) in l.acts
      ensures exists i :: 0 <= i < l.read && queue'[i].Sdp? && queue'[i].sdp == sdp && queue'[i].kind != "offer"
    {
      var i :| 0 <= i < l.read && queue[i].Sdp? && queue[i].sdp == sdp && queue[i].kind != "offer";
      assert queue'[i] == queue[i];
    }
  }

  lemma OpensLink(s: System, c: nat, p: PeerId)
    requires p in s.links && s.HasLink(c) && s.links[s.clients[c].link.value].state == W.CONNECTING
    ensures var s', l := Step(s, Op.Opens(c)), s.links[p];
            && s'.server == s.server && p in s'.links && s'.links[p].read == l.read
            && s'.links[p].acts
               == if s.clients[c].link == Some(p) then l.acts + s.clients[c].session.Step(R.Event.Open).1 else l.acts
  {
  }

  lemma OpenKeeps(l: Link, queue: seq<SignalMsg>, session: R.SessionState)
    requires AppliesMail(l, queue)
    ensures AppliesMail(l.(acts := l.acts + session.Step(R.Event.Open).1), queue)
  {
  }

  lemma OpensFaithful(s: System, c: nat, p: PeerId)
    requires FaithfulAt(s, p) && s.HasLink(c) && s.links[s.clients[c].link.value].state == W.CONNECTING
    ensures FaithfulAt(Step(s, Op.Opens(c)), p)
  {
    OpensLink(s, c, p);
    if s.clients[c].link == Some(p) {
      OpenFollows(s.clients[c].session, s.links[p].acts);
      OpenKeeps(s.links[p], s.server.Queue(p), s.clients[c].session);
    }
  }

  lemma DeliversFaithful(s: System, c: nat, p: PeerId)
    requires FaithfulAt(s, p) && s.Online(c)
    ensures FaithfulAt(Step(s, Delivers(c)), p)
  {
    if s.clients[c].link == Some(p) && s.links[p].read < |s.server.Queue(p)| {
      DeliverFollows(s, c, p);
      DeliverApplies(s, c, p);
    }
  }

  lemma HandlesFaithful(s: System, q: PeerId, now: nat, newRoom: string, p: PeerId)
    requires FaithfulAt(s, p)
    ensures FaithfulAt(Step(s, Handles(q, now, newRoom)), p)
  {
    if q in s.links && s.links[q].inbox != [] {
      HandleGrows(s.server, q, s.links[q].ip, s.links[q].inbox[0], now, newRoom, p);
      GrowthKeeps(s.links[p], s.server.Queue(p), s.Serves(q, now, newRoom).server.Queue(p));
    }
  }

  lemma CleansFaithful(s: System, q: PeerId, p: PeerId)
    requires FaithfulAt(s, p)
    ensures FaithfulAt(Step(s, Cleans(q)), p)
  {
    CleanupGrows(s.server, q, p);
    GrowthKeeps(s.links[p], s.server.Queue(p), s.server.Cleanup(q).Queue(p));
  }

  lemma StepFaithful(s: System, op: Op, p: PeerId)
    requires Unborn(s) && p in Step(s, op).links
    requires p in s.links ==> p < s.server.nextId && FaithfulAt(s, p)
    ensures FaithfulAt(Step(s, op), p)
  {
    match op
    case Opens(c) =>
      if s.HasLink(c) && s.links[s.clients[c].link.value].state == W.CONNECTING { OpensFaithful(s, c, p); }
    case Delivers(c) => if s.Online(c) { DeliversFaithful(s, c, p); }
    case Handles(q, now, newRoom) => HandlesFaithful(s, q, now, newRoom, p);
    case Cleans(q) => CleansFaithful(s, q, p);
    case _ =>
  }

  lemma StepUnborn(s: System, op: Op, q: PeerId)
    requires Unborn(s) && ServerInv(s.server) && q >= Step(s, op).server.nextId
    ensures Step(s, op).server.Queue(q) == []
  {
    match op
    case Handles(p, now, newRoom) =>
      if p in s.links && s.links[p].inbox != [] {
        HandleFrame(s.server, p, s.links[p].ip, s.links[p].inbox[0], now, newRoom);
        HandleGrows(s.server, p, s.links[p].ip, s.links[p].inbox[0], now, newRoom, q);
      }
    case Cleans(p) =>
      CleanupFrame(s.server, p);
      CleanupGrows(s.server, p, q);
    case _ =>
      assert s.server.Queue(q) == [];
      assert Step(s, op).server.Queue(q) == s.server.Queue(q);
  }

  lemma {:induction false} ExecUnborn(ops: seq<Op>)
    ensures Unborn(Exec(ops))
    decreases |ops|
  {
    if ops == [] {
    } else {
      ExecUnborn(ops[..|ops| - 1]);
      ExecKeeps(ops[..|ops| - 1]);
      forall q | q >= Exec(ops).server.nextId ensures Exec(ops).server.Queue(q) == [] {
        StepUnborn(Exec(ops[..|ops| - 1]), ops[|ops| - 1], q);
      }
    }
  }

  lemma {:induction false} ExecFaithful(ops: seq<Op>, p: PeerId)
    requires p in Exec(ops).links
    ensures FaithfulAt(Exec(ops), p)
    decreases |ops|
  {
    if ops == [] {
    } else {
      var front := ops[..|ops| - 1];
      ExecKeeps(front);
      ExecUnborn(front);
      if p in Exec(front).links {
        ExecFaithful(front, p);
      }
      StepFaithful(Exec(front), ops[|ops| - 1], p);
    }
  }

  /**
   * In every run, what a page did on a connection, in order, is what the mail it has read called for: one
   * offer per PeerJoined, one answer per offer and to that offer, one teardown per PeerLeft.
   */
  lemma ActsFollowMail(ops: seq<Op>, p: PeerId)
    requires p in Exec(ops).links
    ensures var l, queue := Exec(ops).links[p], Exec(ops).server.Queue(p);
            l.read <= |queue| && Effects(l.acts) == Called(queue[..l.read])
  {
    ExecFaithful(ops, p);
  }

  // ----- whose descriptions a page uses -----

  /** At step `h` the server passed `msg` on to `p`, from the peer that was its partner then. */
  ghost predicate RelaysTo(ops: seq<Op>, h: nat, p: PeerId, msg: SignalMsg) {
    && h < |ops| && ops[h].Handles?
    && var s, q := Exec(ops[..h]), ops[h].p;
       q in s.links && s.links[q].inbox != [] && s.links[q].inbox[0] == msg && s.server.reg.Partner(q) == Some(p)
  }

  /** At step `k` a page said `msg` on its connection `q`. */
  ghost predicate SaysOn(ops: seq<Op>, k: nat, q: PeerId, msg: SignalMsg) {
    && k < |ops| && ops[k].Chats? && ops[k].msg == msg
    && var s, c := Exec(ops[..k]), ops[k].c; s.Online(c) && s.clients[c].link == Some(q)
  }

  lemma RelaysEarlier(ops: seq<Op>, n: nat, h: nat, p: PeerId, msg: SignalMsg)
    requires n <= |ops| && RelaysTo(ops[..n], h, p, msg)
    ensures RelaysTo(ops, h, p, msg)
  {
    assert ops[..n][..h] == ops[..h];
  }

  lemma SaysEarlier(ops: seq<Op>, n: nat, k: nat, q: PeerId, msg: SignalMsg)
    requires n <= |ops| && SaysOn(ops[..n], k, q, msg)
    ensures SaysOn(ops, k, q, msg)
  {
    assert ops[..n][..k] == ops[..k];
  }

  lemma HandledMail(
      s: ServerState, q: PeerId, ip: Ip, msg: SignalMsg, now: nat, newRoom: string, p: PeerId, j: nat)
    requires var queue := s.Handle(q, ip, msg, now, newRoom).Queue(p);
             j < |queue| && Relayed(queue[j]) && (j < |s.Queue(p)| ==> queue[j] != s.Queue(p)[j])
    ensures s.Handle(q, ip, msg, now, newRoom).Queue(p)[j] == msg && s.reg.Partner(q) == Some(p)
  {
    var sent := HandleSends(s, q, ip, msg, now, newRoom, p);
  }

  /** A description or candidate that is new in a queue was just passed on by the partner. */
  lemma NewMailIsRelayed(s: System, op: Op, p: PeerId, j: nat)
    requires Unborn(s) && j < |Step(s, op).server.Queue(p)| && Relayed(Step(s, op).server.Queue(p)[j])
    requires j < |s.server.Queue(p)| ==> Step(s, op).server.Queue(p)[j] != s.server.Queue(p)[j]
    ensures op.Handles? && op.p in s.links && s.links[op.p].inbox != []
            && s.links[op.p].inbox[0] == Step(s, op).server.Queue(p)[j] && s.server.reg.Partner(op.p) == Some(p)
  {
    if op.Handles? {
      if op.p in s.links && s.links[op.p].inbox != [] {
        HandledMail(s.server, op.p, s.links[op.p].ip, s.links[op.p].inbox[0], op.now, op.newRoom, p, j);
      }
    } else if op.Cleans? {
      CleanupSends(s.server, op.p, p);
    }
  }

  lemma {:induction false} MailIsFromPartner(ops: seq<Op>, p: PeerId, j: nat) returns (h: nat)
    requires j < |Exec(ops).server.Queue(p)| && Relayed(Exec(ops).server.Queue(p)[j])
    ensures RelaysTo(ops, h, p, Exec(ops).server.Queue(p)[j])
    decreases |ops|
  {
    if ops == [] {
      assert false;
    } else {
      var n := |ops| - 1;
      var s, msg := Exec(ops[..n]), Exec(ops).server.Queue(p)[j];
      ExecUnborn(ops[..n]);
      if j < |s.server.Queue(p)| && s.server.Queue(p)[j] == msg {
        h := MailIsFromPartner(ops[..n], p, j);
        RelaysEarlier(ops, n, h, p, msg);
      } else {
        NewMailIsRelayed(s, ops[n], p, j);
        h := n;
      }
    }
  }

  lemma {:induction false} SendsAsk(actions: seq<R.Action>)
    ensures forall i :: 0 <= i < |Sends(actions)| ==> Asks(Sends(actions)[i])
  {
    if actions == [] {
    } else {
      SendsAsk(actions[1..]);
    }
  }

  /** What waits to go up a connection was said there, or waited before. */
  lemma UplinkIsSaid(s: System, op: Op, q: PeerId, j: nat) returns (i: nat)
    requires q in Step(s, op).links && j < |Step(s, op).links[q].inbox| && Relayed(Step(s, op).links[q].inbox[j])
    ensures var msg := Step(s, op).links[q].inbox[j];
            || (q in s.links && i < |s.links[q].inbox| && s.links[q].inbox[i] == msg)
            || (op.Chats? && op.msg == msg && s.Online(op.c) && s.clients[op.c].link == Some(q))
  {
    i := j;
    match op
    case Opens(c) => if s.HasLink(c) { SendsAsk(s.clients[c].session.Step(R.Event.Open).1); }
    case Delivers(c) =>
      if s.Online(c) {
        var p := s.clients[c].link.value;
        if s.links[p].read < |s.server.Queue(p)| && EventOf(s.server.Queue(p)[s.links[p].read]).Some? {
          SendsAsk(s.clients[c].session.Step(EventOf(s.server.Queue(p)[s.links[p].read]).value).1);
        }
      }
    case Handles(p, _, _) => if p == q && Step(s, op) != s { i := j + 1; }
    case _ =>
  }

  lemma {:induction false} UplinkIsChatted(ops: seq<Op>, q: PeerId, j: nat) returns (k: nat)
    requires q in Exec(ops).links && j < |Exec(ops).links[q].inbox| && Relayed(Exec(ops).links[q].inbox[j])
    ensures SaysOn(ops, k, q, Exec(ops).links[q].inbox[j])
    decreases |ops|
  {
    if ops == [] {
      assert false;
    } else {
      var n := |ops| - 1;
      var s, msg := Exec(ops[..n]), Exec(ops).links[q].inbox[j];
      var i := UplinkIsSaid(s, ops[n], q, j);
      if q in s.links && i < |s.links[q].inbox| && s.links[q].inbox[i] == msg {
        k := UplinkIsChatted(ops[..n], q, i);
        SaysEarlier(ops, n, k, q, msg);
      } else {
        k := n;
      }
    }
  }

  /** Every description in a queue was said by a page, before the server passed it on to the page's partner. */
  lemma DescriptionsArePartners(ops: seq<Op>, p: PeerId, j: nat) returns (k: nat, h: nat)
    requires j < |Exec(ops).server.Queue(p)| && Relayed(Exec(ops).server.Queue(p)[j])
    ensures var msg := Exec(ops).server.Queue(p)[j];
            k < h && RelaysTo(ops, h, p, msg) && SaysOn(ops, k, ops[h].p, msg)
  {
    h := MailIsFromPartner(ops, p, j);
    k := UplinkIsChatted(ops[..h], ops[h].p, 0);
    SaysEarlier(ops, h, k, ops[h].p, Exec(ops).server.Queue(p)[j]);
  }

  lemma {:induction false} CalledIsMailed(mail: seq<SignalMsg>, effect: Effect) returns (i: nat)
    requires effect in Called(mail)
    ensures i < |mail| && effect in CallsFor(mail[i])
  {
    var n := |mail| - 1;
    if effect in Called(mail[..n]) {
      i := CalledIsMailed(mail[..n], effect);
    } else {
      i := n;
    }
  }

  lemma AnswersOffers(msg: SignalMsg, sdp: string)
    requires MakesAnswer(sdp) in CallsFor(msg)
    ensures msg == Sdp(sdp, "offer")
  {
  }

  lemma {:induction false} DoneIsEffect(acts: seq<R.Action>, action: R.Action, effect: Effect)
    requires action in acts && effect in Does(action)
    ensures effect in Effects(acts)
  {
    var n := |acts| - 1;
    if action != acts[n] {
      assert acts == acts[..n] + [acts[n]];
      DoneIsEffect(acts[..n], action, effect);
    }
  }

  lemma AnsweredIsMailed(l: Link, queue: seq<SignalMsg>, sdp: string) returns (j: nat)
    requires FollowsMail(l, queue) && R.BuildPcAndAnswer(sdp) in l.acts
    ensures j < l.read && queue[j] == Sdp(sdp, "offer")
  {
    DoneIsEffect(l.acts, R.BuildPcAndAnswer(sdp), MakesAnswer(sdp));
    j := CalledIsMailed(queue[..l.read], MakesAnswer(sdp));
    AnswersOffers(queue[..l.read][j], sdp);
  }

  /** A page answers only an offer that another page made while the server had the two as partners. */
  lemma AnswersOnlyItsPartner(ops: seq<Op>, p: PeerId, sdp: string) returns (k: nat, h: nat)
    requires p in Exec(ops).links && R.BuildPcAndAnswer(sdp) in Exec(ops).links[p].acts
    ensures k < h && RelaysTo(ops, h, p, Sdp(sdp, "offer")) && SaysOn(ops, k, ops[h].p, Sdp(sdp, "offer"))
  {
    ExecFaithful(ops, p);
    var j := AnsweredIsMailed(Exec(ops).links[p], Exec(ops).server.Queue(p), sdp);
    k, h := DescriptionsArePartners(ops, p, j);
  }

  /** And applies only an answer that its partner of that moment gave. */
  lemma AppliesOnlyItsPartner(ops: seq<Op>, p: PeerId, sdp: string) returns (k: nat, h: nat, kind: string)
    requires p in Exec(ops).links && R.SetRemoteAnswer(sdp) in Exec(ops).links[p].acts
    ensures kind != "offer"
    ensures k < h && RelaysTo(ops, h, p, Sdp(sdp, kind)) && SaysOn(ops, k, ops[h].p, Sdp(sdp, kind))
  {
    var l, queue := Exec(ops).links[p], Exec(ops).server.Queue(p);
    ExecFaithful(ops, p);
    var j :| 0 <= j < l.read && queue[j].Sdp? && queue[j].sdp == sdp && queue[j].kind != "offer";
    kind := queue[j].kind;
    k, h := DescriptionsArePartners(ops, p, j);
  }

  // ----- two pages come to a connection -----

  /** Client `c` sits on link `p`, which has done `acts`; `up` and `down` are under way. */
  datatype Seat = Seat(
    c: nat,
    p: PeerId,
    session: R.SessionState,
    up: seq<SignalMsg>,
    down: seq<SignalMsg>,
    acts: seq<R.Action>)

  ghost predicate Seated(s: System, a: Seat) {
    Sits(s, a.c, a.p, a.session, a.up, a.down) && s.links[a.p].acts == a.acts
  }

  ghost predicate Seats(s: System, a: Seat, b: Seat) {
    Seated(s, a) && Seated(s, b) && a.c != b.c && a.p != b.p
  }

  ghost predicate Partners(s: System, a: Seat, b: Seat) {
    Seats(s, a, b) && s.server.reg.Partner(a.p) == Some(b.p) && s.server.reg.Partner(b.p) == Some(a.p)
  }

  /** No connection but `p` did anything from `s` to `s'`. */
  ghost predicate OnlyActs(s: System, s': System, p: PeerId) {
    forall x :: x in s.links && x != p ==> x in s'.links && s'.links[x].acts == s.links[x].acts
  }

  ghost predicate NobodyActs(s: System, s': System) {
    forall x :: x in s.links ==> x in s'.links && s'.links[x].acts == s.links[x].acts
  }

  /** The server's turn moves no page, and grows the mail of a seat it does not serve. */
  lemma ServesOther(s: System, p: PeerId, now: nat, newRoom: string, a: Seat, sent: seq<SignalMsg>)
    requires p in s.links && p in s.server.senders && s.links[p].inbox != []
    requires s.links[p].inbox[0].Create? ==> newRoom !in s.server.reg.rooms
    requires Seated(s, a) && a.p != p
    requires s.server.Handle(p, s.links[p].ip, s.links[p].inbox[0], now, newRoom).Queue(a.p)
             == s.server.Queue(a.p) + sent
    ensures Seated(Step(s, Handles(p, now, newRoom)), a.(down := a.down + sent))
  {
    var n := s.links[a.p].read;
    HandleFrame(s.server, p, s.links[p].ip, s.links[p].inbox[0], now, newRoom);
    assert (s.server.Queue(a.p) + sent)[n..] == s.server.Queue(a.p)[n..] + sent;
  }

  lemma ServesOwn(s: System, a: Seat, msg: SignalMsg, now: nat, newRoom: string)
    requires Seated(s, a) && a.up == [msg] && !msg.Create? && a.down == []
    requires s.server.Handle(a.p, s.links[a.p].ip, msg, now, newRoom).Queue(a.p) == s.server.Queue(a.p)
    ensures var s' := Step(s, Handles(a.p, now, newRoom));
            && Seated(s', a.(up := []))
            && s'.server == s.server.Handle(a.p, s.links[a.p].ip, msg, now, newRoom)
  {
    assert s.server.Queue(a.p) + [] == s.server.Queue(a.p);
    HandleOne(s, a.c, a.p, a.session, msg, [], now, newRoom);
  }

  lemma ServerMovesNobody(s: System, p: PeerId, now: nat, newRoom: string)
    ensures NobodyActs(s, Step(s, Handles(p, now, newRoom)))
  {
  }

  lemma MailArrives(s: System, a: Seat, b: Seat, msg: SignalMsg, ev: R.Event)
    requires Seats(s, a, b) && a.up == [] && a.down == [msg] && EventOf(msg) == Some(ev)
    ensures var s', (session, actions) := Step(s, Delivers(a.c)), a.session.Step(ev);
            && Seats(s', Seat(a.c, a.p, session, Sends(actions), [], a.acts + actions), b)
            && s'.server == s.server && OnlyActs(s, s', a.p)
  {
    DeliverOne(s, a.c, a.p, a.session, msg, ev);
  }

  lemma PageSays(s: System, a: Seat, b: Seat, msg: SignalMsg)
    requires Seats(s, a, b) && a.up == [] && Relayed(msg)
    ensures var s' := Step(s, Chats(a.c, msg));
            Seats(s', a.(up := [msg]), b) && s'.server == s.server && NobodyActs(s, s')
  {
    assert [] + [msg] == [msg];
  }

  lemma ServerPasses(s: System, a: Seat, b: Seat, msg: SignalMsg, now: nat, newRoom: string)
    requires Partners(s, a, b) && a.up == [msg] && Relayed(msg) && a.down == [] && b.down == []
    ensures var s' := Step(s, Handles(a.p, now, newRoom));
            Partners(s', a.(up := []), b.(down := [msg])) && NobodyActs(s, s')
  {
    ServesOwn(s, a, msg, now, newRoom);
    ServesOther(s, a.p, now, newRoom, b, [msg]);
    ServerMovesNobody(s, a.p, now, newRoom);
    assert [] + [msg] == [msg];
  }

  lemma JoinIsHandled(s: ServerState, p: PeerId, ip: Ip, room: string, now: nat, newRoom: string, incumbent: PeerId)
    requires ServerInv(s) && p !in s.reg.peerRoom && s.PlacesAs(ip, Join(room), now) == Some(Joiner)
    requires s.reg.rooms[room].peers == [incumbent]
    ensures var s' := s.Handle(p, ip, Join(room), now, newRoom);
            s'.reg.Partner(p) == Some(incumbent) && s'.reg.Partner(incumbent) == Some(p)
  {
    JoinPartners(s.reg, p, room, now, p);
  }

  lemma JoinPairs(s: System, a: Seat, b: Seat, room: string, now: nat, newRoom: string)
    requires Seats(s, a, b) && a.down == [] && b.up == [Join(room)] && b.down == []
    requires ServerInv(s.server) && b.p !in s.server.reg.peerRoom
    requires s.server.PlacesAs(s.links[b.p].ip, Join(room), now) == Some(Joiner)
    requires s.server.reg.rooms[room].peers == [a.p]
    ensures var s' := Step(s, Handles(b.p, now, newRoom));
            && Partners(s', a.(down := [PeerJoined]), b.(up := [])) && NobodyActs(s, s')
  {
    JoinTellsIncumbent(s.server, b.p, s.links[b.p].ip, room, now, newRoom);
    JoinIsHandled(s.server, b.p, s.links[b.p].ip, room, now, newRoom, a.p);
    ServesOwn(s, b, Join(room), now, newRoom);
    ServesOther(s, b.p, now, newRoom, a, [PeerJoined]);
    ServerMovesNobody(s, b.p, now, newRoom);
    assert [] + [PeerJoined] == [PeerJoined];
  }

  predicate MovesConnection(action: R.Action) {
    action.BuildPcAndOffer? || action.BuildPcAndAnswer? || action.SetRemoteAnswer? || action.AddIce?
  }

  lemma NothingSent(action: R.Action)
    requires MovesConnection(action)
    ensures Sends([action]) == []
  {
    assert [action][1..] == [];
  }

  /** A page takes a message that makes it act once and send nothing yet. */
  lemma PageActs(s: System, a: Seat, b: Seat, msg: SignalMsg, ev: R.Event, action: R.Action)
    requires Partners(s, a, b) && a.up == [] && a.down == [msg] && EventOf(msg) == Some(ev)
    requires a.session.Step(ev).1 == [action]
    requires MovesConnection(action)
    ensures var s' := Step(s, Delivers(a.c));
            && Partners(s', a.(session := a.session.Step(ev).0, down := [], acts := a.acts + [action]), b)
            && OnlyActs(s, s', a.p)
  {
    NothingSent(action);
    MailArrives(s, a, b, msg, ev);
  }

  function Tell(s: System, a: Seat, msg: SignalMsg, now: nat, newRoom: string): System {
    Step(Step(s, Chats(a.c, msg)), Handles(a.p, now, newRoom))
  }

  /** What one page says arrives in its partner's mail. */
  lemma PageTells(s: System, a: Seat, b: Seat, msg: SignalMsg, now: nat, newRoom: string)
    requires Partners(s, a, b) && a.up == [] && a.down == [] && b.down == [] && Relayed(msg)
    ensures var s' := Tell(s, a, msg, now, newRoom); Partners(s', a, b.(down := [msg])) && NobodyActs(s, s')
  {
    PageSays(s, a, b, msg);
    ServerPasses(Step(s, Chats(a.c, msg)), a.(up := [msg]), b, msg, now, newRoom);
    assert a.(up := [msg]).(up := []) == a;
  }

  /** No connection but `p` and `q` did anything from `s` to `s'`. */
  ghost predicate OnlyTwo(s: System, s': System, p: PeerId, q: PeerId) {
    forall x :: x in s.links && x != p && x != q ==> x in s'.links && s'.links[x].acts == s.links[x].acts
  }

  lemma TellStage(s: System, now: System, a: Seat, b: Seat, msg: SignalMsg, time: nat, newRoom: string)
    requires Partners(now, a, b) && OnlyTwo(s, now, a.p, b.p)
    requires a.up == [] && a.down == [] && b.down == [] && Relayed(msg)
    ensures var s' := Tell(now, a, msg, time, newRoom);
            Partners(s', a, b.(down := [msg])) && OnlyTwo(s, s', a.p, b.p)
  {
    PageTells(now, a, b, msg, time, newRoom);
  }

  lemma TakeStage(s: System, now: System, a: Seat, b: Seat, msg: SignalMsg, ev: R.Event, action: R.Action)
    requires Partners(now, a, b) && OnlyTwo(s, now, a.p, b.p)
    requires a.up == [] && a.down == [msg] && EventOf(msg) == Some(ev) && a.session.Step(ev).1 == [action]
    requires MovesConnection(action)
    ensures var s' := Step(now, Delivers(a.c));
            && Partners(s', a.(session := a.session.Step(ev).0, down := [], acts := a.acts + [action]), b)
            && OnlyTwo(s, s', a.p, b.p)
  {
    PageActs(now, a, b, msg, ev, action);
  }

  /** A seat after its page built a connection, by an offer or by an answer. */
  function Built(a: Seat, action: R.Action): Seat {
    a.(session := a.session.(hasPc := true), up := [], down := [], acts := a.acts + [action])
  }

  lemma JoinStage(s: System, a: Seat, b: Seat, room: string, now: nat, newRoom: string)
    requires Seats(s, a, b) && a.down == [] && b.up == [Join(room)] && b.down == []
    requires ServerInv(s.server) && b.p !in s.server.reg.peerRoom
    requires s.server.PlacesAs(s.links[b.p].ip, Join(room), now) == Some(Joiner)
    requires s.server.reg.rooms[room].peers == [a.p]
    ensures var s' := Step(s, Handles(b.p, now, newRoom));
            Partners(s', a.(down := [PeerJoined]), b.(up := [])) && OnlyTwo(s, s', a.p, b.p)
  {
    JoinPairs(s, a, b, room, now, newRoom);
  }

  lemma CallStage(s: System, joined: System, a: Seat, b: Seat)
    requires Partners(joined, a.(down := [PeerJoined]), b) && OnlyTwo(s, joined, a.p, b.p) && a.up == []
    ensures var s' := Step(joined, Delivers(a.c));
            Partners(s', Built(a, R.BuildPcAndOffer), b) && OnlyTwo(s, s', a.p, b.p)
  {
    TakeStage(s, joined, a.(down := [PeerJoined]), b, PeerJoined, R.Event.PeerJoined, R.BuildPcAndOffer);
  }

  lemma AnswerStage(s: System, offered: System, a: Seat, b: Seat, offer: string)
    requires Partners(offered, a, b.(down := [Sdp(offer, "offer")])) && OnlyTwo(s, offered, a.p, b.p) && b.up == []
    ensures var s' := Step(offered, Delivers(b.c));
            Partners(s', a, Built(b, R.BuildPcAndAnswer(offer))) && OnlyTwo(s, s', a.p, b.p)
  {
    TakeStage(s, offered, b.(down := [Sdp(offer, "offer")]), a, Sdp(offer, "offer"), R.Event.Offer(offer),
              R.BuildPcAndAnswer(offer));
  }

  lemma ApplyStage(s: System, answered: System, a: Seat, b: Seat, answer: string, kind: string)
    requires Partners(answered, a.(down := [Sdp(answer, kind)]), b) && OnlyTwo(s, answered, a.p, b.p)
    requires a.up == [] && a.down == [] && a.session.hasPc && kind != "offer"
    ensures var s' := Step(answered, Delivers(a.c));
            Partners(s', a.(acts := a.acts + [R.SetRemoteAnswer(answer)]), b) && OnlyTwo(s, s', a.p, b.p)
  {
    TakeStage(s, answered, a.(down := [Sdp(answer, kind)]), b, Sdp(answer, kind), R.Event.Answer(answer),
              R.SetRemoteAnswer(answer));
    assert a.(down := []) == a;
  }

  /** The incumbent hears of the newcomer and offers; the offer arrives. */
  function Call(s: System, a: Seat, b: Seat, offer: string, now: nat, newRoom: string): System {
    Tell(Step(Step(s, Handles(b.p, now, newRoom)), Delivers(a.c)), a, Sdp(offer, "offer"), now, newRoom)
  }

  /** The newcomer answers the offer, and the incumbent applies the answer. */
  function Reply(s: System, a: Seat, b: Seat, answer: string, kind: string, now: nat, newRoom: string): System {
    Step(Tell(Step(s, Delivers(b.c)), b, Sdp(answer, kind), now, newRoom), Delivers(a.c))
  }

  lemma IncumbentCalls(s: System, a: Seat, b: Seat, room: string, offer: string, now: nat, newRoom: string)
    requires Seats(s, a, b) && a.up == [] && a.down == [] && b.up == [Join(room)] && b.down == []
    requires ServerInv(s.server) && b.p !in s.server.reg.peerRoom
    requires s.server.PlacesAs(s.links[b.p].ip, Join(room), now) == Some(Joiner)
    requires s.server.reg.rooms[room].peers == [a.p]
    ensures var s' := Call(s, a, b, offer, now, newRoom);
            && Partners(s', Built(a, R.BuildPcAndOffer), b.(up := [], down := [Sdp(offer, "offer")]))
            && OnlyTwo(s, s', a.p, b.p)
  {
    JoinStage(s, a, b, room, now, newRoom);
    var joined := Step(s, Handles(b.p, now, newRoom));
    CallStage(s, joined, a, b.(up := []));
    TellStage(s, Step(joined, Delivers(a.c)), Built(a, R.BuildPcAndOffer), b.(up := []), Sdp(offer, "offer"),
              now, newRoom);
  }

  lemma NewcomerReplies(
      s: System, offered: System, a: Seat, b: Seat, offer: string, answer: string, kind: string, now: nat,
      newRoom: string)
    requires Partners(offered, a, b.(down := [Sdp(offer, "offer")])) && OnlyTwo(s, offered, a.p, b.p)
    requires a.up == [] && a.down == [] && b.up == [] && b.down == [] && a.session.hasPc && kind != "offer"
    ensures var s' := Reply(offered, a, b, answer, kind, now, newRoom);
            && Partners(s', a.(acts := a.acts + [R.SetRemoteAnswer(answer)]), Built(b, R.BuildPcAndAnswer(offer)))
            && OnlyTwo(s, s', a.p, b.p)
  {
    AnswerStage(s, offered, a, b, offer);
    var taken := Step(offered, Delivers(b.c));
    TellStage(s, taken, Built(b, R.BuildPcAndAnswer(offer)), a, Sdp(answer, kind), now, newRoom);
    var told := Tell(taken, b, Sdp(answer, kind), now, newRoom);
    ApplyStage(s, told, a, Built(b, R.BuildPcAndAnswer(offer)), answer, kind);
  }

  /** A seat that waits to be served a join of `room`, and the lone seat already there. */
  ghost predicate MayMeet(s: System, a: Seat, b: Seat, room: string, now: nat) {
    && Seats(s, a, b) && a.up == [] && a.down == [] && b.up == [Join(room)] && b.down == []
    && s.server.PlacesAs(s.links[b.p].ip, Join(room), now) == Some(Joiner)
    && s.server.reg.rooms[room].peers == [a.p]
  }

  /** The page of seat `a` holds a connection, and since `a` it did just `more`. */
  ghost predicate Holds(s: System, a: Seat, more: seq<R.Action>) {
    && s.Online(a.c) && s.clients[a.c].link == Some(a.p) && s.clients[a.c].session.hasPc
    && s.links[a.p].acts == a.acts + more
  }

  lemma MeetIsSound(ops: seq<Op>, a: Seat, b: Seat, room: string, now: nat)
    requires MayMeet(Exec(ops), a, b, room, now)
    ensures ServerInv(Exec(ops).server) && b.p !in Exec(ops).server.reg.peerRoom
  {
    ExecKeeps(ops);
    AskerIsUnplaced(Exec(ops), b.p);
  }

  /**
   * From every reachable state in which a join of a room with one page waits, the two come to a connection:
   * the page that was there makes the one offer, the newcomer answers that very offer, the first applies that
   * very answer, both hold a connection then, and no other page does anything.
   */
  lemma TwoPagesConnect(
      ops: seq<Op>, a: Seat, b: Seat, room: string, offer: string, answer: string, kind: string, now: nat,
      newRoom: string)
    requires MayMeet(Exec(ops), a, b, room, now) && kind != "offer"
    ensures var s := Exec(ops);
            var s' := Reply(Call(s, a, b, offer, now, newRoom), a, b, answer, kind, now, newRoom);
            && OnlyTwo(s, s', a.p, b.p)
            && Holds(s', a, [R.BuildPcAndOffer, R.SetRemoteAnswer(answer)])
            && Holds(s', b, [R.BuildPcAndAnswer(offer)])
  {
    var s := Exec(ops);
    MeetIsSound(ops, a, b, room, now);
    IncumbentCalls(s, a, b, room, offer, now, newRoom);
    NewcomerReplies(s, Call(s, a, b, offer, now, newRoom), Built(a, R.BuildPcAndOffer), b.(up := []), offer, answer,
                    kind, now, newRoom);
    assert a.acts + [R.BuildPcAndOffer] + [R.SetRemoteAnswer(answer)]
        == a.acts + [R.BuildPcAndOffer, R.SetRemoteAnswer(answer)];
  }

  /** Once a page holds a connection, a candidate that its partner names is added to it. */
  lemma CandidatesCross(s: System, a: Seat, b: Seat, candidate: string, now: nat, newRoom: string)
    requires Partners(s, a, b) && a.up == [] && a.down == [] && b.up == [] && b.down == [] && b.session.hasPc
    ensures var s' := Step(Tell(s, a, Ice(candidate), now, newRoom), Delivers(b.c));
            Partners(s', a, b.(acts := b.acts + [R.AddIce])) && OnlyTwo(s, s', b.p, a.p)
  {
    TellStage(s, s, a, b, Ice(candidate), now, newRoom);
    TakeStage(s, Tell(s, a, Ice(candidate), now, newRoom), b.(down := [Ice(candidate)]), a, Ice(candidate), R.Event.Ice,
              R.AddIce);
    assert b.(down := []) == b;
  }

  lemma IncumbentIsAlone(s: ServerState, ip: Ip, room: string, now: nat)
    requires ServerInv(s) && s.PlacesAs(ip, Join(room), now) == Some(Joiner)
    ensures room in s.reg.rooms && s.reg.rooms[room].peers == [s.reg.rooms[room].peers[0]]
  {
  }

  lemma JoinMails(s: ServerState, p: PeerId, ip: Ip, room: string, now: nat, newRoom: string, x: PeerId)
    requires ServerInv(s) && p !in s.reg.peerRoom && s.PlacesAs(ip, Join(room), now) == Some(Joiner)
    ensures s.Handle(p, ip, Join(room), now, newRoom).Queue(x)
            == s.Queue(x) + if x in s.reg.rooms[room].peers then [PeerJoined] else []
  {
    IncumbentIsAlone(s, ip, room, now);
    JoinTellsIncumbent(s, p, ip, room, now, newRoom);
    if x in s.reg.rooms[room].peers {
      assert x == s.reg.rooms[room].peers[0];
    } else {
      assert s.Queue(x) + [] == s.Queue(x);
    }
  }

  lemma JoinIsServed(s: System, p: PeerId, room: string, now: nat, newRoom: string)
    requires p in s.links && p in s.server.senders && s.links[p].inbox != [] && s.links[p].inbox[0] == Join(room)
    ensures Step(s, Handles(p, now, newRoom)).server
            == s.server.Handle(p, s.links[p].ip, Join(room), now, newRoom)
  {
  }

  lemma JoinerIsUnplaced(ops: seq<Op>, p: PeerId)
    requires p in Exec(ops).links && Exec(ops).links[p].inbox != [] && Exec(ops).links[p].inbox[0].Join?
    ensures ServerInv(Exec(ops).server) && p !in Exec(ops).server.reg.peerRoom
  {
    ExecKeeps(ops);
    AskerIsUnplaced(Exec(ops), p);
  }

  lemma CalledMore(queue: seq<SignalMsg>, joins: bool)
    ensures Called(queue + if joins then [PeerJoined] else []) == Called(queue) + if joins then [MakesOffer] else []
  {
    CalledPush(queue, PeerJoined);
    assert Called(queue) + [] == Called(queue) && queue + [] == queue;
  }

  /** In every run, a join calls for exactly one offer more: from the page that was there, and from no other. */
  lemma JoinCallsForOneOffer(ops: seq<Op>, p: PeerId, room: string, now: nat, newRoom: string, x: PeerId)
    requires var s := Exec(ops);
             && p in s.links && p in s.server.senders && s.links[p].inbox != [] && s.links[p].inbox[0] == Join(room)
             && s.server.PlacesAs(s.links[p].ip, Join(room), now) == Some(Joiner)
    ensures var s, s' := Exec(ops).server, Step(Exec(ops), Handles(p, now, newRoom)).server;
            Called(s'.Queue(x)) == Called(s.Queue(x)) + if x in s.reg.rooms[room].peers then [MakesOffer] else []
  {
    var s := Exec(ops);
    JoinerIsUnplaced(ops, p);
    JoinIsServed(s, p, room, now, newRoom);
    JoinMails(s.server, p, s.links[p].ip, room, now, newRoom, x);
    CalledMore(s.server.Queue(x), x in s.server.reg.rooms[room].peers);
  }
}
