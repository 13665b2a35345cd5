/** What a reconnecting client ends up as: the run from its socket's opening to its place in a room. */
module Recovery {
  import opened Prelude
  import opened Rooms
  import opened Limiter
  import opened Server
  import W = Signaling
  import opened SignalingSystem
  import R = Reconnect

  // ----- a connection that has not opened has heard and said nothing -----

  ghost predicate QuietAt(s: System, q: PeerId) {
    q in s.links && s.links[q].state == W.CONNECTING ==> s.links[q].inbox == [] && s.server.Queue(q) == []
  }

  ghost predicate Quiet(s: System) {
    forall p :: QuietAt(s, p)
  }

  ghost predicate Limited(s: System) {
    s.server.limiter.window == JOIN_WINDOW_MS && s.server.limiter.max == JOIN_MAX_FAILURES
  }

  lemma JoinTells(reg: Registry, p: PeerId, room: string, now: nat)
    requires Agree(reg) && reg.JoinResult(room) == Joined
    ensures var partner := reg.Join(p, room, now).Partner(p); partner.Some? ==> partner.value in reg.peerRoom
  {
    var after := reg.Join(p, room, now);
    FirstOtherIs(after.rooms[room].peers, p);
    assert forall q :: q in after.rooms[room].peers ==> q == p || q in reg.rooms[room].peers;
  }

  lemma OthersUnheard(s: ServerState, to: Option<PeerId>, msg: SignalMsg, q: PeerId)
    requires to != Some(q)
    ensures s.SendToSome(to, msg).Queue(q) == s.Queue(q)
  {
  }

  lemma JoinLeavesUnplaced(s: ServerState, p: PeerId, ip: Ip, room: string, now: nat, newRoom: string, q: PeerId)
    requires Agree(s.reg) && q != p && q !in s.reg.peerRoom
    ensures s.Handle(p, ip, Join(room), now, newRoom).Queue(q) == s.Queue(q)
  {
    if s.limiter.Allows(ip, now) && s.reg.JoinResult(room) == Joined {
      JoinTells(s.reg, p, room, now);
      var joined := s.(limiter := s.limiter.Prune(ip, now), reg := s.reg.Join(p, room, now));
      OthersUnheard(joined, joined.reg.Partner(p), PeerJoined, q);
    }
  }

  lemma RelayLeavesUnplaced(s: ServerState, p: PeerId, msg: SignalMsg, q: PeerId)
    requires Agree(s.reg) && q !in s.reg.peerRoom
    ensures s.SendToSome(s.reg.Partner(p), msg).Queue(q) == s.Queue(q)
  {
    if s.reg.Partner(p).Some? {
      PartnerIs(s.reg, p, s.reg.Partner(p).value);
    }
  }

  /** Nobody but a placed peer, or the sender itself, hears of a message. */
  lemma HandleLeavesUnplaced(s: ServerState, p: PeerId, ip: Ip, msg: SignalMsg, now: nat, newRoom: string, q: PeerId)
    requires Agree(s.reg) && q != p && q !in s.reg.peerRoom
    ensures s.Handle(p, ip, msg, now, newRoom).Queue(q) == s.Queue(q)
  {
    if msg.Join? {
      JoinLeavesUnplaced(s, p, ip, msg.room, now, newRoom, q);
    } else if msg.Sdp? || msg.Ice? {
      RelayLeavesUnplaced(s, p, msg, q);
    }
  }

  lemma CleanupLeavesUnplaced(s: ServerState, p: PeerId, q: PeerId)
    requires Agree(s.reg) && q !in s.reg.peerRoom
    ensures s.Cleanup(p).Queue(q) == s.Queue(q)
  {
    RemovePartners(s.reg, p, q);
    if s.reg.Partner(p).Some? {
      PartnerIs(s.reg, p, s.reg.Partner(p).value);
    }
  }

  /** A connecting link holds its whole budget, so its peer is not placed. */
  lemma ConnectingIsUnplaced(s: System, p: PeerId)
    requires Wired(s) && p in s.links && Within(s, p) && s.links[p].state == W.CONNECTING
    ensures p !in s.server.reg.peerRoom && p !in PeersOf(s.placements)
  {
    assert multiset(PeersOf(s.placements))[p] == 0;
  }

  /** What holds of a connecting link besides: it is unplaced, and the indexes agree. */
  ghost predicate Alone(s: System, q: PeerId) {
    Agree(s.server.reg) && QuietAt(s, q)
    && (q in s.links && s.links[q].state == W.CONNECTING ==> q !in s.server.reg.peerRoom)
  }

  lemma InvIsAlone(s: System, q: PeerId)
    requires Inv(s) && Quiet(s)
    ensures Alone(s, q)
  {
    if q in s.links && s.links[q].state == W.CONNECTING {
      assert Within(s, q);
      ConnectingIsUnplaced(s, q);
    }
  }

  lemma ServesQuiet(s: System, p: PeerId, now: nat, newRoom: string, q: PeerId)
    requires Alone(s, q) && p in s.links && s.links[p].inbox != []
    ensures QuietAt(s.Serves(p, now, newRoom), q)
  {
    if q in s.links && s.links[q].state == W.CONNECTING {
      HandleLeavesUnplaced(s.server, p, s.links[p].ip, s.links[p].inbox[0], now, newRoom, q);
    }
  }

  lemma CleanupQuiet(s: System, p: PeerId, q: PeerId)
    requires Alone(s, q)
    ensures QuietAt(s.(server := s.server.Cleanup(p)), q)
  {
    if q in s.links && s.links[q].state == W.CONNECTING {
      CleanupLeavesUnplaced(s.server, p, q);
    }
  }

  /** Every other step writes only up an open link, or makes a link that has not spoken. */
  lemma ClientQuiet(s: System, op: Op, q: PeerId)
    requires QuietAt(s, q) && !op.Handles? && !op.Cleans?
    ensures QuietAt(Step(s, op), q)
  {
  }

  lemma StepQuiet(s: System, op: Op, q: PeerId)
    requires Alone(s, q)
    ensures QuietAt(Step(s, op), q)
  {
    if op.Handles? {
      if op.p in s.links && s.links[op.p].inbox != [] {
        ServesQuiet(s, op.p, op.now, op.newRoom, q);
      }
    } else if op.Cleans? {
      CleanupQuiet(s, op.p, q);
    } else {
      ClientQuiet(s, op, q);
    }
  }

  lemma HandleLimits(s: ServerState, p: PeerId, ip: Ip, msg: SignalMsg, now: nat, newRoom: string)
    ensures var s' := s.Handle(p, ip, msg, now, newRoom);
            s'.limiter.window == s.limiter.window && s'.limiter.max == s.limiter.max
  {
  }

  lemma StepLimited(s: System, op: Op)
    requires Limited(s)
    ensures Limited(Step(s, op))
  {
    if op.Handles? && op.p in s.links && s.links[op.p].inbox != [] {
      HandleLimits(s.server, op.p, s.links[op.p].ip, s.links[op.p].inbox[0], op.now, op.newRoom);
    }
  }

  lemma {:induction false} ExecQuiet(ops: seq<Op>)
    ensures Quiet(Exec(ops)) && Limited(Exec(ops))
    decreases |ops|
  {
    if ops == [] {
    } else {
      var s, op := Exec(ops[..|ops| - 1]), ops[|ops| - 1];
      ExecQuiet(ops[..|ops| - 1]);
      ExecKeeps(ops[..|ops| - 1]);
      StepLimited(s, op);
      forall q ensures QuietAt(Step(s, op), q) {
        InvIsAlone(s, q);
        StepQuiet(s, op, q);
      }
    }
  }

  // ----- the handshake of one connection -----

  /** A refusal would make this page reclaim its room. */
  predicate MayReclaim(session: R.SessionState) {
    session.IsOwner() && !session.reclaimTried
  }

  /**
   * What a page with `room` in its hash is placed as. The join of a vanished room is itself recorded as
   * a failure, so a reclaim succeeds only if the budget has room for one failure more.
   */
  function Outcome(s: ServerState, ip: Ip, room: string, now: nat, mayReclaim: bool): Option<Role> {
    if !s.limiter.Allows(ip, now) then None
    else if s.reg.JoinResult(room) == Joined then Some(Joiner)
    else if mayReclaim && room !in s.reg.rooms
            && |Recent(s.limiter.Of(ip), now, s.limiter.window)| + 1 < s.limiter.max then Some(Opener)
    else None
  }

  /** Client `c` sits on link `p` with session `session`, with `up` on its way up and `down` on its way down. */
  ghost predicate Sits(
      s: System, c: nat, p: PeerId, session: R.SessionState, up: seq<SignalMsg>, down: seq<SignalMsg>)
  {
    && s.Online(c) && s.clients[c].link == Some(p) && s.clients[c].session == session
    && p in s.server.senders && s.links[p].inbox == up
    && s.links[p].read <= |s.server.Queue(p)| && s.server.Queue(p)[s.links[p].read..] == down
  }

  /** The socket of client `c`, link `p`, is about to open; neither side has said anything on it. */
  ghost predicate Opening(s: System, c: nat, p: PeerId) {
    && s.HasLink(c) && s.clients[c].link == Some(p) && s.links[p].state == W.CONNECTING
    && s.links[p].inbox == [] && s.server.Queue(p) == [] && s.links[p].read == 0 && p in s.server.senders
  }

  /** The request a page makes when its socket opens. */
  function FirstRequest(session: R.SessionState): SignalMsg {
    if session.roomInHash.Some? then Join(session.roomInHash.value) else Create
  }

  function FirstAct(session: R.SessionState): R.Action {
    if session.roomInHash.Some? then R.SendJoin(session.roomInHash.value) else R.SendCreate
  }

  lemma OpensToAsk(s: System, c: nat, p: PeerId)
    requires Opening(s, c, p)
    ensures var s' := Step(s, Opens(c));
            && Sits(s', c, p, s.clients[c].session, [FirstRequest(s.clients[c].session)], [])
            && s'.server == s.server && s'.placements == s.placements && s'.links[p].ip == s.links[p].ip
            && s'.links[p].acts == s.links[p].acts + [FirstAct(s.clients[c].session)]
  {
    var session, msg := s.clients[c].session, FirstRequest(s.clients[c].session);
    var actions := session.Step(R.Event.Open).1;
    assert actions == [actions[0]] && actions[1..] == [];
    assert Sends(actions) == [msg] + [] && [msg] + [] == [msg] && [] + [msg] == [msg];
  }

  /** The server takes the one message on its way; `sent` is what it queues to the sender. */
  lemma HandleOne(s: System, c: nat, p: PeerId, session: R.SessionState, msg: SignalMsg, sent: seq<SignalMsg>,
                  now: nat, newRoom: string)
    requires Sits(s, c, p, session, [msg], []) && (msg.Create? ==> newRoom !in s.server.reg.rooms)
    requires s.server.Handle(p, s.links[p].ip, msg, now, newRoom).Queue(p) == s.server.Queue(p) + sent
    ensures var s' := Step(s, Handles(p, now, newRoom));
            && Sits(s', c, p, session, [], sent)
            && s'.server == s.server.Handle(p, s.links[p].ip, msg, now, newRoom)
            && s'.placements == s.placements + (match s.server.PlacesAs(s.links[p].ip, msg, now)
                                                case Some(role) => [(p, role)] case None => [])
            && s'.links[p].ip == s.links[p].ip && s'.links[p].acts == s.links[p].acts
  {
    HandleFrame(s.server, p, s.links[p].ip, msg, now, newRoom);
    assert [msg][1..] == [];
    var n := |s.server.Queue(p)|;
    assert s.links[p].read == n;
    assert (s.server.Queue(p) + sent)[n..] == sent;
  }

  lemma DeliverOne(s: System, c: nat, p: PeerId, session: R.SessionState, msg: SignalMsg, ev: R.Event)
    requires Sits(s, c, p, session, [], [msg]) && EventOf(msg) == Some(ev)
    ensures var s' := Step(s, Delivers(c));
            && Sits(s', c, p, session.Step(ev).0, Sends(session.Step(ev).1), [])
            && s'.server == s.server && s'.placements == s.placements && s'.links[p].ip == s.links[p].ip
            && s'.links[p].acts == s.links[p].acts + session.Step(ev).1
  {
    var queue, read := s.server.Queue(p), s.links[p].read;
    assert queue[read] == queue[read..][0] && queue[read + 1..] == queue[read..][1..];
    assert [msg][1..] == [];
    var up := Sends(session.Step(ev).1);
    assert [] + up == up;
  }

  /** One round: a request goes up, its answer comes down, and the reducer takes it. */
  lemma OneRound(s: System, c: nat, p: PeerId, session: R.SessionState, msg: SignalMsg, answer: SignalMsg, ev: R.Event,
                 now: nat, newRoom: string)
    requires Sits(s, c, p, session, [msg], []) && (msg.Create? ==> newRoom !in s.server.reg.rooms)
    requires s.server.Handle(p, s.links[p].ip, msg, now, newRoom).Queue(p) == s.server.Queue(p) + [answer]
    requires EventOf(answer) == Some(ev)
    ensures var s' := Step(Step(s, Handles(p, now, newRoom)), Delivers(c));
            && Sits(s', c, p, session.Step(ev).0, Sends(session.Step(ev).1), [])
            && s'.server == s.server.Handle(p, s.links[p].ip, msg, now, newRoom)
            && s'.placements == s.placements + (match s.server.PlacesAs(s.links[p].ip, msg, now)
                                                case Some(role) => [(p, role)] case None => [])
            && s'.links[p].ip == s.links[p].ip && s'.links[p].acts == s.links[p].acts + session.Step(ev).1
  {
    HandleOne(s, c, p, session, msg, [answer], now, newRoom);
    DeliverOne(Step(s, Handles(p, now, newRoom)), c, p, session, answer, ev);
  }

  lemma NothingUp(s: System, c: nat, p: PeerId, session: R.SessionState, down: seq<SignalMsg>,
                  now: nat, newRoom: string)
    requires Sits(s, c, p, session, [], down)
    ensures Step(s, Handles(p, now, newRoom)) == s
  {
  }

  lemma NothingDown(s: System, c: nat, p: PeerId, session: R.SessionState)
    requires Sits(s, c, p, session, [], [])
    ensures Step(s, Delivers(c)) == s
  {
    assert |s.server.Queue(p)[s.links[p].read..]| == 0;
  }

  // ----- what the server makes of an owner's two requests -----

  lemma FailureCounts(s: LimitState, ip: Ip, now: nat)
    requires s.window > 0
    ensures s.RecordFailure(ip, now).Allows(ip, now) <==> |Recent(s.Of(ip), now, s.window)| + 1 < s.max
  {
    var after, kept := s.RecordFailure(ip, now), Recent(s.Of(ip), now, s.window);
    PruneIs(s, ip, now, ip);
    PruneIs(after, ip, now, ip);
    RecentPush(kept, now, now, s.window);
    RecentTwice(s.Of(ip), now, now, s.window);
  }

  lemma PruneTwice(s: LimitState, ip: Ip, now: nat)
    ensures s.Prune(ip, now).Prune(ip, now).Of(ip) == s.Prune(ip, now).Of(ip)
    ensures s.Prune(ip, now).RecordFailure(ip, now).Allows(ip, now) <==> s.RecordFailure(ip, now).Allows(ip, now)
    ensures s.Prune(ip, now).Allows(ip, now) <==> s.Allows(ip, now)
  {
    PruneIs(s, ip, now, ip);
    PruneIs(s.Prune(ip, now), ip, now, ip);
    RecentTwice(s.Of(ip), now, now, s.window);
    PruneIs(s.Prune(ip, now).RecordFailure(ip, now), ip, now, ip);
    PruneIs(s.RecordFailure(ip, now), ip, now, ip);
  }

  lemma JoinJoins(s: ServerState, p: PeerId, ip: Ip, room: string, now: nat, newRoom: string)
    requires Agree(s.reg) && p !in s.reg.peerRoom && s.PlacesAs(ip, Join(room), now) == Some(Joiner)
    ensures var s' := s.Handle(p, ip, Join(room), now, newRoom);
            s'.Queue(p) == s.Queue(p) && s'.reg.peerRoom == s.reg.peerRoom[p := room]
  {
    JoinPartners(s.reg, p, room, now, p);
    assert s.reg.rooms[room].peers[0] in s.reg.rooms[room].peers;
  }

  lemma JoinIsFull(s: ServerState, p: PeerId, ip: Ip, msg: SignalMsg, now: nat, newRoom: string)
    requires p in s.senders && msg.Join? && s.limiter.Allows(ip, now) && s.reg.JoinResult(msg.room) == Full
    ensures var s' := s.Handle(p, ip, msg, now, newRoom);
            && s'.Queue(p) == s.Queue(p) + [RoomFull] && s'.reg == s.reg
            && s.PlacesAs(ip, msg, now) == None
  {
  }

  /** A refused join leaves the hope of a reclaim exactly when the room is gone and one failure more is allowed. */
  lemma JoinMisses(s: ServerState, p: PeerId, ip: Ip, room: string, now: nat, newRoom: string)
    requires p in s.senders && s.limiter.window > 0
    requires !s.limiter.Allows(ip, now) || room !in s.reg.rooms
    ensures var s' := s.Handle(p, ip, Join(room), now, newRoom);
            && s'.Queue(p) == s.Queue(p) + [RoomNotFound] && s'.reg == s.reg
            && s.PlacesAs(ip, Join(room), now) == None
            && (room !in s.reg.rooms && s'.limiter.Allows(ip, now) <==> Outcome(s, ip, room, now, true) == Some(Opener))
  {
    FailureCounts(s.limiter, ip, now);
    PruneTwice(s.limiter, ip, now);
  }

  /** The reclaim: placed as the opener of that room and told so, or refused. */
  lemma ReclaimAnswers(s: ServerState, p: PeerId, ip: Ip, room: string, now: nat, newRoom: string)
    requires p in s.senders
    ensures var s', placed := s.Handle(p, ip, Reclaim(room), now, newRoom),
                              room !in s.reg.rooms && s.limiter.Allows(ip, now);
            && s'.Queue(p) == s.Queue(p) + [if placed then SignalMsg.Created(room) else RoomNotFound]
            && s.PlacesAs(ip, Reclaim(room), now) == (if placed then Some(Opener) else None)
            && s'.reg.peerRoom == (if placed then s.reg.peerRoom[p := room] else s.reg.peerRoom)
  {
  }

  // ----- the whole handshake -----

  function Answered(s: System, c: nat, p: PeerId, now: nat, newRoom: string): System {
    Step(Step(Step(s, Opens(c)), Handles(p, now, newRoom)), Delivers(c))
  }

  /** The socket opens, and twice what is on its way goes up and comes down. */
  function Handshake(s: System, c: nat, p: PeerId, now: nat, newRoom: string): System {
    Step(Step(Answered(s, c, p, now, newRoom), Handles(p, now, newRoom)), Delivers(c))
  }

  /** What the page does on the answer to its reclaim. */
  function ReclaimActs(placed: bool, room: string): seq<R.Action> {
    if placed then [R.PersistRoom(room), R.SetStatus(R.WaitingForPeer)] else [R.SetStatus(R.Status.RoomNotFound)]
  }

  /** All that a returning page does on the way: its requests, and what it shows its user in the end. */
  function OnReturn(s: ServerState, ip: Ip, room: string, now: nat, mayReclaim: bool): seq<R.Action> {
    [R.SendJoin(room)]
    + if s.limiter.Allows(ip, now) && room in s.reg.rooms then
        (if s.reg.JoinResult(room) == Joined then [] else [R.SetStatus(R.Status.RoomFull)])
      else if !mayReclaim then [R.SetStatus(R.Status.RoomNotFound)]
      else
        [R.SendReclaim(room)] + ReclaimActs(Outcome(s, ip, room, now, mayReclaim) == Some(Opener), room)
  }

  /** From `s` to `s'` link `p` was placed as `outcome` says, in `room`, and nowhere otherwise. */
  ghost predicate Settled(s: System, s': System, p: PeerId, outcome: Option<Role>, room: string) {
    match outcome
    case Some(role) =>
      s'.placements == s.placements + [(p, role)] && s'.server.reg.peerRoom == s.server.reg.peerRoom[p := room]
    case None => s'.placements == s.placements && s'.server.reg.peerRoom == s.server.reg.peerRoom
  }

  lemma QuietEnd(s: System, c: nat, p: PeerId, session: R.SessionState, now: nat, newRoom: string)
    requires Sits(s, c, p, session, [], [])
    ensures Step(Step(s, Handles(p, now, newRoom)), Delivers(c)) == s
  {
    NothingUp(s, c, p, session, [], now, newRoom);
    NothingDown(s, c, p, session);
  }

  lemma RejoinSettles(s: System, c: nat, p: PeerId, room: string, now: nat, newRoom: string)
    requires Opening(s, c, p) && s.clients[c].session.roomInHash == Some(room)
    requires Agree(s.server.reg) && p !in s.server.reg.peerRoom
    requires s.server.PlacesAs(s.links[p].ip, Join(room), now) == Some(Joiner)
    ensures var s' := Handshake(s, c, p, now, newRoom);
            && Settled(s, s', p, Some(Joiner), room) && Sits(s', c, p, s.clients[c].session, [], [])
            && s'.links[p].acts == s.links[p].acts + [R.SendJoin(room)]
  {
    var session := s.clients[c].session;
    OpensToAsk(s, c, p);
    var s1 := Step(s, Opens(c));
    JoinJoins(s.server, p, s.links[p].ip, room, now, newRoom);
    assert s1.server.Queue(p) + [] == s1.server.Queue(p);
    HandleOne(s1, c, p, session, Join(room), [], now, newRoom);
    NothingDown(Step(s1, Handles(p, now, newRoom)), c, p, session);
    QuietEnd(Step(s1, Handles(p, now, newRoom)), c, p, session, now, newRoom);
  }

  lemma StatusSendsNothing(status: R.Status)
    ensures Sends([R.SetStatus(status)]) == []
  {
    assert [R.SetStatus(status)][1..] == [];
  }

  lemma CreatedSendsNothing(room: string)
    ensures Sends([R.PersistRoom(room), R.SetStatus(R.WaitingForPeer)]) == []
  {
    StatusSendsNothing(R.WaitingForPeer);
    assert [R.PersistRoom(room), R.SetStatus(R.WaitingForPeer)][1..] == [R.SetStatus(R.WaitingForPeer)];
  }

  /** A first request that is answered and places nobody. */
  lemma FirstRound(s: System, c: nat, p: PeerId, answer: SignalMsg, ev: R.Event, now: nat, newRoom: string)
    requires Opening(s, c, p) && s.clients[c].session.roomInHash.Some? && EventOf(answer) == Some(ev)
    requires var msg, ip := FirstRequest(s.clients[c].session), s.links[p].ip;
             && s.server.PlacesAs(ip, msg, now) == None
             && s.server.Handle(p, ip, msg, now, newRoom).Queue(p) == s.server.Queue(p) + [answer]
    ensures var s3, session := Answered(s, c, p, now, newRoom), s.clients[c].session;
            && Sits(s3, c, p, session.Step(ev).0, Sends(session.Step(ev).1), [])
            && s3.placements == s.placements && s3.links[p].ip == s.links[p].ip
            && s3.links[p].acts == s.links[p].acts + [FirstAct(session)] + session.Step(ev).1
            && s3.server == s.server.Handle(p, s.links[p].ip, FirstRequest(session), now, newRoom)
  {
    OpensToAsk(s, c, p);
    var session := s.clients[c].session;
    OneRound(Step(s, Opens(c)), c, p, session, FirstRequest(session), answer, ev, now, newRoom);
    assert s.placements + [] == s.placements;
  }

  lemma FullSteps(session: R.SessionState)
    ensures session.Step(R.Event.RoomFull).0 == session && Sends(session.Step(R.Event.RoomFull).1) == []
  {
    StatusSendsNothing(R.Status.RoomFull);
  }

  lemma FullAnswered(s: System, c: nat, p: PeerId, msg: SignalMsg, now: nat, newRoom: string)
    requires Opening(s, c, p) && msg == FirstRequest(s.clients[c].session) && msg.Join?
    requires s.server.limiter.Allows(s.links[p].ip, now) && s.server.reg.JoinResult(msg.room) == Full
    ensures var s3 := Answered(s, c, p, now, newRoom);
            && Sits(s3, c, p, s.clients[c].session, [], [])
            && s3.placements == s.placements && s3.server.reg == s.server.reg
            && s3.links[p].acts == s.links[p].acts + [R.SendJoin(msg.room)] + [R.SetStatus(R.Status.RoomFull)]
  {
    JoinIsFull(s.server, p, s.links[p].ip, msg, now, newRoom);
    FullSteps(s.clients[c].session);
    FirstRound(s, c, p, RoomFull, R.Event.RoomFull, now, newRoom);
  }

  lemma FullSettles(s: System, c: nat, p: PeerId, room: string, now: nat, newRoom: string)
    requires Opening(s, c, p) && s.clients[c].session.roomInHash == Some(room)
    requires s.server.limiter.Allows(s.links[p].ip, now) && s.server.reg.JoinResult(room) == Full
    ensures Settled(s, Handshake(s, c, p, now, newRoom), p, None, room)
    ensures p in Handshake(s, c, p, now, newRoom).links
            && Handshake(s, c, p, now, newRoom).links[p].acts
               == s.links[p].acts + [R.SendJoin(room)] + [R.SetStatus(R.Status.RoomFull)]
  {
    FullAnswered(s, c, p, Join(room), now, newRoom);
    QuietEnd(Answered(s, c, p, now, newRoom), c, p, s.clients[c].session, now, newRoom);
  }

  function MissAct(session: R.SessionState, room: string): R.Action {
    if MayReclaim(session) then R.SendReclaim(room) else R.SetStatus(R.Status.RoomNotFound)
  }

  /** After a refusal the page asks for its room back, or gives up. */
  lemma MissSteps(session: R.SessionState, room: string)
    requires session.roomInHash == Some(room)
    ensures var (after, actions) := session.Step(R.Event.RoomNotFound);
            && actions == [MissAct(session, room)]
            && (if MayReclaim(session) then after == session.(reclaimTried := true) && Sends(actions) == [Reclaim(room)]
                else after == session && Sends(actions) == [])
  {
    StatusSendsNothing(R.Status.RoomNotFound);
    assert [R.SendReclaim(room)][1..] == [] && [Reclaim(room)] + [] == [Reclaim(room)];
  }

  /** The first join was refused: the page has asked again, or has given up. */
  lemma MissAnswered(s: System, c: nat, p: PeerId, room: string, now: nat, newRoom: string)
    requires Opening(s, c, p) && s.clients[c].session.roomInHash == Some(room) && s.server.limiter.window > 0
    requires !s.server.limiter.Allows(s.links[p].ip, now) || room !in s.server.reg.rooms
    ensures var s3, session, ip := Answered(s, c, p, now, newRoom), s.clients[c].session, s.links[p].ip;
            && (if MayReclaim(session) then Sits(s3, c, p, session.(reclaimTried := true), [Reclaim(room)], [])
                else Sits(s3, c, p, session, [], []))
            && s3.placements == s.placements && s3.server.reg == s.server.reg && s3.links[p].ip == ip
            && s3.links[p].acts == s.links[p].acts + [R.SendJoin(room)] + [MissAct(session, room)]
            && (room !in s.server.reg.rooms && s3.server.limiter.Allows(ip, now)
                <==> Outcome(s.server, ip, room, now, true) == Some(Opener))
  {
    var session := s.clients[c].session;
    JoinMisses(s.server, p, s.links[p].ip, room, now, newRoom);
    MissSteps(session, room);
    FirstRound(s, c, p, RoomNotFound, R.Event.RoomNotFound, now, newRoom);
  }

  lemma ReclaimSettles(s: System, c: nat, p: PeerId, session: R.SessionState, room: string, now: nat, newRoom: string)
    requires Sits(s, c, p, session, [Reclaim(room)], []) && session.IsOwner() && session.roomInHash == Some(room)
    requires session.reclaimTried
    ensures var s' := Step(Step(s, Handles(p, now, newRoom)), Delivers(c));
            var placed := room !in s.server.reg.rooms && s.server.limiter.Allows(s.links[p].ip, now);
            && Settled(s, s', p, if placed then Some(Opener) else None, room)
            && Sits(s', c, p, session, [], [])
            && s'.links[p].acts == s.links[p].acts + ReclaimActs(placed, room)
  {
    ReclaimAnswers(s.server, p, s.links[p].ip, room, now, newRoom);
    if room !in s.server.reg.rooms && s.server.limiter.Allows(s.links[p].ip, now) {
      CreatedSendsNothing(room);
      OneRound(s, c, p, session, Reclaim(room), SignalMsg.Created(room), R.Event.Created(room), now, newRoom);
    } else {
      MissSteps(session, room);
      OneRound(s, c, p, session, Reclaim(room), RoomNotFound, R.Event.RoomNotFound, now, newRoom);
      assert s.placements + [] == s.placements;
    }
  }

  lemma MissSettles(s: System, c: nat, p: PeerId, room: string, now: nat, newRoom: string)
    requires Opening(s, c, p) && s.clients[c].session.roomInHash == Some(room) && s.server.limiter.window > 0
    requires !s.server.limiter.Allows(s.links[p].ip, now) || room !in s.server.reg.rooms
    ensures Settled(s, Handshake(s, c, p, now, newRoom), p,
                    Outcome(s.server, s.links[p].ip, room, now, MayReclaim(s.clients[c].session)), room)
    ensures p in Handshake(s, c, p, now, newRoom).links
            && Handshake(s, c, p, now, newRoom).links[p].acts
               == s.links[p].acts
                  + OnReturn(s.server, s.links[p].ip, room, now, MayReclaim(s.clients[c].session))
  {
    var session, s3 := s.clients[c].session, Answered(s, c, p, now, newRoom);
    MissAnswered(s, c, p, room, now, newRoom);
    if MayReclaim(session) {
      ReclaimSettles(s3, c, p, session.(reclaimTried := true), room, now, newRoom);
    } else {
      QuietEnd(s3, c, p, session, now, newRoom);
    }
  }

  lemma OpeningIsFresh(ops: seq<Op>, c: nat, p: PeerId)
    requires var s := Exec(ops);
             s.HasLink(c) && s.clients[c].link == Some(p) && s.links[p].state == W.CONNECTING && p in s.server.senders
    ensures var s := Exec(ops);
            && Opening(s, c, p) && Agree(s.server.reg) && p !in s.server.reg.peerRoom && Limited(s)
  {
    ExecKeeps(ops);
    ExecQuiet(ops);
    assert Within(Exec(ops), p) && QuietAt(Exec(ops), p);
    ConnectingIsUnplaced(Exec(ops), p);
  }

  /**
   * A page that comes back with a room in its hash rejoins it if a partner waits there, and gets it back
   * as its opener exactly if it owns the room, has not tried, the room is gone, and the budget of its
   * address allows the failed join and one attempt more.
   */
  lemma ReconnectSettles(ops: seq<Op>, c: nat, p: PeerId, room: string, now: nat, newRoom: string)
    requires var s := Exec(ops);
             && s.HasLink(c) && s.clients[c].link == Some(p) && s.links[p].state == W.CONNECTING
             && p in s.server.senders
             && s.clients[c].session.roomInHash == Some(room)
    ensures var s := Exec(ops);
            Settled(s, Handshake(s, c, p, now, newRoom), p,
                    Outcome(s.server, s.links[p].ip, room, now, MayReclaim(s.clients[c].session)), room)
    ensures var s, s' := Exec(ops), Handshake(Exec(ops), c, p, now, newRoom);
            && p in s'.links
            && s'.links[p].acts
               == s.links[p].acts + OnReturn(s.server, s.links[p].ip, room, now, MayReclaim(s.clients[c].session))
  {
    var s := Exec(ops);
    OpeningIsFresh(ops, c, p);
    if s.server.limiter.Allows(s.links[p].ip, now) && room in s.server.reg.rooms {
      if s.server.reg.JoinResult(room) == Joined {
        RejoinSettles(s, c, p, room, now, newRoom);
      } else {
        FullSettles(s, c, p, room, now, newRoom);
      }
    } else {
      MissSettles(s, c, p, room, now, newRoom);
    }
  }

  /** A page without a room opens the new one, and owns it from then on. */
  lemma NewcomerOpens(ops: seq<Op>, c: nat, p: PeerId, now: nat, newRoom: string)
    requires var s := Exec(ops);
             && s.HasLink(c) && s.clients[c].link == Some(p) && s.links[p].state == W.CONNECTING
             && p in s.server.senders
             && s.clients[c].session.roomInHash == None && newRoom !in s.server.reg.rooms
    ensures var s, s' := Exec(ops), Answered(Exec(ops), c, p, now, newRoom);
            && Settled(s, s', p, Some(Opener), newRoom)
            && c in s'.clients && s'.clients[c].session.IsOwner() && s'.clients[c].session.owns == Some(newRoom)
            && s'.links[p].acts
               == s.links[p].acts + [R.SendCreate] + [R.PersistRoom(newRoom), R.SetStatus(R.WaitingForPeer)]
  {
    var s := Exec(ops);
    OpeningIsFresh(ops, c, p);
    OpensToAsk(s, c, p);
    CreatedSendsNothing(newRoom);
    OneRound(Step(s, Opens(c)), c, p, s.clients[c].session, Create, SignalMsg.Created(newRoom),
             R.Event.Created(newRoom), now, newRoom);
  }
}
