/** The signaling server: one handler per message, one cleanup per lost connection. */
module Server {
  import opened Prelude
  import opened Rooms
  import opened Limiter

  const JOIN_WINDOW_MS: nat := 60_000
  const JOIN_MAX_FAILURES: nat := 30

  datatype SignalMsg =
    | Create
    | Reclaim(room: string)
    | Created(room: string)
    | Join(room: string)
    | PeerJoined
    | PeerLeft
    | RoomFull
    | RoomNotFound
    | Sdp(sdp: string, kind: string)
    | Ice(candidate: string)

  /** How a message placed its sender in a room. */
  datatype Role = Opener | Joiner

  /** `senders` are the connected peers; `outbox` logs everything ever queued to a peer. */
  datatype ServerState = ServerState(
    reg: Registry,
    limiter: LimitState,
    senders: set<PeerId>,
    outbox: map<PeerId, seq<SignalMsg>>,
    nextId: PeerId)
  {
    function Queue(p: PeerId): seq<SignalMsg> {
      if p in outbox then outbox[p] else []
    }

    function SendTo(p: PeerId, msg: SignalMsg): ServerState {
      if p in senders then this.(outbox := outbox[p := Queue(p) + [msg]]) else this
    }

    function SendToSome(p: Option<PeerId>, msg: SignalMsg): ServerState {
      if p.Some? then SendTo(p.value, msg) else this
    }

    function Connect(): ServerState {
      this.(senders := senders + {nextId}, outbox := outbox[nextId := []], nextId := nextId + 1)
    }

    /** What a message will place its sender as, if anything. */
    function PlacesAs(ip: Ip, msg: SignalMsg, now: nat): Option<Role> {
      match msg
      case Create => Some(Opener)
      case Reclaim(room) =>
        if limiter.Allows(ip, now) && !reg.Contains(room) then Some(Opener) else None
      case Join(room) =>
        if limiter.Allows(ip, now) && reg.JoinResult(room) == Joined then Some(Joiner) else None
      case _ => None
    }

    function Open(peer: PeerId, room: string, now: nat): ServerState {
      this.(reg := reg.Create(peer, room, now)).SendTo(peer, SignalMsg.Created(room))
    }

    function Refuse(peer: PeerId, ip: Ip, now: nat, reply: SignalMsg): ServerState {
      this.(limiter := limiter.RecordFailure(ip, now)).SendTo(peer, reply)
    }

    /** One inbound message; `newRoom` is the room id the generator would return. */
    function Handle(peer: PeerId, ip: Ip, msg: SignalMsg, now: nat, newRoom: string): ServerState {
      match msg
      case Create => Open(peer, newRoom, now)
      case Reclaim(room) =>
        var asked := this.(limiter := limiter.Prune(ip, now));
        if !limiter.Allows(ip, now) then asked.SendTo(peer, RoomNotFound)
        else if reg.Contains(room) then asked.Refuse(peer, ip, now, RoomNotFound)
        else asked.Open(peer, room, now)
      case Join(room) =>
        var asked := this.(limiter := limiter.Prune(ip, now));
        if !limiter.Allows(ip, now) then asked.SendTo(peer, RoomNotFound)
        else (
          match reg.JoinResult(room)
          case Joined =>
            var joined := asked.(reg := reg.Join(peer, room, now));
            joined.SendToSome(joined.reg.Partner(peer), PeerJoined)
          case Full => asked.Refuse(peer, ip, now, RoomFull)
          case _ => asked.Refuse(peer, ip, now, RoomNotFound)
        )
      case Sdp(_, _) => SendToSome(reg.Partner(peer), msg)
      case Ice(_) => SendToSome(reg.Partner(peer), msg)
      case _ => this
    }

    /** The connection is gone and its handler has finished. */
    function Cleanup(peer: PeerId): ServerState {
      var left := this.(reg := reg.Remove(peer)).SendToSome(reg.LeftBehind(peer), PeerLeft);
      left.(senders := senders - {peer})
    }
  }

  function InitServer(): ServerState {
    ServerState(Registry(map[], map[]), LimitState(JOIN_WINDOW_MS, JOIN_MAX_FAILURES, map[]), {}, map[], 1)
  }

  class AppState {
    const registry: RoomRegistry
    const joinLimiter: JoinLimiter
    var senders: set<PeerId>
    var outbox: map<PeerId, seq<SignalMsg>>
    var nextId: PeerId

    function View(): ServerState
      reads this, registry, joinLimiter
    {
      ServerState(registry.View(), joinLimiter.View(), senders, outbox, nextId)
    }

    constructor ()
      ensures fresh(registry) && fresh(joinLimiter) && View() == InitServer()
    {
      registry := new RoomRegistry();
      joinLimiter := new JoinLimiter(JOIN_WINDOW_MS, JOIN_MAX_FAILURES);
      senders, outbox, nextId := {}, map[], 1;
    }

    method Connect() returns (peer: PeerId)
      modifies this
      ensures peer == old(nextId) && View() == old(View()).Connect()
    {
      peer := nextId;
      nextId := nextId + 1;
      senders := senders + {peer};
      outbox := outbox[peer := []];
    }

    method SendTo(peer: PeerId, msg: SignalMsg)
      modifies this
      ensures View() == old(View()).SendTo(peer, msg)
    {
      if peer in senders {
        outbox := outbox[peer := (if peer in outbox then outbox[peer] else []) + [msg]];
      }
    }

    method HandleMessage(peer: PeerId, ip: Ip, msg: SignalMsg, now: nat, newRoom: string)
      modifies this, registry, joinLimiter
      ensures View() == old(View()).Handle(peer, ip, msg, now, newRoom)
    {
      match msg {
        case Create =>
          var _ := registry.Create(peer, newRoom, now);
          SendTo(peer, SignalMsg.Created(newRoom));
        case Reclaim(room) =>
          var allowed := joinLimiter.Allowed(ip, now);
          if !allowed {
            SendTo(peer, RoomNotFound);
            return;
          }
          var live := registry.Contains(room);
          if live {
            joinLimiter.RecordFailure(ip, now);
            SendTo(peer, RoomNotFound);
            return;
          }
          var _ := registry.Create(peer, room, now);
          SendTo(peer, SignalMsg.Created(room));
        case Join(room) =>
          var allowed := joinLimiter.Allowed(ip, now);
          if !allowed {
            SendTo(peer, RoomNotFound);
            return;
          }
          var outcome := registry.Join(peer, room, now);
          match outcome {
            case Joined =>
              var partner := registry.Partner(peer);
              if partner.Some? {
                SendTo(partner.value, PeerJoined);
              }
            case Full =>
              joinLimiter.RecordFailure(ip, now);
              SendTo(peer, RoomFull);
            case NotFound =>
              joinLimiter.RecordFailure(ip, now);
              SendTo(peer, RoomNotFound);
            case Created(_) =>
          }
        case Sdp(_, _) =>
          Relay(peer, msg);
        case Ice(_) =>
          Relay(peer, msg);
        case _ =>
      }
    }

    method Relay(peer: PeerId, msg: SignalMsg)
      modifies this
      ensures View() == old(View()).SendToSome(old(View()).reg.Partner(peer), msg)
    {
      var partner := registry.Partner(peer);
      if partner.Some? {
        SendTo(partner.value, msg);
      }
    }

    method Cleanup(peer: PeerId)
      modifies this, registry
      ensures View() == old(View()).Cleanup(peer)
    {
      var partner := registry.Remove(peer);
      if partner.Some? {
        SendTo(partner.value, PeerLeft);
      }
      senders := senders - {peer};
    }
  }

  // ----- the notification log -----

  predicate HasCreated(queue: seq<SignalMsg>) {
    exists i :: 0 <= i < |queue| && queue[i].Created?
  }

  /** Follow the presence messages from `start`; `None` once one repeats what the peer already knew. */
  function Track(queue: seq<SignalMsg>, start: bool): Option<bool> {
    if queue == [] then Some(start)
    else
      match Track(queue[..|queue| - 1], start)
      case None => None
      case Some(present) =>
        var msg := queue[|queue| - 1];
        if msg.PeerJoined? then (if present then None else Some(true))
        else if msg.PeerLeft? then (if present then Some(false) else None)
        else Some(present)
  }

  lemma TrackPush(queue: seq<SignalMsg>, msg: SignalMsg, start: bool)
    ensures Track(queue + [msg], start)
            == (match Track(queue, start)
                case None => None
                case Some(present) =>
                  if msg.PeerJoined? then (if present then None else Some(true))
                  else if msg.PeerLeft? then (if present then Some(false) else None)
                  else Some(present))
  {
    assert (queue + [msg])[..|queue|] == queue;
  }

  lemma HasCreatedPush(queue: seq<SignalMsg>, msg: SignalMsg)
    ensures HasCreated(queue + [msg]) <==> HasCreated(queue) || msg.Created?
  {
    var queue' := queue + [msg];
    if msg.Created? {
      assert queue'[|queue|].Created?;
    }
    if i :| 0 <= i < |queue| && queue[i].Created? {
      assert queue'[i].Created?;
    }
  }

  /** The presence messages alone: `true` for PeerJoined. */
  function Presence(queue: seq<SignalMsg>): seq<bool> {
    if queue == [] then []
    else
      var msg := queue[|queue| - 1];
      Presence(queue[..|queue| - 1])
      + (if msg.PeerJoined? then [true] else if msg.PeerLeft? then [false] else [])
  }

  /** Strict alternation, beginning with what is news to a peer that starts at `start`. */
  ghost predicate Alternates(events: seq<bool>, start: bool) {
    forall i :: 0 <= i < |events| ==> events[i] == if i % 2 == 0 then !start else start
  }

  /** Tracking succeeds exactly when the presence messages alternate, and ends at the last of them. */
  lemma {:induction false} TrackIffAlternates(queue: seq<SignalMsg>, start: bool)
    ensures Track(queue, start).Some? <==> Alternates(Presence(queue), start)
    ensures Track(queue, start).Some? ==>
              Track(queue, start).value == if |Presence(queue)| % 2 == 0 then start else !start
    decreases |queue|
  {
    if queue == [] {
    } else {
      var front := queue[..|queue| - 1];
      TrackIffAlternates(front, start);
      var events, before := Presence(queue), Presence(front);
      assert before <= events;
      assert Alternates(events, start) ==> Alternates(before, start) by {
        assert forall i :: 0 <= i < |before| ==> events[i] == before[i];
      }
      if |before| < |events| {
        assert events == before + [events[|before|]];
      }
    }
  }

  /** What a connected peer has been told agrees with whether it has a partner. */
  ghost predicate Informed(s: ServerState, p: PeerId) {
    if p in s.reg.peerRoom
    then Track(s.Queue(p), !HasCreated(s.Queue(p))) == Some(s.reg.Partner(p).Some?)
    else Presence(s.Queue(p)) == [] && !HasCreated(s.Queue(p))
  }

  ghost predicate ServerInv(s: ServerState) {
    && Agree(s.reg)
    && s.reg.peerRoom.Keys <= s.senders
    && (forall p :: p in s.senders ==> p < s.nextId)
    && (forall p :: p in s.senders ==> Informed(s, p))
  }

  /** An unplaced peer has heard nothing about a partner, so tracking stays where it starts. */
  lemma {:induction false} SilentTrack(queue: seq<SignalMsg>, start: bool)
    requires Presence(queue) == []
    ensures Track(queue, start) == Some(start)
    decreases |queue|
  {
    if queue == [] {
    } else {
      SilentTrack(queue[..|queue| - 1], start);
    }
  }

  lemma PresencePush(queue: seq<SignalMsg>, msg: SignalMsg)
    ensures Presence(queue + [msg])
            == Presence(queue) + (if msg.PeerJoined? then [true] else if msg.PeerLeft? then [false] else [])
  {
    assert (queue + [msg])[..|queue|] == queue;
  }

  /** Messages that are not about presence or creation inform nobody of anything. */
  lemma NeutralSend(s: ServerState, to: PeerId, msg: SignalMsg)
    requires ServerInv(s) && !msg.PeerJoined? && !msg.PeerLeft? && !msg.Created?
    ensures ServerInv(s.SendTo(to, msg))
  {
    var s' := s.SendTo(to, msg);
    if to in s.senders {
      TrackPush(s.Queue(to), msg, !HasCreated(s.Queue(to)));
      HasCreatedPush(s.Queue(to), msg);
      PresencePush(s.Queue(to), msg);
    }
    forall p | p in s.senders ensures Informed(s', p) {
      assert Informed(s, p);
    }
  }

  lemma OpenKeeps(s: ServerState, peer: PeerId, room: string, now: nat)
    requires ServerInv(s) && peer in s.senders && peer !in s.reg.peerRoom && room !in s.reg.rooms
    ensures ServerInv(s.Open(peer, room, now))
  {
    var s', queue := s.Open(peer, room, now), s.Queue(peer);
    CreateKeeps(s.reg, peer, room, now);
    assert Informed(s, peer);
    SilentTrack(queue, false);
    TrackPush(queue, SignalMsg.Created(room), false);
    HasCreatedPush(queue, SignalMsg.Created(room));
    forall p | p in s.senders ensures Informed(s', p) {
      assert Informed(s, p);
      CreatePartners(s.reg, peer, room, now, p);
    }
  }

  lemma JoinInforms(s: ServerState, peer: PeerId, room: string, now: nat, p: PeerId)
    requires ServerInv(s) && peer in s.senders && peer !in s.reg.peerRoom && s.reg.JoinResult(room) == Joined
    requires p in s.senders
    ensures var joined := s.(reg := s.reg.Join(peer, room, now));
            Informed(joined.SendToSome(joined.reg.Partner(peer), PeerJoined), p)
  {
    var joined := s.(reg := s.reg.Join(peer, room, now));
    JoinPartners(s.reg, peer, room, now, p);
    var incumbent := s.reg.rooms[room].peers[0];
    assert incumbent in s.reg.rooms[room].peers;
    assert Informed(s, p) && Informed(s, incumbent) && Informed(s, peer);
    if p == peer {
      SilentTrack(s.Queue(peer), true);
    } else if p == incumbent {
      TrackPush(s.Queue(p), PeerJoined, !HasCreated(s.Queue(p)));
      HasCreatedPush(s.Queue(p), PeerJoined);
    }
  }

  lemma JoinKeepsServer(s: ServerState, peer: PeerId, room: string, now: nat)
    requires ServerInv(s) && peer in s.senders && peer !in s.reg.peerRoom && s.reg.JoinResult(room) == Joined
    ensures var joined := s.(reg := s.reg.Join(peer, room, now));
            ServerInv(joined.SendToSome(joined.reg.Partner(peer), PeerJoined))
  {
    JoinKeeps(s.reg, peer, room, now);
    forall p | p in s.senders
      ensures var joined := s.(reg := s.reg.Join(peer, room, now));
              Informed(joined.SendToSome(joined.reg.Partner(peer), PeerJoined), p)
    {
      JoinInforms(s, peer, room, now, p);
    }
  }

  lemma LimiterIsApart(s: ServerState, limiter: LimitState)
    requires ServerInv(s)
    ensures ServerInv(s.(limiter := limiter))
  {
    forall p | p in s.senders ensures Informed(s.(limiter := limiter), p) {
      assert Informed(s, p);
    }
  }

  lemma RefuseKeeps(s: ServerState, peer: PeerId, ip: Ip, now: nat, reply: SignalMsg)
    requires ServerInv(s) && (reply.RoomNotFound? || reply.RoomFull?)
    ensures ServerInv(s.Refuse(peer, ip, now, reply))
  {
    LimiterIsApart(s, s.limiter.RecordFailure(ip, now));
    NeutralSend(s.(limiter := s.limiter.RecordFailure(ip, now)), peer, reply);
  }

  lemma ReclaimKeeps(s: ServerState, peer: PeerId, ip: Ip, room: string, now: nat, newRoom: string)
    requires ServerInv(s) && peer in s.senders
    requires s.PlacesAs(ip, Reclaim(room), now).Some? ==> peer !in s.reg.peerRoom
    ensures ServerInv(s.Handle(peer, ip, Reclaim(room), now, newRoom))
  {
    var asked := s.(limiter := s.limiter.Prune(ip, now));
    LimiterIsApart(s, s.limiter.Prune(ip, now));
    if !s.limiter.Allows(ip, now) {
      NeutralSend(asked, peer, RoomNotFound);
    } else if s.reg.Contains(room) {
      RefuseKeeps(asked, peer, ip, now, RoomNotFound);
    } else {
      OpenKeeps(asked, peer, room, now);
    }
  }

  lemma JoinMessageKeeps(s: ServerState, peer: PeerId, ip: Ip, room: string, now: nat, newRoom: string)
    requires ServerInv(s) && peer in s.senders
    requires s.PlacesAs(ip, Join(room), now).Some? ==> peer !in s.reg.peerRoom
    ensures ServerInv(s.Handle(peer, ip, Join(room), now, newRoom))
  {
    var asked := s.(limiter := s.limiter.Prune(ip, now));
    LimiterIsApart(s, s.limiter.Prune(ip, now));
    if !s.limiter.Allows(ip, now) {
      NeutralSend(asked, peer, RoomNotFound);
    } else {
      match s.reg.JoinResult(room)
      case Joined => JoinKeepsServer(asked, peer, room, now);
      case Full => RefuseKeeps(asked, peer, ip, now, RoomFull);
      case _ => RefuseKeeps(asked, peer, ip, now, RoomNotFound);
    }
  }

  lemma RelayKeeps(s: ServerState, peer: PeerId, msg: SignalMsg)
    requires ServerInv(s) && (msg.Sdp? || msg.Ice?)
    ensures ServerInv(s.SendToSome(s.reg.Partner(peer), msg))
  {
    if s.reg.Partner(peer).Some? {
      NeutralSend(s, s.reg.Partner(peer).value, msg);
    }
  }

  /** Every message of a connected peer keeps the log in step, if it places only the unplaced. */
  lemma HandleKeeps(s: ServerState, peer: PeerId, ip: Ip, msg: SignalMsg, now: nat, newRoom: string)
    requires ServerInv(s) && peer in s.senders
    requires s.PlacesAs(ip, msg, now).Some? ==> peer !in s.reg.peerRoom
    requires msg.Create? ==> newRoom !in s.reg.rooms
    ensures ServerInv(s.Handle(peer, ip, msg, now, newRoom))
  {
    match msg
    case Create => OpenKeeps(s, peer, newRoom, now);
    case Reclaim(room) => ReclaimKeeps(s, peer, ip, room, now, newRoom);
    case Join(room) => JoinMessageKeeps(s, peer, ip, room, now, newRoom);
    case Sdp(_, _) => RelayKeeps(s, peer, msg);
    case Ice(_) => RelayKeeps(s, peer, msg);
    case _ =>
  }

  lemma CleanupQueue(s: ServerState, peer: PeerId, p: PeerId)
    requires p in s.senders && s.reg.LeftBehind(peer) == s.reg.Partner(peer)
    ensures s.Cleanup(peer).Queue(p) == if s.reg.Partner(peer) == Some(p) then s.Queue(p) + [PeerLeft] else s.Queue(p)
    ensures s.Cleanup(peer).reg == s.reg.Remove(peer)
  {
  }

  lemma CleanupInforms(s: ServerState, peer: PeerId, p: PeerId)
    requires ServerInv(s) && p in s.senders && p != peer
    ensures Informed(s.Cleanup(peer), p)
  {
    RemovePartners(s.reg, peer, p);
    assert Informed(s, p);
    PartnerSymmetric(s.reg, peer, p);
    CleanupQueue(s, peer, p);
    if s.reg.Partner(peer) == Some(p) {
      TrackPush(s.Queue(p), PeerLeft, !HasCreated(s.Queue(p)));
      HasCreatedPush(s.Queue(p), PeerLeft);
      PartnerIs(s.reg, p, peer);
    }
  }

  lemma CleanupKeeps(s: ServerState, peer: PeerId)
    requires ServerInv(s)
    ensures ServerInv(s.Cleanup(peer))
    ensures peer !in s.Cleanup(peer).senders
  {
    RemoveKeeps(s.reg, peer);
    forall p | p in s.Cleanup(peer).senders ensures Informed(s.Cleanup(peer), p) {
      CleanupInforms(s, peer, p);
    }
  }

  lemma ConnectKeeps(s: ServerState)
    requires ServerInv(s)
    ensures ServerInv(s.Connect())
  {
    forall p | p in s.Connect().senders ensures Informed(s.Connect(), p) {
      if p != s.nextId {
        assert Informed(s, p);
      }
    }
  }

  /** A successful join tells exactly one peer, the incumbent, that it is the one to offer. */
  lemma JoinTellsIncumbent(s: ServerState, peer: PeerId, ip: Ip, room: string, now: nat, newRoom: string)
    requires ServerInv(s) && peer !in s.reg.peerRoom
    requires s.PlacesAs(ip, Join(room), now) == Some(Joiner)
    ensures var s', incumbent := s.Handle(peer, ip, Join(room), now, newRoom), s.reg.rooms[room].peers[0];
            && s'.reg.Partner(peer) == Some(incumbent) && incumbent != peer
            && s'.Queue(incumbent) == s.Queue(incumbent) + [PeerJoined]
            && forall q :: q != incumbent ==> s'.Queue(q) == s.Queue(q)
  {
    JoinPartners(s.reg, peer, room, now, peer);
    assert s.reg.rooms[room].peers[0] in s.reg.rooms[room].peers;
  }

  /** An offer, answer or candidate reaches exactly the one other peer of the sender's room, and nobody else. */
  lemma RelayReachesRoommate(s: ServerState, peer: PeerId, ip: Ip, msg: SignalMsg, now: nat, newRoom: string, q: PeerId)
    requires ServerInv(s) && (msg.Sdp? || msg.Ice?)
    ensures var s' := s.Handle(peer, ip, msg, now, newRoom);
            && s'.reg == s.reg
            && s'.Queue(q) == s.Queue(q)
               + (if peer != q && peer in s.reg.peerRoom && q in s.reg.peerRoom
                     && s.reg.peerRoom[peer] == s.reg.peerRoom[q] then [msg] else [])
  {
    PartnerIs(s.reg, peer, q);
    assert s.Queue(q) + [] == s.Queue(q);
    if s.reg.Partner(peer).Some? {
      PartnerIs(s.reg, peer, s.reg.Partner(peer).value);
    }
  }

  /** Every refused request is answered once, without touching the registry; full is said only of a full room. */
  lemma RefusalIsAnswered(s: ServerState, peer: PeerId, ip: Ip, msg: SignalMsg, now: nat, newRoom: string)
    requires peer in s.senders && (msg.Reclaim? || msg.Join?) && s.PlacesAs(ip, msg, now).None?
    ensures var s' := s.Handle(peer, ip, msg, now, newRoom);
            && s'.reg == s.reg
            && s'.Queue(peer) == s.Queue(peer)
               + [if msg.Join? && s.limiter.Allows(ip, now) && msg.room in s.reg.rooms then RoomFull else RoomNotFound]
  {
  }

  /** An address over its budget learns nothing: whatever it asks about, the server ends in the same state. */
  lemma ThrottledLearnsNothing(
      s: ServerState, peer: PeerId, ip: Ip, a: SignalMsg, b: SignalMsg, now: nat, newRoom: string)
    requires !s.limiter.Allows(ip, now)
    requires (a.Reclaim? || a.Join?) && (b.Reclaim? || b.Join?)
    ensures s.Handle(peer, ip, a, now, newRoom) == s.Handle(peer, ip, b, now, newRoom)
  {
  }

  /** Nobody can speak for the server: a message of a kind that only the server sends changes nothing at all. */
  lemma ForgedIsIgnored(s: ServerState, peer: PeerId, ip: Ip, msg: SignalMsg, now: nat, newRoom: string)
    requires msg.Created? || msg.PeerJoined? || msg.PeerLeft? || msg.RoomFull? || msg.RoomNotFound?
    ensures s.Handle(peer, ip, msg, now, newRoom) == s
  {
  }

  // ----- the rate the server enforces -----

  datatype Input =
    | Connects
    | Says(peer: PeerId, ip: Ip, msg: SignalMsg, now: nat, newRoom: string)
    | Leaves(peer: PeerId)

  function Serve(s: ServerState, inputs: seq<Input>): ServerState {
    if inputs == [] then s
    else
      var before := Serve(s, inputs[..|inputs| - 1]);
      match inputs[|inputs| - 1]
      case Connects => before.Connect()
      case Says(peer, ip, msg, now, newRoom) => before.Handle(peer, ip, msg, now, newRoom)
      case Leaves(peer) => before.Cleanup(peer)
  }

  /** What one message asks of the limiter. */
  function CallsOf(s: ServerState, input: Input): seq<Call> {
    match input
    case Says(_, ip, Reclaim(room), now, _) =>
      if s.limiter.Allows(ip, now) && s.reg.Contains(room) then [Ask(ip, now), Fail(ip, now)] else [Ask(ip, now)]
    case Says(_, ip, Join(room), now, _) =>
      if s.limiter.Allows(ip, now) && s.reg.JoinResult(room) != Joined
      then [Ask(ip, now), Fail(ip, now)] else [Ask(ip, now)]
    case _ => []
  }

  function Calls(s: ServerState, inputs: seq<Input>): seq<Call> {
    if inputs == [] then []
    else
      var front := inputs[..|inputs| - 1];
      Calls(s, front) + CallsOf(Serve(s, front), inputs[|inputs| - 1])
  }

  /** The server's clock does not go back, and has not passed `now`. */
  ghost predicate TimesRun(inputs: seq<Input>, now: nat) {
    && (forall i, j :: 0 <= i < j < |inputs| && inputs[i].Says? && inputs[j].Says? ==> inputs[i].now <= inputs[j].now)
    && (forall i :: 0 <= i < |inputs| && inputs[i].Says? ==> inputs[i].now <= now)
  }

  lemma RunPush(s: LimitState, calls: seq<Call>, c: Call)
    ensures Run(s, calls + [c]) == Apply(Run(s, calls), c)
  {
    assert (calls + [c])[..|calls|] == calls;
  }

  lemma AskingChangesNothing(s: LimitState, ip: Ip, now: nat)
    ensures Apply(s, Ask(ip, now)).Allows(ip, now) == s.Allows(ip, now)
  {
    PruneIs(s, ip, now, ip);
    PruneIs(s.Prune(ip, now), ip, now, ip);
    RecentTwice(s.Of(ip), now, now, s.window);
  }

  lemma DisciplinePush(window: nat, max: nat, calls: seq<Call>, c: Call)
    requires Disciplined(window, max, calls)
    requires c.Fail? ==> Run(LimitState(window, max, map[]), calls).Allows(c.ip, c.now)
    ensures Disciplined(window, max, calls + [c])
  {
    var calls' := calls + [c];
    assert forall i :: 0 <= i <= |calls| ==> calls'[..i] == calls[..i];
    assert calls[..|calls|] == calls;
  }

  ghost predicate Tallied(limiter: LimitState, calls: seq<Call>) {
    && limiter == Run(LimitState(JOIN_WINDOW_MS, JOIN_MAX_FAILURES, map[]), calls)
    && Disciplined(JOIN_WINDOW_MS, JOIN_MAX_FAILURES, calls)
  }

  lemma TallyPush(limiter: LimitState, calls: seq<Call>, c: Call)
    requires Tallied(limiter, calls) && (c.Fail? ==> limiter.Allows(c.ip, c.now))
    ensures Tallied(Apply(limiter, c), calls + [c])
  {
    RunPush(LimitState(JOIN_WINDOW_MS, JOIN_MAX_FAILURES, map[]), calls, c);
    DisciplinePush(JOIN_WINDOW_MS, JOIN_MAX_FAILURES, calls, c);
  }

  /** One message asks first and then, at the same time, records at most one failure it had allowed. */
  lemma HandleAsksFirst(s: ServerState, peer: PeerId, ip: Ip, msg: SignalMsg, now: nat, newRoom: string)
    ensures var limiter, calls := s.Handle(peer, ip, msg, now, newRoom).limiter,
                                  CallsOf(s, Says(peer, ip, msg, now, newRoom));
            || (calls == [] && limiter == s.limiter)
            || (calls == [Ask(ip, now)] && limiter == Apply(s.limiter, Ask(ip, now)))
            || (calls == [Ask(ip, now), Fail(ip, now)] && s.limiter.Allows(ip, now)
                && limiter == Apply(Apply(s.limiter, Ask(ip, now)), Fail(ip, now)))
  {
  }

  lemma SaysTallies(s: ServerState, calls: seq<Call>, input: Input)
    requires input.Says? && Tallied(s.limiter, calls)
    ensures Tallied(s.Handle(input.peer, input.ip, input.msg, input.now, input.newRoom).limiter,
                    calls + CallsOf(s, input))
  {
    HandleAsksFirst(s, input.peer, input.ip, input.msg, input.now, input.newRoom);
    var more, ask, fail := CallsOf(s, input), Ask(input.ip, input.now), Fail(input.ip, input.now);
    if more == [] {
      assert calls + more == calls;
    } else {
      TallyPush(s.limiter, calls, ask);
      if |more| == 2 {
        AskingChangesNothing(s.limiter, input.ip, input.now);
        TallyPush(Apply(s.limiter, ask), calls + [ask], fail);
        assert calls + more == calls + [ask] + [fail];
      }
    }
  }

  lemma {:induction false} ServeTallies(inputs: seq<Input>)
    ensures Tallied(Serve(InitServer(), inputs).limiter, Calls(InitServer(), inputs))
    decreases |inputs|
  {
    if inputs == [] {
    } else {
      var front := inputs[..|inputs| - 1];
      var s, calls := Serve(InitServer(), front), Calls(InitServer(), front);
      ServeTallies(front);
      match inputs[|inputs| - 1]
      case Connects => assert calls + [] == calls;
      case Leaves(peer) => assert calls + [] == calls;
      case Says(_, _, _, _, _) => SaysTallies(s, calls, inputs[|inputs| - 1]);
    }
  }

  lemma {:induction false} CallsRun(inputs: seq<Input>, now: nat)
    requires TimesRun(inputs, now)
    ensures ClockRuns(Calls(InitServer(), inputs), now)
    decreases |inputs|
  {
    if inputs == [] {
    } else {
      var front, last := inputs[..|inputs| - 1], inputs[|inputs| - 1];
      CallsRun(front, if last.Says? then last.now else now);
      var more := CallsOf(Serve(InitServer(), front), last);
      assert forall i :: 0 <= i < |more| ==> last.Says? && more[i].now == last.now;
    }
  }

  /** Over every run of the server, no minute holds more than thirty failed attempts of one address. */
  lemma ServerBoundsFailures(inputs: seq<Input>, now: nat, ip: Ip, from: nat)
    requires TimesRun(inputs, now)
    ensures CountIn(Log(Calls(InitServer(), inputs), ip), from, JOIN_WINDOW_MS) <= JOIN_MAX_FAILURES
  {
    ServeTallies(inputs);
    CallsRun(inputs, now);
    RateIsBounded(JOIN_WINDOW_MS, JOIN_MAX_FAILURES, Calls(InitServer(), inputs), ip, from, now);
  }

  // ----- when a room was last entered -----

  /** The room that an input enters. */
  function Enters(s: ServerState, input: Input): Option<string> {
    match input
    case Says(_, _, Create, _, newRoom) => Some(newRoom)
    case Says(_, ip, Reclaim(room), now, _) => if s.PlacesAs(ip, Reclaim(room), now).Some? then Some(room) else None
    case Says(_, ip, Join(room), now, _) => if s.PlacesAs(ip, Join(room), now).Some? then Some(room) else None
    case _ => None
  }

  function LastEntered(inputs: seq<Input>, room: string): nat {
    if inputs == [] then 0
    else
      var front, last := inputs[..|inputs| - 1], inputs[|inputs| - 1];
      if Enters(Serve(InitServer(), front), last) == Some(room) then last.now else LastEntered(front, room)
  }

  lemma HandleStamps(s: ServerState, input: Input, room: string)
    requires input.Says?
    ensures var s' := s.Handle(input.peer, input.ip, input.msg, input.now, input.newRoom);
            room in s'.reg.rooms ==>
              if Enters(s, input) == Some(room) then s'.reg.rooms[room].lastActivityMs == input.now
              else room in s.reg.rooms && s'.reg.rooms[room] == s.reg.rooms[room]
  {
    match input.msg
    case Join(r) => if s.limiter.Allows(input.ip, input.now) && s.reg.JoinResult(r) == Joined {} else {}
    case _ =>
  }

  /** The time noted in a room is the time it was last entered, over every run of the server. */
  lemma {:induction false} RoomsKeepTheirTime(inputs: seq<Input>, room: string)
    requires room in Serve(InitServer(), inputs).reg.rooms
    ensures Serve(InitServer(), inputs).reg.rooms[room].lastActivityMs == LastEntered(inputs, room)
    decreases |inputs|
  {
    if inputs == [] {
    } else {
      var front, last := inputs[..|inputs| - 1], inputs[|inputs| - 1];
      if last.Says? {
        HandleStamps(Serve(InitServer(), front), last, room);
      }
      if Enters(Serve(InitServer(), front), last) != Some(room) {
        RoomsKeepTheirTime(front, room);
      }
    }
  }
}
