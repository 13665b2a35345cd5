/** The whole signaling system: any number of clients, the server, and a FIFO in each direction per connection. */
module SignalingSystem {
  import opened Prelude
  import opened Rooms
  import opened Limiter
  import opened Server
  import opened Signaling
  import R = Reconnect

  /**
   * One connection: its uplink is `inbox`, its downlink the server's queue from `read` on; `acts` logs all
   * that its page did on the reducer's word while this was its connection.
   */
  datatype Link = Link(
    client: nat,
    ip: Ip,
    state: ReadyState,
    inbox: seq<SignalMsg>,
    read: nat,
    acts: seq<R.Action>)

  /** A page: its reducer, and the socket whose callbacks are installed. */
  datatype Client = Client(session: R.SessionState, link: Option<PeerId>)

  /** The message translation: server-bound kinds decide nothing in the client. */
  function EventOf(msg: SignalMsg): Option<R.Event> {
    match msg
    case Created(room) => Some(R.Event.Created(room))
    case PeerJoined => Some(R.Event.PeerJoined)
    case Sdp(sdp, kind) => Some(if kind == "offer" then R.Event.Offer(sdp) else R.Event.Answer(sdp))
    case Ice(_) => Some(R.Event.Ice)
    case PeerLeft => Some(R.Event.PeerLeft)
    case RoomFull => Some(R.Event.RoomFull)
    case RoomNotFound => Some(R.Event.RoomNotFound)
    case _ => None
  }

  /** The messages an action list sends at once; offers, answers and candidates follow later. */
  function Sends(actions: seq<R.Action>): seq<SignalMsg> {
    if actions == [] then []
    else
      (match actions[0]
       case SendCreate => [Create]
       case SendJoin(room) => [Join(room)]
       case SendReclaim(room) => [Reclaim(room)]
       case _ => [])
      + Sends(actions[1..])
  }

  /** The connections of a placement log, in order. */
  function PeersOf(placements: seq<(PeerId, Role)>): seq<PeerId> {
    seq(|placements|, i requires 0 <= i < |placements| => placements[i].0)
  }

  /** `placements` logs every message that placed its sender in a room: its connection, and as what. */
  datatype System = System(
    server: ServerState,
    clients: map<nat, Client>,
    links: map<PeerId, Link>,
    placements: seq<(PeerId, Role)>)
  {
    predicate HasLink(c: nat) {
      c in clients && clients[c].link.Some? && clients[c].link.value in links
    }

    predicate Online(c: nat) {
      HasLink(c) && links[clients[c].link.value].state == OPEN
    }

    /** No socket yet, or one that is neither connecting nor open. */
    predicate MayDial(c: nat) {
      && c in clients
      && (HasLink(c) ==> links[clients[c].link.value].state == CLOSING || links[clients[c].link.value].state == CLOSED)
    }

    function SetLink(p: PeerId, l: Link): System {
      this.(links := links[p := l])
    }

    /** The reducer takes one event and what it sends goes up the current connection. */
    function Feed(c: nat, ev: R.Event): System
      requires HasLink(c)
    {
      var (session, actions) := clients[c].session.Step(ev);
      var p := clients[c].link.value;
      SetLink(p, links[p].(inbox := links[p].inbox + Sends(actions), acts := links[p].acts + actions))
        .(clients := clients[c := clients[c].(session := session)])
    }

    function Deliver(c: nat): System
      requires Online(c)
    {
      var p := clients[c].link.value;
      if links[p].read >= |server.Queue(p)| then this
      else
        var popped := SetLink(p, links[p].(read := links[p].read + 1));
        match EventOf(server.Queue(p)[links[p].read])
        case Some(ev) => popped.Feed(c, ev)
        case None => popped
    }

    function Serves(p: PeerId, now: nat, newRoom: string): System
      requires p in links && links[p].inbox != []
    {
      var l := links[p];
      var role := server.PlacesAs(l.ip, l.inbox[0], now);
      SetLink(p, l.(inbox := l.inbox[1..]))
        .(server := server.Handle(p, l.ip, l.inbox[0], now, newRoom),
          placements := placements + if role.Some? then [(p, role.value)] else [])
    }
  }

  datatype Op =
    | Spawns(c: nat, roomInHash: Option<string>, owns: Option<string>)
    | Dials(c: nat, ip: Ip)
    | Opens(c: nat)
    | Delivers(c: nat)
    | Chats(c: nat, msg: SignalMsg)
    | Hangs(p: PeerId)
    | Drops(p: PeerId)
    | Handles(p: PeerId, now: nat, newRoom: string)
    | Cleans(p: PeerId)

  /** One step of the system; a step that cannot happen now changes nothing. */
  function Step(s: System, op: Op): System {
    match op
    case Spawns(c, roomInHash, owns) =>
      if c in s.clients then s else s.(clients := s.clients[c := Client(R.Start(roomInHash, owns), None)])
    case Dials(c, ip) =>
      if !s.MayDial(c) then s
      else
        var p := s.server.nextId;
        s.SetLink(p, Link(c, ip, CONNECTING, [], 0, []))
          .(server := s.server.Connect(), clients := s.clients[c := s.clients[c].(link := Some(p))])
    case Opens(c) =>
      if !s.HasLink(c) || s.links[s.clients[c].link.value].state != CONNECTING then s
      else
        var p := s.clients[c].link.value;
        s.SetLink(p, s.links[p].(state := OPEN)).Feed(c, R.Event.Open)
    case Delivers(c) => if s.Online(c) then s.Deliver(c) else s
    case Chats(c, msg) =>
      if !s.Online(c) || !(msg.Sdp? || msg.Ice?) then s
      else
        var p := s.clients[c].link.value;
        s.SetLink(p, s.links[p].(inbox := s.links[p].inbox + [msg]))
    case Hangs(p) =>
      if p !in s.links || s.links[p].state == CLOSED then s else s.SetLink(p, s.links[p].(state := CLOSING))
    case Drops(p) =>
      if p !in s.links || s.links[p].state == CLOSED then s
      else
        var closed, c := s.SetLink(p, s.links[p].(state := CLOSED)), s.links[p].client;
        if c in s.clients && s.clients[c].link == Some(p)
        then closed.(clients := s.clients[c := s.clients[c].(session := s.clients[c].session.Reset())])
        else closed
    case Handles(p, now, newRoom) =>
      if p !in s.links || p !in s.server.senders || s.links[p].inbox == [] then s
      else if s.links[p].inbox[0].Create? && newRoom in s.server.reg.rooms then s
      else s.Serves(p, now, newRoom)
    case Cleans(p) => if p in s.server.senders then s.(server := s.server.Cleanup(p)) else s
  }

  function Init(): System {
    System(InitServer(), map[], map[], [])
  }

  function Exec(ops: seq<Op>): System {
    if ops == [] then Init() else Step(Exec(ops[..|ops| - 1]), ops[|ops| - 1])
  }

  // ----- the placement budget -----

  predicate Asks(msg: SignalMsg) {
    msg.Create? || msg.Join? || msg.Reclaim?
  }

  /** What one page says to the other. */
  predicate Relayed(msg: SignalMsg) {
    msg.Sdp? || msg.Ice?
  }

  function CountAsks(queue: seq<SignalMsg>): nat {
    if queue == [] then 0 else (if Asks(queue[0]) then 1 else 0) + CountAsks(queue[1..])
  }

  function CountMisses(queue: seq<SignalMsg>): nat {
    if queue == [] then 0 else (if queue[0].RoomNotFound? then 1 else 0) + CountMisses(queue[1..])
  }

  function Unread(queue: seq<SignalMsg>, read: nat): seq<SignalMsg> {
    if read <= |queue| then queue[read..] else []
  }

  /**
   * All that can still place this connection, and all that has: an open event to come, a request under
   * way, a refusal the client has not seen, a placement made.
   */
  function Budget(l: Link, queue: seq<SignalMsg>, placed: nat): nat {
    (if l.state == CONNECTING then 1 else 0) + CountAsks(l.inbox) + CountMisses(Unread(queue, l.read)) + placed
  }

  ghost predicate Within(s: System, p: PeerId)
    requires p in s.links
  {
    && s.links[p].read <= |s.server.Queue(p)|
    && Budget(s.links[p], s.server.Queue(p), multiset(PeersOf(s.placements))[p]) <= 1
  }

  ghost predicate Frugal(s: System) {
    forall p :: p in s.links ==> Within(s, p)
  }

  ghost predicate Wired(s: System) {
    && (forall p :: p in s.links ==> p < s.server.nextId)
    && s.server.senders <= s.links.Keys
    && (forall p :: p in PeersOf(s.placements) ==> p in s.links)
    && (forall p :: p in s.server.reg.peerRoom ==> p in PeersOf(s.placements))
    && (forall c :: c in s.clients && s.clients[c].link.Some? ==> s.clients[c].link.value in s.links)
  }

  ghost predicate Inv(s: System) {
    ServerInv(s.server) && Wired(s) && Frugal(s)
  }

  lemma {:induction false} CountAsksAppend(a: seq<SignalMsg>, b: seq<SignalMsg>)
    ensures CountAsks(a + b) == CountAsks(a) + CountAsks(b)
  {
    if a == [] {
      assert a + b == b;
    } else {
      CountAsksAppend(a[1..], b);
      assert (a + b)[1..] == a[1..] + b;
    }
  }

  lemma {:induction false} CountMissesAppend(a: seq<SignalMsg>, b: seq<SignalMsg>)
    ensures CountMisses(a + b) == CountMisses(a) + CountMisses(b)
  {
    if a == [] {
      assert a + b == b;
    } else {
      CountMissesAppend(a[1..], b);
      assert (a + b)[1..] == a[1..] + b;
    }
  }

  lemma MissesPush(queue: seq<SignalMsg>, msg: SignalMsg, read: nat)
    requires read <= |queue|
    ensures CountMisses(Unread(queue + [msg], read))
            == CountMisses(Unread(queue, read)) + (if msg.RoomNotFound? then 1 else 0)
  {
    assert (queue + [msg])[read..] == queue[read..] + [msg];
    CountMissesAppend(queue[read..], [msg]);
    assert [msg][1..] == [];
  }

  predicate Worthy(ev: R.Event) {
    ev.Open? || ev.RoomNotFound?
  }

  lemma SendsFirst(action: R.Action, rest: seq<R.Action>)
    ensures CountAsks(Sends([action] + rest))
            == (if action.SendCreate? || action.SendJoin? || action.SendReclaim? then 1 else 0) + CountAsks(Sends(rest))
  {
    assert ([action] + rest)[1..] == rest;
    var sent := match action
      case SendCreate => [Create]
      case SendJoin(room) => [Join(room)]
      case SendReclaim(room) => [Reclaim(room)]
      case _ => [];
    assert |sent| == 1 ==> sent[1..] == [];
    CountAsksAppend(sent, Sends(rest));
  }

  /** The reducer asks once when the socket opens, at most once more per refusal, and otherwise never. */
  lemma StepAsks(session: R.SessionState, ev: R.Event)
    ensures CountAsks(Sends(session.Step(ev).1)) <= (if Worthy(ev) then 1 else 0)
  {
    var actions := session.Step(ev).1;
    if |actions| == 1 {
      SendsFirst(actions[0], []);
      assert actions == [actions[0]] + [];
    } else if |actions| == 2 {
      SendsFirst(actions[1], []);
      SendsFirst(actions[0], [actions[1]] + []);
      assert actions == [actions[0]] + ([actions[1]] + []);
    }
  }

  // ----- what one step does to one budget -----

  lemma FeedTouches(s: System, c: nat, ev: R.Event, q: PeerId)
    requires s.HasLink(c) && q in s.links
    ensures var s', l := s.Feed(c, ev), s.links[q];
            && q in s'.links && s'.server == s.server && s'.placements == s.placements
            && s'.links[q].state == l.state && s'.links[q].read == l.read
            && s'.links[q].inbox
               == if s.clients[c].link == Some(q) then l.inbox + Sends(s.clients[c].session.Step(ev).1) else l.inbox
  {
  }

  /** Feeding the reducer costs at most what the event was worth, and only the connection it came by. */
  lemma FeedFrugal(s: System, c: nat, ev: R.Event, q: PeerId)
    requires s.HasLink(c) && q in s.links && s.links[q].read <= |s.server.Queue(q)|
    requires Budget(s.links[q], s.server.Queue(q), multiset(PeersOf(s.placements))[q])
             + (if s.clients[c].link == Some(q) && Worthy(ev) then 1 else 0) <= 1
    ensures Within(s.Feed(c, ev), q)
  {
    StepAsks(s.clients[c].session, ev);
    CountAsksAppend(s.links[q].inbox, Sends(s.clients[c].session.Step(ev).1));
    FeedTouches(s, c, ev, q);
  }

  lemma OpensFrugal(s: System, c: nat, q: PeerId)
    requires s.HasLink(c) && s.links[s.clients[c].link.value].state == CONNECTING
    requires q in s.links && Within(s, q)
    ensures q in Step(s, Op.Opens(c)).links && Within(Step(s, Op.Opens(c)), q)
  {
    var p := s.clients[c].link.value;
    FeedFrugal(s.SetLink(p, s.links[p].(state := OPEN)), c, R.Event.Open, q);
  }

  lemma DeliversFrugal(s: System, c: nat, q: PeerId)
    requires s.Online(c) && q in s.links && Within(s, q)
    ensures q in s.Deliver(c).links && Within(s.Deliver(c), q)
  {
    var p := s.clients[c].link.value;
    var queue, read := s.server.Queue(p), s.links[p].read;
    if read < |queue| {
      assert queue[read..][1..] == queue[read + 1..];
      match EventOf(queue[read])
      case Some(ev) => FeedFrugal(s.SetLink(p, s.links[p].(read := read + 1)), c, ev, q);
      case None =>
    }
  }

  lemma ChatsFrugal(s: System, c: nat, msg: SignalMsg, q: PeerId)
    requires s.Online(c) && (msg.Sdp? || msg.Ice?) && q in s.links && Within(s, q)
    ensures q in Step(s, Chats(c, msg)).links && Within(Step(s, Chats(c, msg)), q)
  {
    CountAsksAppend(s.links[q].inbox, [msg]);
    assert [msg][1..] == [];
  }

  /** One message adds at most one message to any queue; a miss only for its own sender, who was not placed. */
  lemma HandleSends(s: ServerState, p: PeerId, ip: Ip, msg: SignalMsg, now: nat, newRoom: string, q: PeerId)
    returns (sent: seq<SignalMsg>)
    ensures s.Handle(p, ip, msg, now, newRoom).Queue(q) == s.Queue(q) + sent && |sent| <= 1
    ensures |sent| == 1 && sent[0].RoomNotFound? ==> p == q && Asks(msg) && s.PlacesAs(ip, msg, now).None?
    ensures |sent| == 1 && Relayed(sent[0]) ==> sent == [msg] && s.reg.Partner(p) == Some(q)
    ensures !Asks(msg) && !Relayed(msg) ==> sent == []
    ensures |sent| == 1 && sent[0].Created? <==> p == q && p in s.senders && s.PlacesAs(ip, msg, now) == Some(Opener)
  {
    var s' := s.Handle(p, ip, msg, now, newRoom);
    if s'.Queue(q) == s.Queue(q) {
      sent := [];
    } else {
      var asked := s.(limiter := s.limiter.Prune(ip, now));
      match msg {
        case Create => sent := [SignalMsg.Created(newRoom)];
        case Reclaim(room) =>
          sent := if s.PlacesAs(ip, msg, now).Some? then [SignalMsg.Created(room)] else [RoomNotFound];
        case Join(room) =>
          sent := if s.PlacesAs(ip, msg, now).Some? then [PeerJoined]
                  else if s.limiter.Allows(ip, now) && s.reg.JoinResult(room) == Full then [RoomFull]
                  else [RoomNotFound];
        case _ => sent := [msg];
      }
    }
  }

  lemma PeersPush(placements: seq<(PeerId, Role)>, p: PeerId, role: Role)
    ensures PeersOf(placements + [(p, role)]) == PeersOf(placements) + [p]
  {
  }

  /** Serving a link takes its head request off; other links are as they were. */
  lemma ServesLink(s: System, p: PeerId, now: nat, newRoom: string, q: PeerId)
    requires p in s.links && s.links[p].inbox != [] && q in s.links
    ensures var l, l' := s.links[q], s.Serves(p, now, newRoom).links[q];
            && l'.read == l.read && l'.state == l.state
            && CountAsks(l'.inbox) == CountAsks(l.inbox) - (if p == q && Asks(s.links[p].inbox[0]) then 1 else 0)
  {
  }

  /** It counts one placement more exactly if the request is granted. */
  lemma ServesPlaces(s: System, p: PeerId, now: nat, newRoom: string, q: PeerId)
    requires p in s.links && s.links[p].inbox != []
    ensures var granted := s.server.PlacesAs(s.links[p].ip, s.links[p].inbox[0], now).Some?;
            && multiset(PeersOf(s.Serves(p, now, newRoom).placements))[q]
               == multiset(PeersOf(s.placements))[q] + (if p == q && granted then 1 else 0)
            && (granted ==> Asks(s.links[p].inbox[0]))
  {
    var role := s.server.PlacesAs(s.links[p].ip, s.links[p].inbox[0], now);
    if role.Some? {
      PeersPush(s.placements, p, role.value);
    } else {
      assert s.placements + [] == s.placements;
    }
  }

  /** It adds a refusal only to the sender of a request that is not granted. */
  lemma ServesMisses(s: System, p: PeerId, now: nat, newRoom: string, q: PeerId)
    requires p in s.links && s.links[p].inbox != [] && q in s.links && s.links[q].read <= |s.server.Queue(q)|
    ensures var queue', l := s.Serves(p, now, newRoom).server.Queue(q), s.links[p];
            && s.links[q].read <= |queue'|
            && CountMisses(Unread(queue', s.links[q].read))
               <= CountMisses(Unread(s.server.Queue(q), s.links[q].read))
                  + (if p == q && Asks(l.inbox[0]) && s.server.PlacesAs(l.ip, l.inbox[0], now).None? then 1 else 0)
  {
    var l, queue := s.links[p], s.server.Queue(q);
    var sent := HandleSends(s.server, p, l.ip, l.inbox[0], now, newRoom, q);
    if sent == [] {
      assert queue + sent == queue;
    } else {
      assert sent == [sent[0]];
      MissesPush(queue, sent[0], s.links[q].read);
    }
  }

  lemma HandlesFrugal(s: System, p: PeerId, now: nat, newRoom: string, q: PeerId)
    requires p in s.links && s.links[p].inbox != [] && q in s.links && Within(s, q)
    ensures Within(s.Serves(p, now, newRoom), q)
  {
    ServesLink(s, p, now, newRoom, q);
    ServesPlaces(s, p, now, newRoom, q);
    ServesMisses(s, p, now, newRoom, q);
  }

  lemma CleansFrugal(s: System, p: PeerId, q: PeerId)
    requires q in s.links && Within(s, q)
    ensures Within(s.(server := s.server.Cleanup(p)), q)
  {
    var s' := s.server.Cleanup(p);
    if s'.Queue(q) != s.server.Queue(q) {
      assert s'.Queue(q) == s.server.Queue(q) + [SignalMsg.PeerLeft];
      MissesPush(s.server.Queue(q), SignalMsg.PeerLeft, s.links[q].read);
    }
  }

  lemma DialsFrugal(s: System, c: nat, ip: Ip, q: PeerId)
    requires Wired(s) && s.MayDial(c) && q in Step(s, Dials(c, ip)).links
    requires q in s.links ==> Within(s, q)
    ensures Within(Step(s, Dials(c, ip)), q)
  {
    if q == s.server.nextId {
      assert q !in PeersOf(s.placements);
    }
  }

  lemma StepFrugal(s: System, op: Op, q: PeerId)
    requires Wired(s) && q in Step(s, op).links
    requires q in s.links ==> Within(s, q)
    ensures Within(Step(s, op), q)
  {
    match op
    case Spawns(_, _, _) =>
    case Dials(c, ip) => if s.MayDial(c) { DialsFrugal(s, c, ip, q); }
    case Opens(c) =>
      if s.HasLink(c) && s.links[s.clients[c].link.value].state == CONNECTING { OpensFrugal(s, c, q); }
    case Delivers(c) => if s.Online(c) { DeliversFrugal(s, c, q); }
    case Chats(c, msg) => if s.Online(c) && (msg.Sdp? || msg.Ice?) { ChatsFrugal(s, c, msg, q); }
    case Hangs(p) =>
    case Drops(p) =>
    case Handles(p, now, newRoom) =>
      if p in s.links && s.links[p].inbox != [] { HandlesFrugal(s, p, now, newRoom, q); }
    case Cleans(p) => CleansFrugal(s, p, q);
  }

  // ----- what one step does to the rest -----

  lemma HandleFrame(s: ServerState, p: PeerId, ip: Ip, msg: SignalMsg, now: nat, newRoom: string)
    ensures var s' := s.Handle(p, ip, msg, now, newRoom);
            && s'.nextId == s.nextId && s'.senders == s.senders
            && s'.reg.peerRoom.Keys == s.reg.peerRoom.Keys + (if s.PlacesAs(ip, msg, now).Some? then {p} else {})
  {
    match msg
    case Create =>
    case Reclaim(_) =>
    case Join(room) => if s.reg.JoinResult(room) == Joined {} else {}
    case _ =>
  }

  lemma CleanupFrame(s: ServerState, p: PeerId)
    ensures var s' := s.Cleanup(p);
            && s'.nextId == s.nextId && s'.senders <= s.senders && s'.reg.peerRoom.Keys <= s.reg.peerRoom.Keys
  {
  }

  lemma StepWired(s: System, op: Op)
    requires Wired(s)
    ensures Wired(Step(s, op))
  {
    match op
    case Handles(p, now, newRoom) =>
      if p in s.links && s.links[p].inbox != [] {
        HandleFrame(s.server, p, s.links[p].ip, s.links[p].inbox[0], now, newRoom);
        var role := s.server.PlacesAs(s.links[p].ip, s.links[p].inbox[0], now);
        if role.Some? {
          PeersPush(s.placements, p, role.value);
        } else {
          assert s.placements + [] == s.placements;
        }
      }
    case Cleans(p) => CleanupFrame(s.server, p);
    case _ =>
  }

  /** A sender with a request under way has not been placed: its budget is taken. */
  lemma AskerIsUnplaced(s: System, p: PeerId)
    requires p in s.links && Within(s, p) && s.links[p].inbox != [] && Asks(s.links[p].inbox[0])
    ensures p !in PeersOf(s.placements)
  {
  }

  lemma ServesKeeps(s: ServerState, l: Link, placed: seq<PeerId>, p: PeerId, now: nat, newRoom: string)
    requires ServerInv(s) && p in s.senders && l.inbox != []
    requires Asks(l.inbox[0]) ==> p !in placed
    requires p in s.reg.peerRoom ==> p in placed
    requires l.inbox[0].Create? ==> newRoom !in s.reg.rooms
    ensures ServerInv(s.Handle(p, l.ip, l.inbox[0], now, newRoom))
  {
    HandleKeeps(s, p, l.ip, l.inbox[0], now, newRoom);
  }

  lemma StepServes(s: System, op: Op)
    requires ServerInv(s.server) && Wired(s) && Frugal(s)
    ensures ServerInv(Step(s, op).server)
  {
    match op
    case Dials(c, _) => ConnectKeeps(s.server);
    case Handles(p, now, newRoom) =>
      if p in s.links && p in s.server.senders && s.links[p].inbox != []
         && (s.links[p].inbox[0].Create? ==> newRoom !in s.server.reg.rooms) {
        if Asks(s.links[p].inbox[0]) {
          AskerIsUnplaced(s, p);
        }
        ServesKeeps(s.server, s.links[p], PeersOf(s.placements), p, now, newRoom);
      }
    case Cleans(p) => CleanupKeeps(s.server, p);
    case _ =>
  }

  lemma StepKeeps(s: System, op: Op)
    requires Inv(s)
    ensures Inv(Step(s, op))
  {
    StepServes(s, op);
    StepWired(s, op);
    forall q | q in Step(s, op).links ensures Within(Step(s, op), q) {
      StepFrugal(s, op, q);
    }
  }

  lemma {:induction false} ExecKeeps(ops: seq<Op>)
    ensures Inv(Exec(ops))
    decreases |ops|
  {
    if ops == [] {
    } else {
      ExecKeeps(ops[..|ops| - 1]);
      StepKeeps(Exec(ops[..|ops| - 1]), ops[|ops| - 1]);
    }
  }

  // ----- every run -----

  /** The registry never checks it, but no connection is ever placed twice. */
  lemma PlacedAtMostOnce(ops: seq<Op>, p: PeerId)
    ensures multiset(PeersOf(Exec(ops).placements))[p] <= 1
  {
    ExecKeeps(ops);
    var s := Exec(ops);
    if p in PeersOf(s.placements) {
      assert Within(s, p);
    }
  }

  /** So the room index and the peer index agree in every reachable state. */
  lemma IndexesAgree(ops: seq<Op>)
    ensures Agree(Exec(ops).server.reg)
  {
    ExecKeeps(ops);
  }

  // ----- the role a connection was placed in -----

  /** The queue of `p` holds a `Created` exactly if some message placed `p` as an opener. */
  ghost predicate Announced(s: System, p: PeerId) {
    HasCreated(s.server.Queue(p)) <==> (p, Opener) in s.placements
  }

  lemma SameQueueAnnounces(s: System, s': System, p: PeerId)
    requires Announced(s, p) && s'.server.Queue(p) == s.server.Queue(p) && s'.placements == s.placements
    ensures Announced(s', p)
  {
  }

  lemma HandlesAnnounces(s: System, p: PeerId, now: nat, newRoom: string, q: PeerId)
    requires p in s.links && s.links[p].inbox != [] && p in s.server.senders && Announced(s, q)
    ensures Announced(s.Serves(p, now, newRoom), q)
  {
    var l := s.links[p];
    var sent := HandleSends(s.server, p, l.ip, l.inbox[0], now, newRoom, q);
    if sent == [] {
      assert s.server.Queue(q) + sent == s.server.Queue(q);
    } else {
      assert sent == [sent[0]];
      HasCreatedPush(s.server.Queue(q), sent[0]);
    }
  }

  lemma CleansAnnounces(s: System, p: PeerId, q: PeerId)
    requires Announced(s, q)
    ensures Announced(s.(server := s.server.Cleanup(p)), q)
  {
    if s.server.Cleanup(p).Queue(q) != s.server.Queue(q) {
      HasCreatedPush(s.server.Queue(q), SignalMsg.PeerLeft);
    }
  }

  lemma PeersHave(placements: seq<(PeerId, Role)>, p: PeerId, role: Role)
    requires (p, role) in placements
    ensures p in PeersOf(placements)
  {
    var i :| 0 <= i < |placements| && placements[i] == (p, role);
    assert PeersOf(placements)[i] == p;
  }

  lemma DialsAnnounces(s: System, c: nat, ip: Ip, q: PeerId)
    requires Wired(s) && s.MayDial(c) && Announced(s, q)
    ensures Announced(Step(s, Dials(c, ip)), q)
  {
    if (q, Opener) in s.placements {
      PeersHave(s.placements, q, Opener);
      assert q in s.links;
    }
  }

  lemma StepAnnounces(s: System, op: Op, q: PeerId)
    requires Wired(s) && Announced(s, q)
    ensures Announced(Step(s, op), q)
  {
    match op
    case Dials(c, ip) => if s.MayDial(c) { DialsAnnounces(s, c, ip, q); }
    case Handles(p, now, newRoom) =>
      if p in s.links && p in s.server.senders && s.links[p].inbox != [] {
        HandlesAnnounces(s, p, now, newRoom, q);
      }
    case Cleans(p) => CleansAnnounces(s, p, q);
    case _ => SameQueueAnnounces(s, Step(s, op), q);
  }

  lemma {:induction false} ExecAnnounces(ops: seq<Op>, p: PeerId)
    ensures Announced(Exec(ops), p)
    decreases |ops|
  {
    if ops == [] {
    } else {
      ExecAnnounces(ops[..|ops| - 1], p);
      ExecKeeps(ops[..|ops| - 1]);
      StepAnnounces(Exec(ops[..|ops| - 1]), ops[|ops| - 1], p);
    }
  }

  /** Two roles of one peer are two entries of the log. */
  lemma TwoRolesCount(placements: seq<(PeerId, Role)>, p: PeerId, a: Role, b: Role)
    requires (p, a) in placements && (p, b) in placements
    ensures a == b || multiset(PeersOf(placements))[p] >= 2
  {
    var peers := PeersOf(placements);
    var i :| 0 <= i < |placements| && placements[i] == (p, a);
    var j :| 0 <= j < |placements| && placements[j] == (p, b);
    if i != j {
      var lo, hi := Min(i, j), Max(i, j);
      assert peers[lo] == p && peers[hi] == p;
      assert peers == peers[..lo] + [p] + peers[lo + 1..hi] + [p] + peers[hi + 1..];
    }
  }

  /** A placed peer was placed in exactly one role, and heard `Created` exactly if it was as an opener. */
  lemma PlacedInOneRole(ops: seq<Op>, p: PeerId) returns (role: Role)
    requires p in Exec(ops).server.reg.peerRoom
    ensures forall r :: (p, r) in Exec(ops).placements <==> r == role
    ensures HasCreated(Exec(ops).server.Queue(p)) <==> role == Opener
  {
    ExecKeeps(ops);
    ExecAnnounces(ops, p);
    PlacedAtMostOnce(ops, p);
    var placements := Exec(ops).placements;
    assert p in PeersOf(placements);
    var i :| 0 <= i < |placements| && PeersOf(placements)[i] == p;
    role := placements[i].1;
    assert (p, role) in placements;
    forall r | (p, r) in placements ensures r == role {
      TwoRolesCount(placements, p, r, role);
    }
  }

  /**
   * A peer placed as an opener hears of its partner first by PeerJoined, one placed as a joiner first by
   * PeerLeft; from then on the two alternate, and the last of them says whether it has a partner now.
   */
  lemma NotificationsAgree(ops: seq<Op>, p: PeerId, role: Role)
    requires p in Exec(ops).server.reg.peerRoom && (p, role) in Exec(ops).placements
    ensures var s, events := Exec(ops).server, Presence(Exec(ops).server.Queue(p));
            && Alternates(events, role == Joiner)
            && s.reg.Partner(p).Some? == (if |events| % 2 == 0 then role == Joiner else role == Opener)
  {
    ExecKeeps(ops);
    var s := Exec(ops).server;
    var only := PlacedInOneRole(ops, p);
    assert Informed(s, p);
    TrackIffAlternates(s.Queue(p), !HasCreated(s.Queue(p)));
  }
}
