/** The client's handshake reducer: what to do for each signaling event. */
module Reconnect {
  import opened Prelude

  datatype Status = WaitingForPeer | PeerLeft | RoomFull | RoomNotFound

  datatype Event =
    | Open
    | Created(room: string)
    | PeerJoined
    | Offer(sdp: string)
    | Answer(sdp: string)
    | Ice
    | PeerLeft
    | RoomFull
    | RoomNotFound

  datatype Action =
    | SendCreate
    | SendJoin(room: string)
    | SendReclaim(room: string)
    | BuildPcAndOffer
    | BuildPcAndAnswer(sdp: string)
    | SetRemoteAnswer(sdp: string)
    | AddIce
    | TeardownPc
    | SetStatus(status: Status)
    | PersistRoom(room: string)

  datatype SessionState = SessionState(
    roomInHash: Option<string>,
    owns: Option<string>,
    reclaimTried: bool,
    hasPc: bool)
  {
    predicate IsOwner() {
      roomInHash.Some? && roomInHash == owns
    }

    function Step(ev: Event): (SessionState, seq<Action>) {
      match ev
      case Open =>
        (this, if roomInHash.Some? then [SendJoin(roomInHash.value)] else [SendCreate])
      case PeerJoined => (this.(hasPc := true), [BuildPcAndOffer])
      case Offer(sdp) => (this.(hasPc := true), [BuildPcAndAnswer(sdp)])
      case Answer(sdp) => (this, if hasPc then [SetRemoteAnswer(sdp)] else [])
      case Ice => (this, if hasPc then [AddIce] else [])
      case PeerLeft => (this.(hasPc := false), [TeardownPc, SetStatus(Status.PeerLeft)])
      case Created(room) =>
        (this.(owns := Some(room), roomInHash := Some(room)), [PersistRoom(room), SetStatus(WaitingForPeer)])
      case RoomFull => (this, [SetStatus(Status.RoomFull)])
      case RoomNotFound =>
        if IsOwner() && !reclaimTried
        then (this.(reclaimTried := true), [SendReclaim(roomInHash.value)])
        else (this, [SetStatus(Status.RoomNotFound)])
    }

    /** The reset on an unexpected socket drop. */
    function Reset(): SessionState {
      this.(hasPc := false, reclaimTried := false)
    }
  }

  class Session {
    var roomInHash: Option<string>
    var owns: Option<string>
    var reclaimTried: bool
    var hasPc: bool

    function View(): SessionState
      reads this
    {
      SessionState(roomInHash, owns, reclaimTried, hasPc)
    }

    constructor (roomInHash: Option<string>, owns: Option<string>)
      ensures View() == SessionState(roomInHash, owns, false, false)
    {
      this.roomInHash, this.owns, reclaimTried, hasPc := roomInHash, owns, false, false;
    }

    method Step(ev: Event) returns (actions: seq<Action>)
      modifies this
      ensures (View(), actions) == old(View()).Step(ev)
    {
      actions := [];
      match ev {
        case Open =>
          match roomInHash {
            case Some(room) => actions := [SendJoin(room)];
            case None => actions := [SendCreate];
          }
        case PeerJoined =>
          hasPc := true;
          actions := [BuildPcAndOffer];
        case Offer(sdp) =>
          hasPc := true;
          actions := [BuildPcAndAnswer(sdp)];
        case Answer(sdp) =>
          if hasPc {
            actions := [SetRemoteAnswer(sdp)];
          }
        case Ice =>
          if hasPc {
            actions := [AddIce];
          }
        case PeerLeft =>
          hasPc := false;
          actions := [TeardownPc, SetStatus(Status.PeerLeft)];
        case Created(room) =>
          owns := Some(room);
          roomInHash := Some(room);
          actions := [PersistRoom(room), SetStatus(WaitingForPeer)];
        case RoomFull =>
          actions := [SetStatus(Status.RoomFull)];
        case RoomNotFound =>
          var isOwner := roomInHash.Some? && owns.Some? && roomInHash.value == owns.value;
          if isOwner && !reclaimTried {
            reclaimTried := true;
            actions := [SendReclaim(roomInHash.value)];
          } else {
            actions := [SetStatus(Status.RoomNotFound)];
          }
      }
    }

    method Reset()
      modifies this
      ensures View() == old(View()).Reset()
    {
      hasPc := false;
      reclaimTried := false;
    }
  }

  // ----- traces -----

  datatype Input = Ev(event: Event) | Disconnect

  function After(s: SessionState, input: Input): SessionState {
    match input
    case Ev(event) => s.Step(event).0
    case Disconnect => s.Reset()
  }

  function Emitted(s: SessionState, input: Input): seq<Action> {
    match input
    case Ev(event) => s.Step(event).1
    case Disconnect => []
  }

  function Run(s: SessionState, inputs: seq<Input>): SessionState {
    if inputs == [] then s else After(Run(s, inputs[..|inputs| - 1]), inputs[|inputs| - 1])
  }

  /** A page starts with whatever the URL and the tab's storage hold, and with no connection. */
  function Start(roomInHash: Option<string>, owns: Option<string>): SessionState {
    SessionState(roomInHash, owns, false, false)
  }

  /** A connection was built, and neither a teardown nor a disconnect came after it. */
  predicate BuiltSince(s: SessionState, inputs: seq<Input>) {
    if inputs == [] then false
    else
      var front, last := inputs[..|inputs| - 1], inputs[|inputs| - 1];
      var actions := Emitted(Run(s, front), last);
      if BuildPcAndOffer in actions || (exists i :: 0 <= i < |actions| && actions[i].BuildPcAndAnswer?) then true
      else if TeardownPc in actions || last.Disconnect? then false
      else BuiltSince(s, front)
  }

  /** `hasPc` is exactly "built since the last teardown or disconnect". */
  lemma {:induction false} HasPcIffBuilt(roomInHash: Option<string>, owns: Option<string>, inputs: seq<Input>)
    ensures var s := Start(roomInHash, owns); Run(s, inputs).hasPc <==> BuiltSince(s, inputs)
    decreases |inputs|
  {
    if inputs == [] {
    } else {
      var s, front, last := Start(roomInHash, owns), inputs[..|inputs| - 1], inputs[|inputs| - 1];
      HasPcIffBuilt(roomInHash, owns, front);
      var actions := Emitted(Run(s, front), last);
      if last.Ev? && last.event.Offer? {
        assert actions[0].BuildPcAndAnswer?;
      }
    }
  }

  predicate ActsOnPc(action: Action) {
    action.SetRemoteAnswer? || action.AddIce?
  }

  lemma StepActsOnPc(s: SessionState, ev: Event, i: nat)
    requires i < |s.Step(ev).1| && ActsOnPc(s.Step(ev).1[i])
    ensures s.hasPc && (ev.Answer? || ev.Ice?)
  {
  }

  /** Only a standing connection is given an answer or a candidate; a stray one is dropped. */
  lemma AnswersNeedAConnection(roomInHash: Option<string>, owns: Option<string>, inputs: seq<Input>, ev: Event)
    ensures var s := Start(roomInHash, owns);
            var actions := Emitted(Run(s, inputs), Ev(ev));
            (exists i :: 0 <= i < |actions| && ActsOnPc(actions[i]))
            <==> (ev.Answer? || ev.Ice?) && BuiltSince(s, inputs)
  {
    HasPcIffBuilt(roomInHash, owns, inputs);
    var s := Run(Start(roomInHash, owns), inputs);
    var actions := s.Step(ev).1;
    if i :| 0 <= i < |actions| && ActsOnPc(actions[i]) {
      StepActsOnPc(s, ev, i);
    }
    if (ev.Answer? || ev.Ice?) && s.hasPc {
      assert ActsOnPc(actions[0]);
    }
  }

  function CountReclaims(actions: seq<Action>): nat {
    if actions == [] then 0
    else (if actions[0].SendReclaim? then 1 else 0) + CountReclaims(actions[1..])
  }

  /** Reclaims sent since the last disconnect. */
  function ReclaimsSince(s: SessionState, inputs: seq<Input>): nat {
    if inputs == [] then 0
    else
      var front, last := inputs[..|inputs| - 1], inputs[|inputs| - 1];
      if last.Disconnect? then 0 else ReclaimsSince(s, front) + CountReclaims(Emitted(Run(s, front), last))
  }

  lemma StepReclaims(s: SessionState, ev: Event)
    ensures CountReclaims(s.Step(ev).1)
            == if ev.RoomNotFound? && s.IsOwner() && !s.reclaimTried then 1 else 0
  {
    var actions := s.Step(ev).1;
    if |actions| == 1 {
      assert actions[1..] == [];
    } else if |actions| == 2 {
      assert actions[1..][1..] == [];
      assert CountReclaims(actions[1..]) == 0;
    }
  }

  /** Between two disconnects at most one reclaim is sent, and only once it has been tried. */
  lemma {:induction false} AtMostOneReclaim(roomInHash: Option<string>, owns: Option<string>, inputs: seq<Input>)
    ensures var s := Start(roomInHash, owns);
            ReclaimsSince(s, inputs) == if Run(s, inputs).reclaimTried then 1 else 0
    decreases |inputs|
  {
    if inputs == [] {
    } else {
      var s, front, last := Start(roomInHash, owns), inputs[..|inputs| - 1], inputs[|inputs| - 1];
      AtMostOneReclaim(roomInHash, owns, front);
      if last.Ev? {
        StepReclaims(Run(s, front), last.event);
      }
    }
  }

  /** A reclaim always names the room that is both in the URL and owned by this tab. */
  lemma ReclaimsTheOwnedRoom(s: SessionState, input: Input, room: string)
    requires SendReclaim(room) in Emitted(s, input)
    ensures s.roomInHash == Some(room) && s.owns == Some(room) && !s.reclaimTried
  {
  }

  /** From the first `Created` on, hash and ownership name the same room: the one created last. */
  lemma {:induction false} HashMatchesOwnership(s: SessionState, inputs: seq<Input>, i: nat)
    requires i < |inputs| && inputs[i].Ev? && inputs[i].event.Created?
    ensures Run(s, inputs).IsOwner()
    ensures exists j :: i <= j < |inputs| && inputs[j].Ev? && inputs[j].event.Created?
              && Run(s, inputs).owns == Some(inputs[j].event.room)
    decreases |inputs|
  {
    var n := |inputs| - 1;
    if inputs[n].Ev? && inputs[n].event.Created? {
      assert Run(s, inputs).owns == Some(inputs[n].event.room);
    } else {
      HashMatchesOwnership(s, inputs[..n], i);
      var j :| i <= j < n && inputs[..n][j].Ev? && inputs[..n][j].event.Created?
               && Run(s, inputs[..n]).owns == Some(inputs[..n][j].event.room);
      assert inputs[j] == inputs[..n][j];
    }
  }
}
