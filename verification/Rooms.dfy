/** The room registry: rooms of at most two peers, indexed both ways. */
module Rooms {
  import opened Prelude

  type PeerId = nat

  datatype Room = Room(peers: seq<PeerId>, lastActivityMs: nat)

  datatype JoinOutcome = Created(room: string) | Joined | Full | NotFound

  function Retain(peers: seq<PeerId>, gone: PeerId): seq<PeerId> {
    if peers == [] then []
    else (if peers[0] == gone then [] else [peers[0]]) + Retain(peers[1..], gone)
  }

  function FirstOther(peers: seq<PeerId>, peer: PeerId): Option<PeerId> {
    if peers == [] then None
    else if peers[0] != peer then Some(peers[0])
    else FirstOther(peers[1..], peer)
  }

  datatype Registry = Registry(rooms: map<string, Room>, peerRoom: map<PeerId, string>)
  {
    function Create(peer: PeerId, room: string, now: nat): Registry {
      Registry(rooms[room := Room([peer], now)], peerRoom[peer := room])
    }

    function JoinResult(room: string): JoinOutcome {
      if room !in rooms then NotFound
      else if |rooms[room].peers| >= 2 then Full
      else Joined
    }

    function Join(peer: PeerId, room: string, now: nat): Registry {
      if JoinResult(room) == Joined
      then Registry(rooms[room := Room(rooms[room].peers + [peer], now)], peerRoom[peer := room])
      else this
    }

    predicate Contains(room: string) {
      room in rooms
    }

    function Partner(peer: PeerId): Option<PeerId> {
      if peer in peerRoom && peerRoom[peer] in rooms
      then FirstOther(rooms[peerRoom[peer]].peers, peer) else None
    }

    /** Whom the removal of `peer` leaves behind in its room. */
    function LeftBehind(peer: PeerId): Option<PeerId> {
      if peer in peerRoom && peerRoom[peer] in rooms then
        var rest := Retain(rooms[peerRoom[peer]].peers, peer);
        if rest == [] then None else Some(rest[0])
      else None
    }

    function Remove(peer: PeerId): Registry {
      if peer !in peerRoom then this
      else if peerRoom[peer] !in rooms then this.(peerRoom := peerRoom - {peer})
      else
        var id := peerRoom[peer];
        var rest := Retain(rooms[id].peers, peer);
        Registry(if rest == [] then rooms - {id} else rooms[id := rooms[id].(peers := rest)], peerRoom - {peer})
    }
  }

  class RoomRegistry {
    var rooms: map<string, Room>
    var peerRoom: map<PeerId, string>

    function View(): Registry
      reads this
    {
      Registry(rooms, peerRoom)
    }

    constructor ()
      ensures View() == Registry(map[], map[])
    {
      rooms, peerRoom := map[], map[];
    }

    method Create(peer: PeerId, room: string, now: nat) returns (outcome: JoinOutcome)
      modifies this
      ensures View() == old(View()).Create(peer, room, now) && outcome == Created(room)
    {
      rooms := rooms[room := Room([peer], now)];
      peerRoom := peerRoom[peer := room];
      outcome := Created(room);
    }

    method Join(peer: PeerId, room: string, now: nat) returns (outcome: JoinOutcome)
      modifies this
      ensures View() == old(View()).Join(peer, room, now) && outcome == old(View()).JoinResult(room)
    {
      if room !in rooms {
        return NotFound;
      }
      if |rooms[room].peers| >= 2 {
        return Full;
      }
      rooms := rooms[room := Room(rooms[room].peers + [peer], now)];
      peerRoom := peerRoom[peer := room];
      outcome := Joined;
    }

    method Contains(room: string) returns (live: bool)
      ensures live == View().Contains(room)
    {
      live := room in rooms;
    }

    method Partner(peer: PeerId) returns (other: Option<PeerId>)
      ensures other == View().Partner(peer)
    {
      if peer !in peerRoom || peerRoom[peer] !in rooms {
        return None;
      }
      var peers, i := rooms[peerRoom[peer]].peers, 0;
      while i < |peers|
        invariant i <= |peers|
        invariant FirstOther(peers, peer) == FirstOther(peers[i..], peer)
      {
        if peers[i] != peer {
          return Some(peers[i]);
        }
        i := i + 1;
      }
      other := None;
    }

    method Remove(peer: PeerId) returns (partner: Option<PeerId>)
      modifies this
      ensures View() == old(View()).Remove(peer) && partner == old(View()).LeftBehind(peer)
    {
      if peer !in peerRoom {
        return None;
      }
      var id := peerRoom[peer];
      peerRoom := peerRoom - {peer};
      if id !in rooms {
        return None;
      }
      var rest, i := [], 0;
      while i < |rooms[id].peers|
        invariant i <= |rooms[id].peers| && rooms == old(rooms)
        invariant rest + Retain(rooms[id].peers[i..], peer) == Retain(rooms[id].peers, peer)
        invariant peerRoom == old(peerRoom) - {peer}
      {
        if rooms[id].peers[i] != peer {
          rest := rest + [rooms[id].peers[i]];
        }
        i := i + 1;
      }
      assert rest == Retain(rooms[id].peers, peer);
      rooms := rooms[id := rooms[id].(peers := rest)];
      partner := if rest == [] then None else Some(rest[0]);
      if rest == [] {
        rooms := rooms - {id};
        assert rooms == old(rooms) - {id};
      }
    }
  }

  // ----- invariants -----

  /** Every room has one or two entries. Nothing is asked of the callers. */
  ghost predicate Occupied(reg: Registry) {
    forall r :: r in reg.rooms ==> 1 <= |reg.rooms[r].peers| <= 2
  }

  /** The two indexes say the same, and a room's entries are one or two different peers. */
  ghost predicate Agree(reg: Registry) {
    && Occupied(reg)
    && (forall p :: p in reg.peerRoom ==> reg.peerRoom[p] in reg.rooms && p in reg.rooms[reg.peerRoom[p]].peers)
    && (forall r, p :: r in reg.rooms && p in reg.rooms[r].peers ==> p in reg.peerRoom && reg.peerRoom[p] == r)
    && (forall r :: r in reg.rooms ==> Distinct(reg.rooms[r].peers))
  }

  lemma {:induction false} RetainIs(peers: seq<PeerId>, gone: PeerId)
    ensures forall p :: p in Retain(peers, gone) <==> p in peers && p != gone
    ensures |Retain(peers, gone)| <= |peers|
    ensures Distinct(peers) ==> Distinct(Retain(peers, gone))
  {
    if peers == [] {
    } else {
      RetainIs(peers[1..], gone);
      assert peers == [peers[0]] + peers[1..];
      if Distinct(peers) {
        assert peers[0] !in peers[1..];
      }
    }
  }

  lemma {:induction false} FirstOtherIs(peers: seq<PeerId>, peer: PeerId)
    ensures match FirstOther(peers, peer)
            case None => forall p :: p in peers ==> p == peer
            case Some(q) => q in peers && q != peer
    ensures FirstOther(peers, peer) == (if Retain(peers, peer) == [] then None else Some(Retain(peers, peer)[0]))
  {
    if peers == [] {
    } else {
      FirstOtherIs(peers[1..], peer);
      assert peers == [peers[0]] + peers[1..];
    }
  }

  lemma OccupiedAlways(reg: Registry, peer: PeerId, room: string, now: nat)
    requires Occupied(reg)
    ensures Occupied(reg.Create(peer, room, now))
    ensures Occupied(reg.Join(peer, room, now))
    ensures Occupied(reg.Remove(peer))
  {
    if peer in reg.peerRoom && reg.peerRoom[peer] in reg.rooms {
      RetainIs(reg.rooms[reg.peerRoom[peer]].peers, peer);
    }
  }

  lemma CreateKeeps(reg: Registry, peer: PeerId, room: string, now: nat)
    requires Agree(reg)
    requires room !in reg.rooms ==> peer !in reg.peerRoom
    requires room in reg.rooms ==> reg.rooms[room].peers == [peer]
    ensures Agree(reg.Create(peer, room, now))
  {
    var after := reg.Create(peer, room, now);
    if room in reg.rooms {
      assert peer in reg.rooms[room].peers;
    }
    forall p | p in after.peerRoom
      ensures after.peerRoom[p] in after.rooms && p in after.rooms[after.peerRoom[p]].peers
    {
      if p != peer && reg.peerRoom[p] == room {
        assert p in reg.rooms[room].peers;
      }
    }
    forall r, p | r in after.rooms && p in after.rooms[r].peers
      ensures p in after.peerRoom && after.peerRoom[p] == r
    {
      if r != room {
        assert reg.peerRoom[p] == r;
      }
    }
  }

  /** Create keeps the indexes in agreement exactly for a new room and an unplaced peer, or for a lone owner. */
  lemma CreateAgreesIff(reg: Registry, peer: PeerId, room: string, now: nat)
    requires Agree(reg)
    ensures Agree(reg.Create(peer, room, now))
            <==> if room in reg.rooms then reg.rooms[room].peers == [peer] else peer !in reg.peerRoom
  {
    var after := reg.Create(peer, room, now);
    assert after.rooms[room].peers == [peer];
    if room in reg.rooms && reg.rooms[room].peers != [peer] {
      var peers := reg.rooms[room].peers;
      if peers[0] == peer {
        assert peers == [peer, peers[1]];
        assert peers[0] != peers[1] && peers[1] in peers;
        assert after.peerRoom[peers[1]] == room && peers[1] !in after.rooms[room].peers;
      } else {
        assert peers[0] in peers;
        assert after.peerRoom[peers[0]] == room && peers[0] !in after.rooms[room].peers;
      }
    } else if room !in reg.rooms && peer in reg.peerRoom {
      var r := reg.peerRoom[peer];
      assert peer in after.rooms[r].peers && after.peerRoom[peer] != r;
    } else {
      CreateKeeps(reg, peer, room, now);
    }
  }

  lemma JoinKeeps(reg: Registry, peer: PeerId, room: string, now: nat)
    requires Agree(reg) && (reg.JoinResult(room) == Joined ==> peer !in reg.peerRoom)
    ensures Agree(reg.Join(peer, room, now))
  {
    if reg.JoinResult(room) == Joined {
      assert peer !in reg.rooms[room].peers;
    }
  }

  /** A join keeps the indexes in agreement exactly when it fails or its peer is not placed yet. */
  lemma JoinAgreesIff(reg: Registry, peer: PeerId, room: string, now: nat)
    requires Agree(reg)
    ensures Agree(reg.Join(peer, room, now)) <==> reg.JoinResult(room) != Joined || peer !in reg.peerRoom
  {
    var after := reg.Join(peer, room, now);
    if reg.JoinResult(room) == Joined && peer in reg.peerRoom {
      var r := reg.peerRoom[peer];
      var peers := after.rooms[room].peers;
      if r == room {
        assert reg.rooms[room].peers == [peer];
        assert peers[0] == peers[1];
      } else {
        assert peer in after.rooms[r].peers && after.peerRoom[peer] != r;
      }
    } else {
      JoinKeeps(reg, peer, room, now);
    }
  }

  lemma RemoveKeepsPeers(reg: Registry, peer: PeerId)
    requires Agree(reg) && peer in reg.peerRoom
    ensures var after := reg.Remove(peer);
            forall p :: p in after.peerRoom ==>
              after.peerRoom[p] in after.rooms && p in after.rooms[after.peerRoom[p]].peers
  {
    var id, after := reg.peerRoom[peer], reg.Remove(peer);
    RetainIs(reg.rooms[id].peers, peer);
    forall p | p in after.peerRoom
      ensures after.peerRoom[p] in after.rooms && p in after.rooms[after.peerRoom[p]].peers
    {
      if reg.peerRoom[p] == id {
        assert p in Retain(reg.rooms[id].peers, peer);
      }
    }
  }

  lemma RemoveKeepsRoom(reg: Registry, peer: PeerId, r: string)
    requires Agree(reg) && peer in reg.peerRoom && r in reg.Remove(peer).rooms
    ensures r in reg.rooms
    ensures var peers := reg.Remove(peer).rooms[r].peers;
            && 1 <= |peers| <= 2
            && Distinct(peers)
            && peer !in peers
            && forall p :: p in peers ==> p in reg.rooms[r].peers
  {
    RetainIs(reg.rooms[reg.peerRoom[peer]].peers, peer);
  }

  lemma RemoveKeepsRooms(reg: Registry, peer: PeerId)
    requires Agree(reg) && peer in reg.peerRoom
    ensures var after := reg.Remove(peer);
            && Occupied(after)
            && (forall r, p :: r in after.rooms && p in after.rooms[r].peers ==>
                  p != peer && p in after.peerRoom && after.peerRoom[p] == r)
            && (forall r :: r in after.rooms ==> Distinct(after.rooms[r].peers))
  {
    forall r | r in reg.Remove(peer).rooms
      ensures r in reg.rooms && 1 <= |reg.Remove(peer).rooms[r].peers| <= 2 && Distinct(reg.Remove(peer).rooms[r].peers)
      ensures forall p :: p in reg.Remove(peer).rooms[r].peers ==> p != peer && p in reg.rooms[r].peers
    {
      RemoveKeepsRoom(reg, peer, r);
    }
    assert reg.Remove(peer).peerRoom == reg.peerRoom - {peer};
  }

  lemma RemoveKeeps(reg: Registry, peer: PeerId)
    requires Agree(reg)
    ensures Agree(reg.Remove(peer))
    ensures peer !in reg.Remove(peer).peerRoom
    ensures forall r :: r in reg.Remove(peer).rooms ==> peer !in reg.Remove(peer).rooms[r].peers
  {
    if peer in reg.peerRoom {
      RemoveKeepsPeers(reg, peer);
      RemoveKeepsRooms(reg, peer);
    }
  }

  /** Who is in a room, by the peer index. */
  ghost predicate LivesIn(reg: Registry, p: PeerId, room: string) {
    p in reg.peerRoom && reg.peerRoom[p] == room
  }

  lemma LivesInIff(reg: Registry, p: PeerId, room: string)
    requires Agree(reg)
    ensures LivesIn(reg, p, room) <==> room in reg.rooms && p in reg.rooms[room].peers
  {
  }

  lemma LonePeer(reg: Registry, room: string)
    requires Agree(reg) && room in reg.rooms && |reg.rooms[room].peers| == 1
    ensures var p := reg.rooms[room].peers[0]; LivesIn(reg, p, room) && forall q :: LivesIn(reg, q, room) ==> q == p
  {
    LivesInIff(reg, reg.rooms[room].peers[0], room);
    forall q | LivesIn(reg, q, room) ensures q == reg.rooms[room].peers[0] {
      LivesInIff(reg, q, room);
    }
  }

  lemma TwoPeers(reg: Registry, room: string)
    requires Agree(reg) && room in reg.rooms && |reg.rooms[room].peers| == 2
    ensures var peers := reg.rooms[room].peers;
            LivesIn(reg, peers[0], room) && LivesIn(reg, peers[1], room) && peers[0] != peers[1]
  {
    LivesInIff(reg, reg.rooms[room].peers[0], room);
    LivesInIff(reg, reg.rooms[room].peers[1], room);
  }

  ghost predicate Empty(reg: Registry, room: string) {
    forall p :: !LivesIn(reg, p, room)
  }

  ghost predicate Single(reg: Registry, room: string) {
    exists p :: LivesIn(reg, p, room) && forall q :: LivesIn(reg, q, room) ==> q == p
  }

  ghost predicate Shared(reg: Registry, room: string) {
    exists p, q :: LivesIn(reg, p, room) && LivesIn(reg, q, room) && p != q
  }

  /** A join is admitted to a room with exactly one peer, finds a room with more full, and none if nobody is there. */
  lemma AdmitsIffAlone(reg: Registry, room: string)
    requires Agree(reg)
    ensures reg.JoinResult(room) == NotFound <==> Empty(reg, room)
    ensures reg.JoinResult(room) == Joined <==> Single(reg, room)
    ensures reg.JoinResult(room) == Full <==> Shared(reg, room)
  {
    if room in reg.rooms {
      if |reg.rooms[room].peers| == 2 {
        TwoPeers(reg, room);
      } else {
        LonePeer(reg, room);
      }
    }
  }

  // ----- partners -----

  /** The partner of a placed peer is the other entry of its room. */
  lemma PartnerIs(reg: Registry, p: PeerId, q: PeerId)
    requires Agree(reg)
    ensures reg.Partner(p) == Some(q)
            <==> p != q && p in reg.peerRoom && q in reg.peerRoom && reg.peerRoom[p] == reg.peerRoom[q]
  {
    if p in reg.peerRoom {
      var peers := reg.rooms[reg.peerRoom[p]].peers;
      FirstOtherIs(peers, p);
      if q in reg.peerRoom && reg.peerRoom[p] == reg.peerRoom[q] {
        assert p in peers && q in peers;
      }
    }
  }

  /** `Partner` is a symmetric and irreflexive partial map. */
  lemma PartnerSymmetric(reg: Registry, p: PeerId, q: PeerId)
    requires Agree(reg)
    ensures reg.Partner(p) == Some(q) <==> reg.Partner(q) == Some(p)
    ensures reg.Partner(p) != Some(p)
  {
    PartnerIs(reg, p, q);
    PartnerIs(reg, q, p);
    PartnerIs(reg, p, p);
  }

  /** Removal reports exactly the former partner, and only that peer's partner changes. */
  lemma RemovePartners(reg: Registry, peer: PeerId, q: PeerId)
    requires Agree(reg)
    ensures reg.LeftBehind(peer) == reg.Partner(peer)
    ensures reg.Remove(peer).Partner(peer) == None
    ensures q != peer ==>
              reg.Remove(peer).Partner(q) == if reg.Partner(q) == Some(peer) then None else reg.Partner(q)
  {
    if peer in reg.peerRoom {
      FirstOtherIs(reg.rooms[reg.peerRoom[peer]].peers, peer);
    }
    RemoveKeeps(reg, peer);
    PartnerIs(reg, q, peer);
    match reg.Remove(peer).Partner(q)
    case Some(x) => PartnerIs(reg.Remove(peer), q, x); PartnerIs(reg, q, x);
    case None =>
      match reg.Partner(q)
      case Some(x) => PartnerIs(reg, q, x); PartnerIs(reg.Remove(peer), q, x);
      case None =>
  }

  /** A successful join pairs the newcomer with the incumbent, and touches no other pair. */
  lemma JoinPartners(reg: Registry, peer: PeerId, room: string, now: nat, q: PeerId)
    requires Agree(reg) && peer !in reg.peerRoom && reg.JoinResult(room) == Joined
    ensures var after, incumbent := reg.Join(peer, room, now), reg.rooms[room].peers[0];
            && incumbent != peer && reg.Partner(incumbent) == None
            && after.Partner(peer) == Some(incumbent) && after.Partner(incumbent) == Some(peer)
            && (q != peer && q != incumbent ==> after.Partner(q) == reg.Partner(q))
  {
    var after, incumbent := reg.Join(peer, room, now), reg.rooms[room].peers[0];
    JoinKeeps(reg, peer, room, now);
    assert incumbent in reg.rooms[room].peers;
    PartnerIs(after, peer, incumbent);
    PartnerIs(after, incumbent, peer);
    assert reg.rooms[room].peers == [incumbent];
    FirstOtherIs([incumbent], incumbent);
    if q != peer && q != incumbent {
      match after.Partner(q)
      case Some(x) =>
        PartnerIs(after, q, x); PartnerIs(reg, q, x);
      case None =>
        match reg.Partner(q)
        case Some(x) => PartnerIs(reg, q, x); PartnerIs(after, q, x);
        case None =>
    }
  }

  /** A new room with a new peer leaves every pair as it was. */
  lemma CreatePartners(reg: Registry, peer: PeerId, room: string, now: nat, q: PeerId)
    requires Agree(reg) && peer !in reg.peerRoom && room !in reg.rooms
    ensures reg.Create(peer, room, now).Partner(peer) == None
    ensures q != peer ==> reg.Create(peer, room, now).Partner(q) == reg.Partner(q)
  {
    FirstOtherIs([peer], peer);
  }
}
