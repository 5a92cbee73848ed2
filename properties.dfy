/** Consequences of the handlers' effects for the situations signaling is
    about: the second joiner completes a pair, a relayed message reaches exactly the peer,
    leaving is not idempotent, and a client whose queue was closed by backpressure cannot
    leave without a panic. Each lemma takes an effect predicate of Signaling or Pairing as
    its hypothesis, stated over the snapshot the handler started from. */
module Properties {
  import opened Dto
  import opened Database
  import opened Repository
  import opened Pairing
  import opened Signaling

  /** A first joiner finds nobody waiting with a free place: it opens a room under the
      fresh id, is its only member, waits in it, and gets the ready notice alone. */
  lemma FirstJoinWaits(repo: RoomRepository, client: Client, freshId: string, room: Room, lobby: Lobby,
                       status: Status, own: Channel, channels: map<string, Channel>)
    requires !Joinable(lobby)
    requires Placed(repo, client, freshId, room, lobby)
    requires Greeted(client, room, status, own, channels)
    ensures room.id == freshId && repo.waitingRoom == room && repo.rooms[freshId] == room
    ensures room.clients == map[client.id := client] && !room.IsFull()
    ensures (status, client.send) == Enqueue(own, ReadyMessage(freshId))
  {
  }

  /** The second joiner completes the pair. The waiting room held one peer under another
      id; the joiner is added to it, the slot is cleared, the joiner is sent the ready
      notice and the peer's join notice, and then the peer is sent the joiner's; the
      first panic ends the sequence. */
  lemma SecondJoinPairs(repo: RoomRepository, client: Client, freshId: string, room: Room, lobby: Lobby,
                        status: Status, own: Channel, channels: map<string, Channel>, peer: Client)
    requires Joinable(lobby) && lobby.waitingMembers == map[peer.id := peer] && peer.id != client.id
    requires peer.id in channels
    requires Placed(repo, client, freshId, room, lobby)
    requires Greeted(client, room, status, own, channels)
    ensures room == lobby.waiting && room.IsFull() && repo.waitingRoom == null
    ensures room.clients == map[peer.id := peer, client.id := client]
    ensures var (sent, mine) := EnqueueAll(own, [ReadyMessage(room.id), PeerJoinMessage(peer.id, peer.username, room.id)]);
      && client.send == mine
      && if sent != Done then status == sent && peer.send == channels[peer.id]
         else (status, peer.send) == Enqueue(channels[peer.id], PeerJoinMessage(client.id, client.username, room.id))
  {
    assert room.clients == map[peer.id := peer, client.id := client];
    assert room.clients.Keys == {peer.id, client.id};
    assert |room.clients| == 2;
    assert peer.id in room.clients && peer.id != client.id;
    var k :| k in room.clients && k != client.id && Welcomed(client, room, k, status, own, channels);
    assert k == peer.id;
    var msgs := [ReadyMessage(room.id), PeerJoinMessage(peer.id, peer.username, room.id)];
    var (ready, afterReady) := Enqueue(own, msgs[0]);
    if ready == Done {
      assert msgs[1..] == [msgs[1]];
      assert EnqueueAll(afterReady, msgs[1..]) == Enqueue(afterReady, msgs[1]);
    }
  }

  /** With room in every queue, the pairing sends all go through: the joiner's queue gets
      the ready notice and then the peer's join notice, and the peer's queue gets the
      joiner's join notice. */
  lemma SecondJoinDelivers(repo: RoomRepository, client: Client, freshId: string, room: Room, lobby: Lobby,
                           status: Status, own: Channel, channels: map<string, Channel>, peer: Client)
    requires Joinable(lobby) && lobby.waitingMembers == map[peer.id := peer] && peer.id != client.id
    requires peer.id in channels
    requires !own.closed && |own.buffer| + 2 <= SendCapacity
    requires !channels[peer.id].closed && |channels[peer.id].buffer| < SendCapacity
    requires Placed(repo, client, freshId, room, lobby)
    requires Greeted(client, room, status, own, channels)
    ensures status == Done
    ensures client.send == Channel(own.buffer + [ReadyMessage(room.id), PeerJoinMessage(peer.id, peer.username, room.id)], false)
    ensures peer.send == Channel(channels[peer.id].buffer + [PeerJoinMessage(client.id, client.username, room.id)], false)
  {
    SecondJoinPairs(repo, client, freshId, room, lobby, status, own, channels, peer);
    var msgs := [ReadyMessage(room.id), PeerJoinMessage(peer.id, peer.username, room.id)];
    Backpressure(own, msgs);
  }

  /** In a room of at most two that the sender belongs to, a relayed message reaches the
      one other member, whichever key the map iteration visits first: its queue gets the
      message addressed to it, with the sender, type and payload unchanged, and no other
      member's queue changes. */
  lemma RelayReachesThePeer(client: Client, msg: Message, status: Status,
                            members: map<string, Client>, channels: map<string, Channel>, peer: Client)
    requires |members| <= MaxClients && KeysAreIds(members) && client.id in members
    requires IsOther(members, client.id, peer)
    requires Relayed(client, msg, status, members, channels)
    ensures peer.id in members && members[peer.id] == peer && peer.id in channels
    ensures (status, peer.send) == Enqueue(channels[peer.id], msg.(to := peer.id))
    ensures var sent := msg.(to := peer.id);
      sent.msgType == msg.msgType && sent.from == msg.from && sent.payload == msg.payload
    ensures forall j :: j in members && j != peer.id ==> Untouched(members, channels, j)
  {
    var k :| k in members && k != client.id && Delivered(members, channels, k, msg.(to := members[k].id), status);
    assert IsOther(members, client.id, members[k]);
    OtherIsUnique(members, client.id, members[k], peer);
  }

  /** Leaving is not idempotent. A leave that went through, from a registered room that had
      another member, leaves the client stamped with the same room id, and that room is
      still registered with the remaining members, so the next leave (a second leave
      message, or the disconnect that follows it) finds that member again and sends it
      another leave notice. */
  lemma LeaveKeepsSeat(repo: RoomRepository, client: Client, seat: Seat, channels: map<string, Channel>)
    requires SeatRoom(seat) != {}
    requires HasOther(seat.members, client.id)
    requires Left(repo, client, Done, seat, channels)
    ensures client.roomId == seat.roomId
    ensures RoomOf(repo, client) == SeatRoom(seat)
    ensures MembersOf(repo, client) == seat.members - {client.id}
    ensures HasOther(MembersOf(repo, client), client.id)
  {
    var k :| k in seat.members && k != client.id;
    assert k in seat.rooms[seat.roomId].clients;
  }

  /** A client whose send queue was already closed (by the backpressure rule) cannot leave
      a registered room it is a member of without a panic: either the leave notice to the
      peer panics, or RemoveClient closes the queue a second time. Either way the registry
      is left as it was. */
  lemma ClosedQueueLeavePanics(repo: RoomRepository, client: Client, status: Status, seat: Seat,
                               channels: map<string, Channel>)
    requires SeatRoom(seat) != {} && client.id in seat.members
    requires seat.departing.Some? && seat.departing.value.closed
    requires Left(repo, client, status, seat, channels)
    ensures status.Panicked?
    ensures repo.rooms == seat.rooms && repo.waitingRoom == seat.waiting
  {
  }

  /** A client that joins again while it is the one waiting member is added to its own
      waiting room under the same key: the slot is cleared, but the room keeps its single
      member and stays registered, so no later joiner is ever placed in it. */
  lemma RejoinOrphansWaitingRoom(repo: RoomRepository, client: Client, freshId: string, room: Room, lobby: Lobby)
    requires lobby.waiting != null && lobby.waitingMembers == map[client.id := client]
    requires lobby.waiting.id in lobby.rooms && lobby.rooms[lobby.waiting.id] == lobby.waiting
    requires Placed(repo, client, freshId, room, lobby)
    ensures room == lobby.waiting && repo.waitingRoom == null
    ensures room.clients == map[client.id := client] && !room.IsFull()
    ensures room.id in repo.rooms && repo.rooms[room.id] == room
  {
  }
}
