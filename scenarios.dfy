/** Runs of the dispatcher over several messages, stated end to end: what the handlers'
    effects add up to when they are composed. */
module Scenarios {
  import opened Dto
  import opened Database
  import opened Repository
  import opened Pairing
  import opened Signaling
  import opened Properties

  /** Two clients join an empty relay one after the other. The first opens a room under
      its fresh id and waits; the second completes the pair and clears the waiting slot.
      With both queues empty to begin with, every send goes through: each client hears
      that the room is ready and then who its peer is. */
  method TwoJoinsPair(service: SignalingService, a: Client, b: Client, joinA: Message, joinB: Message,
                      idA: string, idB: string)
    returns (outcomeA: Outcome, outcomeB: Outcome)
    modifies service.roomService.repo`rooms, service.roomService.repo`waitingRoom
    modifies a`roomId, a`username, a`send, b`roomId, b`username, b`send
    requires service.Valid()
    requires service.roomService.repo.rooms == map[] && service.roomService.repo.waitingRoom == null
    requires a != b && a.id != b.id
    requires a.send == Channel([], false) && b.send == Channel([], false)
    requires joinA.msgType == MessageTypeJoin && joinB.msgType == MessageTypeJoin
    requires idA != "" && idB != ""
    ensures outcomeA == Handled(Done) && outcomeB == Handled(Done)
    ensures service.Valid()
    ensures a.roomId == idA && b.roomId == idA
    ensures service.roomService.repo.rooms.Keys == {idA} && service.roomService.repo.waitingRoom == null
    ensures service.roomService.repo.rooms[idA].clients == map[a.id := a, b.id := b]
    ensures service.roomService.repo.rooms[idA].IsFull()
    ensures a.send == Channel([ReadyMessage(idA), PeerJoinMessage(b.id, b.username, idA)], false)
    ensures b.send == Channel([ReadyMessage(idA), PeerJoinMessage(a.id, a.username, idA)], false)
  {
    ghost var room;
    outcomeA, room := FirstJoin(service, a, joinA, idA);
    outcomeB := SecondJoin(service, a, b, joinB, idB, room);
  }

  /** The first join of TwoJoinsPair: a room under the fresh id, with the joiner waiting in
      it and told that the room is ready. */
  method FirstJoin(service: SignalingService, a: Client, joinA: Message, idA: string)
    returns (outcome: Outcome, ghost room: Room)
    modifies service.roomService.repo`rooms, service.roomService.repo`waitingRoom
    modifies a`roomId, a`username, a`send
    requires service.Valid()
    requires service.roomService.repo.rooms == map[] && service.roomService.repo.waitingRoom == null
    requires a.send == Channel([], false)
    requires joinA.msgType == MessageTypeJoin && idA != ""
    ensures outcome == Handled(Done) && service.Valid() && fresh(room)
    ensures room.id == idA && a.roomId == idA && room.clients == map[a.id := a]
    ensures service.roomService.repo.rooms == map[idA := room] && service.roomService.repo.waitingRoom == room
    ensures a.send == Channel([ReadyMessage(idA)], false)
  {
    var repo := service.roomService.repo;
    ghost var lobby := LobbyOf(repo);
    ghost var channels := ChannelsOf(lobby.waitingMembers);
    ghost var placed;
    outcome, placed := service.HandleMessage(a, Some(joinA), idA);
    room := placed;
    FirstJoinWaits(repo, a, idA, room, lobby, outcome.status, Channel([], false), channels);
  }

  /** The second join of TwoJoinsPair: the joiner completes the waiting room, and both
      members are told who the peer is. */
  method SecondJoin(service: SignalingService, a: Client, b: Client, joinB: Message, idB: string, ghost room: Room)
    returns (outcome: Outcome)
    modifies service.roomService.repo`rooms, service.roomService.repo`waitingRoom, room`clients
    modifies a`send, b`roomId, b`username, b`send
    requires service.Valid()
    requires service.roomService.repo.waitingRoom == room && room.clients == map[a.id := a]
    requires a != b && a.id != b.id
    requires a.send == Channel([ReadyMessage(room.id)], false) && b.send == Channel([], false)
    requires joinB.msgType == MessageTypeJoin && idB != ""
    ensures outcome == Handled(Done) && service.Valid()
    ensures service.roomService.repo.rooms == old(service.roomService.repo.rooms)
    ensures service.roomService.repo.waitingRoom == null
    ensures b.roomId == room.id && room.clients == map[a.id := a, b.id := b] && room.IsFull()
    ensures a.send == Channel([ReadyMessage(room.id), PeerJoinMessage(b.id, b.username, room.id)], false)
    ensures b.send == Channel([ReadyMessage(room.id), PeerJoinMessage(a.id, a.username, room.id)], false)
  {
    var repo := service.roomService.repo;
    ghost var lobby := LobbyOf(repo);
    ghost var channels := ChannelsOf(lobby.waitingMembers);
    assert Joinable(lobby) && lobby.waitingMembers == map[a.id := a];
    assert channels == map[a.id := Channel([ReadyMessage(room.id)], false)];
    ghost var placed;
    ghost var before := b.send;
    outcome, placed := service.HandleMessage(b, Some(joinB), idB);
    assert Placed(repo, b, idB, placed, lobby) && Greeted(b, placed, outcome.status, before, channels);
    SecondJoinDelivers(repo, b, idB, placed, lobby, outcome.status, Channel([], false), channels, a);
  }
}
