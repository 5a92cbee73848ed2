/** The pairing service of service/room.go: the rendezvous that places a newcomer in the
    waiting room or opens a new one, and the cleanup that drops a departing client. UUID
    generation is not modelled: the caller passes the id a new room would get, and like a
    UUID string it is never empty.

    The effect of each operation is stated against a snapshot (a value) of the part of the
    heap the operation looks at, taken before it runs, so that callers which do other work
    first can still state it. */
module Pairing {
  import opened Dto
  import opened Database
  import opened Repository

  /** What FindOrCreateRoom looks at: the registered rooms, the waiting slot and the
      members of the waiting room. */
  datatype Lobby = Lobby(rooms: map<string, Room>, waiting: Room?, waitingMembers: map<string, Client>)

  ghost function LobbyOf(repo: RoomRepository): Lobby
    reads repo`rooms, repo`waitingRoom, repo.Waiting()`clients
  {
    Lobby(repo.rooms, repo.waitingRoom, if repo.waitingRoom == null then map[] else repo.waitingRoom.clients)
  }

  /** The waiting room accepts a newcomer: there is one and it is not full. */
  predicate Joinable(lobby: Lobby) {
    lobby.waiting != null && |lobby.waitingMembers| < MaxClients
  }

  /** The state FindOrCreateRoom(client) leaves, given the lobby it started from, with
      freshId as the would-be new room's id and room as the room it returned. */
  ghost predicate Placed(repo: RoomRepository, client: Client, freshId: string, room: Room, lobby: Lobby)
    reads repo`rooms, repo`waitingRoom, client`roomId, room`clients
  {
    && client.roomId == room.id
    && client.id in room.clients && room.clients[client.id] == client
    && room.Valid()
    && if Joinable(lobby) then
         // the newcomer completes the pair; nobody is waiting any more
         && room == lobby.waiting
         && room.clients == lobby.waitingMembers[client.id := client]
         && repo.rooms == lobby.rooms
         && repo.waitingRoom == null
       else
         // the newcomer opens a new room and waits in it
         && room.id == freshId
         && room.clients == map[client.id := client]
         && repo.rooms == lobby.rooms[freshId := room]
         && repo.waitingRoom == room
  }

  /** The room RemoveClientFromRoom(client) acts on: the registered room whose id the
      client was stamped with, if that id is not empty. */
  ghost function RoomOf(repo: RoomRepository, client: Client): set<Room>
    reads repo`rooms, client`roomId
  {
    if client.roomId != "" && client.roomId in repo.rooms then {repo.rooms[client.roomId]} else {}
  }

  /** The members of that room (none when there is no such room). */
  ghost function MembersOf(repo: RoomRepository, client: Client): map<string, Client>
    reads repo`rooms, client`roomId, RoomOf(repo, client)`clients
  {
    if client.roomId != "" && client.roomId in repo.rooms then repo.rooms[client.roomId].clients else map[]
  }

  /** The member whose channel RemoveClientFromRoom(client) closes, if any. */
  ghost function Departing(repo: RoomRepository, client: Client): set<Client>
    reads repo`rooms, client`roomId, RoomOf(repo, client)`clients
  {
    var members := MembersOf(repo, client);
    if client.id in members then {members[client.id]} else {}
  }

  /** What RemoveClientFromRoom(client) looks at: the client's room id, the registry, the
      members of the client's room and the channel of the member stored under the
      client's id. */
  datatype Seat = Seat(
    roomId: string,
    rooms: map<string, Room>,
    waiting: Room?,
    members: map<string, Client>,
    departing: Option<Channel>)

  ghost function SeatOf(repo: RoomRepository, client: Client): Seat
    reads repo`rooms, repo`waitingRoom, client`roomId, RoomOf(repo, client)`clients
    reads Departing(repo, client)`send
  {
    var members := MembersOf(repo, client);
    Seat(client.roomId, repo.rooms, repo.waitingRoom, members,
         if client.id in members then Some(members[client.id].send) else None)
  }

  /** The room of a seat, as a frame. */
  function SeatRoom(seat: Seat): set<Room> {
    if seat.roomId != "" && seat.roomId in seat.rooms then {seat.rooms[seat.roomId]} else {}
  }

  /** The departing member of a seat, as a frame. */
  function SeatDeparting(client: Client, seat: Seat): set<Client> {
    if client.id in seat.members then {seat.members[client.id]} else {}
  }

  /** The state RemoveClientFromRoom(client) leaves, given the seat it started from. The
      client's room id is never cleared. */
  ghost predicate ClientRemoved(repo: RoomRepository, client: Client, status: Status, seat: Seat)
    reads repo`rooms, repo`waitingRoom, client`roomId, SeatRoom(seat)`clients
    reads SeatDeparting(client, seat)`send
  {
    && client.roomId == seat.roomId
    && if SeatRoom(seat) == {} then
         status == Done && repo.rooms == seat.rooms && repo.waitingRoom == seat.waiting
       else
         var room := seat.rooms[seat.roomId];
         // RemoveClient: close the departing member's channel, then drop its entry
         && (if client.id !in seat.members then
               status == Done && room.clients == seat.members
             else
               && seat.departing.Some?
               && (status, seat.members[client.id].send) == CloseChannel(seat.departing.value)
               && room.clients == if status == Done then seat.members - {client.id} else seat.members)
         && if status != Done then
              repo.rooms == seat.rooms && repo.waitingRoom == seat.waiting
            else
              // the room is deleted exactly when it is now empty
              && repo.rooms == (if room.clients == map[] then seat.rooms - {room.id} else seat.rooms)
              && repo.waitingRoom ==
                   if room.clients == map[] && seat.waiting != null && seat.waiting.id == room.id
                   then null else seat.waiting
  }

  class RoomService {
    const repo: RoomRepository

    constructor (repo: RoomRepository)
      ensures this.repo == repo
    {
      this.repo := repo;
    }

    /** The service invariant: the registry invariant, no room under the empty id (room ids
        are UUIDs), and every registered room has a member (a room is deleted the moment
        it becomes empty). */
    ghost predicate Valid()
      reads repo`rooms, repo`waitingRoom, repo.rooms.Values`clients
    {
      && repo.Valid()
      && "" !in repo.rooms
      && forall r :: r in repo.rooms.Values ==> r.clients != map[]
    }

    /** FindOrCreateRoom: join the waiting room when it has a free place and clear the slot;
        otherwise register a new room under freshId, add the client as its only member and
        publish it as the waiting room. */
    method FindOrCreateRoom(client: Client, freshId: string) returns (room: Room)
      modifies repo`rooms, repo`waitingRoom, repo.Waiting()`clients, client`roomId
      requires Valid() && freshId != ""
      ensures Valid()
      ensures Placed(repo, client, freshId, room, old(LobbyOf(repo)))
      ensures !Joinable(old(LobbyOf(repo))) ==> fresh(room)
    {
      var waitingRoom := repo.GetWaitingRoom();
      if waitingRoom != null && !waitingRoom.IsFull() {
        var added := waitingRoom.AddClient(client);
        if added {
          repo.SetWaitingRoom(null);
          WaitingRoomFilled(this, waitingRoom);
          return waitingRoom;
        }
      }
      room := repo.CreateRoom(freshId);
      var admitted := room.AddClient(client);
      repo.SetWaitingRoom(room);
      RoomOpened(this);
    }

    /** GetRoom delegates to the registry. */
    function GetRoom(roomId: string): (room: Room?)
      reads repo`rooms, repo`waitingRoom, repo.rooms.Values`clients
      ensures room == repo.GetRoom(roomId)
      ensures Valid() && roomId == "" ==> room == null
    {
      repo.GetRoom(roomId)
    }

    /** RemoveClientFromRoom: nothing happens for a client without a room id or whose room
        is no longer registered; otherwise the client is removed from that room, and the
        room is deleted from the registry when it is left empty. */
    method RemoveClientFromRoom(client: Client) returns (status: Status)
      modifies repo`rooms, repo`waitingRoom, RoomOf(repo, client)`clients, Departing(repo, client)`send
      requires Valid()
      ensures Valid()
      ensures ClientRemoved(repo, client, status, old(SeatOf(repo, client)))
    {
      status := Done;
      if client.roomId == "" {
        return;
      }
      var room := repo.GetRoom(client.roomId);
      if room == null {
        return;
      }
      status := room.RemoveClient(client.id);
      if status != Done {
        return;
      }
      MembersShrunk(this, room);
      if room.IsEmpty() {
        repo.DeleteRoom(room.id);
      }
    }

    /** GetRoomCount delegates to the registry. */
    function GetRoomCount(): (count: nat)
      reads repo`rooms
      ensures count == repo.GetRoomCount()
    {
      repo.GetRoomCount()
    }
  }

  /** Removing members from one registered room, with the registry itself untouched,
      keeps the registry invariant, and the service invariant while the room has a member. */
  twostate lemma MembersShrunk(service: RoomService, new room: Room)
    requires old(service.Valid())
    requires unchanged(service.repo)
    requires room.id in service.repo.rooms && service.repo.rooms[room.id] == room
    requires room.clients.Keys <= old(room.clients.Keys) && room.Valid()
    requires unchanged(service.repo.rooms.Values - {room})
    ensures service.repo.Valid()
    ensures room.clients != map[] ==> service.Valid()
  {
    SubsetCardinality(room.clients.Keys, old(room.clients.Keys));
  }

  /** Adding a member to the waiting room and clearing the slot keeps the service invariant. */
  twostate lemma WaitingRoomFilled(service: RoomService, new room: Room)
    requires old(service.Valid())
    requires old(service.repo.waitingRoom) == room && service.repo.waitingRoom == null
    requires unchanged(service.repo`rooms)
    requires room.Valid() && room.clients != map[]
    requires unchanged(service.repo.rooms.Values - {room})
    ensures service.Valid()
  {
  }

  /** Registering a new one-member room and publishing it as the waiting room, when none
      was waiting, keeps the service invariant. */
  twostate lemma RoomOpened(service: RoomService)
    requires old(service.Valid()) && old(service.repo.waitingRoom) == null
    requires service.repo.waitingRoom != null
    requires
      var room := service.repo.waitingRoom;
      && room.id != ""
      && service.repo.rooms == old(service.repo.rooms)[room.id := room]
      && room.Valid() && |room.clients| == 1
      && unchanged(old(service.repo.rooms.Values))
    ensures service.Valid()
  {
  }

  /** In a consistent registry the waiting room holds exactly one client: it is registered,
      so it is not empty, and it is not full. */
  lemma WaitingRoomHasOneMember(service: RoomService)
    requires service.Valid() && service.repo.waitingRoom != null
    ensures |service.repo.waitingRoom.clients| == 1
  {
  }
}
