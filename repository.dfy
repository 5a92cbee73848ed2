/** The room registry of repository/room.go: rooms by id, plus the one waiting room that is
    open for a second joiner. Each method is one atomic step; the lock is not modelled. */
module Repository {
  import opened Database

  class RoomRepository {
    var rooms: map<string, Room>
    var waitingRoom: Room?

    /** The registry invariant: every room is stored under its own id and is a valid room,
        and a waiting room is the room stored under its id and still has a free place. */
    ghost predicate Valid()
      reads this`rooms, this`waitingRoom, rooms.Values`clients
    {
      && (forall k :: k in rooms ==> rooms[k].id == k)
      && (forall r :: r in rooms.Values ==> r.Valid())
      && (waitingRoom != null ==>
            waitingRoom.id in rooms && rooms[waitingRoom.id] == waitingRoom && !waitingRoom.IsFull())
    }

    /** NewRoomRepository: no rooms and no waiting room. */
    constructor ()
      ensures rooms == map[] && waitingRoom == null && Valid()
    {
      rooms := map[];
      waitingRoom := null;
    }

    /** The waiting room, as a frame. */
    ghost function Waiting(): set<Room>
      reads this`waitingRoom
    {
      if waitingRoom == null then {} else {waitingRoom}
    }

    /** CreateRoom registers a fresh empty room under id, replacing any earlier entry. */
    method CreateRoom(id: string) returns (room: Room)
      modifies this`rooms
      ensures fresh(room) && room.id == id && room.clients == map[]
      ensures rooms == old(rooms)[id := room]
      ensures old(Valid()) && (waitingRoom == null || waitingRoom.id != id) ==> Valid()
    {
      room := new Room(id);
      rooms := rooms[id := room];
    }

    /** GetRoom: the room stored under roomId, or null; in a valid registry its id is roomId. */
    function GetRoom(roomId: string): (room: Room?)
      reads this`rooms, this`waitingRoom, rooms.Values`clients
      ensures room != null <==> roomId in rooms
      ensures room != null ==> room == rooms[roomId]
      ensures room != null && Valid() ==> room.id == roomId && room.Valid()
    {
      if roomId in rooms then rooms[roomId] else null
    }

    /** DeleteRoom drops the entry for roomId (an absent id leaves the map alone) and, in the
        same step, clears the waiting slot exactly when it holds a room with that id. */
    method DeleteRoom(roomId: string)
      modifies this`rooms, this`waitingRoom
      ensures rooms == old(rooms) - {roomId}
      ensures waitingRoom == if old(waitingRoom) != null && old(waitingRoom).id == roomId
                             then null else old(waitingRoom)
      ensures old(Valid()) ==> Valid()
    {
      rooms := rooms - {roomId};
      if waitingRoom != null && waitingRoom.id == roomId {
        waitingRoom := null;
      }
    }

    /** GetRoomCount: the number of registered room ids. */
    function GetRoomCount(): (count: nat)
      reads this`rooms
      ensures count == |rooms.Keys|
    {
      |rooms|
    }

    /** GetWaitingRoom: the current waiting room, which in a valid registry is registered
        under its id and not full. */
    function GetWaitingRoom(): (room: Room?)
      reads this`rooms, this`waitingRoom, rooms.Values`clients
      ensures room == waitingRoom
      ensures room != null && Valid() ==> room.id in rooms && rooms[room.id] == room && !room.IsFull()
    {
      waitingRoom
    }

    /** SetWaitingRoom replaces the waiting slot and leaves the map alone. */
    method SetWaitingRoom(room: Room?)
      modifies this`waitingRoom
      ensures waitingRoom == room
      ensures old(Valid()) && (room != null ==> room.id in rooms && rooms[room.id] == room && !room.IsFull())
              ==> Valid()
    {
      waitingRoom := room;
    }

    /** StoreRoom registers room under its own id and leaves the waiting slot alone. */
    method StoreRoom(room: Room)
      modifies this`rooms
      ensures rooms == old(rooms)[room.id := room]
      ensures old(Valid()) && room.Valid() && (waitingRoom == null || waitingRoom.id != room.id || waitingRoom == room)
              ==> Valid()
    {
      rooms := rooms[room.id := room];
    }
  }
}
