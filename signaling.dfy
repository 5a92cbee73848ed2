/** The signaling dispatcher of service/signaling.go: it stamps the sender on every parsed
    message and dispatches on its type (join, the three negotiation types, leave), and it
    pushes outbound messages onto the receiver's bounded send channel. JSON encoding is not
    modelled: a message is enqueued as the value it would be marshalled from. */
module Signaling {
  import opened Dto
  import opened Database
  import opened Repository
  import opened Pairing

  /** sendToClient's select with a default case: a send on a closed channel panics;
      otherwise the message is buffered when there is a free slot, and when the buffer is
      full the message is dropped and the channel is closed. */
  function Enqueue(ch: Channel, msg: Message): (r: (Status, Channel))
    ensures r.0 == Done <==> !ch.closed
    ensures r.0 != Done ==> r == (Panicked(SendOnClosedChannel), ch)
    ensures r.0 == Done ==> (r.1.closed <==> |ch.buffer| >= SendCapacity)
    ensures r.1.buffer == if r.0 == Done && !r.1.closed then ch.buffer + [msg] else ch.buffer
    ensures ch.Valid() ==> r.1.Valid()
  {
    if ch.closed then (Panicked(SendOnClosedChannel), ch)
    else if |ch.buffer| < SendCapacity then (Done, ch.(buffer := ch.buffer + [msg]))
    else CloseChannel(ch)
  }

  /** Several sendToClient calls to one receiver, in order, with nothing draining the
      channel in between; the first panic ends the sequence. */
  function EnqueueAll(ch: Channel, msgs: seq<Message>): (Status, Channel)
    decreases |msgs|
  {
    if msgs == [] then (Done, ch)
    else
      var (status, next) := Enqueue(ch, msgs[0]);
      if status != Done then (status, next) else EnqueueAll(next, msgs[1..])
  }

  /** The backpressure rule for a consumer that has stalled: messages are buffered while
      they fit, the first one that does not fit is dropped and closes the channel, and the
      next send after that panics. */
  lemma {:induction false} Backpressure(ch: Channel, msgs: seq<Message>)
    requires ch.Valid() && !ch.closed
    ensures var free := SendCapacity - |ch.buffer|;
      && (|msgs| <= free ==> EnqueueAll(ch, msgs) == (Done, Channel(ch.buffer + msgs, false)))
      && (|msgs| == free + 1 ==> EnqueueAll(ch, msgs) == (Done, Channel(ch.buffer + msgs[..free], true)))
      && (|msgs| > free + 1 ==>
            EnqueueAll(ch, msgs) == (Panicked(SendOnClosedChannel), Channel(ch.buffer + msgs[..free], true)))
    decreases |msgs|
  {
    if msgs == [] {
      assert ch.buffer + msgs == ch.buffer;
    } else {
      var free := SendCapacity - |ch.buffer|;
      if free == 0 {
        var closed := Channel(ch.buffer, true);
        assert Enqueue(ch, msgs[0]) == (Done, closed);
        if |msgs| > 1 {
          assert Enqueue(closed, msgs[1]) == (Panicked(SendOnClosedChannel), closed);
          assert EnqueueAll(closed, msgs[1..]) == (Panicked(SendOnClosedChannel), closed);
        }
        assert msgs[..free] == [];
        assert ch.buffer + msgs[..free] == ch.buffer;
      } else {
        var next := Channel(ch.buffer + [msgs[0]], false);
        assert Enqueue(ch, msgs[0]) == (Done, next);
        Backpressure(next, msgs[1..]);
        assert next.buffer + msgs[1..] == ch.buffer + msgs;
        if |msgs| > free {
          assert next.buffer + msgs[1..][..free - 1] == ch.buffer + msgs[..free];
        }
      }
    }
  }

  /** The ready notice the server sends to a client placed in a room. */
  function ReadyMessage(roomId: string): Message {
    Message(MessageTypeReady, "server", "", roomId, "", JNull)
  }

  /** The join notice describing the member (from, username) of room roomId. */
  function PeerJoinMessage(from: string, username: string, roomId: string): Message {
    Message(MessageTypeJoin, from, "", roomId, username, JNull)
  }

  /** The leave notice the remaining member gets when from departs. */
  function LeaveMessage(from: string): Message {
    Message(MessageTypeLeave, from, "", "", "", JNull)
  }

  /** The members other than the entry under id: the candidates GetOtherClient(id) can
      return, and the channels relayMessage and handleLeave may write. */
  function PeersIn(members: map<string, Client>, id: string): set<Client> {
    set k | k in members && k != id :: members[k]
  }

  /** The channel of every member, by key: the rest of the snapshot the effects of
      relayMessage and handleLeave are stated against. */
  ghost function ChannelsOf(members: map<string, Client>): map<string, Channel>
    reads members.Values`send
  {
    map k | k in members :: members[k].send
  }

  /** The member under key j still has the channel it had in the snapshot. */
  ghost predicate Untouched(members: map<string, Client>, channels: map<string, Channel>, j: string)
    requires j in members
    reads members.Values`send
  {
    j in channels && members[j].send == channels[j]
  }

  /** Every member under a key other than id still has the channel it had in the snapshot. */
  ghost predicate AllUntouched(members: map<string, Client>, channels: map<string, Channel>, id: string)
    reads members.Values`send
  {
    forall j :: j in members && j != id ==> Untouched(members, channels, j)
  }

  /** One send to the member under key k: its channel is what Enqueue makes of the
      snapshot, and every other member keeps its channel. */
  ghost predicate Delivered(members: map<string, Client>, channels: map<string, Channel>, k: string,
                            msg: Message, status: Status)
    reads members.Values`send
  {
    && k in members && k in channels
    && (status, members[k].send) == Enqueue(channels[k], msg)
    && forall j :: j in members && j != k ==> Untouched(members, channels, j)
  }

  /** The effect of relayMessage(client, msg), given the members of the client's room and
      their channels before it ran: with no other member nothing is sent and every member
      keeps its channel; otherwise the member under some key other than the client's is
      sent msg addressed to it, and nothing else changes. */
  ghost predicate Relayed(client: Client, msg: Message, status: Status,
                          members: map<string, Client>, channels: map<string, Channel>)
    reads members.Values`send
  {
    if !HasOther(members, client.id) then
      status == Done && forall j :: j in members ==> Untouched(members, channels, j)
    else
      exists k :: k in members && k != client.id && Delivered(members, channels, k, msg.(to := members[k].id), status)
  }

  /** The effect of handleLeave(client), given the seat it started from and the channels of
      that room's members: when the room has another member, some such member is sent a
      leave notice from the client first and, unless that send panics,
      RemoveClientFromRoom then runs. The client's room id is kept, so a second leave
      notifies a remaining member again. */
  ghost predicate Left(repo: RoomRepository, client: Client, status: Status, seat: Seat,
                       channels: map<string, Channel>)
    reads repo`rooms, repo`waitingRoom, client`roomId, SeatRoom(seat)`clients
    reads SeatDeparting(client, seat)`send, seat.members.Values`send
  {
    if !HasOther(seat.members, client.id) then ClientRemoved(repo, client, status, seat)
    else
      exists k :: k in seat.members && k != client.id && Notified(repo, client, k, status, seat, channels)
  }

  /** Left, once the key k of the member GetOtherClient returned is fixed. */
  ghost predicate Notified(repo: RoomRepository, client: Client, k: string, status: Status, seat: Seat,
                           channels: map<string, Channel>)
    reads repo`rooms, repo`waitingRoom, client`roomId, SeatRoom(seat)`clients
    reads SeatDeparting(client, seat)`send, seat.members.Values`send
  {
    && k in seat.members && k in channels
    && var (notified, ch) := Enqueue(channels[k], LeaveMessage(client.id));
    if notified != Done then
      // the process stops before RemoveClientFromRoom
      && status == notified
      && Delivered(seat.members, channels, k, LeaveMessage(client.id), status)
      && client.roomId == seat.roomId
      && repo.rooms == seat.rooms && repo.waitingRoom == seat.waiting
      && (forall r :: r in SeatRoom(seat) ==> r.clients == seat.members)
    else
      && seat.members[k].send == ch
      && (forall j :: j in seat.members && j != k && j != client.id ==> Untouched(seat.members, channels, j))
      && ClientRemoved(repo, client, status, seat)
  }

  /** The effect of handleJoin's sends once the client is placed in room, given the
      client's channel own and the channels of the other members before them: the client
      is sent the ready notice; when the room is full, it is also sent the other member's
      join notice and the other member is then sent the client's; the first panic ends
      the sequence. */
  ghost predicate Greeted(client: Client, room: Room, status: Status, own: Channel,
                          channels: map<string, Channel>)
    reads client`send, client`username, room`clients, room.clients.Values`send, room.clients.Values`username
  {
    if room.IsFull() && HasOther(room.clients, client.id) then
      exists k :: k in room.clients && k != client.id && Welcomed(client, room, k, status, own, channels)
    else
      && (status, client.send) == Enqueue(own, ReadyMessage(room.id))
      && AllUntouched(room.clients, channels, client.id)
  }

  /** Greeted, once the key k of the member GetOtherClient returned is fixed. */
  ghost predicate Welcomed(client: Client, room: Room, k: string, status: Status, own: Channel,
                           channels: map<string, Channel>)
    reads client`send, client`username, room`clients, room.clients.Values`send, room.clients.Values`username
  {
    && k in room.clients && k in channels
    && var other := room.clients[k];
    && var (ready, afterReady) := Enqueue(own, ReadyMessage(room.id));
    if ready != Done then
      status == ready && client.send == afterReady && Untouched(room.clients, channels, k)
    else
      var (peer, afterPeer) := Enqueue(afterReady, PeerJoinMessage(other.id, other.username, room.id));
      && client.send == afterPeer
      && if peer != Done then
           status == peer && Untouched(room.clients, channels, k)
         else
           (status, other.send) == Enqueue(channels[k], PeerJoinMessage(client.id, client.username, room.id))
  }

  /** The kinds of frame handleMessage dispatches on. */
  predicate Joins(frame: Option<Message>) {
    frame.Some? && frame.value.msgType == MessageTypeJoin
  }

  predicate Relays(frame: Option<Message>) {
    frame.Some? && IsNegotiation(frame.value.msgType)
  }

  predicate Leaves(frame: Option<Message>) {
    frame.Some? && frame.value.msgType == MessageTypeLeave
  }

  /** How HandleMessage ended: the frame did not parse, or the message was dispatched and
      its handler ended with status. */
  datatype Outcome = DecodeError | Handled(status: Status)

  class SignalingService {
    const roomService: RoomService

    constructor (roomService: RoomService)
      ensures this.roomService == roomService
    {
      this.roomService := roomService;
    }

    /** The service invariant is the pairing service's. */
    ghost predicate Valid()
      reads roomService.repo`rooms, roomService.repo`waitingRoom, roomService.repo.rooms.Values`clients
    {
      roomService.Valid()
    }

    /** sendToClient: one Enqueue on the receiver's channel and nothing else. */
    method SendToClient(client: Client, msg: Message) returns (status: Status)
      modifies client`send
      ensures (status, client.send) == Enqueue(old(client.send), msg)
    {
      if client.send.closed {
        return Panicked(SendOnClosedChannel);
      }
      if |client.send.buffer| < SendCapacity {
        client.send := client.send.(buffer := client.send.buffer + [msg]);
        return Done;
      }
      var closed := CloseChannel(client.send);
      status, client.send := closed.0, closed.1;
    }

    /** HandleMessage: a frame that does not parse is rejected and nothing changes;
        otherwise the message is stamped with the sender's id and dispatched on its type,
        and a message of an unknown type is ignored. */
    method HandleMessage(client: Client, frame: Option<Message>, freshId: string)
      returns (outcome: Outcome, ghost room: Room?)
      // each kind of message may change only what its handler changes
      modifies (if Joins(frame) || Leaves(frame) then {roomService.repo} else {})`rooms
      modifies (if Joins(frame) || Leaves(frame) then {roomService.repo} else {})`waitingRoom
      modifies (if Joins(frame) then roomService.repo.Waiting() else {})`clients
      modifies (if Joins(frame) then {client} else {})`roomId
      modifies (if Joins(frame) then {client} else {})`username
      modifies (if Joins(frame) then {client} else {})`send
      modifies (if Joins(frame) then PeersIn(LobbyOf(roomService.repo).waitingMembers, client.id) else {})`send
      modifies (if Leaves(frame) then RoomOf(roomService.repo, client) else {})`clients
      modifies (if Relays(frame) || Leaves(frame) then PeersIn(MembersOf(roomService.repo, client), client.id) else {})`send
      modifies (if Leaves(frame) then Departing(roomService.repo, client) else {})`send
      requires Valid() && freshId != ""
      ensures Valid()
      ensures outcome == DecodeError <==> frame.None?
      ensures frame.None? ==>
                && unchanged(roomService.repo, client) && unchanged(old(roomService.repo.rooms.Values))
                && unchanged(old(roomService.repo.Waiting()))
                && unchanged(old(LobbyOf(roomService.repo).waitingMembers.Values))
                && unchanged(old(MembersOf(roomService.repo, client).Values))
      ensures Joins(frame) ==>
                && room != null
                && client.username == (if frame.value.username != "" then frame.value.username else old(client.username))
                && Placed(roomService.repo, client, freshId, room, old(LobbyOf(roomService.repo)))
                && (!Joinable(old(LobbyOf(roomService.repo))) ==> fresh(room))
                && Greeted(client, room, outcome.status, old(client.send),
                           old(ChannelsOf(LobbyOf(roomService.repo).waitingMembers)))
      ensures frame.Some? && !Joins(frame) ==>
                Answered(client, frame.value.(from := client.id), outcome.status)
    {
      room := null;
      if frame.None? {
        return DecodeError, room;
      }
      var msg := frame.value.(from := client.id);
      var status;
      if msg.msgType == MessageTypeJoin {
        status, room := HandleJoin(client, msg, freshId, LobbyOf(roomService.repo), ChannelsOf(LobbyOf(roomService.repo).waitingMembers));
      } else {
        status := HandleOther(client, msg);
      }
      outcome := Handled(status);
    }

    /** The effect of a message other than join, by its type. */
    twostate predicate Answered(client: Client, msg: Message, status: Status)
      reads *
    {
      if IsNegotiation(msg.msgType) then
        && unchanged(roomService.repo, client) && unchanged(old(roomService.repo.rooms.Values))
        && Relayed(client, msg, status, old(MembersOf(roomService.repo, client)),
                   old(ChannelsOf(MembersOf(roomService.repo, client))))
      else if msg.msgType == MessageTypeLeave then
        Left(roomService.repo, client, status, old(SeatOf(roomService.repo, client)),
                old(ChannelsOf(MembersOf(roomService.repo, client))))
      else
        && status == Done && unchanged(roomService.repo, client) && unchanged(old(roomService.repo.rooms.Values))
        && unchanged(old(MembersOf(roomService.repo, client).Values))
    }

    /** The dispatch of a message other than join. */
    method HandleOther(client: Client, msg: Message) returns (status: Status)
      modifies (if msg.msgType == MessageTypeLeave then {roomService.repo} else {})`rooms
      modifies (if msg.msgType == MessageTypeLeave then {roomService.repo} else {})`waitingRoom
      modifies (if msg.msgType == MessageTypeLeave then RoomOf(roomService.repo, client) else {})`clients
      modifies (if IsNegotiation(msg.msgType) || msg.msgType == MessageTypeLeave
                then PeersIn(MembersOf(roomService.repo, client), client.id) else {})`send
      modifies (if msg.msgType == MessageTypeLeave then Departing(roomService.repo, client) else {})`send
      requires Valid() && msg.msgType != MessageTypeJoin
      ensures Valid()
      ensures Answered(client, msg, status)
    {
      status := Done;
      if IsNegotiation(msg.msgType) {
        SenderIsNoPeer(roomService, client);
        status := RelayMessage(client, msg);
      } else if msg.msgType == MessageTypeLeave {
        status := HandleLeave(client);
      }
    }

    /** handleJoin: take the username the message carries, if any, place the client with
        FindOrCreateRoom, then greet it (and its peer, when the room is now full). The lobby
        and the waiting member's channels are the snapshot it starts from. */
    method HandleJoin(client: Client, msg: Message, freshId: string, ghost lobby: Lobby, ghost channels: map<string, Channel>)
      returns (status: Status, ghost room: Room)
      modifies roomService.repo`rooms, roomService.repo`waitingRoom, roomService.repo.Waiting()`clients
      modifies client`roomId, client`username, client`send
      modifies PeersIn(lobby.waitingMembers, client.id)`send
      requires Valid() && freshId != ""
      requires lobby == LobbyOf(roomService.repo) && channels == ChannelsOf(lobby.waitingMembers)
      ensures Valid()
      ensures client.username == if msg.username != "" then msg.username else old(client.username)
      ensures Placed(roomService.repo, client, freshId, room, lobby)
      ensures !Joinable(lobby) ==> fresh(room)
      ensures Greeted(client, room, status, old(client.send), channels)
    {
      TakeUsername(client, msg);
      status, room := JoinRoom(client, freshId, lobby, channels);
    }

    /** The first step of handleJoin: a non-empty username in the message replaces the
        client's. Nothing the rest of the join looks at changes. */
    method TakeUsername(client: Client, msg: Message)
      modifies client`username
      requires Valid()
      ensures Valid()
      ensures client.username == if msg.username != "" then msg.username else old(client.username)
      ensures LobbyOf(roomService.repo) == old(LobbyOf(roomService.repo))
      ensures ChannelsOf(LobbyOf(roomService.repo).waitingMembers) == old(ChannelsOf(LobbyOf(roomService.repo).waitingMembers))
    {
      if msg.username != "" {
        client.username := msg.username;
      }
    }

    /** The rest of handleJoin, once the username is set, with the lobby and the waiting
        member's channels at the start of handleJoin. */
    method JoinRoom(client: Client, freshId: string, ghost lobby: Lobby, ghost channels: map<string, Channel>)
      returns (status: Status, ghost room: Room)
      modifies roomService.repo`rooms, roomService.repo`waitingRoom, roomService.repo.Waiting()`clients
      modifies client`roomId, client`send
      modifies PeersIn(lobby.waitingMembers, client.id)`send
      requires Valid() && freshId != ""
      requires lobby == LobbyOf(roomService.repo) && channels == ChannelsOf(lobby.waitingMembers)
      ensures Valid()
      ensures Placed(roomService.repo, client, freshId, room, lobby)
      ensures !Joinable(lobby) ==> fresh(room)
      ensures Greeted(client, room, status, old(client.send), channels)
    {
      assert AllUntouched(lobby.waitingMembers, channels, client.id);
      var placed := roomService.FindOrCreateRoom(client, freshId);
      assert Placed(roomService.repo, client, freshId, placed, lobby);
      room := placed;
      status := GreetPlaced(client, placed, freshId, lobby, channels);
    }

    /** The sends of handleJoin, with the lobby FindOrCreateRoom started from. */
    method GreetPlaced(client: Client, room: Room, ghost freshId: string, ghost lobby: Lobby,
                       ghost channels: map<string, Channel>) returns (status: Status)
      modifies client`send, PeersIn(lobby.waitingMembers, client.id)`send
      requires Valid() && Placed(roomService.repo, client, freshId, room, lobby)
      requires AllUntouched(lobby.waitingMembers, channels, client.id)
      ensures Valid() && Placed(roomService.repo, client, freshId, room, lobby)
      ensures Greeted(client, room, status, old(client.send), channels)
    {
      PeersOfPlaced(roomService.repo, client, freshId, room, lobby, channels);
      status := Greet(client, room, channels);
    }

    /** The sends of handleJoin, once the client is placed in room. */
    method Greet(client: Client, room: Room, ghost channels: map<string, Channel>) returns (status: Status)
      modifies client`send, PeersIn(room.clients, client.id)`send
      requires room.Valid() && client.id in room.clients && room.clients[client.id] == client
      requires AllUntouched(room.clients, channels, client.id)
      ensures Greeted(client, room, status, old(client.send), channels)
    {
      ghost var own := client.send;
      status := SendToClient(client, ReadyMessage(room.id));
      if room.IsFull() {
        var other := room.GetOtherClient(client.id);
        if other != null {
          ghost var k :| k in room.clients && k != client.id && room.clients[k] == other;
          assert other != client;
          if status != Done {
            assert Welcomed(client, room, k, status, own, channels);
            return;
          }
          status := SendToClient(client, PeerJoinMessage(other.id, other.username, room.id));
          if status != Done {
            assert Welcomed(client, room, k, status, own, channels);
            return;
          }
          status := SendToClient(other, PeerJoinMessage(client.id, client.username, room.id));
          assert Welcomed(client, room, k, status, own, channels);
        }
      }
    }

    /** relayMessage: forward msg, addressed to the other member, when the sender's room is
        registered and has another member; otherwise drop it. */
    method RelayMessage(client: Client, msg: Message) returns (status: Status)
      modifies PeersIn(MembersOf(roomService.repo, client), client.id)`send
      requires Valid()
      ensures Relayed(client, msg, status, old(MembersOf(roomService.repo, client)),
                      old(ChannelsOf(MembersOf(roomService.repo, client))))
    {
      ghost var members := MembersOf(roomService.repo, client);
      status := Done;
      var room := roomService.GetRoom(client.roomId);
      if room == null {
        return;
      }
      var other := room.GetOtherClient(client.id);
      if other == null {
        return;
      }
      ghost var k :| k in members && k != client.id && members[k] == other;
      status := SendToClient(other, msg.(to := other.id));
      assert Delivered(members, old(ChannelsOf(members)), k, msg.(to := other.id), status);
    }

    /** The first half of handleLeave: send the leave notice to the other member, if the
        client's room is registered and has one. */
    method NotifyLeave(client: Client) returns (status: Status, ghost k: string)
      modifies PeersIn(MembersOf(roomService.repo, client), client.id)`send
      requires Valid()
      ensures SeatOf(roomService.repo, client) == old(SeatOf(roomService.repo, client))
      ensures !HasOther(old(MembersOf(roomService.repo, client)), client.id) ==> status == Done
      ensures HasOther(old(MembersOf(roomService.repo, client)), client.id) ==>
                k != client.id &&
                Delivered(old(MembersOf(roomService.repo, client)), old(ChannelsOf(MembersOf(roomService.repo, client))),
                          k, LeaveMessage(client.id), status)
    {
      ghost var members := MembersOf(roomService.repo, client);
      status, k := Done, "";
      var room := roomService.GetRoom(client.roomId);
      if room == null {
        return;
      }
      var other := room.GetOtherClient(client.id);
      if other == null {
        return;
      }
      k :| k in members && k != client.id && members[k] == other;
      assert room.Valid();
      assert forall j :: j in members && j != k ==> members[j] != other;
      status := SendToClient(other, LeaveMessage(client.id));
      assert Delivered(members, old(ChannelsOf(members)), k, LeaveMessage(client.id), status);
    }
  
    /** handleLeave: notify the other member, if any, then remove the client from its room. */
    method HandleLeave(client: Client) returns (status: Status)
      modifies roomService.repo`rooms, roomService.repo`waitingRoom
      modifies RoomOf(roomService.repo, client)`clients
      modifies PeersIn(MembersOf(roomService.repo, client), client.id)`send
      modifies Departing(roomService.repo, client)`send
      requires Valid()
      ensures Valid()
      ensures Left(roomService.repo, client, status, old(SeatOf(roomService.repo, client)),
                   old(ChannelsOf(MembersOf(roomService.repo, client))))
    {
      ghost var seat := SeatOf(roomService.repo, client);
      ghost var channels := ChannelsOf(seat.members);
      ghost var k;
      status, k := NotifyLeave(client);
      if status != Done {
        assert Notified(roomService.repo, client, k, status, seat, channels);
        return;
      }
      status := FinishLeave(client, k, seat, channels);
    }

    /** The second half of handleLeave, once the notice (if any) went through. */
    method FinishLeave(client: Client, ghost k: string, ghost seat: Seat, ghost channels: map<string, Channel>)
      returns (status: Status)
      modifies roomService.repo`rooms, roomService.repo`waitingRoom
      modifies RoomOf(roomService.repo, client)`clients
      modifies Departing(roomService.repo, client)`send
      requires Valid()
      requires seat == SeatOf(roomService.repo, client)
      requires HasOther(seat.members, client.id) ==>
                 k != client.id && Delivered(seat.members, channels, k, LeaveMessage(client.id), Done)
      ensures Valid()
      ensures Left(roomService.repo, client, status, seat, channels)
    {
      PeersStay(roomService, client);
      status := roomService.RemoveClientFromRoom(client);
      if HasOther(seat.members, client.id) {
        assert Notified(roomService.repo, client, k, status, seat, channels);
      }
    }

    /** DisconnectClient is handleLeave. */
    method DisconnectClient(client: Client) returns (status: Status)
      modifies roomService.repo`rooms, roomService.repo`waitingRoom
      modifies RoomOf(roomService.repo, client)`clients
      modifies PeersIn(MembersOf(roomService.repo, client), client.id)`send
      modifies Departing(roomService.repo, client)`send
      requires Valid()
      ensures Valid()
      ensures Left(roomService.repo, client, status, old(SeatOf(roomService.repo, client)),
                   old(ChannelsOf(MembersOf(roomService.repo, client))))
    {
      status := HandleLeave(client);
    }
  }

  /** In a consistent registry the member RemoveClientFromRoom(client) closes is stored
      under the client's id, so it is none of the members stored under another key. */
  lemma PeersStay(service: RoomService, client: Client)
    requires service.Valid()
    ensures forall j :: j in MembersOf(service.repo, client) && j != client.id ==>
              MembersOf(service.repo, client)[j] !in Departing(service.repo, client)
  {
    var members := MembersOf(service.repo, client);
    if members != map[] {
      var room := service.repo.rooms[client.roomId];
      assert room.Valid();
      assert KeysAreIds(members);
    }
  }

  /** In a consistent registry the sender is none of the members of its room stored under
      another key, since every member is stored under its own id. */
  lemma SenderIsNoPeer(service: RoomService, client: Client)
    requires service.Valid()
    ensures client !in PeersIn(MembersOf(service.repo, client), client.id)
  {
    var members := MembersOf(service.repo, client);
    if members != map[] {
      assert service.repo.rooms[client.roomId].Valid();
    }
  }

  /** The members other than the newcomer of the room FindOrCreateRoom placed it in are
      the members the waiting room had, with their channels. */
  lemma PeersOfPlaced(repo: RoomRepository, client: Client, freshId: string, room: Room, lobby: Lobby,
                      channels: map<string, Channel>)
    requires Placed(repo, client, freshId, room, lobby)
    ensures PeersIn(room.clients, client.id) <= PeersIn(lobby.waitingMembers, client.id)
    ensures forall j :: j in room.clients && j != client.id ==>
              j in lobby.waitingMembers && room.clients[j] == lobby.waitingMembers[j]
    ensures AllUntouched(lobby.waitingMembers, channels, client.id) ==> AllUntouched(room.clients, channels, client.id)
  {
  }
}
