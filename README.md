# Signaling core of a WebRTC pairing relay, in Dafny

The relay pairs browser clients two by two and passes WebRTC negotiation messages
(SDP offers and answers, ICE candidates) between the two members of a room. This project
models its in-memory core and proves what it does:

- **Dto** (`dto.dfy`): the signaling `Message` and its type constants. The opaque
  payload is a `Json` value.
- **Database** (`database.dfy`): a `Client` with its bounded send channel (capacity 256,
  modelled as a buffer plus a closed flag), and a `Room` of at most two clients keyed by
  client id.
- **Repository** (`repository.dfy`): the room registry. It maps room ids to rooms and has
  one waiting-room slot.
- **Pairing** (`pairing.dfy`): `FindOrCreateRoom`, the rendezvous, and
  `RemoveClientFromRoom`, the cleanup.
- **Signaling** (`signaling.dfy`): the dispatcher `HandleMessage` and its handlers for
  join, the three negotiation types and leave. It also contains `SendToClient`, the
  non-blocking send that closes a full queue.
- **Properties** (`properties.dfy`): consequences of the handlers' effects in the
  situations that matter. These cover the second joiner completing a pair, a relayed
  message reaching exactly the peer, leave not being idempotent, and the panic that
  follows a backpressure close.
- **Scenarios** (`scenarios.dfy`): two joins through the dispatcher, composed end to end
  into a paired room.

Every class mirrors a Go struct whose fields are updated in place. The methods of `Room`
and of the registry each hold one lock in the source, and each is one step in the model.
The service operations (`FindOrCreateRoom`, `handleJoin`, `handleLeave`) take several of
these locks one after the other; the model runs their steps in the same order with
no other call in between.

The two Go run-time panics the core can reach are outcomes: `Status` is either `Done` or
`Panicked(cause)`. The causes are closing a closed channel and sending on a closed
channel. A panicking step stops where Go would stop.

The registry invariant is `RoomService.Valid()`:
- every room is stored under its own id and holds at most two members, each under its own
  client id;
- no room sits under the empty id;
- every registered room has a member;
- a waiting room is registered and not full.

Every state-changing operation of the pairing service and the dispatcher requires this
invariant and preserves it.

Effects are stated against snapshots. A snapshot is a value of the part of the heap an
operation looks at: `Lobby` for a join, `Seat` and the members' channels for a leave or a
relay. The handlers' postconditions are predicates over these snapshots (`Placed`,
`Greeted`, `Relayed`, `Left`, `ClientRemoved`), and the lemmas in Properties take those
predicates as hypotheses.

Four behaviours of the code look unintended. The model keeps each of them as the code
has it:
- **Disconnect is not idempotent.** Cleaning up a client that is already gone would be
  expected to do nothing. In the code, `RemoveClientFromRoom` never clears the client's
  room id. A second leave, or a leave
  followed by the disconnect that always runs when the socket closes, finds the remaining
  peer again and sends it a second leave notice (`LeaveKeepsSeat`).
- **A stale client can still relay.** Its room id still names the old room, so it keeps
  reaching the peer that stayed (`LeaveKeepsSeat` gives the other member that the
  `RelayMessage` contract then delivers to).
- **Backpressure can crash the process.** A full queue is closed so that the slow
  connection gets dropped. In the code, the disconnect that follows closes the same channel a
  second time in `RemoveClient`, which panics (`ClosedQueueLeavePanics`). Any later send
  to that client panics as well.
- **A client that joins twice while waiting ends up alone.** It is added to its own
  waiting room under the same key, and the slot is cleared. The room stays registered with
  one member and can never be joined (`RejoinOrphansWaitingRoom`).

Room ids are UUIDs in the source. The model takes the new room's id as a parameter
(`freshId`), and like a UUID string it is never empty.

## Model

| member | source | states |
|---|---|---|
| Database.CloseChannel | database/models.go:75 | Go's close: the channel becomes closed with its buffer kept; closing an already closed channel panics and changes nothing |
| Database.Client.constructor | database/models.go:34-41 | a new client has the given id and username, no room id, and an empty open send channel |
| Database.Room.constructor | database/models.go:50-55 | a new room has the given id and no members, and is valid |
| Database.Room.AddClient | database/models.go:57-68 | refuses exactly when the room already has two members, and then changes neither the room nor the client; otherwise stores the client under its id and stamps it with the room id; preserves the room invariant |
| Database.AdmitAllBounded | database/models.go:57-68 | no sequence of AddClient calls takes a room past two members, none of them drops an existing member, and every member stays under its own id |
| Database.Room.RemoveClient | database/models.go:70-78 | an absent id changes nothing; a present member's channel is closed and then only that entry is deleted; an already closed channel panics before the entry is deleted; the member count never grows and the room invariant is kept |
| Database.Room.GetOtherClient | database/models.go:80-90 | returns null exactly when no member is stored under another key, and otherwise some member stored under another key; the room is not changed |
| Database.OtherIsUnique | database/models.go:80-90 | in a valid room that contains the caller, every member under another key is the same client, so the map iteration order does not matter |
| Database.Room.IsFull | database/models.go:92-96 | full exactly when the member count is at least two (exactly two in a valid room) |
| Database.Room.IsEmpty | database/models.go:98-102 | empty exactly when there is no member, and an empty room is not full |
| Database.Room.GetClientCount | database/models.go:104-108 | the number of member ids |
| Repository.RoomRepository.constructor | repository/room.go:14-18 | no rooms and no waiting room, and the registry invariant holds |
| Repository.RoomRepository.CreateRoom | repository/room.go:20-26 | registers a fresh empty room with the given id, replacing any earlier entry, with the other entries and the waiting slot unchanged |
| Repository.RoomRepository.GetRoom | repository/room.go:28-32 | the room stored under the id, or null exactly when the id is absent; in a valid registry that room carries the id and is valid |
| Repository.RoomRepository.DeleteRoom | repository/room.go:34-41 | only that id is removed (an absent id leaves the map unchanged); the waiting slot is cleared exactly when it held a room with that id; preserves the registry invariant |
| Repository.RoomRepository.GetRoomCount | repository/room.go:43-47 | the number of registered room ids |
| Repository.RoomRepository.GetWaitingRoom | repository/room.go:49-53 | the current waiting slot; in a valid registry a waiting room is registered under its id and not full |
| Repository.RoomRepository.SetWaitingRoom | repository/room.go:55-59 | replaces the waiting slot and leaves the map alone; keeps the invariant when the new room is registered and not full |
| Repository.RoomRepository.StoreRoom | repository/room.go:61-65 | sets the entry at the room's id and leaves the waiting slot alone |
| Pairing.RoomService.constructor | service/room.go:15-17 | the service uses the given registry |
| Pairing.RoomService.FindOrCreateRoom | service/room.go:19-37 | a waiting room with a free place gets the client and the slot is cleared; otherwise a new room under the fresh id gets the client as its only member and becomes the waiting room; either way the client is a member stamped with the room's id, and the service invariant is kept |
| Pairing.WaitingRoomHasOneMember | service/room.go:22-33 | in a consistent registry the waiting room holds exactly one client |
| Pairing.RoomService.GetRoom | service/room.go:39-41 | delegates to the registry, and the empty id finds no room |
| Pairing.RoomService.RemoveClientFromRoom | service/room.go:43-60 | nothing happens without a room id or for an unregistered room; otherwise the client is removed from its room, and the room is deleted exactly when it is then empty; the client's room id is never cleared; the service invariant is kept |
| Pairing.RoomService.GetRoomCount | service/room.go:62-64 | delegates to the registry |
| Signaling.Enqueue | service/signaling.go:119-124 | a send on a closed channel panics; otherwise the message is appended when there is a free slot, and when the buffer is full it is dropped and the channel closed; the capacity bound is kept |
| Signaling.Backpressure | service/signaling.go:119-124 | to a stalled consumer, the messages that fit are buffered in order, the first one that does not fit closes the channel, and every send after that panics |
| Signaling.SignalingService.constructor | service/signaling.go:16-20 | the dispatcher uses the given pairing service |
| Signaling.SignalingService.SendToClient | service/signaling.go:112-125 | one Enqueue on the receiver's channel and nothing else |
| Signaling.SignalingService.HandleMessage | service/signaling.go:22-43 | a frame that does not parse gives an error and changes nothing; otherwise the message is stamped with the sender's id and has the effect of its handler (join, relay or leave), and an unknown type is ignored and changes nothing; each kind of message may change only what its own handler changes; the invariant is kept |
| Signaling.SignalingService.HandleJoin | service/signaling.go:45-77 | the username is replaced only by a non-empty one; the client is placed as FindOrCreateRoom places it, in a newly allocated room when nobody was waiting with a free place; it is sent the ready notice, and when the room is full the peer's join notice follows and the peer then gets the client's; the first panic ends the sends |
| Signaling.SignalingService.TakeUsername | service/signaling.go:46-48 | a non-empty username in the message replaces the client's, and nothing the rest of the join reads changes |
| Signaling.SignalingService.Greet | service/signaling.go:52-76 | the sends of a join once the room is known, one after the other, the first panic ending them; members not written keep their channels |
| Signaling.SignalingService.RelayMessage | service/signaling.go:95-110 | with no registered room or no other member, nothing is sent; otherwise a member under another key is sent the message addressed to it, and no other channel changes |
| Signaling.SignalingService.HandleLeave | service/signaling.go:79-93 | when the room has another member, it is sent a leave notice from the client first; unless that send panics, RemoveClientFromRoom runs; the client keeps its room id; the invariant is kept |
| Signaling.SignalingService.DisconnectClient | service/signaling.go:127-129 | the same effect as a leave |
| Properties.FirstJoinWaits | service/signaling.go:45-58 | a joiner who finds no free waiting room opens a room under the fresh id, waits in it alone, and is sent only the ready notice |
| Properties.SecondJoinPairs | service/signaling.go:59-72 | a joiner who finds one peer waiting completes the pair and clears the slot; it is sent ready and then the peer's join notice, and then the peer is sent the joiner's join notice, the first panic ending the sequence |
| Properties.SecondJoinDelivers | service/signaling.go:52-72 | with room in both queues, all three sends go through: ready then the peer's join notice for the joiner, the joiner's join notice for the peer |
| Properties.RelayReachesThePeer | service/signaling.go:102-109 | in a valid room containing the sender, the relayed message goes to the one other member, addressed to it, with sender, type and payload unchanged, and no other queue changes |
| Properties.LeaveKeepsSeat | service/room.go:43-60 | after a successful leave from a room that had another member, the client keeps the room id, the room stays registered with the remaining members, so a second leave notifies that member again |
| Properties.ClosedQueueLeavePanics | database/models.go:70-78 | a client whose queue is already closed cannot leave its room without a panic, and the registry stays as it was |
| Scenarios.TwoJoinsPair | service/signaling.go:45-77 | two joins on an empty relay, with empty queues, both succeed; they share one full room under the first fresh id, nobody is left waiting, and each client's queue holds the ready notice followed by the other's join notice |
| Properties.RejoinOrphansWaitingRoom | service/room.go:19-27 | a waiting client that joins again is added to its own room under the same key; the slot is cleared while the room stays registered with one member |

## Left out

- Socket I/O, the read and write pumps and their newline batching: these are goroutines that talk to the network. Nothing drains a send channel in the model.
- Locks and concurrency: calls are sequential, and the steps of one service operation run with no other call in between. The race between two joiners in FindOrCreateRoom, which reads the waiting room and then takes the registry lock again, is therefore not modelled.
- JSON encoding and decoding: a parsed frame is given as an `Option<Message>`, and a message is enqueued as the value it would be marshalled from. The marshal error branch of sendToClient cannot be reached from the model.
- JSON normalisation of the payload: Go decodes the payload and encodes it again, so numbers come back as float64 and object keys in sorted order. The model relays the same `Json` value, so the peer gets the same value, not the same bytes.
- UUID generation: the new room's id is a parameter; only non-emptiness is assumed of it.
- Logging, authentication, configuration, HTTP routing and database migrations: none of them is part of the signaling core.
- What happens after a panic: in Go the process dies. The model only reports the panic and the state at that point.
