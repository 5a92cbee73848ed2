/** The in-memory signaling models of database/models.go: a connected client with its
    bounded send channel, and a room holding at most two clients. */
module Database {
  import opened Dto

  /** Buffer size of every client's send channel. */
  const SendCapacity: nat := 256
  /** Room capacity, hard-coded in AddClient. */
  const MaxClients: nat := 2

  /** The two Go run-time panics the signaling core can reach. */
  datatype Panic = CloseOfClosedChannel | SendOnClosedChannel

  /** How a step ended: normally, or in a panic that terminates the server process. */
  datatype Status = Done | Panicked(cause: Panic)

  /** A buffered Go channel of outbound messages: what is still buffered, oldest first,
      and whether close has been called on it. */
  datatype Channel = Channel(buffer: seq<Message>, closed: bool) {
    /** A buffered channel never holds more than its capacity. */
    ghost predicate Valid() {
      |buffer| <= SendCapacity
    }
  }

  /** Go's close(ch): the buffered messages stay readable, the channel is marked closed;
      closing a closed channel panics and changes nothing. */
  function CloseChannel(ch: Channel): (r: (Status, Channel))
    ensures r.1.closed && r.1.buffer == ch.buffer
    ensures r.0 == Done <==> !ch.closed
    ensures r.0 != Done ==> r == (Panicked(CloseOfClosedChannel), ch)
  {
    if ch.closed then (Panicked(CloseOfClosedChannel), ch) else (Done, ch.(closed := true))
  }

  /** A connected WebSocket client. The socket itself is not part of the model. */
  class Client {
    const id: string
    var roomId: string
    var username: string
    var send: Channel

    /** NewClient: no room yet and an empty, open send channel. */
    constructor (id: string, username: string)
      ensures this.id == id && this.username == username
      ensures roomId == "" && send == Channel([], false) && send.Valid()
    {
      this.id := id;
      this.username := username;
      roomId := "";
      send := Channel([], false);
    }
  }

  /** Every member is stored under its own client id. */
  ghost predicate KeysAreIds(members: map<string, Client>) {
    forall k :: k in members ==> members[k].id == k
  }

  /** Some member is stored under a key other than id. */
  ghost predicate HasOther(members: map<string, Client>, id: string) {
    exists k :: k in members && k != id
  }

  /** c is a member stored under a key other than id. */
  ghost predicate IsOther(members: map<string, Client>, id: string, c: Client) {
    exists k :: k in members && k != id && members[k] == c
  }

  /** The members after AddClient(client): unchanged when the room is full,
      otherwise the client is stored under its id (replacing an entry with that id). */
  function Admit(members: map<string, Client>, client: Client): map<string, Client> {
    if |members| >= MaxClients then members else members[client.id := client]
  }

  /** The members after AddClient is called with each of clients in turn. */
  function AdmitAll(members: map<string, Client>, clients: seq<Client>): map<string, Client>
    decreases |clients|
  {
    if clients == [] then members else AdmitAll(Admit(members, clients[0]), clients[1..])
  }

  /** No sequence of AddClient calls takes a room past two members, none of them ever
      loses its place, and every member stays stored under its own id. */
  lemma {:induction false} AdmitAllBounded(members: map<string, Client>, clients: seq<Client>)
    requires |members| <= MaxClients && KeysAreIds(members)
    ensures |AdmitAll(members, clients)| <= MaxClients
    ensures members.Keys <= AdmitAll(members, clients).Keys
    ensures KeysAreIds(AdmitAll(members, clients))
    decreases |clients|
  {
    if clients != [] {
      AdmitAllBounded(Admit(members, clients[0]), clients[1..]);
    }
  }

  /** In a room of at most two, seen by one of its members, the other member is unique:
      whichever key the map iteration visits first, GetOtherClient names the same client. */
  lemma OtherIsUnique(members: map<string, Client>, id: string, c1: Client, c2: Client)
    requires |members| <= MaxClients && KeysAreIds(members) && id in members
    requires IsOther(members, id, c1) && IsOther(members, id, c2)
    ensures c1 == c2
  {
    var k1 :| k1 in members && k1 != id && members[k1] == c1;
    var k2 :| k2 in members && k2 != id && members[k2] == c2;
    if k1 != k2 {
      var three := {id, k1, k2};
      assert |three| == 3;
      assert three <= members.Keys;
      SubsetCardinality(three, members.Keys);
      assert false;
    }
  }

  lemma {:induction false} SubsetCardinality<T>(small: set<T>, big: set<T>)
    requires small <= big
    ensures |small| <= |big|
    decreases |big|
  {
    if small != {} {
      var x :| x in small;
      SubsetCardinality(small - {x}, big - {x});
    }
  }

  /** The effect of room.RemoveClient(clientId): an absent id changes nothing; otherwise
      the member's channel is closed and then its entry is dropped, unless the channel was
      already closed, which panics before anything changes. */
  twostate predicate Removed(room: Room, clientId: string, status: Status)
    reads *
  {
    if clientId !in old(room.clients) then
      status == Done && room.clients == old(room.clients)
    else
      var c := old(room.clients[clientId]);
      && (status, c.send) == CloseChannel(old(c.send))
      && room.clients == if status == Done then old(room.clients) - {clientId} else old(room.clients)
  }

  /** A signaling room with at most two members. */
  class Room {
    const id: string
    var clients: map<string, Client>

    /** The room invariant: at most two members, each under its own id. */
    ghost predicate Valid()
      reads this`clients
    {
      |clients| <= MaxClients && KeysAreIds(clients)
    }

    /** NewRoom: an empty room. */
    constructor (id: string)
      ensures this.id == id && clients == map[] && Valid()
    {
      this.id := id;
      clients := map[];
    }

    /** AddClient refuses a third member without touching anything; otherwise it stores
        the client under its id and stamps the client with this room's id. */
    method AddClient(client: Client) returns (added: bool)
      modifies this`clients, client`roomId
      ensures added <==> |old(clients)| < MaxClients
      ensures clients == Admit(old(clients), client)
      ensures client.roomId == if added then id else old(client.roomId)
      ensures old(Valid()) ==> Valid()
    {
      if |clients| >= MaxClients {
        return false;
      }
      clients := clients[client.id := client];
      client.roomId := id;
      return true;
    }

    /** The client RemoveClient(clientId) closes, if that id is a member. */
    ghost function Member(clientId: string): set<Client>
      reads this`clients
    {
      if clientId in clients then {clients[clientId]} else {}
    }

    /** RemoveClient closes the departing member's channel and then drops its entry; an
        absent id changes nothing. Closing a channel that is already closed panics before
        the entry is dropped. */
    method RemoveClient(clientId: string) returns (status: Status)
      modifies this`clients, Member(clientId)`send
      ensures Removed(this, clientId, status)
      ensures |clients| <= |old(clients)|
      ensures old(Valid()) ==> Valid()
    {
      status := Done;
      if clientId in clients {
        var client := clients[clientId];
        var closed := CloseChannel(client.send);
        status, client.send := closed.0, closed.1;
        if status != Done {
          return;
        }
        clients := clients - {clientId};
        SubsetCardinality(clients.Keys, old(clients).Keys);
      }
    }

    /** GetOtherClient visits the members in an unspecified order and returns the first one
        stored under a key other than clientId, or null when there is none. */
    method GetOtherClient(clientId: string) returns (other: Client?)
      ensures other == null <==> !HasOther(clients, clientId)
      ensures other != null ==> IsOther(clients, clientId, other)
    {
      var ids := clients.Keys;
      while ids != {}
        invariant ids <= clients.Keys
        invariant forall k :: k in clients && k !in ids ==> k == clientId
        decreases ids
      {
        var k :| k in ids;
        if k != clientId {
          return clients[k];
        }
        ids := ids - {k};
      }
      return null;
    }

    /** IsFull: the member count has reached capacity (in a valid room: exactly two). */
    function IsFull(): (full: bool)
      reads this`clients
      ensures full <==> GetClientCount() >= MaxClients
      ensures Valid() ==> (full <==> GetClientCount() == MaxClients)
    {
      |clients| >= MaxClients
    }

    /** IsEmpty: the room has no member, so it cannot be full. */
    function IsEmpty(): (empty: bool)
      reads this`clients
      ensures empty <==> clients == map[]
      ensures empty ==> !IsFull()
    {
      |clients| == 0
    }

    /** GetClientCount: the number of member ids. */
    function GetClientCount(): (count: nat)
      reads this`clients
      ensures count == |clients.Keys|
    {
      |clients|
    }
  }
}
