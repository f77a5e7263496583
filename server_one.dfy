/** The room registry and socket handlers of server.js. The `rooms` object
    is a map from room id to room; each handler takes the requesting
    socket's id and the request's fields as parameters. The deck shuffle
    is a parameter too. */
module ServerOne {
  import opened Deck
  import opened Game
  import opened Rooms

  /** One entry of the lobby list. */
  datatype RoomSummary = RoomSummary(id: RoomId, title: string, players: nat, max: int, status: string)

  function Summarize(r: Room): RoomSummary
    reads r
  {
    RoomSummary(r.id, r.title, |r.players|, r.maxPlayers, if r.started then InProgress else Waiting)
  }

  /** The loop of the disconnect handler over every room: each room frees
      the socket's first seat; the result is the set of rooms to delete. */
  method LeaveAll(all: map<RoomId, Room>, socket: SocketId) returns (closed: set<RoomId>)
    requires forall k :: k in all ==> all[k].id == k && all[k].Valid()
    modifies all.Values
    ensures forall k :: k in all ==> all[k].Valid()
    ensures forall k :: k in all ==> all[k].State() == old(all[k].State()).(players := RemoveFirst(old(all[k].players), socket))
    ensures forall k :: k in closed <==> k in all && ClosesRoom(old(all[k].players), all[k].host, socket)
  {
    var todo := all.Keys;
    closed := {};
    while todo != {}
      invariant todo <= all.Keys && closed !! todo
      invariant forall k :: k in all ==> all[k].Valid()
      invariant forall k :: k in todo ==> all[k].State() == old(all[k].State())
      invariant forall k :: k in all && k !in todo ==> all[k].State() == old(all[k].State()).(players := RemoveFirst(old(all[k].players), socket))
      invariant forall k :: k in closed <==> k in all && k !in todo && ClosesRoom(old(all[k].players), all[k].host, socket)
      decreases todo
    {
      var k :| k in todo;
      var closes := all[k].Leave(socket);
      if closes {
        closed := closed + {k};
      }
      todo := todo - {k};
    }
  }

  class Server {
    var rooms: map<RoomId, Room>

    /** Every room is filed under its own id. */
    ghost predicate Filed()
      reads this, rooms.Values
    {
      forall k :: k in rooms ==> rooms[k].id == k
    }

    /** Every room is filed under its own id and keeps the room invariant. */
    ghost predicate Valid()
      reads this, rooms.Values
    {
      Filed() && forall k :: k in rooms ==> rooms[k].Valid()
    }

    constructor ()
      ensures Valid() && rooms == map[]
    {
      rooms := map[];
    }

    /** `createRoom`: a new room under `id`, replacing any room already filed
        there, with the creator as host and only player. */
    method CreateRoom(id: RoomId, socket: SocketId, nickname: string, title: string, maxPlayers: int, mode: string)
      returns (room: Room)
      requires Valid()
      modifies this
      ensures Valid() && fresh(room)
      ensures rooms == old(rooms)[id := room]
      ensures room.id == id && room.host == socket
      ensures room.title == OrDefault(title, DefaultTitle) && room.mode == OrDefault(mode, DefaultMode)
      ensures room.maxPlayers == MaxOrDefault(maxPlayers)
      ensures room.State() == NewRoom(Player(socket, nickname, 0))
    {
      room := new Room(id, OrDefault(title, DefaultTitle), OrDefault(mode, DefaultMode),
                       MaxOrDefault(maxPlayers), socket, []);
      rooms := rooms[id := room];
      room.AddPlayer(Player(socket, nickname, 0));
    }

    /** `getRoomList`: the summary of every room, each room exactly once. */
    method GetRoomList() returns (list: seq<RoomSummary>)
      requires Filed()
      ensures |list| == |rooms.Keys|
      ensures forall i :: 0 <= i < |list| ==> list[i].id in rooms && list[i] == Summarize(rooms[list[i].id])
      ensures forall k :: k in rooms ==> exists i :: 0 <= i < |list| && list[i].id == k
      ensures forall i, j :: 0 <= i < j < |list| ==> list[i].id != list[j].id
    {
      var ids := KeyOrder(rooms);
      list := [];
      for t := 0 to |ids|
        invariant |list| == t
        invariant forall i :: 0 <= i < t ==> list[i] == Summarize(rooms[ids[i]]) && list[i].id == ids[i]
      {
        list := list + [Summarize(rooms[ids[t]])];
      }
      forall k | k in rooms ensures exists i :: 0 <= i < |list| && list[i].id == k {
        var i :| 0 <= i < |ids| && ids[i] == k;
        assert list[i].id == k;
      }
    }

    /** `joinRoom`: a missing or full room is left alone; otherwise the
        socket takes the last seat with score 0, and filling the room starts
        the game. */
    method JoinRoom(roomId: RoomId, socket: SocketId, nickname: string, ex: seq<Exchange>) returns (joined: bool)
      requires Valid()
      modifies if roomId in rooms then {rooms[roomId]} else {}
      ensures Valid() && rooms == old(rooms)
      ensures joined <==> roomId in rooms && |old(rooms[roomId].players)| < rooms[roomId].maxPlayers
      ensures roomId in rooms && !joined ==> rooms[roomId].State() == old(rooms[roomId].State())
      ensures joined ==>
        var r := rooms[roomId];
        var seated := old(r.State()).(players := old(r.players) + [Player(socket, nickname, 0)]);
        r.State() == if |seated.players| == r.maxPlayers then Game.StartGame(seated, NumberDeck(ex)) else seated
    {
      if roomId !in rooms {
        return false;
      }
      var room := rooms[roomId];
      if |room.players| >= room.maxPlayers {
        return false;
      }
      room.AddPlayer(Player(socket, nickname, 0));
      joined := true;
      if |room.players| == room.maxPlayers {
        StartGame(roomId, ex);
      }
    }

    /** The `startGame` handler: only the host of an existing room may start it. */
    method RequestStart(roomId: RoomId, socket: SocketId, ex: seq<Exchange>)
      requires Valid()
      modifies if roomId in rooms then {rooms[roomId]} else {}
      ensures Valid() && rooms == old(rooms)
      ensures roomId in rooms && socket != rooms[roomId].host ==>
                rooms[roomId].State() == old(rooms[roomId].State())
      ensures roomId in rooms && socket == rooms[roomId].host ==>
                rooms[roomId].State() == Game.StartGame(old(rooms[roomId].State()), NumberDeck(ex))
    {
      if roomId !in rooms {
        return;
      }
      if socket != rooms[roomId].host {
        return;
      }
      StartGame(roomId, ex);
    }

    /** The `startGame` function: nothing for a missing room. */
    method StartGame(roomId: RoomId, ex: seq<Exchange>)
      requires Valid()
      modifies if roomId in rooms then {rooms[roomId]} else {}
      ensures Valid() && rooms == old(rooms)
      ensures roomId in rooms ==>
                rooms[roomId].State() == Game.StartGame(old(rooms[roomId].State()), NumberDeck(ex))
    {
      if roomId !in rooms {
        return;
      }
      rooms[roomId].StartGame(ex);
    }

    /** The `flipCard` handler: a missing room rejects the flip. */
    method FlipCard(roomId: RoomId, index: int) returns (outcome: Outcome)
      requires Valid()
      modifies if roomId in rooms then {rooms[roomId]} else {}
      ensures Valid() && rooms == old(rooms)
      ensures roomId !in rooms ==> outcome == Rejected
      ensures roomId in rooms ==>
                Step(rooms[roomId].State(), outcome) == Game.Flip(old(rooms[roomId].State()), index)
    {
      if roomId !in rooms {
        return Rejected;
      }
      outcome := rooms[roomId].Flip(index);
    }

    /** The `setTimeout` callback a mismatch in a filed room scheduled. */
    method FlipBack(roomId: RoomId)
      requires Valid() && roomId in rooms && rooms[roomId].pending != []
      modifies rooms[roomId]
      ensures Valid() && rooms == old(rooms)
      ensures rooms[roomId].State() == Game.FlipBack(old(rooms[roomId].State()))
    {
      rooms[roomId].FlipBack();
    }

    /** The `disconnect` handler: in every room, the first seat of the socket
        is freed, and a room it held a seat in is deleted when the leaver was
        the host or the room is now empty. */
    method Disconnect(socket: SocketId)
      requires Valid()
      modifies this, rooms.Values
      ensures Valid()
      ensures rooms.Keys <= old(rooms).Keys
      ensures forall k :: k in old(rooms) ==>
        var r := old(rooms)[k];
        && r.State() == old(r.State()).(players := RemoveFirst(old(r.players), socket))
        && (k in rooms <==> !ClosesRoom(old(r.players), r.host, socket))
        && (k in rooms ==> rooms[k] == r)
    {
      var closed := LeaveAll(rooms, socket);
      rooms := rooms - closed;
    }
  }
}
