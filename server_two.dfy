/** The room registry and socket handlers of server/server.js. Compared
    with server.js: the lobby list shows each room's mode, the creator is
    seated by the record literal itself, the deck follows the room's mode,
    starting a game leaves `openCards` alone, a flip that clears the board
    ends the game with a ranking, and a disconnect removes every seat of the
    socket but never deletes a room. */
module ServerTwo {
  import opened Deck
  import opened Game
  import opened Rooms

  /** One entry of the lobby list. */
  datatype RoomSummary = RoomSummary(id: RoomId, title: string, players: nat, max: int, mode: string, status: string)

  function Summarize(r: Room): RoomSummary
    reads r
  {
    RoomSummary(r.id, r.title, |r.players|, r.maxPlayers, r.mode, if r.started then InProgress else Waiting)
  }

  /** The loop of the disconnect handler over every room: each room drops
      every seat the socket holds. */
  method FilterAll(all: map<RoomId, Room>, socket: SocketId)
    requires forall k :: k in all ==> all[k].id == k && all[k].Valid()
    modifies all.Values
    ensures forall k :: k in all ==> all[k].Valid()
    ensures forall k :: k in all ==> all[k].State() == old(all[k].State()).(players := Without(old(all[k].players), socket))
  {
    var todo := all.Keys;
    while todo != {}
      invariant todo <= all.Keys
      invariant forall k :: k in all ==> all[k].Valid()
      invariant forall k :: k in todo ==> all[k].State() == old(all[k].State())
      invariant forall k :: k in all && k !in todo ==> all[k].State() == old(all[k].State()).(players := Without(old(all[k].players), socket))
      decreases todo
    {
      var k :| k in todo;
      all[k].RemovePlayers(socket);
      todo := todo - {k};
    }
  }

  class Server {
    var rooms: map<RoomId, Room>

    /** Every room is filed under its own id. */
    ghost predicate Filed()
      reads this, rooms.Values
    {
      forall k :: k in rooms ==> rooms[k].id == k
    }

    /** Every room is filed under its own id and keeps the room invariant. */
    ghost predicate Valid()
      reads this, rooms.Values
    {
      Filed() && forall k :: k in rooms ==> rooms[k].Valid()
    }

    constructor ()
      ensures Valid() && rooms == map[]
    {
      rooms := map[];
    }

    /** `createRoom`: a new room under `id`, replacing any room already filed
        there, with the creator as host and only player. */
    method CreateRoom(id: RoomId, socket: SocketId, nickname: string, title: string, maxPlayers: int, mode: string)
      returns (room: Room)
      requires Valid()
      modifies this
      ensures Valid() && fresh(room)
      ensures rooms == old(rooms)[id := room]
      ensures room.id == id && room.host == socket
      ensures room.title == OrDefault(title, DefaultTitle) && room.mode == OrDefault(mode, DefaultMode)
      ensures room.maxPlayers == MaxOrDefault(maxPlayers)
      ensures room.State() == NewRoom(Player(socket, nickname, 0))
    {
      room := new Room(id, OrDefault(title, DefaultTitle), OrDefault(mode, DefaultMode),
                       MaxOrDefault(maxPlayers), socket, [Player(socket, nickname, 0)]);
      rooms := rooms[id := room];
    }

    /** `getRoomList`: the summary of every room, each room exactly once. */
    method GetRoomList() returns (list: seq<RoomSummary>)
      requires Filed()
      ensures |list| == |rooms.Keys|
      ensures forall i :: 0 <= i < |list| ==> list[i].id in rooms && list[i] == Summarize(rooms[list[i].id])
      ensures forall k :: k in rooms ==> exists i :: 0 <= i < |list| && list[i].id == k
      ensures forall i, j :: 0 <= i < j < |list| ==> list[i].id != list[j].id
    {
      var ids := KeyOrder(rooms);
      list := [];
      for t := 0 to |ids|
        invariant |list| == t
        invariant forall i :: 0 <= i < t ==> list[i] == Summarize(rooms[ids[i]]) && list[i].id == ids[i]
      {
        list := list + [Summarize(rooms[ids[t]])];
      }
      forall k | k in rooms ensures exists i :: 0 <= i < |list| && list[i].id == k {
        var i :| 0 <= i < |ids| && ids[i] == k;
        assert list[i].id == k;
      }
    }

    /** `joinRoom`: a missing or full room is left alone; otherwise the
        socket takes the last seat with score 0, and filling the room starts
        the game with a deck of the room's mode. */
    method JoinRoom(roomId: RoomId, socket: SocketId, nickname: string, ex: seq<Exchange>) returns (joined: bool)
      requires Valid()
      modifies if roomId in rooms then {rooms[roomId]} else {}
      ensures Valid() && rooms == old(rooms)
      ensures joined <==> roomId in rooms && |old(rooms[roomId].players)| < rooms[roomId].maxPlayers
      ensures roomId in rooms && !joined ==> rooms[roomId].State() == old(rooms[roomId].State())
      ensures joined ==>
        var r := rooms[roomId];
        var seated := old(r.State()).(players := old(r.players) + [Player(socket, nickname, 0)]);
        r.State() == if |seated.players| == r.maxPlayers
                     then StartGameKeepingOpenCards(seated, ModeDeck(r.mode, ex))
                     else seated
    {
      if roomId !in rooms {
        return false;
      }
      var room := rooms[roomId];
      if |room.players| >= room.maxPlayers {
        return false;
      }
      room.AddPlayer(Player(socket, nickname, 0));
      joined := true;
      if |room.players| == room.maxPlayers {
        StartGame(roomId, ex);
      }
    }

    /** The `startGame` handler: only the host of an existing room may start it. */
    method RequestStart(roomId: RoomId, socket: SocketId, ex: seq<Exchange>)
      requires Valid()
      modifies if roomId in rooms then {rooms[roomId]} else {}
      ensures Valid() && rooms == old(rooms)
      ensures roomId in rooms && socket != rooms[roomId].host ==>
                rooms[roomId].State() == old(rooms[roomId].State())
      ensures roomId in rooms && socket == rooms[roomId].host ==>
                rooms[roomId].State() ==
                  StartGameKeepingOpenCards(old(rooms[roomId].State()), ModeDeck(rooms[roomId].mode, ex))
    {
      if roomId !in rooms {
        return;
      }
      if socket != rooms[roomId].host {
        return;
      }
      StartGame(roomId, ex);
    }

    /** The `startGame` function: nothing for a missing room. */
    method StartGame(roomId: RoomId, ex: seq<Exchange>)
      requires Valid()
      modifies if roomId in rooms then {rooms[roomId]} else {}
      ensures Valid() && rooms == old(rooms)
      ensures roomId in rooms ==>
                rooms[roomId].State() ==
                  StartGameKeepingOpenCards(old(rooms[roomId].State()), ModeDeck(rooms[roomId].mode, ex))
    {
      if roomId !in rooms {
        return;
      }
      rooms[roomId].StartGameKeepingOpenCards(ex);
    }

    /** The `flipCard` handler: a missing room rejects the flip; a flip that
        was neither rejected nor thrown is followed by the game-end check,
        whose ranking is broadcast. */
    method FlipCard(roomId: RoomId, index: int) returns (outcome: Outcome, ranking: Option<seq<Standing>>)
      requires Valid()
      modifies if roomId in rooms then {rooms[roomId]} else {}
      ensures Valid() && rooms == old(rooms)
      ensures roomId !in rooms ==> outcome == Rejected && ranking == None
      ensures roomId in rooms ==>
                (Step(rooms[roomId].State(), outcome), ranking) == FlipWithGameEnd(old(rooms[roomId].State()), index)
    {
      if roomId !in rooms {
        return Rejected, None;
      }
      var room := rooms[roomId];
      outcome := room.Flip(index);
      ranking := None;
      if outcome != Rejected && outcome != Crashed {
        ranking := room.EndIfCleared();
      }
    }

    /** The `setTimeout` callback a mismatch in a filed room scheduled. */
    method FlipBack(roomId: RoomId)
      requires Valid() && roomId in rooms && rooms[roomId].pending != []
      modifies rooms[roomId]
      ensures Valid() && rooms == old(rooms)
      ensures rooms[roomId].State() == Game.FlipBack(old(rooms[roomId].State()))
    {
      rooms[roomId].FlipBack();
    }

    /** The `disconnect` handler: every room drops every seat of the socket;
        no room is deleted. */
    method Disconnect(socket: SocketId)
      requires Valid()
      modifies rooms.Values
      ensures Valid() && rooms == old(rooms)
      ensures forall k :: k in rooms ==>
                rooms[k].State() == old(rooms[k].State()).(players := Without(old(rooms[k].players), socket))
    {
      FilterAll(rooms, socket);
    }
  }
}
