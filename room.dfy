/** The room record both servers keep in `rooms[id]`, with the handler steps
    that change it in place. Each method follows the source statement by
    statement and is proved to end in the state the matching function of
    module Game computes. */
module Rooms {
  import opened Deck
  import opened Game

  type RoomId = string

  /** Defaults `createRoom` substitutes for a missing (falsy) field. */
  const DefaultTitle: string := "메모리 게임"
  const DefaultMode: string := "number"
  const DefaultMaxPlayers: int := 4

  /** The lobby status text of a room. */
  const InProgress: string := "진행중"
  const Waiting: string := "대기중"

  /** `s || fallback` for a string, where the empty string stands for every
      falsy value the client may send: a given value is kept, and with a
      non-empty fallback the result is never falsy. */
  function OrDefault(s: string, fallback: string): (r: string)
    ensures r == s || r == fallback
    ensures s != "" ==> r == s
    ensures fallback != "" ==> r != ""
  {
    if s == "" then fallback else s
  }

  /** `maxPlayers || 4`, where 0 stands for every falsy value: a given limit
      is kept and the result is never falsy. */
  function MaxOrDefault(m: int): (r: int)
    ensures r == m || r == DefaultMaxPlayers
    ensures m != 0 ==> r == m
    ensures r != 0
  {
    if m == 0 then DefaultMaxPlayers else m
  }

  /** The disconnect handler of server.js deletes a room it has taken a seat from when the
      leaver was the host or nobody is left. */
  predicate ClosesRoom(players: seq<Player>, host: SocketId, socket: SocketId) {
    FindIndex(players, socket) != -1 && (host == socket || |RemoveFirst(players, socket)| == 0)
  }

  /** A departure closes a room exactly when the socket held a seat there
      and either was the host or held the only seat. */
  lemma ClosesRoomMeans(players: seq<Player>, host: SocketId, socket: SocketId)
    ensures ClosesRoom(players, host, socket) <==>
              (exists k :: 0 <= k < |players| && players[k].id == socket)
              && (host == socket || |players| == 1)
  {
    RemoveFirstDropsOneSeat(players, socket);
  }

  /** The ids of `rooms` in the order `Object.values(rooms)` visits them:
      every filed id exactly once, in an order the model leaves open. */
  method KeyOrder<V>(rooms: map<RoomId, V>) returns (ids: seq<RoomId>)
    ensures |ids| == |rooms.Keys|
    ensures forall k :: k in ids <==> k in rooms
    ensures Distinct(ids)
  {
    ids := [];
    var todo := rooms.Keys;
    while todo != {}
      invariant todo <= rooms.Keys
      invariant forall k :: k in ids <==> k in rooms && k !in todo
      invariant Distinct(ids)
      decreases todo
    {
      var k :| k in todo;
      ids := ids + [k];
      todo := todo - {k};
    }
    assert (set k | k in ids) == rooms.Keys;
    DistinctSetSize(ids);
  }

  /** A sequence without repeats has as many distinct members as entries. */
  lemma {:induction false} DistinctSetSize<T>(s: seq<T>)
    requires Distinct(s)
    ensures |set x | x in s| == |s|
  {
    if s != [] {
      var init := s[..|s| - 1];
      DistinctSetSize(init);
      assert (set x | x in s) == (set x | x in init) + {s[|s| - 1]};
    }
  }

  class Room {
    const id: RoomId
    const title: string
    const mode: string
    const maxPlayers: int
    const host: SocketId
    var started: bool
    var turn: int
    var currentPlayer: Seat
    var combo: int
    var openCards: seq<int>
    var cards: seq<Card>
    var players: seq<Player>
    /** The flip-backs `setTimeout` has scheduled for this room and that have
        not run yet, oldest first. */
    var pending: seq<Mismatch>

    function State(): RoomState
      reads this
    {
      RoomState(started, turn, currentPlayer, combo, openCards, cards, players, pending)
    }

    ghost predicate Valid()
      reads this
    {
      Inv(State())
    }

    /** The record literal of `createRoom`: not started, turn 1, seat 0,
        streak 0, no cards and the given players. */
    constructor (id: RoomId, title: string, mode: string, maxPlayers: int, host: SocketId, players: seq<Player>)
      requires forall p :: p in players ==> p.score == 0
      ensures Valid()
      ensures this.id == id && this.title == title && this.mode == mode
      ensures this.maxPlayers == maxPlayers && this.host == host
      ensures State() == RoomState(false, 1, At(0), 0, [], [], players, [])
    {
      this.id := id;
      this.title := title;
      this.mode := mode;
      this.maxPlayers := maxPlayers;
      this.host := host;
      started := false;
      turn := 1;
      currentPlayer := At(0);
      combo := 0;
      openCards := [];
      cards := [];
      this.players := players;
      pending := [];
    }

    /** `room.players.push({ id, name, score: 0 })`. */
    method AddPlayer(p: Player)
      requires Valid() && p.score == 0
      modifies this
      ensures Valid()
      ensures State() == old(State()).(players := old(players) + [p])
    {
      players := players + [p];
    }

    /** The body of the `flipCard` handler up to its broadcast. */
    method Flip(index: int) returns (outcome: Outcome)
      requires Valid()
      modifies this
      ensures Valid()
      ensures Step(State(), outcome) == Game.Flip(old(State()), index)
    {
      if !started {
        return Rejected;
      }
      if !(0 <= index < |cards|) || cards[index].open || cards[index].removed {
        return Rejected;
      }
      cards := cards[index := cards[index].(open := true)];
      openCards := openCards + [index];
      outcome := Opened;
      if |openCards| == 2 {
        outcome := Resolve();
      }
    }

    /** The block of the `flipCard` handler that runs when the flip left
        exactly two cards open. */
    method Resolve() returns (outcome: Outcome)
      requires |openCards| == 2 && pending == [] && OpenIndicesFit(State())
      modifies this
      ensures Step(State(), outcome) == Game.Resolve(old(State()))
    {
      var a, b := openCards[0], openCards[1];
      if cards[a].value == cards[b].value {
        cards := cards[a := cards[a].(removed := true)];
        cards := cards[b := cards[b].(removed := true)];
        combo := combo + 1;
        if currentPlayer.At? && currentPlayer.index < |players| {
          var p := currentPlayer.index;
          players := players[p := players[p].(score := players[p].score + combo)];
          openCards := [];
          outcome := Matched(combo);
        } else {
          // `players[currentPlayer]` is undefined: reading `.score` throws.
          outcome := Crashed;
        }
      } else {
        combo := 0;
        pending := pending + [Mismatch(a, b)];
        outcome := Mismatched;
      }
    }

    /** The `setTimeout` callback of a mismatch, run as its own step: close
        both cards, forget the open cards, pass the turn on. */
    method FlipBack()
      requires Valid() && pending != []
      modifies this
      ensures Valid()
      ensures State() == Game.FlipBack(old(State()))
    {
      var m := pending[0];
      cards := cards[m.first := cards[m.first].(open := false)];
      cards := cards[m.second := cards[m.second].(open := false)];
      openCards := [];
      if |players| == 0 {
        currentPlayer := NaN;
      } else if currentPlayer.At? {
        currentPlayer := At((currentPlayer.index + 1) % |players|);
      }
      if currentPlayer == At(0) {
        turn := turn + 1;
      }
      pending := pending[1..];
    }

    /** `startGame` of server.js once the room is found. */
    method StartGame(ex: seq<Exchange>)
      requires Valid()
      modifies this
      ensures Valid()
      ensures State() == Game.StartGame(old(State()), NumberDeck(ex))
    {
      if started {
        return;
      }
      var deck := CreateDeck(ex);
      ghost var before := State();
      started := true;
      cards := deck;
      turn := 1;
      currentPlayer := At(0);
      combo := 0;
      openCards := [];
      assert State() == Game.StartGame(before, deck);
    }

    /** `startGame` of server/server.js once the room is found: the deck
        follows the room's mode and `openCards` is left alone. */
    method StartGameKeepingOpenCards(ex: seq<Exchange>)
      requires Valid()
      modifies this
      ensures Valid()
      ensures State() == Game.StartGameKeepingOpenCards(old(State()), ModeDeck(mode, ex))
    {
      if started {
        return;
      }
      started := true;
      cards := CreateModeDeck(mode, ex);
      turn := 1;
      currentPlayer := At(0);
      combo := 0;
    }

    /** The game-end block of server/server.js. */
    method EndIfCleared() returns (ranking: Option<seq<Standing>>)
      requires Valid()
      modifies this
      ensures Valid()
      ensures (State(), ranking) == Game.EndIfCleared(old(State()))
    {
      ranking := None;
      var k := 0;
      while k < |cards| && cards[k].removed
        invariant 0 <= k <= |cards|
        invariant forall j :: 0 <= j < k ==> cards[j].removed
      {
        k := k + 1;
      }
      if k == |cards| {
        ranking := Some(Ranking(State()));
        started := false;
      }
    }

    /** server.js on disconnect: drop the first seat the socket holds. */
    method RemoveFirstPlayer(socket: SocketId) returns (found: bool)
      requires Valid()
      modifies this
      ensures Valid()
      ensures found <==> FindIndex(old(players), socket) != -1
      ensures State() == old(State()).(players := RemoveFirst(old(players), socket))
    {
      var idx := FindIndex(players, socket);
      found := idx != -1;
      if found {
        players := players[..idx] + players[idx + 1..];
      }
    }

    /** server.js on disconnect, for one room: drop the first seat the socket
        holds, and tell whether that closes the room. */
    method Leave(socket: SocketId) returns (closes: bool)
      requires Valid()
      modifies this
      ensures Valid()
      ensures closes <==> ClosesRoom(old(players), host, socket)
      ensures State() == old(State()).(players := RemoveFirst(old(players), socket))
    {
      var found := RemoveFirstPlayer(socket);
      closes := found && (host == socket || |players| == 0);
    }

    /** server/server.js on disconnect: drop every seat the socket holds. */
    method RemovePlayers(socket: SocketId)
      requires Valid()
      modifies this
      ensures Valid()
      ensures State() == old(State()).(players := Without(old(players), socket))
    {
      forall p | p in Without(players, socket)
        ensures p.score >= 0
      {
        WithoutCounts(players, socket, p);
      }
      players := Without(players, socket);
    }
  }
}
