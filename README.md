# memoryGame rooms in Dafny

This project models the game-room state machine of the memoryGame server.
It covers both server variants: `server.js` (server one) and
`server/server.js` (server two). Each variant keeps a `rooms` dictionary of
rooms and answers socket events with these handlers:

- `createRoom`, `joinRoom` and the host-only `startGame`;
- `flipCard` and its 800 ms mismatch timer;
- `disconnect`;
- `getRoomList`, which builds the lobby list.

The model has five modules:

- **Deck** (`deck.dfy`): card values and cards. `CreateDeck` (server one)
  and `CreateModeDeck` (server two, number or emoji mode) build the value
  list with a push loop, or in emoji mode with a slice of the emoji list. The array is shuffled in place by a sequence
  of exchanges, then dealt face down. Each method is proved equal to a
  specification function, and each value is proved to lie on exactly two
  of the 48 cards.
- **Game** (`game.dfy`): the room state as a value (`RoomState`) with one
  pure function per step (`Flip`, `FlipBack`, `StartGame`,
  `StartGameKeepingOpenCards`, `EndIfCleared`). It also holds the room
  invariant `Inv` that every step keeps, and the lemmas about step
  sequences.
- **Rooms** (`room.dfy`): `Room`, a class with the record's fields. Its
  methods update the room in place, statement by statement as the
  handlers do. Each one is proved to reach the state the matching Game
  function computes.
- **ServerOne** (`server_one.dfy`) and **ServerTwo** (`server_two.dfy`):
  the `rooms` map of each variant and its handlers.

Behaviour kept as the code has it:

- **No turn check.** A flip takes no player, so anyone may flip.
- **A third open card.** A flip made while a mismatch waits for its timer
  is pushed as a third entry of `openCards`. The timer closes only the
  mismatched pair, so that card stays face up and cannot be flipped again
  (`ThirdFlipStaysOpen`).
- **The timer is its own step.** A room keeps its scheduled flip-backs in
  `pending`, and `FlipBack` runs the oldest one.
- **A seat can go stale.** Neither disconnect handler moves
  `currentPlayer`, so it can point past the end of `players`.
  - A match on a stale seat throws when the score is read. At that point
    the pair is already removed and the streak already raised, but
    `openCards` still holds both indices. The outcome is `Crashed`, with
    the state as it was at the throw (`StaleSeatThrows`).
- **The seat can become NaN.** With no players left,
  `(currentPlayer + 1) % 0` gives NaN in JavaScript. This is the `NaN`
  seat.
- **Joins.** Joining is allowed while a game runs.
- **Ranking.** The ranking lists players in seat order, unsorted.
- **Room ids.** The id is a parameter and nothing checks it for a
  collision, so creating a room under an existing id replaces that room.
- **Server one deletes rooms.** Its disconnect handler deletes a room when
  the leaver held a seat there and was the host, or left it empty. Server
  two never deletes a room.
- **Server two keeps `openCards` on start.** Its `startGame` leaves
  `openCards` as it was. Server one empties it.

## Model

| member | source | states |
|---|---|---|
| Deck.NumberPairs | server.js:33 | the value list has 2·n entries |
| Deck.Numbers | server/server.js:23 | the value list has n entries |
| Deck.ModeValues | server/server.js:19-24 | the value list of either mode has 24 entries |
| Deck.Exchanged | server.js:35 | a run of exchanges keeps the deck size and the multiset of values |
| Deck.FaceDown | server.js:36 | dealing keeps every value in order and leaves every card closed and in play |
| Deck.NumberDeck | server.js:31-37 | the deck of server one has 48 cards, all closed and in play |
| Deck.ModeDeck | server/server.js:17-31 | the deck of server two has 48 cards, all closed and in play |
| Deck.Shuffle | server.js:35 | the array ends as the exchanges, applied in order, leave it |
| Deck.CreateDeck | server.js:31-37 | the push loop and in-place shuffle give the specified deck: 48 closed cards, each of 1..24 on exactly two of them, nothing else |
| Deck.CreateModeDeck | server/server.js:17-31 | each value of the mode's list is on exactly two of 48 closed cards and nothing else is; the deck equals the specified one |
| Deck.NumberPairsCount | server.js:33 | [1,1,…,n,n] holds each of 1..n twice and no other value |
| Deck.NumbersCount | server/server.js:23 | [1,…,n] holds each of 1..n once and no other value |
| Deck.EmojisDistinct | server/server.js:20 | no emoji is listed twice |
| Deck.EmojisCount | server/server.js:20-21 | every listed emoji occurs once in the list |
| Deck.ModeValuesDistinct | server/server.js:19-26 | doubling the list of either mode puts each of its values on exactly two cards |
| Deck.NumbersMembers | server/server.js:23 | the members of [1,…,n] are exactly the numbers 1..n |
| Game.NewRoom | server/server.js:54-67 | a freshly created room satisfies the room invariant exactly when the creator's score is non-negative |
| Game.Flip | server.js:132-168 | a flip is rejected, with no change, iff the game is not running or the index has no closed in-play card; otherwise exactly that card turns face up and no value changes. A pair is resolved iff the flip is the second open card, and it is a match iff the two values agree. A paid match needs a seated current player, who gains the raised streak; both cards leave play and `openCards` empties. A match on a stale seat raises the streak, removes both cards, pays nobody and leaves both indices open. A mismatch zeroes the streak, keeps both indices and schedules exactly that pair to close. The seat and turn never change and the invariant is kept |
| Game.Resolve | server.js:143-165 | with two cards open: a match (values equal) removes exactly those two cards and raises the streak, then pays it to a seated current player and empties `openCards`, or throws on a stale seat with players and `openCards` untouched; a mismatch changes no card, zeroes the streak and schedules exactly the open pair |
| Game.FlipBack | server.js:157-163 | the oldest flip-back closes exactly the two cards of its mismatch and changes no other card, empties `openCards`, passes the turn as `NextTurn` says, and keeps players, streak and the invariant |
| Game.NextTurnMeans | server.js:160-161 | the seat moves one place on, wrapping from the last seat to seat 0; the turn counter grows exactly on the wrap to 0; with no players, or from NaN, the seat is NaN |
| Game.StartGame | server.js:192-204 | a running game is untouched; otherwise the game starts with the new deck, turn 1, seat 0, streak 0, no open cards and the same players |
| Game.StartGameKeepingOpenCards | server/server.js:145-156 | as `startGame` of server one, but `openCards` is kept |
| Game.EndIfCleared | server/server.js:127-134 | the game stops and the ranking is produced iff every card is removed; otherwise nothing changes |
| Game.FlipWithGameEnd | server/server.js:93-135 | the whole flip handler of server two keeps the room invariant |
| Game.FindIndex | server.js:175 | the index of the first player with the socket's id, or -1 iff there is none |
| Game.Without | server/server.js:139 | no kept seat belongs to the socket, and the list does not grow |
| Game.WithoutCounts | server/server.js:139 | every seat of another socket is kept as often as it occurred; no seat of the socket is kept |
| Game.WithoutConcat | server/server.js:139 | the filter keeps the order: filtering two parts of a list and joining them is filtering the whole list |
| Game.FirstFlipOnlyOpens | server.js:139-143 | with no card open, a valid flip only opens that card and records its index |
| Game.MatchPays | server.js:148-153 | a matched pair removes both cards, raises the streak by 1, pays it to the current player and keeps the seat and turn |
| Game.ThreeMatchesPaySix | server.js:148-153 | three matched pairs from a zero streak pay 1, 2 and 3, so the player gains 6 and keeps the seat |
| Game.MismatchThenFlipBack | server.js:154-163 | a mismatched pair zeroes the streak; its flip-back restores the deck, empties `openCards` and passes the turn |
| Game.TurnCountsRounds | server.js:160-161 | from seat 0, q full rounds plus r passes end at seat r with the turn counter raised by q |
| Game.NoRestartWhileFlipBackPending | server.js:192-201 | while a flip-back is pending, neither `startGame` changes the room |
| Game.ThirdFlipStaysOpen | server.js:139-163 | a card flipped while a flip-back is pending stays face up after it and can no longer be flipped |
| Game.StaleSeatThrows | server.js:148-153 | a match on a stale seat removes the pair and raises the streak, pays nobody and leaves both indices open |
| Game.NoResolveWithoutFlipBack | server.js:136-143 | with two or more indices open, every flip is rejected or only opens a card, and the streak is unchanged |
| Game.GameEndsOnMatch | server/server.js:127-134 | a game of server two ends only on a paying match, and every later flip is rejected |
| Game.RemoveFirstDropsOneSeat | server.js:175-177 | the splice removes exactly the socket's first seat, or nothing if it has none; the seats before it keep their places and the later ones move down by one |
| Rooms.OrDefault | server.js:72-73 | a given title or mode is kept; the result is the value or the default, and never empty when the default is not |
| Rooms.MaxOrDefault | server.js:74 | a given player limit is kept; the result is the limit or 4, and never 0 |
| Rooms.ClosesRoomMeans | server.js:178-182 | a departure deletes the room iff the socket held a seat there and was the host or held the only seat |
| Rooms.KeyOrder | server.js:41 | `Object.values(rooms)` visits every filed room exactly once |
| Rooms.Room.constructor | server.js:70-83 | the record literal: not started, turn 1, seat 0, streak 0, no cards or open cards, the given players |
| Rooms.Room.AddPlayer | server.js:89-93 | the player is appended last and nothing else changes |
| Rooms.Room.Flip | server.js:133-165 | the in-place flip reaches exactly the state and outcome of `Game.Flip` |
| Rooms.Room.Resolve | server.js:143-165 | the block for two open cards reaches exactly the state and outcome of `Game.Resolve`: a match removes both cards, raises the streak and pays it (or throws on a stale seat), a mismatch zeroes the streak and schedules the flip-back |
| Rooms.Room.FlipBack | server.js:157-163 | the timer body reaches exactly `Game.FlipBack` |
| Rooms.Room.StartGame | server.js:192-201 | the in-place start reaches `Game.StartGame` with a deck of server one |
| Rooms.Room.StartGameKeepingOpenCards | server/server.js:145-153 | the in-place start reaches `Game.StartGameKeepingOpenCards` with a deck of the room's mode |
| Rooms.Room.EndIfCleared | server/server.js:127-134 | the `every` scan and the stop reach `Game.EndIfCleared` |
| Rooms.Room.RemoveFirstPlayer | server.js:175-177 | reports whether the socket held a seat and removes its first seat only |
| Rooms.Room.Leave | server.js:175-182 | removes the socket's first seat and reports whether the room must be deleted |
| Rooms.Room.RemovePlayers | server/server.js:139 | every seat of the socket is removed and nothing else changes |
| ServerOne.Server.constructor | server.js:28 | the registry starts empty |
| ServerOne.Server.CreateRoom | server.js:67-98 | a fresh room is filed under the id, replacing any old one, with the defaults applied and the creator as host and only player |
| ServerOne.Server.GetRoomList | server.js:40-48 | the list holds one correct summary for every filed room and no room twice |
| ServerOne.Server.JoinRoom | server.js:103-117 | a missing or full room is unchanged; otherwise one score-0 player is appended and a full room starts |
| ServerOne.Server.RequestStart | server.js:122-127 | only the host's request starts the room |
| ServerOne.Server.StartGame | server.js:192-204 | a missing room changes nothing; otherwise the room reaches `Game.StartGame` |
| ServerOne.Server.FlipCard | server.js:132-168 | a missing room rejects; otherwise the room reaches `Game.Flip` |
| ServerOne.Server.FlipBack | server.js:157-163 | a pending timer of a filed room reaches `Game.FlipBack` |
| ServerOne.LeaveAll | server.js:174-184 | every room loses the socket's first seat; the rooms to delete are exactly those the departure closes |
| ServerOne.Server.Disconnect | server.js:173-186 | every room loses the socket's first seat, and a room is deleted iff the leaver held a seat there and was the host or left it empty |
| ServerTwo.Server.constructor | server/server.js:15 | the registry starts empty |
| ServerTwo.Server.CreateRoom | server/server.js:51-72 | a fresh room is filed under the id, replacing any old one, with the defaults applied and the creator as host and only player |
| ServerTwo.Server.GetRoomList | server/server.js:33-42 | the list holds one correct summary (mode included) for every filed room and no room twice |
| ServerTwo.Server.JoinRoom | server/server.js:74-85 | a missing or full room is unchanged; otherwise one score-0 player is appended and a full room starts with a deck of its mode |
| ServerTwo.Server.RequestStart | server/server.js:87-91 | only the host's request starts the room |
| ServerTwo.Server.StartGame | server/server.js:145-156 | a missing room changes nothing; otherwise the room reaches `Game.StartGameKeepingOpenCards` |
| ServerTwo.Server.FlipCard | server/server.js:93-135 | a missing room rejects with no ranking; otherwise the room and the ranking reach `Game.FlipWithGameEnd` |
| ServerTwo.Server.FlipBack | server/server.js:115-121 | a pending timer of a filed room reaches `Game.FlipBack` |
| ServerTwo.FilterAll | server/server.js:138-140 | every room loses every seat of the socket |
| ServerTwo.Server.Disconnect | server/server.js:137-142 | every room loses every seat of the socket and no room is deleted |

## Left out

- Transport: Express, http, Socket.IO, `server.listen`, `socket.join`, every `emit`, and `console.log`. Handlers return their outcome or ranking instead of broadcasting it.
- The random room id (`Math.random().toString(36)`) is a parameter of `CreateRoom`.
- The shuffle `sort(() => Math.random() - 0.5)` is modelled as an arbitrary sequence of exchanges. Its probability distribution is not modelled.
- The 800 ms delay is not modelled. A timer becomes an explicit `FlipBack` step that may run between any two handler calls. Races between timers and other handlers are only as wide as that interleaving allows.
- Timers of a deleted room: the callback still closes the cards of the detached room object. The model fires timers only for filed rooms, because a detached room is unreachable afterwards.
- The timer closes the card objects it captured. The model closes the cards at the captured indices. The two agree because no deck can replace those cards while a flip-back is pending (`NoRestartWhileFlipBackPending`).
- Flip indices are integers. Indices that are not integers are not modelled. In JavaScript a numeric string such as `"3"` finds card 3, and `"length"` finds the number 48, which passes the checks and is pushed onto `openCards`.
- Falsy request fields: `undefined` and `null` are modelled by the empty string, or by 0 for `maxPlayers`. A non-numeric `maxPlayers` is not modelled.
- `maxPlayers` is an integer. A fractional limit such as 2.5 is not modelled: with it `players.length === maxPlayers` never holds, so the room never starts on a join.
- The order of `Object.values(rooms)`: `Rooms.KeyOrder` promises every room exactly once, in an order the model leaves open.
- The process after a thrown TypeError: neither server catches the error, so the handler call ends there, and with no handler for uncaught exceptions the Node process itself is likely to end. The model does not capture the process ending. `Crashed` is the last step of that handler call, and the room keeps the state it had at the throw. The model then lets later calls go on against that state. In that continuation no flip resolves again, because `openCards` already holds two indices and no flip-back is pending (`NoResolveWithoutFlipBack`).
- ServerOne.Server.JoinRoom: room ids that name a property every JavaScript object inherits (`"constructor"`, `"toString"`, `"hasOwnProperty"`, `"__proto__"`) are not modelled. For them `rooms[roomId]` is a truthy non-room value, so `joinRoom` throws a TypeError at `room.players.length` (server.js:106). The model treats such an id as missing and changes nothing.
- ServerTwo.Server.JoinRoom: the same inherited-property room ids are not modelled; `joinRoom` throws on them at `room.players.length` (server/server.js:76), while the model treats them as missing and changes nothing.
- Client code (`client/main.js`, `public/client.js`) is not part of this model: it only renders and sends events.
- Game.NewRoom: states only that the new room keeps the invariant. Its field values are stated by `Rooms.Room.constructor` and the two `CreateRoom` methods.
- Game.FlipWithGameEnd: its own contract states only the invariant. What it does is stated by `Game.GameEndsOnMatch` and by the contracts of `Game.Flip` and `Game.EndIfCleared`, which it composes.
