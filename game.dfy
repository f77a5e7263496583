/** The state of one game room and the steps the socket handlers take on it,
    as pure functions. The `Room` class follows these step by step; the lemmas
    here state what the steps mean for the game. Where the two servers
    differ, the function says which one it follows. */
module Game {
  import opened Deck

  type SocketId = string

  datatype Option<T> = None | Some(value: T)

  /** `{ id, name, score }`: a connected socket seated in a room. */
  datatype Player = Player(id: SocketId, name: string, score: int)

  /** The number held in `currentPlayer`. It starts as seat 0; it becomes NaN
      when `(currentPlayer + 1) % players.length` is taken with no players,
      and stays NaN until the next game start. */
  datatype Seat = At(index: nat) | NaN

  /** The two positions a pending `setTimeout` callback will close. */
  datatype Mismatch = Mismatch(first: nat, second: nat)

  /** The mutable part of a room, plus the flip-backs it has scheduled and
      that have not run yet (oldest first). */
  datatype RoomState = RoomState(
    started: bool,
    turn: int,
    currentPlayer: Seat,
    combo: int,
    openCards: seq<int>,
    cards: seq<Card>,
    players: seq<Player>,
    pending: seq<Mismatch>)

  /** What one flip request did. `Crashed`: the match branch indexed
      `players[currentPlayer]` past the end and threw a TypeError. */
  datatype Outcome = Rejected | Opened | Matched(points: int) | Mismatched | Crashed

  datatype Step = Step(state: RoomState, outcome: Outcome)

  /** One line of the final ranking of server/server.js. */
  datatype Standing = Standing(name: string, score: int, turn: int)

  /** A room as `createRoom` makes it, with its creator as the only player. */
  function NewRoom(creator: Player): (s: RoomState)
    ensures Inv(s) == (creator.score >= 0)
  {
    RoomState(false, 1, At(0), 0, [], [], [creator], [])
  }

  // ---------------------------------------------------------------------
  // The room invariant
  // ---------------------------------------------------------------------

  /** What holds of every room between two handler calls:
      - the deck is empty before the first start and full afterwards;
      - every recorded open index names a card;
      - a single open card is still in play;
      - at most one flip-back is pending, and it refers to the first two
        entries of `openCards`, which are still in play; the game is
        running meanwhile, so no new deck can replace those cards;
      - streak, turn counter and scores never go below their start. */
  predicate Inv(s: RoomState) {
    && (|s.cards| == 0 || |s.cards| == DeckSize)
    && (s.started ==> |s.cards| == DeckSize)
    && OpenIndicesFit(s)
    && (|s.openCards| == 1 ==> !s.cards[s.openCards[0]].removed)
    && (s.pending == [] || (|s.pending| == 1 && PendingFits(s, s.pending[0])))
    && s.combo >= 0
    && s.turn >= 1
    && (forall p :: p in s.players ==> p.score >= 0)
  }

  /** Every recorded open index names a card. */
  predicate OpenIndicesFit(s: RoomState) {
    forall k :: 0 <= k < |s.openCards| ==> 0 <= s.openCards[k] < |s.cards|
  }

  predicate PendingFits(s: RoomState, m: Mismatch)
    requires OpenIndicesFit(s)
  {
    && s.started
    && |s.openCards| >= 2
    && s.openCards[0] == m.first
    && s.openCards[1] == m.second
    && !s.cards[m.first].removed
    && !s.cards[m.second].removed
  }

  // ---------------------------------------------------------------------
  // flipCard (server.js:132-168, server/server.js:93-125)
  // ---------------------------------------------------------------------

  /** The checks a flip must pass: game running, a card at the index, and
      that card neither open nor removed. Nobody checks whose turn it is. */
  predicate CanFlip(s: RoomState, index: int) {
    s.started && 0 <= index < |s.cards| && !s.cards[index].open && !s.cards[index].removed
  }

  /** The seat exists in a list of `n` players. */
  predicate Seated(seat: Seat, n: nat) {
    seat.At? && seat.index < n
  }

  /** The flip handler shared by both servers, up to the broadcast. */
  function Flip(s: RoomState, index: int): (r: Step)
    requires Inv(s)
    ensures Inv(r.state)
    ensures r.outcome == Rejected <==> !CanFlip(s, index)
    ensures r.outcome == Rejected ==> r.state == s
    ensures r.outcome != Rejected ==> 0 <= index < |s.cards|
    ensures r.state.started == s.started && r.state.turn == s.turn
    ensures r.state.currentPlayer == s.currentPlayer
    // The flipped card turns face up; the values never change, and only a
    // matched pair leaves play.
    ensures |r.state.cards| == |s.cards|
    ensures forall k :: 0 <= k < |s.cards| ==>
              && r.state.cards[k].value == s.cards[k].value
              && r.state.cards[k].open == (s.cards[k].open || (r.outcome != Rejected && k == index))
    ensures !Paired(r.outcome) ==>
              forall k :: 0 <= k < |s.cards| ==> r.state.cards[k].removed == s.cards[k].removed
    ensures Paired(r.outcome) ==>
              |s.openCards| == 1 &&
              forall k :: 0 <= k < |s.cards| ==>
                r.state.cards[k].removed == (s.cards[k].removed || k == s.openCards[0] || k == index)
    // A pair is resolved exactly when this flip is the second one, and it is
    // a match (paid or thrown) exactly when the two values agree.
    ensures Paired(r.outcome) || r.outcome == Mismatched <==> CanFlip(s, index) && |s.openCards| == 1
    ensures Paired(r.outcome) <==>
              CanFlip(s, index) && |s.openCards| == 1 && s.cards[s.openCards[0]].value == s.cards[index].value
    ensures r.outcome == Opened ==>
              r.state.openCards == s.openCards + [index] && r.state.combo == s.combo && r.state.pending == s.pending
    ensures !r.outcome.Matched? ==> r.state.players == s.players
    // A paid match: the streak grows by one and the seated current player
    // gains it; nothing stays open.
    ensures r.outcome.Matched? ==>
              && Seated(s.currentPlayer, |s.players|)
              && r.outcome.points == s.combo + 1 == r.state.combo
              && var p := s.currentPlayer.index;
              && r.state.players == s.players[p := s.players[p].(score := s.players[p].score + r.state.combo)]
              && r.state.openCards == [] && r.state.pending == s.pending
    // A match on a stale seat: the streak grows, nobody is paid, both
    // indices stay open.
    ensures r.outcome == Crashed ==>
              && !Seated(s.currentPlayer, |s.players|)
              && r.state.combo == s.combo + 1
              && r.state.openCards == s.openCards + [index] && r.state.pending == s.pending
    // A mismatch: the streak resets and the pair is scheduled to close.
    ensures r.outcome == Mismatched ==>
              && r.state.combo == 0
              && r.state.openCards == s.openCards + [index]
              && r.state.pending == [Mismatch(s.openCards[0], index)]
  {
    if !CanFlip(s, index) then Step(s, Rejected)
    else
      var flipped := TurnUp(s, index);
      if |flipped.openCards| != 2 then Step(flipped, Opened)
      else
        assert flipped.openCards == [s.openCards[0], index];
        Resolve(flipped)
  }

  /** The flip itself: the card turns face up and its index is recorded. */
  function TurnUp(s: RoomState, index: int): (r: RoomState)
    requires Inv(s) && CanFlip(s, index)
    ensures r == s.(cards := r.cards, openCards := s.openCards + [index])
    ensures OpenIndicesFit(r) && (|r.openCards| == 2 ==> r.pending == [])
    ensures |r.cards| == |s.cards|
    ensures forall k :: 0 <= k < |s.cards| ==>
              && r.cards[k].value == s.cards[k].value
              && r.cards[k].removed == s.cards[k].removed
              && r.cards[k].open == (s.cards[k].open || k == index)
  {
    s.(cards := s.cards[index := s.cards[index].(open := true)], openCards := s.openCards + [index])
  }

  /** A match, paid or thrown: both cards of the pair left play. */
  predicate Paired(o: Outcome) {
    o.Matched? || o == Crashed
  }

  /** Two cards are open: a match removes both, raises the streak and pays it
      to the current player; a mismatch resets the streak and schedules the
      flip-back. */
  function Resolve(s: RoomState): (r: Step)
    requires |s.openCards| == 2 && s.pending == [] && OpenIndicesFit(s)
    ensures Paired(r.outcome) || r.outcome == Mismatched
    ensures Paired(r.outcome) <==> s.cards[s.openCards[0]].value == s.cards[s.openCards[1]].value
    ensures r.outcome.Matched? <==> Paired(r.outcome) && Seated(s.currentPlayer, |s.players|)
    ensures r.state.started == s.started && r.state.turn == s.turn && r.state.currentPlayer == s.currentPlayer
    ensures |r.state.cards| == |s.cards|
    ensures forall k :: 0 <= k < |s.cards| ==>
              && r.state.cards[k].value == s.cards[k].value
              && r.state.cards[k].open == s.cards[k].open
              && r.state.cards[k].removed ==
                   (s.cards[k].removed || (Paired(r.outcome) && (k == s.openCards[0] || k == s.openCards[1])))
    ensures r.outcome.Matched? ==>
              && r.outcome.points == s.combo + 1 == r.state.combo
              && var p := s.currentPlayer.index;
              && r.state.players == s.players[p := s.players[p].(score := s.players[p].score + s.combo + 1)]
              && r.state.openCards == [] && r.state.pending == []
    ensures r.outcome == Crashed ==>
              r.state.combo == s.combo + 1 && r.state.players == s.players
              && r.state.openCards == s.openCards && r.state.pending == []
    ensures r.outcome == Mismatched ==>
              r.state.combo == 0 && r.state.players == s.players && r.state.openCards == s.openCards
              && r.state.pending == [Mismatch(s.openCards[0], s.openCards[1])]
  {
    var a, b := s.openCards[0], s.openCards[1];
    if s.cards[a].value == s.cards[b].value then
      var removedA := s.cards[a := s.cards[a].(removed := true)];
      var s' := s.(cards := removedA[b := removedA[b].(removed := true)], combo := s.combo + 1);
      if Seated(s'.currentPlayer, |s'.players|) then
        var p := s'.currentPlayer.index;
        var scored := s'.players[p := s'.players[p].(score := s'.players[p].score + s'.combo)];
        Step(s'.(players := scored, openCards := []), Matched(s'.combo))
      else
        Step(s', Crashed)
    else
      Step(s.(combo := 0, pending := s.pending + [Mismatch(a, b)]), Mismatched)
  }

  // ---------------------------------------------------------------------
  // The setTimeout callback (server.js:157-163, server/server.js:115-121)
  // ---------------------------------------------------------------------

  /** `(currentPlayer + 1) % players.length` and the turn counter, which goes
      up when the seat wraps to 0. */
  function NextTurn(seat: Seat, turn: int, n: nat): (Seat, int) {
    var next := if n == 0 then NaN else match seat
      case At(i) => At((i + 1) % n)
      case NaN => NaN;
    (next, if next == At(0) then turn + 1 else turn)
  }

  /** The seat moves one place on and wraps from the last seat to seat 0,
      which counts a turn; with no players, or once NaN, it is NaN. */
  lemma NextTurnMeans(seat: Seat, turn: int, n: nat)
    ensures var (next, turn') := NextTurn(seat, turn, n);
      && (n == 0 || seat == NaN ==> next == NaN)
      && (next.At? ==> next.index < n)
      && (seat.At? && seat.index + 1 < n ==> next == At(seat.index + 1))
      && (seat.At? && seat.index + 1 == n ==> next == At(0))
      && turn' == (if next == At(0) then turn + 1 else turn)
  {
  }

  /** The oldest pending flip-back: both cards of the mismatch close,
      `openCards` empties and the turn passes on. */
  function FlipBack(s: RoomState): (r: RoomState)
    requires Inv(s) && s.pending != []
    ensures Inv(r)
    ensures r.pending == s.pending[1..] && r.openCards == []
    ensures (r.currentPlayer, r.turn) == NextTurn(s.currentPlayer, s.turn, |s.players|)
    ensures r.players == s.players && r.combo == s.combo && r.started == s.started
    // Exactly the two cards of the mismatch close; nothing else changes.
    ensures |r.cards| == |s.cards|
    ensures forall k :: 0 <= k < |r.cards| ==>
              && r.cards[k].value == s.cards[k].value
              && r.cards[k].removed == s.cards[k].removed
              && r.cards[k].open == (s.cards[k].open && k != s.pending[0].first && k != s.pending[0].second)
  {
    var m := s.pending[0];
    var closedA := s.cards[m.first := s.cards[m.first].(open := false)];
    var (seat, turn) := NextTurn(s.currentPlayer, s.turn, |s.players|);
    s.(cards := closedA[m.second := closedA[m.second].(open := false)],
       openCards := [], currentPlayer := seat, turn := turn, pending := s.pending[1..])
  }

  // ---------------------------------------------------------------------
  // startGame (server.js:192-204, server/server.js:145-156)
  // ---------------------------------------------------------------------

  /** `startGame` of server.js: nothing if the game runs, otherwise a new
      deck and turn 1, seat 0, streak 0, no open cards. */
  function StartGame(s: RoomState, deck: seq<Card>): (r: RoomState)
    requires Inv(s) && FreshDeck(deck)
    ensures Inv(r)
    ensures s.started ==> r == s
    ensures !s.started ==> r.started && r.cards == deck && r.turn == 1 && r.currentPlayer == At(0)
                           && r.combo == 0 && r.openCards == [] && r.players == s.players
                           && r.pending == s.pending
  {
    if s.started then s
    else s.(started := true, cards := deck, turn := 1, currentPlayer := At(0), combo := 0, openCards := [])
  }

  /** `startGame` of server/server.js: the same, except that `openCards` is
      kept as it was. */
  function StartGameKeepingOpenCards(s: RoomState, deck: seq<Card>): (r: RoomState)
    requires Inv(s) && FreshDeck(deck)
    ensures Inv(r)
    ensures s.started ==> r == s
    ensures !s.started ==> r.started && r.cards == deck && r.turn == 1 && r.currentPlayer == At(0)
                           && r.combo == 0 && r.openCards == s.openCards && r.players == s.players
                           && r.pending == s.pending
  {
    if s.started then s
    else s.(started := true, cards := deck, turn := 1, currentPlayer := At(0), combo := 0)
  }

  // ---------------------------------------------------------------------
  // Game end of server/server.js (server/server.js:127-134)
  // ---------------------------------------------------------------------

  predicate AllRemoved(cards: seq<Card>) {
    forall k :: 0 <= k < |cards| ==> cards[k].removed
  }

  /** Every player, in seat order, with name, score and the room's turn. */
  function Ranking(s: RoomState): seq<Standing> {
    seq(|s.players|, k requires 0 <= k < |s.players| =>
      Standing(s.players[k].name, s.players[k].score, s.turn))
  }

  /** When every card is removed, the game stops and the ranking goes out. */
  function EndIfCleared(s: RoomState): (r: (RoomState, Option<seq<Standing>>))
    requires Inv(s)
    ensures Inv(r.0)
    ensures r.1.Some? <==> AllRemoved(s.cards)
    ensures r.1.Some? ==> !r.0.started && r.0 == s.(started := false) && r.1.value == Ranking(s)
    ensures r.1.None? ==> r.0 == s
  {
    if AllRemoved(s.cards) then (s.(started := false), Some(Ranking(s))) else (s, None)
  }

  /** The whole flip handler of server/server.js: the shared part, then, unless
      the request was rejected or threw, the game-end check. */
  function FlipWithGameEnd(s: RoomState, index: int): (r: (Step, Option<seq<Standing>>))
    requires Inv(s)
    ensures Inv(r.0.state)
  {
    var step := Flip(s, index);
    if step.outcome == Rejected || step.outcome == Crashed then (step, None)
    else
      var (ended, rank) := EndIfCleared(step.state);
      (Step(ended, step.outcome), rank)
  }

  // ---------------------------------------------------------------------
  // Seats after a disconnect
  // ---------------------------------------------------------------------

  /** `players.findIndex(p => p.id === id)`, -1 when nobody has that id. */
  function FindIndex(players: seq<Player>, id: SocketId): (i: int)
    ensures -1 <= i < |players|
    ensures i == -1 <==> forall k :: 0 <= k < |players| ==> players[k].id != id
    ensures i >= 0 ==> players[i].id == id && forall k :: 0 <= k < i ==> players[k].id != id
  {
    if players == [] then -1
    else if players[0].id == id then 0
    else
      var j := FindIndex(players[1..], id);
      if j == -1 then -1 else j + 1
  }

  /** server.js: `splice(findIndex(...), 1)` when the id is found. */
  function RemoveFirst(players: seq<Player>, id: SocketId): seq<Player> {
    var i := FindIndex(players, id);
    if i == -1 then players else players[..i] + players[i + 1..]
  }

  /** server/server.js: `players.filter(p => p.id !== id)`. */
  function Without(players: seq<Player>, id: SocketId): (r: seq<Player>)
    ensures |r| <= |players|
    ensures forall k :: 0 <= k < |r| ==> r[k].id != id
  {
    if players == [] then []
    else if players[0].id == id then Without(players[1..], id)
    else [players[0]] + Without(players[1..], id)
  }

  /** The filter keeps every other seat as often as it occurs and drops
      every seat of `id`. */
  lemma {:induction false} WithoutCounts(players: seq<Player>, id: SocketId, p: Player)
    ensures multiset(Without(players, id))[p] == if p.id != id then multiset(players)[p] else 0
  {
    if players != [] {
      WithoutCounts(players[1..], id, p);
      assert players == [players[0]] + players[1..];
    }
  }

  /** The filter works seat by seat: filtering a split list filters each
      part and keeps them in order. */
  lemma {:induction false} WithoutConcat(a: seq<Player>, b: seq<Player>, id: SocketId)
    ensures Without(a + b, id) == Without(a, id) + Without(b, id)
  {
    if a == [] {
      assert a + b == b;
    } else {
      var x, rest := a[0], a[1..];
      assert a + b == [x] + (rest + b);
      WithoutConcat(rest, b, id);
      WithoutCons(x, rest + b, id);
      WithoutCons(x, rest, id);
      assert a == [x] + rest;
    }
  }

  lemma WithoutCons(x: Player, rest: seq<Player>, id: SocketId)
    ensures Without([x] + rest, id) == (if x.id == id then [] else [x]) + Without(rest, id)
  {
    assert ([x] + rest)[1..] == rest;
  }

  // ---------------------------------------------------------------------
  // Lemmas
  // ---------------------------------------------------------------------

  /** The first flip of a pair only turns that card face up and records it. */
  lemma FirstFlipOnlyOpens(s: RoomState, index: int)
    requires Inv(s) && s.openCards == [] && CanFlip(s, index)
    ensures Flip(s, index) == Step(s.(cards := s.cards[index := s.cards[index].(open := true)],
                                      openCards := [index]), Opened)
  {
  }

  /** Flipping a matching pair, with no card open before: both cards are
      removed, the streak grows by one and the current player, who keeps the
      turn, gains the new streak. */
  lemma MatchPays(s: RoomState, i: int, j: int)
    requires Inv(s) && s.openCards == [] && CanFlip(s, i) && CanFlip(s, j) && i != j
    requires s.cards[i].value == s.cards[j].value
    requires Seated(s.currentPlayer, |s.players|)
    ensures var r := Flip(Flip(s, i).state, j);
      var p := s.currentPlayer.index;
      && r.outcome == Matched(s.combo + 1)
      && r.state.combo == s.combo + 1
      && r.state.currentPlayer == s.currentPlayer && r.state.turn == s.turn
      && r.state.openCards == [] && r.state.pending == s.pending
      && r.state.cards == s.cards[i := s.cards[i].(open := true, removed := true)]
                                 [j := s.cards[j].(open := true, removed := true)]
      && r.state.players == s.players[p := s.players[p].(score := s.players[p].score + s.combo + 1)]
  {
  }

  /** Three matched pairs in a row from a fresh streak pay 1, 2 and 3: the
      current player gains 6 and keeps the turn. */
  lemma ThreeMatchesPaySix(s: RoomState, i1: int, j1: int, i2: int, j2: int, i3: int, j3: int)
    requires Inv(s) && s.openCards == [] && s.combo == 0
    requires Seated(s.currentPlayer, |s.players|)
    requires CanFlip(s, i1) && CanFlip(s, j1) && CanFlip(s, i2)
    requires CanFlip(s, j2) && CanFlip(s, i3) && CanFlip(s, j3)
    requires i1 != j1 && i2 != j2 && i3 != j3
    requires i2 != i1 && i2 != j1 && j2 != i1 && j2 != j1
    requires i3 != i1 && i3 != j1 && i3 != i2 && i3 != j2
    requires j3 != i1 && j3 != j1 && j3 != i2 && j3 != j2
    requires s.cards[i1].value == s.cards[j1].value
    requires s.cards[i2].value == s.cards[j2].value
    requires s.cards[i3].value == s.cards[j3].value
    ensures var s1 := Flip(Flip(s, i1).state, j1);
      var s2 := Flip(Flip(s1.state, i2).state, j2);
      var s3 := Flip(Flip(s2.state, i3).state, j3);
      var p := s.currentPlayer.index;
      && s1.outcome == Matched(1) && s2.outcome == Matched(2) && s3.outcome == Matched(3)
      && s3.state.currentPlayer == s.currentPlayer
      && s3.state.players[p].score == s.players[p].score + 6
  {
    var p := s.currentPlayer.index;
    MatchPays(s, i1, j1);
    var s1 := Flip(Flip(s, i1).state, j1).state;
    assert s1.cards[i2] == s.cards[i2] && s1.cards[j2] == s.cards[j2];
    assert s1.cards[i3] == s.cards[i3] && s1.cards[j3] == s.cards[j3];
    assert s1.players[p].score == s.players[p].score + 1;
    MatchPays(s1, i2, j2);
    var s2 := Flip(Flip(s1, i2).state, j2).state;
    assert s2.cards[i3] == s.cards[i3] && s2.cards[j3] == s.cards[j3];
    assert s2.players[p].score == s.players[p].score + 3;
    MatchPays(s2, i3, j3);
  }

  /** A mismatched pair and its flip-back: the streak is 0, the deck is as it
      was, nothing is open and the turn has passed on. */
  lemma MismatchThenFlipBack(s: RoomState, i: int, j: int)
    requires Inv(s) && s.openCards == [] && CanFlip(s, i) && CanFlip(s, j) && i != j
    requires s.cards[i].value != s.cards[j].value
    ensures var r := Flip(Flip(s, i).state, j);
      && r.outcome == Mismatched
      && r.state.pending == [Mismatch(i, j)]
      && var back := FlipBack(r.state);
      && back.combo == 0 && back.cards == s.cards && back.openCards == [] && back.pending == []
      && back.players == s.players
      && (back.currentPlayer, back.turn) == NextTurn(s.currentPlayer, s.turn, |s.players|)
  {
  }

  /** `k` turn passes in a row. */
  function PassTurns(seat: Seat, turn: int, n: nat, k: nat): (Seat, int) {
    if k == 0 then (seat, turn)
    else
      var (seat', turn') := PassTurns(seat, turn, n, k - 1);
      NextTurn(seat', turn', n)
  }

  /** Starting from seat 0 among `n` players, after `q` full rounds and `r`
      more passes the seat is `r` and the turn counter has grown by `q`: it
      counts completed rounds. */
  lemma {:induction false} TurnCountsRounds(turn: int, n: nat, q: nat, r: nat)
    requires 0 <= r < n
    ensures PassTurns(At(0), turn, n, q * n + r) == (At(r), turn + q)
  {
    if r > 0 {
      TurnCountsRounds(turn, n, q, r - 1);
      ModBelow(r, n);
    } else if q > 0 {
      TurnCountsRounds(turn, n, q - 1, n - 1);
      assert (q - 1) * n + (n - 1) == q * n + r - 1;
      ModSelf(n);
    }
  }

  lemma ModBelow(a: nat, n: nat)
    requires a < n
    ensures a % n == a
  {
  }

  lemma ModSelf(n: nat)
    requires n > 0
    ensures n % n == 0
  {
  }

  /** No new deck can replace the two cards of a pending flip-back: the game
      is running while one is pending, so `startGame` of either server does
      nothing. */
  lemma NoRestartWhileFlipBackPending(s: RoomState, deck: seq<Card>)
    requires Inv(s) && FreshDeck(deck) && s.pending != []
    ensures StartGame(s, deck) == s && StartGameKeepingOpenCards(s, deck) == s
  {
  }

  /** A card flipped while a flip-back is pending joins `openCards` as a
      third entry; the flip-back closes only the mismatched pair, so that
      card stays face up and can no longer be flipped. */
  lemma ThirdFlipStaysOpen(s: RoomState, i: int, j: int, k: int)
    requires Inv(s) && s.openCards == [] && CanFlip(s, i) && CanFlip(s, j) && i != j
    requires s.cards[i].value != s.cards[j].value
    requires CanFlip(s, k) && k != i && k != j
    ensures var r := Flip(Flip(s, i).state, j).state;
      var t := Flip(r, k);
      && t.outcome == Opened && t.state.openCards == [i, j, k]
      && var back := FlipBack(t.state);
      && back.openCards == [] && back.cards[k].open && !CanFlip(back, k)
  {
  }

  /** A matched pair while the seat is stale (a player left and nobody moved
      the seat) throws: the pair is already removed and the streak counted,
      but nobody is paid and both indices stay in `openCards`. */
  lemma StaleSeatThrows(s: RoomState, i: int, j: int)
    requires Inv(s) && s.openCards == [] && CanFlip(s, i) && CanFlip(s, j) && i != j
    requires s.cards[i].value == s.cards[j].value
    requires !Seated(s.currentPlayer, |s.players|)
    ensures var r := Flip(Flip(s, i).state, j);
      && r.outcome == Crashed
      && r.state.openCards == [i, j] && r.state.combo == s.combo + 1
      && r.state.players == s.players
      && r.state.cards[i].removed && r.state.cards[j].removed
  {
  }

  /** Once two or more indices sit in `openCards` with no flip-back pending
      (after a throw), no flip resolves again: each one is rejected or only
      opens its card, and `openCards` keeps growing. */
  lemma NoResolveWithoutFlipBack(s: RoomState, index: int)
    requires Inv(s) && |s.openCards| >= 2
    ensures var r := Flip(s, index);
      && (r.outcome == Rejected || r.outcome == Opened)
      && r.state.combo == s.combo && r.state.pending == s.pending
      && |s.openCards| <= |r.state.openCards| && r.state.openCards[..|s.openCards|] == s.openCards
  {
  }

  /** On server/server.js a game ends only on a flip that pays a match, and
      from then on every flip is rejected until the next start. */
  lemma GameEndsOnMatch(s: RoomState, index: int, next: int)
    requires Inv(s)
    ensures var r := FlipWithGameEnd(s, index);
      r.1.Some? ==> r.0.outcome.Matched? && Flip(r.0.state, next).outcome == Rejected
  {
  }

  /** server.js removes one seat: the first one that socket holds. The seats
      before it keep their places, the seats after it move down by one. */
  lemma RemoveFirstDropsOneSeat(players: seq<Player>, id: SocketId)
    ensures var i := FindIndex(players, id);
      var r := RemoveFirst(players, id);
      && (i == -1 ==> r == players)
      && (i >= 0 ==> && |r| == |players| - 1
                     && (forall k :: 0 <= k < |r| ==> r[k] == if k < i then players[k] else players[k + 1])
                     && multiset(r) + multiset{players[i]} == multiset(players))
  {
    var i := FindIndex(players, id);
    if i >= 0 {
      SpliceAt(players, i);
    }
  }

  /** `splice(i, 1)`: one entry fewer, the later ones one place down. */
  lemma SpliceAt(s: seq<Player>, i: nat)
    requires i < |s|
    ensures |s[..i] + s[i + 1..]| == |s| - 1
    ensures forall k :: 0 <= k < |s| - 1 ==> (s[..i] + s[i + 1..])[k] == if k < i then s[k] else s[k + 1]
    ensures multiset(s[..i] + s[i + 1..]) + multiset{s[i]} == multiset(s)
  {
    assert s == s[..i] + [s[i]] + s[i + 1..];
  }
}
