/** Card decks of the memory game.

    Both servers build a deck of 24 values, each used twice, shuffle it with
    `sort(() => Math.random() - 0.5)` and turn every value into a face-down
    card. server.js only knows numbers; server/server.js can also build the
    deck from a fixed list of emojis. */
module Deck {

  /** What is printed on a card: a number 1..24 or one of the emojis. */
  datatype Value = Num(n: int) | Emoji(glyph: string)

  /** A card as the servers keep it: `{ value, open, removed }`. */
  datatype Card = Card(value: Value, open: bool, removed: bool)

  const PairCount: nat := 24
  const DeckSize: nat := 2 * PairCount

  /** One exchange of two deck positions. A sort driven by a random comparator
      reorders the array in place; any order it can produce is reached by a
      sequence of exchanges, so the shuffle is modelled by such a sequence. */
  type Exchange = e: (nat, nat) | e.0 < DeckSize && e.1 < DeckSize witness (0, 0)

  /** The emoji list of server/server.js, in its order. */
  const Emojis: seq<Value> := [
    Emoji("🍎"), Emoji("🍌"), Emoji("🍇"), Emoji("🍉"), Emoji("🍒"), Emoji("🍓"),
    Emoji("🥝"), Emoji("🍍"), Emoji("🥑"), Emoji("🍑"), Emoji("🍋"), Emoji("🍊"),
    Emoji("🥥"), Emoji("🍅"), Emoji("🌽"), Emoji("🥕"), Emoji("🥔"), Emoji("🍆"),
    Emoji("🥦"), Emoji("🥬"), Emoji("🌶️"), Emoji("🧄"), Emoji("🧅"), Emoji("🍄")
  ]

  /** How often `v` is printed on the cards of `deck`. */
  function Count(deck: seq<Card>, v: Value): nat {
    multiset(ValuesOf(deck))[v]
  }

  function ValuesOf(deck: seq<Card>): (vs: seq<Value>)
    ensures |vs| == |deck|
    ensures forall k :: 0 <= k < |deck| ==> vs[k] == deck[k].value
  {
    seq(|deck|, k requires 0 <= k < |deck| => deck[k].value)
  }

  /** Every card is face down and still in play. */
  predicate AllFaceDown(deck: seq<Card>) {
    forall k :: 0 <= k < |deck| ==> !deck[k].open && !deck[k].removed
  }

  /** A deck as `startGame` installs it. */
  predicate FreshDeck(deck: seq<Card>) {
    |deck| == DeckSize && AllFaceDown(deck)
  }

  // ---------------------------------------------------------------------
  // The values before shuffling
  // ---------------------------------------------------------------------

  /** [1, 1, 2, 2, ..., n, n]: what the loop of server.js pushes. */
  function NumberPairs(n: nat): (vs: seq<Value>)
    ensures |vs| == 2 * n
  {
    seq(2 * n, k => Num(k / 2 + 1))
  }

  /** [1, 2, ..., n]: what the loop of server/server.js pushes. */
  function Numbers(n: nat): (vs: seq<Value>)
    ensures |vs| == n
  {
    seq(n, k => Num(k + 1))
  }

  /** The 24 distinct values server/server.js doubles for a given mode. */
  function ModeValues(mode: string): (vs: seq<Value>)
    ensures |vs| == PairCount
  {
    if mode == "emoji" then Emojis[..PairCount] else Numbers(PairCount)
  }

  // ---------------------------------------------------------------------
  // Shuffling and dealing
  // ---------------------------------------------------------------------

  /** `s` after the exchanges, first one first. */
  function Exchanged(s: seq<Value>, ex: seq<Exchange>): (r: seq<Value>)
    requires |s| == DeckSize
    ensures |r| == DeckSize
    ensures multiset(r) == multiset(s)
    decreases |ex|
  {
    if ex == [] then s
    else
      var (i, j) := ex[0];
      Exchanged(s[i := s[j]][j := s[i]], ex[1..])
  }

  /** Each value as a closed card that is still in play. */
  function FaceDown(vs: seq<Value>): (deck: seq<Card>)
    ensures ValuesOf(deck) == vs
    ensures AllFaceDown(deck)
  {
    seq(|vs|, k requires 0 <= k < |vs| => Card(vs[k], false, false))
  }

  /** The deck `createDeck()` of server.js returns for a given shuffle. */
  function NumberDeck(ex: seq<Exchange>): (deck: seq<Card>)
    ensures FreshDeck(deck)
  {
    FaceDown(Exchanged(NumberPairs(PairCount), ex))
  }

  /** The deck `createDeck(mode)` of server/server.js returns for a given shuffle. */
  function ModeDeck(mode: string, ex: seq<Exchange>): (deck: seq<Card>)
    ensures FreshDeck(deck)
  {
    var vs := ModeValues(mode);
    FaceDown(Exchanged(vs + vs, ex))
  }

  /** The in-place sort of the value array, as the exchanges it performs. */
  method Shuffle(a: array<Value>, ex: seq<Exchange>)
    requires a.Length == DeckSize
    modifies a
    ensures a[..] == Exchanged(old(a[..]), ex)
  {
    for t := 0 to |ex|
      invariant Exchanged(a[..], ex[t..]) == Exchanged(old(a[..]), ex)
    {
      var (i, j) := ex[t];
      ghost var before := a[..];
      a[i], a[j] := a[j], a[i];
      assert a[..] == before[i := before[j]][j := before[i]];
      assert ex[t..][1..] == ex[t + 1..];
    }
  }

  /** `createDeck()` of server.js: 24 numbers, each pushed twice, shuffled,
      dealt face down. */
  method CreateDeck(ex: seq<Exchange>) returns (deck: seq<Card>)
    ensures deck == NumberDeck(ex)
    ensures FreshDeck(deck)
    ensures forall v :: Count(deck, v) == (if v.Num? && 1 <= v.n <= PairCount then 2 else 0)
  {
    var values: seq<Value> := [];
    for i := 1 to PairCount + 1
      invariant values == NumberPairs(i - 1)
    {
      values := values + [Num(i), Num(i)];
    }
    var a := new Value[DeckSize](k requires 0 <= k < DeckSize => values[k]);
    assert a[..] == values;
    Shuffle(a, ex);
    deck := FaceDown(a[..]);
    forall v ensures Count(deck, v) == (if v.Num? && 1 <= v.n <= PairCount then 2 else 0) {
      NumberPairsCount(PairCount, v);
    }
  }

  /** `createDeck(mode)` of server/server.js: the 24 values of the mode, the
      list followed by itself, shuffled, dealt face down. */
  method CreateModeDeck(mode: string, ex: seq<Exchange>) returns (deck: seq<Card>)
    ensures deck == ModeDeck(mode, ex)
    ensures FreshDeck(deck)
    ensures forall v :: Count(deck, v) == (if v in ModeValues(mode) then 2 else 0)
  {
    var values: seq<Value> := [];
    if mode == "emoji" {
      values := Emojis[..PairCount];
    } else {
      for i := 1 to PairCount + 1
        invariant values == Numbers(i - 1)
      {
        values := values + [Num(i)];
      }
    }
    var doubled := values + values;
    var a := new Value[DeckSize](k requires 0 <= k < DeckSize => doubled[k]);
    assert a[..] == doubled;
    Shuffle(a, ex);
    deck := FaceDown(a[..]);
    forall v ensures Count(deck, v) == (if v in ModeValues(mode) then 2 else 0) {
      ModeValuesDistinct(mode, v);
    }
  }

  // ---------------------------------------------------------------------
  // Lemmas: each value is on exactly two cards
  // ---------------------------------------------------------------------

  /** [1, 1, ..., n, n] holds every number 1..n twice and nothing else. */
  lemma {:induction false} NumberPairsCount(n: nat, v: Value)
    ensures multiset(NumberPairs(n))[v] == (if v.Num? && 1 <= v.n <= n then 2 else 0)
  {
    if n > 0 {
      NumberPairsCount(n - 1, v);
      assert NumberPairs(n) == NumberPairs(n - 1) + [Num(n), Num(n)];
    }
  }

  /** [1, ..., n] holds every number 1..n once and nothing else. */
  lemma {:induction false} NumbersCount(n: nat, v: Value)
    ensures multiset(Numbers(n))[v] == (if v.Num? && 1 <= v.n <= n then 1 else 0)
  {
    if n > 0 {
      NumbersCount(n - 1, v);
      assert Numbers(n) == Numbers(n - 1) + [Num(n)];
    }
  }

  /** No emoji is listed twice. */
  lemma EmojisCount(v: Value)
    ensures multiset(Emojis)[v] == (if v in Emojis then 1 else 0)
  {
    EmojisDistinct();
    DistinctCount(Emojis, v);
  }

  /** No entry of `s` is repeated. */
  ghost predicate Distinct<T>(s: seq<T>) {
    forall i, j :: 0 <= i < j < |s| ==> s[i] != s[j]
  }

  lemma EmojisDistinct()
    ensures Distinct(Emojis)
  {
    // Each emoji starts with a code point of its own.
    assert forall i, j :: 0 <= i < j < |Emojis| ==> Emojis[i].glyph[0] != Emojis[j].glyph[0];
  }

  lemma {:induction false} DistinctCount(s: seq<Value>, v: Value)
    requires Distinct(s)
    ensures multiset(s)[v] == (if v in s then 1 else 0)
  {
    if s != [] {
      DistinctCount(s[1..], v);
      assert s == [s[0]] + s[1..];
    }
  }

  /** Every value of a mode is distinct, so doubling the list puts each on
      exactly two cards. */
  lemma ModeValuesDistinct(mode: string, v: Value)
    ensures multiset(ModeValues(mode) + ModeValues(mode))[v] == (if v in ModeValues(mode) then 2 else 0)
  {
    var vs := ModeValues(mode);
    assert multiset(vs + vs) == multiset(vs) + multiset(vs);
    if mode == "emoji" {
      assert vs == Emojis;
      EmojisCount(v);
    } else {
      assert vs == Numbers(PairCount);
      NumbersCount(PairCount, v);
      NumbersMembers(PairCount, v);
    }
  }

  /** The members of [1, ..., n] are exactly the numbers 1..n. */
  lemma NumbersMembers(n: nat, v: Value)
    ensures v in Numbers(n) <==> v.Num? && 1 <= v.n <= n
  {
    if v.Num? && 1 <= v.n <= n {
      assert Numbers(n)[v.n - 1] == v;
    }
  }
}
