/** The card economy of the game model (`SPQRisiko.create_deck`,
    `draw_a_card` and `reinforces_from_tris`): building the deck from the
    card list, drawing cards, and turning three cards into reinforcements. */
module Cards {
  import opened Optional

  /** A card in the deck. `addsOnTris` maps a reinforcement kind to the
      extra units the card brings to a tris. */
  datatype Card = Card(kind: string, addsOnTris: map<string, int>, image: string)

  /** One record of the card list: a card and how many copies the deck has. */
  datatype CardEntry = CardEntry(card: Card, numberInDeck: int)

  /** `count` copies of `c`; a negative count gives none, as `range` does. */
  function Repeat(c: Card, count: int): (r: seq<Card>)
    ensures |r| == (if count > 0 then count else 0)
    ensures forall k :: 0 <= k < |r| ==> r[k] == c
  {
    if count <= 0 then [] else Repeat(c, count - 1) + [c]
  }

  /** The deck the expansion loop builds: every entry's copies, entry after
      entry in list order. */
  function Expand(entries: seq<CardEntry>): seq<Card> {
    if entries == [] then []
    else
      var last := entries[|entries| - 1];
      Expand(entries[..|entries| - 1]) + Repeat(last.card, last.numberInDeck)
  }

  function Copies(e: CardEntry): nat {
    if e.numberInDeck > 0 then e.numberInDeck else 0
  }

  function TotalCopies(entries: seq<CardEntry>): nat {
    if entries == [] then 0 else TotalCopies(entries[..|entries| - 1]) + Copies(entries[|entries| - 1])
  }

  /** Copies of card `c` that the entries ask for. */
  function CopiesOf(entries: seq<CardEntry>, c: Card): nat {
    if entries == [] then 0
    else
      var last := entries[|entries| - 1];
      CopiesOf(entries[..|entries| - 1], c) + (if last.card == c then Copies(last) else 0)
  }

  /** The expansion loop of `create_deck`, given the parsed card list. A
      truthy `customNumbers` returns the deck still empty. */
  method CreateDeck(entries: seq<CardEntry>, customNumbers: bool) returns (deck: seq<Card>)
    ensures customNumbers ==> deck == []
    ensures !customNumbers ==> deck == Expand(entries)
  {
    deck := [];
    if customNumbers {
      return;
    }
    var i := 0;
    while i < |entries|
      invariant 0 <= i <= |entries|
      invariant deck == Expand(entries[..i])
    {
      var c := entries[i].card;
      var j := 0;
      while j < entries[i].numberInDeck
        invariant 0 <= j
        invariant j <= (if entries[i].numberInDeck > 0 then entries[i].numberInDeck else 0)
        invariant deck == Expand(entries[..i]) + Repeat(c, j)
      {
        deck := deck + [c];
        j := j + 1;
      }
      assert entries[..i + 1][..i] == entries[..i];
      i := i + 1;
    }
    assert entries[..i] == entries;
  }

  /** The deck holds one card per copy asked for. */
  lemma {:induction false} ExpandLength(entries: seq<CardEntry>)
    ensures |Expand(entries)| == TotalCopies(entries)
  {
    if entries != [] {
      ExpandLength(entries[..|entries| - 1]);
    }
  }

  /** Each card appears in the deck exactly as often as the entries ask. */
  lemma {:induction false} ExpandMultiplicity(entries: seq<CardEntry>, c: Card)
    ensures multiset(Expand(entries))[c] == CopiesOf(entries, c)
  {
    if entries != [] {
      var last := entries[|entries| - 1];
      ExpandMultiplicity(entries[..|entries| - 1], c);
      RepeatMultiplicity(last.card, last.numberInDeck, c);
    }
  }

  lemma {:induction false} RepeatMultiplicity(c: Card, count: int, d: Card)
    ensures multiset(Repeat(c, count))[d] == (if c == d && count > 0 then count else 0)
    decreases if count > 0 then count else 0
  {
    if count > 0 {
      RepeatMultiplicity(c, count - 1, d);
    }
  }

  /** File order: the deck of two consecutive runs of entries is the first
      run's deck followed by the second's. */
  lemma {:induction false} ExpandConcat(first: seq<CardEntry>, second: seq<CardEntry>)
    ensures Expand(first + second) == Expand(first) + Expand(second)
    decreases |second|
  {
    if second != [] {
      var n := |second| - 1;
      assert (first + second)[..|first + second| - 1] == first + second[..n];
      ExpandConcat(first, second[..n]);
    } else {
      assert first + second == first;
    }
  }

  /** The deck and the discard pile (`thrashed_cards`). */
  datatype Piles<C> = Piles(deck: seq<C>, thrashed: seq<C>)

  /** `draw_a_card`: takes the top (last) card of the deck. An empty deck is
      first refilled with the discard pile, which is not emptied; when both
      are empty nothing is drawn and nothing changes. */
  function DrawACard<C>(p: Piles<C>): (r: (Option<C>, Piles<C>))
    ensures r.1.thrashed == p.thrashed
    ensures p.deck == [] && p.thrashed == [] ==> r.0 == None && r.1 == p
    ensures p.deck != [] ==> r.0 == Some(p.deck[|p.deck| - 1]) && r.1.deck + [r.0.value] == p.deck
    ensures p.deck == [] && p.thrashed != [] ==>
      r.0 == Some(p.thrashed[|p.thrashed| - 1]) && r.1.deck + [r.0.value] == p.thrashed
  {
    if p.deck == [] && p.thrashed == [] then
      (None, p)
    else
      var deck := if p.deck == [] then p.thrashed else p.deck;
      var top := deck[|deck| - 1];
      assert deck == deck[..|deck| - 1] + [top];
      (Some(top), p.(deck := deck[..|deck| - 1]))
  }

  /** Drawing loses no card: the drawn card and what is left of the deck
      are exactly the cards the draw was taken from. */
  lemma DrawConservesCards<C>(p: Piles<C>)
    ensures var r := DrawACard(p);
      r.0.Some? ==> multiset(r.1.deck) + multiset{r.0.value} == multiset(Source(p))
    ensures DrawACard(p).0.None? <==> Source(p) == []
  {
  }

  /** Where the next card comes from: the deck, or the discard pile when the
      deck is empty. */
  function Source<C>(p: Piles<C>): seq<C> {
    if p.deck == [] then p.thrashed else p.deck
  }

  /** `count` draws in a row; the cards drawn, in the order drawn. */
  function DrawMany<C>(p: Piles<C>, count: nat): (r: (seq<C>, Piles<C>))
    decreases count
  {
    if count == 0 then ([], p)
    else
      var step := DrawACard(p);
      var rest := DrawMany(step.1, count - 1);
      (if step.0.Some? then [step.0.value] + rest.0 else rest.0, rest.1)
  }

  function Reverse<C>(s: seq<C>): (r: seq<C>)
    ensures |r| == |s|
    ensures forall k :: 0 <= k < |s| ==> r[k] == s[|s| - 1 - k]
  {
    if s == [] then [] else [s[|s| - 1]] + Reverse(s[..|s| - 1])
  }

  /** The deck is a stack: drawing `count` cards from a deck that has them
      yields its last `count` cards, top first, and leaves the rest. */
  lemma {:induction false} DrawsAreLastInFirstOut<C>(p: Piles<C>, count: nat)
    requires count <= |p.deck|
    ensures DrawMany(p, count).0 == Reverse(p.deck[|p.deck| - count..])
    ensures DrawMany(p, count).1 == p.(deck := p.deck[..|p.deck| - count])
    decreases count
  {
    if count > 0 {
      var p' := p.(deck := p.deck[..|p.deck| - 1]);
      DrawsAreLastInFirstOut(p', count - 1);
      DrawTail(p, count, DrawMany(p', count - 1));
    } else {
      assert p.deck[..|p.deck|] == p.deck;
    }
  }

  /** The step of the induction above: the top card followed by the cards
      drawn from under it. */
  lemma DrawTail<C>(p: Piles<C>, count: nat, rest: (seq<C>, Piles<C>))
    requires 0 < count <= |p.deck|
    requires var p' := p.(deck := p.deck[..|p.deck| - 1]);
      && rest == DrawMany(p', count - 1)
      && rest.0 == Reverse(p'.deck[|p'.deck| - (count - 1)..])
      && rest.1 == p'.(deck := p'.deck[..|p'.deck| - (count - 1)])
    ensures DrawMany(p, count).0 == Reverse(p.deck[|p.deck| - count..])
    ensures DrawMany(p, count).1 == p.(deck := p.deck[..|p.deck| - count])
  {
    var n := |p.deck|;
    var below := p.deck[n - count..n - 1];
    DrawFromDeck(p, count);
    assert DrawMany(p, count) == ([p.deck[n - 1]] + rest.0, rest.1);
    TailSlices(p.deck, count);
    ReverseSnoc(below, p.deck[n - 1]);
  }

  /** Dropping the top card and then `count - 1` more leaves the deck without
      its last `count` cards; those are the `count - 1` below the top, then
      the top. */
  lemma TailSlices<C>(deck: seq<C>, count: nat)
    requires 0 < count <= |deck|
    ensures var n := |deck|;
      && deck[..n - 1][n - 1 - (count - 1)..] == deck[n - count..n - 1]
      && deck[..n - 1][..n - 1 - (count - 1)] == deck[..n - count]
      && deck[n - count..] == deck[n - count..n - 1] + [deck[n - 1]]
  {
    var n := |deck|;
    assert deck[n - 1..] == [deck[n - 1]];
    assert deck[n - count..] == deck[n - count..n - 1] + deck[n - 1..];
  }

  lemma ReverseSnoc<C>(s: seq<C>, x: C)
    ensures Reverse(s + [x]) == [x] + Reverse(s)
  {
    assert (s + [x])[..|s|] == s;
  }

  /** One step of `DrawMany` from a deck that is not empty. */
  lemma DrawFromDeck<C>(p: Piles<C>, count: nat)
    requires 0 < count <= |p.deck|
    ensures var rest := DrawMany(p.(deck := p.deck[..|p.deck| - 1]), count - 1);
      DrawMany(p, count) == ([p.deck[|p.deck| - 1]] + rest.0, rest.1)
  {
    assert DrawACard(p) == (Some(p.deck[|p.deck| - 1]), p.(deck := p.deck[..|p.deck| - 1]));
  }

  /** Reinforcements granted for a tris. */
  datatype Reinforcements = Reinforcements(legionaries: int, centers: int, trireme: int)

  /** The failures of `reinforces_from_tris`: the two assertions, and a card
      bonus naming a kind of reinforcement that does not exist (a KeyError). */
  datatype TrisError = WrongNumberOfCards | NotATris | UnknownReinforcement

  datatype TrisResult = Granted(reinforcements: Reinforcements) | Refused(error: TrisError)

  const Legionaries: string := "legionaries"
  const Centers: string := "centers"
  const Trireme: string := "trireme"

  function Kinds(cards: seq<Card>): set<string> {
    set c | c in cards :: c.kind
  }

  predicate AllSameKind(cards: seq<Card>) {
    forall i, j :: 0 <= i < |cards| && 0 <= j < |cards| ==> cards[i].kind == cards[j].kind
  }

  predicate AllDifferentKinds(cards: seq<Card>) {
    forall i, j :: 0 <= i < |cards| && 0 <= j < |cards| && i != j ==> cards[i].kind != cards[j].kind
  }

  /** Every bonus of every card names one of the three reinforcement kinds. */
  predicate KnownBonuses(cards: seq<Card>) {
    forall c :: c in cards ==> c.addsOnTris.Keys <= {Legionaries, Centers, Trireme}
  }

  function BonusOf(c: Card, key: string): int {
    if key in c.addsOnTris then c.addsOnTris[key] else 0
  }

  /** The cards' total bonus for one reinforcement kind. */
  function Bonus(cards: seq<Card>, key: string): int {
    if cards == [] then 0 else Bonus(cards[..|cards| - 1], key) + BonusOf(cards[|cards| - 1], key)
  }

  /** `reinforces_from_tris`: three cards all of one kind give 8 legionaries,
      three of three different kinds give 10; every card then adds its
      bonuses. Any other hand is refused. */
  function ReinforcesFromTris(cards: seq<Card>): (r: TrisResult)
    ensures r == Refused(WrongNumberOfCards) <==> |cards| != 3
    ensures r == Refused(NotATris) <==> |cards| == 3 && !AllSameKind(cards) && !AllDifferentKinds(cards)
    ensures r == Refused(UnknownReinforcement) <==>
      |cards| == 3 && (AllSameKind(cards) || AllDifferentKinds(cards)) && !KnownBonuses(cards)
    ensures r.Granted? ==>
      && |cards| == 3 && KnownBonuses(cards)
      && r.reinforcements.legionaries == (if AllSameKind(cards) then 8 else 10) + Bonus(cards, Legionaries)
      && r.reinforcements.centers == Bonus(cards, Centers)
      && r.reinforcements.trireme == Bonus(cards, Trireme)
  {
    if |cards| != 3 then
      Refused(WrongNumberOfCards)
    else
      var kinds := Kinds(cards);
      KindsOfThree(cards);
      if |kinds| != 3 && |kinds| != 1 then
        Refused(NotATris)
      else if !KnownBonuses(cards) then
        Refused(UnknownReinforcement)
      else
        Granted(Reinforcements(
          (if |kinds| == 1 then 8 else 10) + Bonus(cards, Legionaries),
          Bonus(cards, Centers),
          Bonus(cards, Trireme)))
  }

  /** For three cards, one kind in the set means all the same and three
      kinds means all different. */
  lemma KindsOfThree(cards: seq<Card>)
    requires |cards| == 3
    ensures |Kinds(cards)| == 1 <==> AllSameKind(cards)
    ensures |Kinds(cards)| == 3 <==> AllDifferentKinds(cards)
  {
    var x, y, z := cards[0].kind, cards[1].kind, cards[2].kind;
    assert Kinds(cards) == {x, y, z} by {
      assert forall c :: c in cards <==> c == cards[0] || c == cards[1] || c == cards[2];
    }
    if x == y && y == z {
      assert {x, y, z} == {x};
    } else if x == y {
      assert {x, y, z} == {x, z};
    } else if y == z {
      assert {x, y, z} == {x, y};
    } else if x == z {
      assert {x, y, z} == {x, y};
    }
  }

  /** The order of the three cards does not matter: any rearrangement of the
      same cards gets the same answer. */
  lemma {:induction false} TrisIgnoresOrder(cards: seq<Card>, other: seq<Card>)
    requires multiset(cards) == multiset(other)
    ensures ReinforcesFromTris(cards) == ReinforcesFromTris(other)
  {
    assert |cards| == |multiset(cards)| == |other|;
    forall c ensures c in cards <==> c in other {
      assert c in cards <==> c in multiset(cards);
      assert c in other <==> c in multiset(other);
    }
    assert Kinds(cards) == Kinds(other);
    BonusIgnoresOrder(cards, other, Legionaries);
    BonusIgnoresOrder(cards, other, Centers);
    BonusIgnoresOrder(cards, other, Trireme);
  }

  lemma {:induction false} BonusIgnoresOrder(cards: seq<Card>, other: seq<Card>, key: string)
    requires multiset(cards) == multiset(other)
    ensures Bonus(cards, key) == Bonus(other, key)
    decreases |cards|
  {
    if cards == [] {
      assert |other| == |multiset(other)| == 0;
    } else {
      var n := |cards| - 1;
      var last := cards[n];
      assert cards == cards[..n] + [last];
      assert last in multiset(other);
      var j :| 0 <= j < |other| && other[j] == last;
      var rest := other[..j] + other[j + 1..];
      assert other == other[..j] + [last] + other[j + 1..];
      assert multiset(other) == multiset(rest) + multiset{last};
      assert multiset(cards) == multiset(cards[..n]) + multiset{last};
      assert multiset(cards[..n]) == multiset(cards) - multiset{last};
      assert multiset(rest) == multiset(other) - multiset{last};
      BonusIgnoresOrder(cards[..n], rest, key);
      BonusRemove(other, j, key);
    }
  }

  /** Taking one card out of a hand lowers its bonus by that card's. */
  lemma {:induction false} BonusRemove(cards: seq<Card>, j: nat, key: string)
    requires j < |cards|
    ensures Bonus(cards, key) == Bonus(cards[..j] + cards[j + 1..], key) + BonusOf(cards[j], key)
    decreases |cards|
  {
    var n := |cards| - 1;
    if j < n {
      var rest := cards[..j] + cards[j + 1..];
      assert rest[..|rest| - 1] == cards[..n][..j] + cards[..n][j + 1..];
      assert rest[|rest| - 1] == cards[n];
      BonusRemove(cards[..n], j, key);
    } else {
      assert cards[..j] + cards[j + 1..] == cards[..n];
    }
  }
}
