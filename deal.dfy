/**
 * Dealing one random game (`generate_card_play_data`): the 54-card deck,
 * numpy's in-place shuffle with its random draws passed in, and the split
 * into the three hands and the three cards shown to everyone that also go to
 * the landlord.
 */
module Deal {
  import opened Sorting

  datatype Key = Landlord | LandlordUp | LandlordDown | ThreeLandlordCards

  /** The card play data: the cards dealt to each seat and the three shown cards. */
  datatype CardPlayData = CardPlayData(landlord: seq<int>, landlordUp: seq<int>, landlordDown: seq<int>,
                                       threeLandlordCards: seq<int>)
  {
    /** `data[key]`. */
    function Get(key: Key): seq<int>
    {
      match key
      case Landlord => landlord
      case LandlordUp => landlordUp
      case LandlordDown => landlordDown
      case ThreeLandlordCards => threeLandlordCards
    }

    /** `data[key] = cards`. */
    function Set(key: Key, cards: seq<int>): (r: CardPlayData)
      ensures r.Get(key) == cards
      ensures forall k :: k != key ==> r.Get(k) == Get(k)
    {
      match key
      case Landlord => this.(landlord := cards)
      case LandlordUp => this.(landlordUp := cards)
      case LandlordDown => this.(landlordDown := cards)
      case ThreeLandlordCards => this.(threeLandlordCards := cards)
    }
  }

  /** The keys of the card play data, in the order the sorting loop visits them. */
  const Keys: seq<Key> := [Landlord, LandlordUp, LandlordDown, ThreeLandlordCards]

  const DeckSize: nat := 54
  const Deuce: int := 17
  const BlackJoker: int := 20
  const RedJoker: int := 30

  /** Four copies of every rank from `lo` up to, not including, `hi`. */
  function RankRun(lo: int, hi: int): seq<int>
    decreases hi - lo
  {
    if hi <= lo then [] else RankRun(lo, hi - 1) + [hi - 1, hi - 1, hi - 1, hi - 1]
  }

  /** The deck as it stands before shuffling. */
  function FullDeck(): seq<int>
  {
    RankRun(3, 15) + [Deuce, Deuce, Deuce, Deuce] + [BlackJoker, RedJoker]
  }

  /** How many copies of a card the deck holds. */
  function Copies(c: int): nat
  {
    if 3 <= c <= 14 || c == Deuce then 4 else if c == BlackJoker || c == RedJoker then 1 else 0
  }

  lemma {:induction false} RankRunCounts(lo: int, hi: int)
    ensures |RankRun(lo, hi)| == if hi <= lo then 0 else 4 * (hi - lo)
    ensures forall c :: multiset(RankRun(lo, hi))[c] == if lo <= c < hi then 4 else 0
    decreases hi - lo
  {
    if lo < hi {
      var x := hi - 1;
      RankRunCounts(lo, x);
      RunStep(RankRun(lo, x), x);
    }
  }

  lemma RunStep(run: seq<int>, x: int)
    ensures forall c :: multiset(run + [x, x, x, x])[c] == multiset(run)[c] + if c == x then 4 else 0
  {
    assert multiset(run + [x, x, x, x]) == multiset(run) + multiset{x, x, x, x};
  }

  /** Adding the four 2s and the two jokers to four of each rank from 3 to A gives `Copies`. */
  lemma CompleteDeckCounts(run: seq<int>)
    requires forall c :: multiset(run)[c] == if 3 <= c < 15 then 4 else 0
    ensures forall c :: multiset(run + [Deuce, Deuce, Deuce, Deuce] + [BlackJoker, RedJoker])[c] == Copies(c)
  {
    forall c
      ensures multiset(run + [Deuce, Deuce, Deuce, Deuce] + [BlackJoker, RedJoker])[c] == Copies(c)
    {
      assert multiset(run + [Deuce, Deuce, Deuce, Deuce] + [BlackJoker, RedJoker])[c]
          == multiset(run)[c] + multiset{Deuce, Deuce, Deuce, Deuce}[c] + multiset{BlackJoker, RedJoker}[c];
    }
  }

  /** 54 cards: four of each rank from 3 to A and of the 2, and one of each joker. */
  lemma DeckCounts()
    ensures |FullDeck()| == DeckSize
    ensures forall c :: multiset(FullDeck())[c] == Copies(c)
  {
    RankRunCounts(3, 15);
    CompleteDeckCounts(RankRun(3, 15));
  }

  method BuildDeck() returns (deck: seq<int>)
    ensures deck == FullDeck()
  {
    deck := [];
    for i := 3 to 15
      invariant deck == RankRun(3, i)
    {
      deck := deck + [i, i, i, i];
    }
    deck := deck + [Deuce, Deuce, Deuce, Deuce];
    deck := deck + [BlackJoker, RedJoker];
  }

  /**
   * Random draws for a Fisher–Yates shuffle: at step `i` numpy draws an
   * index in `[0, i]`.
   */
  predicate ValidPicks(picks: seq<nat>)
  {
    forall k :: 0 <= k < |picks| ==> picks[k] <= k
  }

  function Swap(s: seq<int>, i: nat, j: nat): (r: seq<int>)
    requires i < |s| && j < |s|
    ensures |r| == |s|
  {
    s[i := s[j]][j := s[i]]
  }

  /**
   * The shuffle still to do once the positions from `i` on are settled:
   * position `i - 1` swaps with the drawn `picks[i - 1]`, and so on down to 1.
   */
  function Shuffled(s: seq<int>, picks: seq<nat>, i: nat): (r: seq<int>)
    requires i <= |s| == |picks| && ValidPicks(picks)
    ensures |r| == |s|
    decreases i
  {
    if i <= 1 then s else Shuffled(Swap(s, i - 1, picks[i - 1]), picks, i - 1)
  }

  /** Shuffling only reorders the cards. */
  lemma {:induction false} ShuffledPermutation(s: seq<int>, picks: seq<nat>, i: nat)
    requires i <= |s| == |picks| && ValidPicks(picks)
    ensures multiset(Shuffled(s, picks, i)) == multiset(s)
    decreases i
  {
    if i > 1 {
      var j := picks[i - 1];
      ShuffledPermutation(Swap(s, i - 1, j), picks, i - 1);
      SwapPermutation(s, i - 1, j);
    }
  }

  lemma SwapPermutation(s: seq<int>, i: nat, j: nat)
    requires i < |s| && j < |s|
    ensures multiset(Swap(s, i, j)) == multiset(s)
  {
    var t := s[i := s[j]];
    assert multiset(t) == multiset(s) - multiset{s[i]} + multiset{s[j]};
    assert multiset(t[j := s[i]]) == multiset(t) - multiset{t[j]} + multiset{s[i]};
  }

  /** When every draw picks the position itself the deck keeps its order. */
  lemma {:induction false} ShuffledIdentity(s: seq<int>, picks: seq<nat>, i: nat)
    requires i <= |s| == |picks| && ValidPicks(picks)
    requires forall k :: 0 <= k < |picks| ==> picks[k] == k
    ensures Shuffled(s, picks, i) == s
    decreases i
  {
    if i > 1 {
      assert Swap(s, i - 1, picks[i - 1]) == s;
      ShuffledIdentity(s, picks, i - 1);
    }
  }

  /** `np.random.shuffle` on the deck, with the draws it makes given as `picks`. */
  method Shuffle(a: array<int>, picks: seq<nat>)
    requires a.Length == |picks| && ValidPicks(picks)
    modifies a
    ensures a[..] == Shuffled(old(a[..]), picks, a.Length)
  {
    var i: nat := a.Length;
    while i > 1
      invariant i <= a.Length
      invariant Shuffled(a[..], picks, i) == Shuffled(old(a[..]), picks, a.Length)
      decreases i
    {
      var j := picks[i - 1];
      ghost var before := a[..];
      a[i - 1], a[j] := a[j], a[i - 1];
      assert a[..] == Swap(before, i - 1, j);
      i := i - 1;
    }
  }

  /** The card play data dealt from a shuffled deck, each hand sorted. */
  function DealFrom(deck: seq<int>): CardPlayData
    requires |deck| == DeckSize
  {
    CardPlayData(SortCards(deck[..20]), SortCards(deck[20..37]), SortCards(deck[37..54]), SortCards(deck[17..20]))
  }

  lemma SliceMultisets(s: seq<int>, i: nat, j: nat)
    requires i <= j <= |s|
    ensures multiset(s[..i]) + multiset(s[i..j]) + multiset(s[j..]) == multiset(s)
    ensures multiset(s[i..j]) <= multiset(s[..j])
  {
    assert s == s[..i] + s[i..j] + s[j..];
    assert s[..j] == s[..i] + s[i..j];
  }

  /**
   * The landlord holds 20 cards and each peasant 17; together the three
   * hands are exactly the deck; the three shown cards are the last three of
   * the landlord's 20, so the landlord holds them; every list is sorted.
   */
  lemma DealPartition(deck: seq<int>)
    requires |deck| == DeckSize
    ensures var d := DealFrom(deck);
      && |d.landlord| == 20 && |d.landlordUp| == 17 && |d.landlordDown| == 17 && |d.threeLandlordCards| == 3
      && Sorted(d.landlord) && Sorted(d.landlordUp) && Sorted(d.landlordDown) && Sorted(d.threeLandlordCards)
      && multiset(d.landlord) + multiset(d.landlordUp) + multiset(d.landlordDown) == multiset(deck)
      && multiset(d.threeLandlordCards) <= multiset(d.landlord)
  {
    SliceMultisets(deck, 20, 37);
    assert deck[37..54] == deck[37..];
    SliceMultisets(deck, 17, 20);
  }

  /** Every game dealt holds the whole deck, split as `DealPartition` says. */
  lemma DealtGame(picks: seq<nat>)
    requires |picks| == DeckSize && ValidPicks(picks)
    ensures var d := DealFrom(Shuffled(FullDeck(), picks, DeckSize));
      && |d.landlord| == 20 && |d.landlordUp| == 17 && |d.landlordDown| == 17 && |d.threeLandlordCards| == 3
      && Sorted(d.landlord) && Sorted(d.landlordUp) && Sorted(d.landlordDown) && Sorted(d.threeLandlordCards)
      && (forall c :: (multiset(d.landlord) + multiset(d.landlordUp) + multiset(d.landlordDown))[c] == Copies(c))
      && multiset(d.threeLandlordCards) <= multiset(d.landlord)
  {
    DeckCounts();
    var deck := Shuffled(FullDeck(), picks, DeckSize);
    ShuffledPermutation(FullDeck(), picks, DeckSize);
    DealPartition(deck);
  }

  /** The card play data once the sorting loop has sorted the lists of the first `k` keys. */
  function SortedUpTo(d: CardPlayData, k: nat): CardPlayData
  {
    CardPlayData(if k > 0 then SortCards(d.landlord) else d.landlord,
                 if k > 1 then SortCards(d.landlordUp) else d.landlordUp,
                 if k > 2 then SortCards(d.landlordDown) else d.landlordDown,
                 if k > 3 then SortCards(d.threeLandlordCards) else d.threeLandlordCards)
  }

  /** One turn of the sorting loop sorts the list of the next key and leaves the others. */
  lemma SortStep(d: CardPlayData, k: nat)
    requires k < |Keys|
    ensures var e := SortedUpTo(d, k); e.Set(Keys[k], SortCards(e.Get(Keys[k]))) == SortedUpTo(d, k + 1)
  {
  }

  /** `generate_card_play_data`, with numpy's draws for the shuffle given as `picks`. */
  method GenerateCardPlayData(picks: seq<nat>) returns (data: CardPlayData)
    requires |picks| == DeckSize && ValidPicks(picks)
    ensures data == DealFrom(Shuffled(FullDeck(), picks, DeckSize))
  {
    var deck := BuildDeck();
    DeckCounts();
    var cards := new int[|deck|](i requires 0 <= i < |deck| => deck[i]);
    assert cards[..] == deck;
    Shuffle(cards, picks);
    var shuffled := cards[..];
    var dealt := CardPlayData(shuffled[..20], shuffled[20..37], shuffled[37..54], shuffled[17..20]);
    data := dealt;
    for k := 0 to |Keys|
      invariant data == SortedUpTo(dealt, k)
    {
      SortStep(dealt, k);
      data := data.Set(Keys[k], SortCards(data.Get(Keys[k])));
    }
  }
}
