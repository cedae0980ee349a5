/**
 * The card codec of the LLM agent: the table from the engine's card ranks to
 * the display tokens, its inverse, and the two renderers built on it
 * (`format_cards` for a move, `format_hand_cards` for a hand).
 *
 * Ranks: 3..10 are themselves, 11..14 are J, Q, K, A, 17 is the 2,
 * 20 the small joker and 30 the big joker.
 */
module CardCodec {
  import opened Wrappers
  import opened Strings
  import opened Sorting

  /** What an empty move renders as ("pass"). */
  const PassToken: string := "过牌"

  /** Separates a rank's name from its count in a rendered hand. */
  const CountSign: char := '×'

  const EnvCard2RealCard: map<int, string> :=
    map[3 := "3", 4 := "4", 5 := "5", 6 := "6", 7 := "7",
        8 := "8", 9 := "9", 10 := "10", 11 := "J", 12 := "Q",
        13 := "K", 14 := "A", 17 := "2", 20 := "小王", 30 := "大王"]

  /** The ranks of a Dou Dizhu deck. */
  predicate IsRank(c: int)
  {
    3 <= c <= 14 || c == 17 || c == 20 || c == 30
  }

  /** A token that survives splitting a rendering on spaces and on the count sign. */
  predicate IsPlainName(t: string)
  {
    |t| >= 1 && ' ' !in t && CountSign !in t
  }

  /** The table covers exactly the deck's ranks, with plain names that are never the pass token. */
  lemma CodecDomain(c: int)
    ensures c in EnvCard2RealCard <==> IsRank(c)
    ensures c in EnvCard2RealCard ==> IsPlainName(EnvCard2RealCard[c]) && EnvCard2RealCard[c] != PassToken
  {
  }

  /** Distinct ranks have distinct names. */
  lemma TableInjective(c: int, d: int)
    requires c in EnvCard2RealCard && d in EnvCard2RealCard
    requires EnvCard2RealCard[c] == EnvCard2RealCard[d]
    ensures c == d
  {
  }

  /** The inverse table, built as `{v: k for k, v in EnvCard2RealCard.items()}`. */
  function RealCard2EnvCard(): map<string, int>
  {
    map c | c in EnvCard2RealCard :: EnvCard2RealCard[c] := c
  }

  /** Decoding the name of a rank gives the rank back. */
  lemma DecodeEncode(c: int)
    requires IsRank(c)
    ensures EnvCard2RealCard[c] in RealCard2EnvCard()
    ensures RealCard2EnvCard()[EnvCard2RealCard[c]] == c
  {
    CodecDomain(c);
    var t := EnvCard2RealCard[c];
    var m := RealCard2EnvCard();
    assert t in m;
    var d := m[t];
    assert d in EnvCard2RealCard && EnvCard2RealCard[d] == t;
    TableInjective(c, d);
  }

  /** Every name the inverse table knows is the name of the rank it decodes to. */
  lemma EncodeDecode(t: string)
    requires t in RealCard2EnvCard()
    ensures IsRank(RealCard2EnvCard()[t])
    ensures EnvCard2RealCard[RealCard2EnvCard()[t]] == t
  {
    var m := RealCard2EnvCard();
    var c :| c in EnvCard2RealCard && EnvCard2RealCard[c] == t;
    CodecDomain(c);
    DecodeEncode(c);
  }

  /** `EnvCard2RealCard.get(card, str(card))`. */
  function CardName(c: int): (name: string)
    ensures IsPlainName(name) && name != PassToken
  {
    CodecDomain(c);
    if c in EnvCard2RealCard then EnvCard2RealCard[c]
    else
      var s := IntToString(c);
      assert ' ' !in s && CountSign !in s by {
        forall k | 0 <= k < |s| ensures s[k] != ' ' && s[k] != CountSign {
        }
      }
      assert s[0] == '-' || IsDigit(s[0]);
      s
  }

  function CardNames(cards: seq<int>): (names: seq<string>)
    ensures |names| == |cards|
  {
    seq(|cards|, i requires 0 <= i < |cards| => CardName(cards[i]))
  }

  /** `format_cards`: the pass token for an empty move, otherwise the cards' names joined by spaces. */
  function FormatCards(cards: seq<int>): string
  {
    if cards == [] then PassToken else Join(CardNames(cards), ' ')
  }

  /** A non-empty move renders as one token per card, in the move's order, separated by single spaces. */
  lemma FormatCardsTokens(cards: seq<int>)
    requires cards != []
    ensures Split(FormatCards(cards), ' ') == CardNames(cards)
  {
    SplitJoin(CardNames(cards), ' ');
  }

  /** The pass token renders exactly the empty move. */
  lemma FormatCardsPass(cards: seq<int>)
    ensures FormatCards(cards) == PassToken <==> cards == []
  {
    if cards != [] {
      FormatCardsTokens(cards);
      SplitWithoutSeparator(PassToken, ' ');
      assert CardNames(cards)[0] == CardName(cards[0]) != PassToken;
    }
  }

  function DecodeCardName(t: string): Option<int>
  {
    if t in RealCard2EnvCard() then Some(RealCard2EnvCard()[t]) else None
  }

  function DecodeNames(ts: seq<string>): Option<seq<int>>
  {
    if ts == [] then Some([])
    else
      match (DecodeCardName(ts[0]), DecodeNames(ts[1..]))
      case (Some(c), Some(cs)) => Some([c] + cs)
      case _ => None
  }

  /** Reads a rendered move back: the pass token, or space-separated card names. */
  function DecodeMove(text: string): Option<seq<int>>
  {
    if text == PassToken then Some([]) else DecodeNames(Split(text, ' '))
  }

  lemma {:induction false} DecodeCardNames(cards: seq<int>)
    requires forall i :: 0 <= i < |cards| ==> IsRank(cards[i])
    ensures DecodeNames(CardNames(cards)) == Some(cards)
    decreases |cards|
  {
    if cards != [] {
      DecodeEncode(cards[0]);
      CodecDomain(cards[0]);
      assert CardNames(cards)[1..] == CardNames(cards[1..]);
      DecodeCardNames(cards[1..]);
      assert [cards[0]] + cards[1..] == cards;
    }
  }

  /** A move of deck ranks is recovered exactly, order included, from its rendering. */
  lemma FormatCardsRoundTrip(cards: seq<int>)
    requires forall i :: 0 <= i < |cards| ==> IsRank(cards[i])
    ensures DecodeMove(FormatCards(cards)) == Some(cards)
  {
    FormatCardsPass(cards);
    if cards != [] {
      FormatCardsTokens(cards);
      DecodeCardNames(cards);
    }
  }

  /** One entry of a rendered hand: the name, followed by `×count` when the rank is repeated. */
  function HandEntry(name: string, count: nat): string
  {
    if count == 1 then name else name + [CountSign] + NatToString(count)
  }

  /** The ranks a hand lists, `sorted(Counter(cards).keys())`. */
  function HandKeys(cards: seq<int>): seq<int>
  {
    SortCards(FirstOccurrences(cards))
  }

  /** `Counter(cards)` as a value: each card held, with how often it occurs. */
  function Counts(cards: seq<int>): (counts: map<int, nat>)
    ensures forall c :: c in counts <==> c in cards
    ensures forall c :: c in counts ==> counts[c] == multiset(cards)[c]
  {
    map c | c in cards :: multiset(cards)[c]
  }

  /** The entries for `keys`, each rank with its count in `counts`. */
  function EntriesOf(keys: seq<int>, counts: map<int, nat>): (entries: seq<string>)
    requires forall k :: k in keys ==> k in counts
    ensures |entries| == |keys|
  {
    if keys == [] then []
    else
      var last := keys[|keys| - 1];
      EntriesOf(keys[..|keys| - 1], counts) + [HandEntry(CardName(last), counts[last])]
  }

  lemma {:induction false} EntriesOfAt(keys: seq<int>, counts: map<int, nat>, j: nat)
    requires forall k :: k in keys ==> k in counts
    requires j < |keys|
    ensures EntriesOf(keys, counts)[j] == HandEntry(CardName(keys[j]), counts[keys[j]])
    decreases |keys|
  {
    if j < |keys| - 1 {
      EntriesOfAt(keys[..|keys| - 1], counts, j);
    }
  }

  lemma EntriesOfSnoc(keys: seq<int>, i: nat, counts: map<int, nat>)
    requires i < |keys|
    requires forall k :: k in keys ==> k in counts
    ensures forall k :: k in keys[..i + 1] ==> k in counts
    ensures EntriesOf(keys[..i + 1], counts)
      == EntriesOf(keys[..i], counts) + [HandEntry(CardName(keys[i]), counts[keys[i]])]
  {
    assert keys[..i + 1][..i] == keys[..i];
  }

  /** The entries of a rendered hand, one per rank it holds. */
  function HandEntries(cards: seq<int>): (entries: seq<string>)
    ensures |entries| == |HandKeys(cards)|
  {
    HandKeysAscending(cards);
    EntriesOf(HandKeys(cards), Counts(cards))
  }

  /** A hand lists each rank it holds once, in strictly ascending order. */
  lemma HandKeysAscending(cards: seq<int>)
    ensures forall i, j :: 0 <= i < j < |HandKeys(cards)| ==> HandKeys(cards)[i] < HandKeys(cards)[j]
    ensures forall c :: c in HandKeys(cards) <==> c in cards
  {
    SortedDistinctAscending(FirstOccurrences(cards));
    var keys := HandKeys(cards);
    forall c ensures c in keys <==> c in cards {
      assert c in keys <==> c in multiset(keys);
      assert c in FirstOccurrences(cards) <==> c in multiset(FirstOccurrences(cards));
    }
  }

  /** `counts` holds exactly the cards of `s`, each with its number of occurrences. */
  ghost predicate Counted(counts: map<int, nat>, s: seq<int>)
  {
    && (forall c :: c in counts <==> c in s)
    && (forall c :: c in counts ==> counts[c] == multiset(s)[c])
  }

  /** Counting one more card keeps the counter exact. */
  lemma CountStep(counts: map<int, nat>, s: seq<int>, c: int)
    requires Counted(counts, s)
    ensures Counted(if c in counts then counts[c := counts[c] + 1] else counts[c := 1], s + [c])
  {
    assert multiset(s + [c]) == multiset(s) + multiset{c};
  }

  lemma CountedIsCounts(counts: map<int, nat>, s: seq<int>)
    requires Counted(counts, s)
    ensures counts == Counts(s)
  {
    var spec := Counts(s);
    forall c ensures c in counts <==> c in spec {
    }
    assert counts.Keys == spec.Keys;
    forall c | c in counts ensures counts[c] == spec[c] {
    }
  }

  /**
   * `Counter(cards)`: how often each card occurs, and the cards in order of
   * first occurrence (the order of the counter's keys).
   */
  method CountCards(cards: seq<int>) returns (counts: map<int, nat>, keys: seq<int>)
    ensures counts == Counts(cards)
    ensures keys == FirstOccurrences(cards)
  {
    counts, keys := map[], [];
    for i := 0 to |cards|
      invariant keys == FirstOccurrences(cards[..i])
      invariant Counted(counts, cards[..i])
    {
      var c := cards[i];
      assert cards[..i + 1] == cards[..i] + [c];
      assert cards[..i + 1][..i] == cards[..i];
      CountStep(counts, cards[..i], c);
      if c in counts {
        counts := counts[c := counts[c] + 1];
      } else {
        counts := counts[c := 1];
        keys := keys + [c];
      }
    }
    assert cards[..|cards|] == cards;
    CountedIsCounts(counts, cards);
  }

  /** The loop of `format_hand_cards`: one entry per key, in the keys' order. */
  method RenderEntries(keys: seq<int>, counts: map<int, nat>) returns (result: seq<string>)
    requires forall k :: k in keys ==> k in counts
    ensures result == EntriesOf(keys, counts)
  {
    result := [];
    for i := 0 to |keys|
      invariant forall k :: k in keys[..i] ==> k in counts
      invariant result == EntriesOf(keys[..i], counts)
    {
      var card := keys[i];
      var name := CardName(card);
      var count := counts[card];
      EntriesOfSnoc(keys, i, counts);
      if count == 1 {
        result := result + [name];
      } else {
        result := result + [name + [CountSign] + NatToString(count)];
      }
    }
    assert keys[..|keys|] == keys;
  }

  /** `format_hand_cards`: the hand's entries joined by spaces. */
  method FormatHandCards(cards: seq<int>) returns (text: string)
    ensures text == Join(HandEntries(cards), ' ')
  {
    var counts, keys := CountCards(cards);
    var sortedKeys := SortCards(keys);
    HandKeysAscending(cards);
    var entries := RenderEntries(sortedKeys, counts);
    text := Join(entries, ' ');
  }

  /** Reads one hand entry back into its rank and count. */
  function ParseHandEntry(e: string): Option<(int, nat)>
  {
    var parts := Split(e, CountSign);
    if |parts| == 1 then
      match DecodeCardName(e)
      case Some(c) => Some((c, 1))
      case None => None
    else if |parts| == 2 && |parts[1]| >= 1 && AllDigits(parts[1]) then
      match DecodeCardName(parts[0])
      case Some(c) => Some((c, DigitsValue(parts[1])))
      case None => None
    else None
  }

  function DecodeEntries(es: seq<string>): Option<multiset<int>>
  {
    if es == [] then Some(multiset{})
    else
      match (ParseHandEntry(es[0]), DecodeEntries(es[1..]))
      case (Some((c, n)), Some(rest)) => Some(multiset{}[c := n] + rest)
      case _ => None
  }

  /** Reads a rendered hand back into the multiset of cards it lists. */
  function DecodeHand(text: string): Option<multiset<int>>
  {
    if text == "" then Some(multiset{}) else DecodeEntries(Split(text, ' '))
  }

  /** `count` copies of each key, for the keys in `keys`. */
  ghost function Bag(keys: seq<int>, counts: multiset<int>): multiset<int>
  {
    if keys == [] then multiset{} else multiset{}[keys[0] := counts[keys[0]]] + Bag(keys[1..], counts)
  }

  lemma {:induction false} BagCounts(keys: seq<int>, counts: multiset<int>)
    requires NoDuplicates(keys)
    ensures forall x :: Bag(keys, counts)[x] == if x in keys then counts[x] else 0
    decreases |keys|
  {
    if keys != [] {
      assert NoDuplicates(keys[1..]);
      BagCounts(keys[1..], counts);
      assert keys[0] !in keys[1..] by {
        forall i | 0 <= i < |keys[1..]| ensures keys[1..][i] != keys[0] {
          assert keys[1..][i] == keys[i + 1];
        }
      }
      forall x ensures Bag(keys, counts)[x] == if x in keys then counts[x] else 0 {
        assert x in keys <==> x == keys[0] || x in keys[1..];
      }
    }
  }

  lemma ParseEntryOfRank(c: int, n: nat)
    requires IsRank(c) && n >= 1
    ensures ParseHandEntry(HandEntry(CardName(c), n)) == Some((c, n))
  {
    CodecDomain(c);
    DecodeEncode(c);
    var name := CardName(c);
    if n == 1 {
      SplitWithoutSeparator(name, CountSign);
    } else {
      var digits := NatToString(n);
      assert CountSign !in digits by {
        forall k | 0 <= k < |digits| ensures digits[k] != CountSign {
        }
      }
      SplitAtSeparator(name, digits, CountSign);
      SplitWithoutSeparator(digits, CountSign);
      DigitsValueOfNatToString(n);
    }
  }

  lemma HandKeyHeld(cards: seq<int>, j: nat)
    requires j < |HandKeys(cards)|
    ensures multiset(cards)[HandKeys(cards)[j]] >= 1
  {
    var c := HandKeys(cards)[j];
    assert c in multiset(HandKeys(cards));
    assert c in FirstOccurrences(cards);
    assert c in cards;
  }

  lemma {:induction false} DecodeEntriesBag(es: seq<string>, keys: seq<int>, counts: multiset<int>)
    requires |es| == |keys|
    requires forall i :: 0 <= i < |es| ==> ParseHandEntry(es[i]) == Some((keys[i], counts[keys[i]]))
    ensures DecodeEntries(es) == Some(Bag(keys, counts))
    decreases |es|
  {
    if es != [] {
      DecodeEntriesBag(es[1..], keys[1..], counts);
    }
  }

  lemma HandEntriesParse(cards: seq<int>)
    requires forall i :: 0 <= i < |cards| ==> IsRank(cards[i])
    ensures forall j :: 0 <= j < |HandEntries(cards)| ==>
      ParseHandEntry(HandEntries(cards)[j]) == Some((HandKeys(cards)[j], multiset(cards)[HandKeys(cards)[j]]))
  {
    var keys := HandKeys(cards);
    var entries := HandEntries(cards);
    HandKeysAscending(cards);
    forall j | 0 <= j < |entries| ensures ParseHandEntry(entries[j]) == Some((keys[j], multiset(cards)[keys[j]])) {
      var c := keys[j];
      EntriesOfAt(keys, Counts(cards), j);
      HandKeyHeld(cards, j);
      assert IsRank(c) by {
        var i :| 0 <= i < |cards| && cards[i] == c;
      }
      ParseEntryOfRank(c, multiset(cards)[c]);
    }
  }

  lemma HandEntriesPlain(cards: seq<int>)
    ensures forall i :: 0 <= i < |HandEntries(cards)| ==> |HandEntries(cards)[i]| >= 1 && ' ' !in HandEntries(cards)[i]
  {
    var keys := HandKeys(cards);
    var entries := HandEntries(cards);
    HandKeysAscending(cards);
    forall i | 0 <= i < |entries| ensures |entries[i]| >= 1 && ' ' !in entries[i] {
      EntriesOfAt(keys, Counts(cards), i);
      var name := CardName(keys[i]);
      var n := multiset(cards)[keys[i]];
      if n != 1 {
        var digits := NatToString(n);
        assert forall k :: 0 <= k < |digits| ==> digits[k] != ' ';
        assert entries[i] == name + [CountSign] + digits;
      }
    }
  }

  lemma BagOfHand(cards: seq<int>)
    ensures Bag(HandKeys(cards), multiset(cards)) == multiset(cards)
  {
    var keys := HandKeys(cards);
    var m := multiset(cards);
    HandKeysAscending(cards);
    BagCounts(keys, m);
    forall x ensures Bag(keys, m)[x] == m[x] {
      assert x in keys <==> x in m;
    }
  }

  /** A hand of deck ranks is recovered exactly, as a multiset, from its rendering. */
  lemma FormatHandCardsRoundTrip(cards: seq<int>)
    requires forall i :: 0 <= i < |cards| ==> IsRank(cards[i])
    ensures DecodeHand(Join(HandEntries(cards), ' ')) == Some(multiset(cards))
  {
    var entries := HandEntries(cards);
    BagOfHand(cards);
    HandEntriesParse(cards);
    DecodeEntriesBag(entries, HandKeys(cards), multiset(cards));
    if cards == [] {
      assert HandKeys(cards) == [];
    } else {
      HandKeysAscending(cards);
      assert cards[0] in HandKeys(cards);
      HandEntriesPlain(cards);
      SplitJoin(entries, ' ');
      assert |Join(entries, ' ')| >= 1;
    }
  }
}
