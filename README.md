# Dou Dizhu LLM agent: card codec, move choice and dealing

This project models the deterministic core of the LLM-driven Dou Dizhu player
and of the game driver's dealer:

- **Card codec** (`CardCodec`). This is the table from the engine's card ranks (3..14, 17 for the 2,
  20 and 30 for the jokers) to display names, and its inverse. It covers the two
  renderers: `format_cards` for a move, where the empty move is "过牌", and
  `format_hand_cards` for a hand, where a repeated rank is written `name×count`. The hand's
  ranks appear in ascending order. `CountCards` models `Counter(cards)` and
  `FormatHandCards` and `RenderEntries` model the rendering loop. The codec is proved to
  round-trip: a rendered move decodes back to the move, and a rendered hand to its multiset.
- **Move choice** (`Decisions`). The LLM's decoded JSON answer is any JSON value.
  `parse_json_response` is modelled on it with Python's semantics for `not`, `in`,
  subscripting, `int()`, `len()` and slicing, including the exceptions they raise. `int()`
  skips its own set of surrounding whitespace, which differs from `str.strip()`'s in
  the ASCII separators U+001C..U+001F.
  `act` then picks the move at that index, or the first legal move when there is no answer.
- **Agent state** (`LlmAgent`). The `LLMAgent` class keeps a conversation history
  bounded to the last 20 messages. `CallLlmApiJson` records the prompt and the
  stripped answer. `Act` asks the LLM only when there is a choice.
- **Dealing** (`Deal`). This models `generate_card_play_data`. It builds the 54-card deck,
  shuffles it in place (Fisher–Yates, numpy's algorithm for lists), deals 20/17/17 cards,
  shows three cards and sorts every list.

Supporting modules: `Wrappers` (`Option`), `Strings` (join, split, Python's
`str.strip()` and `int(str)`, decimal rendering) and `Sorting` (ascending
permutation and first-occurrence order).

The LLM's answer is resolved by its `action_index`, as the code does.

## Model

| member | source | states |
|---|---|---|
| CardCodec.CodecDomain | douzero/evaluation/llm_agent.py:39-41 | the table covers exactly the deck's ranks; every name is non-empty, has no space or count sign, and is not the pass token |
| CardCodec.TableInjective | douzero/evaluation/llm_agent.py:39-41 | distinct ranks have distinct names |
| CardCodec.RealCard2EnvCard | douzero/evaluation/llm_agent.py:42 | defines the inverse table as the dict comprehension builds it; `DecodeEncode` and `EncodeDecode` state that it inverts the table |
| CardCodec.DecodeEncode | douzero/evaluation/llm_agent.py:42 | the inverse table maps every rank's name back to that rank |
| CardCodec.EncodeDecode | douzero/evaluation/llm_agent.py:42 | every name in the inverse table decodes to a rank whose name it is |
| CardCodec.CardName | douzero/evaluation/llm_agent.py:60 | `get(card, str(card))` always gives a plain token that is not the pass token, also for cards outside the table |
| CardCodec.FormatCards | douzero/evaluation/llm_agent.py:56-60 | defines `format_cards`: the pass token for an empty move, else the card names joined by spaces; `FormatCardsPass`, `FormatCardsTokens` and `FormatCardsRoundTrip` state its properties |
| CardCodec.FormatCardsPass | play.py:17-26 | a move renders as "过牌" if and only if it is empty |
| CardCodec.FormatCardsTokens | douzero/evaluation/llm_agent.py:56-60 | a non-empty move renders as one name per card, in order, separated by single spaces |
| CardCodec.FormatCardsRoundTrip | douzero/evaluation/llm_agent.py:56-60 | decoding the rendering of any move of deck ranks gives back the same move |
| CardCodec.Counts | douzero/evaluation/llm_agent.py:65 | the counter holds exactly the cards of the hand, each with its number of occurrences |
| CardCodec.CountCards | douzero/evaluation/llm_agent.py:65 | the counting loop builds that counter and keys in first-occurrence order |
| CardCodec.HandKeysAscending | play.py:37 | the sorted counter keys list each held rank once, strictly ascending |
| CardCodec.HandEntry | douzero/evaluation/llm_agent.py:71-74 | defines one hand entry: the name alone for a count of 1, else name, `×` and the count; `ParseEntryOfRank` states it reads back |
| CardCodec.HandKeys | douzero/evaluation/llm_agent.py:68 | defines `sorted(card_count.keys())`; `HandKeysAscending` states its order and contents |
| CardCodec.EntriesOf | douzero/evaluation/llm_agent.py:68-74 | the entries for a list of keys, one per key, in order (its length equals the number of keys) |
| CardCodec.HandEntries | douzero/evaluation/llm_agent.py:64-74 | the hand's entries, one per distinct rank held |
| CardCodec.EntriesOfAt | douzero/evaluation/llm_agent.py:68-74 | entry `j` is the name of the `j`-th rank, with `×count` when the count is not 1 |
| CardCodec.RenderEntries | douzero/evaluation/llm_agent.py:68-74 | the rendering loop emits one entry per sorted key, in order, each as `EntriesOfAt` describes |
| CardCodec.FormatHandCards | douzero/evaluation/llm_agent.py:62-75 | the loop produces the hand's entries joined by spaces |
| CardCodec.ParseEntryOfRank | douzero/evaluation/llm_agent.py:71-74 | an entry reads back as its rank and count |
| CardCodec.FormatHandCardsRoundTrip | douzero/evaluation/llm_agent.py:62-75 | decoding a rendered hand of deck ranks gives back the hand's multiset |
| Sorting.SortCards | play.py:167-168 | a sorted list is ascending and a permutation of the original |
| Sorting.FirstOccurrences | douzero/evaluation/llm_agent.py:65 | the counter's keys are duplicate-free and are exactly the cards held |
| Strings.StripLeftDrops | douzero/evaluation/llm_agent.py:218 | stripping on the left removes characters of the stripped class only, and the result is a suffix |
| Strings.StripRightDrops | douzero/evaluation/llm_agent.py:218 | stripping on the right removes characters of the stripped class only, and the result is a prefix |
| Strings.Strip | douzero/evaluation/llm_agent.py:218 | the stripped answer neither starts nor ends with `isspace()` whitespace |
| Strings.IntStrip | douzero/evaluation/llm_agent.py:246 | what `int()` reads neither starts nor ends with a character `int()` skips |
| Strings.ParsePyInt | douzero/evaluation/llm_agent.py:246 | defines `int(str)`: surrounding whitespace as `int()` skips it (ASCII space and `\t\n\v\f\r`, and non-ASCII whitespace, but not U+001C..U+001F), an optional sign, digits with single underscores between them, else `ValueError`; `ParsePyIntOfIntToString` states the round trip |
| Strings.ParsePyIntOfIntToString | douzero/evaluation/llm_agent.py:246 | `int()` of an integer's decimal string gives the integer back |
| Strings.ParsePyIntKeepsSeparators | douzero/evaluation/llm_agent.py:246 | a digit behind one of U+001C..U+001F is not a number to `int()`, although `strip()` removes the separator |
| Decisions.ToInt | douzero/evaluation/llm_agent.py:246 | defines `int()` on a JSON value with the exception each kind raises; `Truncate` and `ParsePyIntOfIntToString` state its float and string cases |
| Decisions.Truncate | douzero/evaluation/llm_agent.py:246 | `int()` of a finite float rounds toward zero |
| Decisions.ParseJsonResponse | douzero/evaluation/llm_agent.py:240-262 | the index is in range (0 when there are no moves); a non-zero index is the `int()` of `action_index`; a falsy answer or one without the key gives 0; an in-range index is returned when the reason is absent, text, or a list or object of at most 100 items, and 0 otherwise |
| Decisions.ShowReason | douzero/evaluation/llm_agent.py:249-254 | defines when showing the reason raises: `len()` of a value without a length, or truncating a long list or object (`reason[:100] + "..."`, where the `+` raises) |
| Decisions.TryParseIndex | douzero/evaluation/llm_agent.py:245-258 | defines the body of the `try`: the index when in range and the reason prints, 0 when out of range, else the exception |
| Decisions.ParseJsonResponseAsWritten | douzero/evaluation/llm_agent.py:240-262 | defines the function as written, exceptions escaping as they do in the code; `AsWrittenRaises` states exactly when it raises |
| Decisions.NullReasonDiscardsChoice | douzero/evaluation/llm_agent.py:249-254 | an in-range `action_index` with a `null` reason gives index 0, as written and corrected alike |
| Decisions.SeparatedIndexFallsBack | douzero/evaluation/llm_agent.py:245-262 | an `action_index` of `"\u001c1"` names no index, and both the code as written and the corrected function give index 0 |
| Decisions.AsWrittenRaises | douzero/evaluation/llm_agent.py:240-262 | as written, the function raises exactly for a truthy JSON number or boolean, and for an infinite `action_index` |
| Decisions.AsWrittenScalarAnswer | douzero/evaluation/llm_agent.py:242 | the answer `5` raises `TypeError` outside the `try` |
| Decisions.AsWrittenInfiniteIndex | douzero/evaluation/llm_agent.py:246 | `{"action_index": Infinity}` raises `OverflowError`, which the `except` does not name |
| Decisions.ChooseMove | douzero/evaluation/llm_agent.py:272-282 | the move is legal; no answer or `null` gives the first legal move; otherwise the move is at index 0 or at the index the answer names, and it is the named move exactly when that index is in range and the reason can be printed |
| LlmAgent.Recent | douzero/evaluation/llm_agent.py:52-54 | the history is the last 20 messages, or all of them when there are fewer |
| LlmAgent.RecentAppend | douzero/evaluation/llm_agent.py:49-54 | trimming after every append keeps the same messages as trimming the whole log once |
| LlmAgent.PositionName | douzero/evaluation/llm_agent.py:77-84 | an unknown position is shown as it is |
| LlmAgent.PositionNamesDistinct | douzero/evaluation/llm_agent.py:79-83 | the three seats get three different Chinese names, none of which is a seat key |
| LlmAgent.LLMAgent.constructor | douzero/evaluation/llm_agent.py:14-36 | a new agent sits at its position with an empty history |
| LlmAgent.LLMAgent.ResetConversationHistory | douzero/evaluation/llm_agent.py:44-47 | the history is emptied |
| LlmAgent.LLMAgent.AddToHistory | douzero/evaluation/llm_agent.py:49-54 | the message is appended and the history stays the last 20 messages of the log, ending with the new one |
| LlmAgent.LLMAgent.CallLlmApiJson | douzero/evaluation/llm_agent.py:181-238 | on an answer, the prompt and the stripped content join the history and the decoded value is returned; on a failure nothing changes and `None` is returned |
| LlmAgent.LLMAgent.Act | douzero/evaluation/llm_agent.py:264-282 | the move is legal; a single legal move is played without asking and without touching the history; a failed request plays the first move; an answer plays the move `ChooseMove` picks |
| Deal.RankRunCounts | play.py:150-151 | the first loop adds four of each rank from 3 to 14 |
| Deal.DeckCounts | play.py:149-153 | the deck has 54 cards: four of each rank 3..14 and of the 2, and one of each joker |
| Deal.FullDeck | play.py:149-153 | defines the unshuffled deck in the order it is built; `DeckCounts` states its contents |
| Deal.BuildDeck | play.py:149-153 | the deck-building loop produces that deck |
| Deal.ShuffledPermutation | play.py:156 | shuffling only reorders the deck |
| Deal.Shuffled | play.py:156 | defines the Fisher–Yates swaps for the given draws, keeping the deck's length; `ShuffledPermutation` states that it reorders only |
| Deal.ShuffledIdentity | play.py:156 | draws that always pick the current position leave the deck as it is |
| Deal.Shuffle | play.py:156 | the in-place shuffle performs the Fisher–Yates swaps given by the draws |
| Deal.DealFrom | play.py:159-168 | defines the card play data dealt from a deck, each list sorted; `DealPartition` states its properties |
| Deal.DealPartition | play.py:159-168 | the landlord gets 20 cards and each peasant 17; the three hands are exactly the deck; the three shown cards are among the landlord's; every list is sorted |
| Deal.SortStep | play.py:167-168 | each turn of the sorting loop sorts the next key's list and leaves the others alone |
| Deal.DealtGame | play.py:144-170 | every dealt game holds each card of the deck exactly as often as the deck does, split and sorted as above |
| Deal.GenerateCardPlayData | play.py:144-170 | the card play data is the deal of the deck shuffled by the given draws |

## Left out

- Prompt building (`create_json_prompt_with_history`) is not modelled. `Act` takes the prompt as a parameter.
- The HTTP request is not modelled. The endpoint's outcome is the `ApiReply` parameter, and `json.loads` of the content is its `decoded` field.
- Headers, the API key, the model name and the request payload are not modelled.
- Console output (`print`) is not modelled.
- `HumanAgent`, `play_single_game` and `main` in play.py are outside the modelled core.
- numpy's random generator is not modelled. Its draws are the `picks` parameter, where draw `i` lies in `[0, i]`.
- `play.py` repeats `format_cards` and `format_hand_cards` with the same table and behaviour. They are modelled once in `CardCodec`.
- Strings.ParsePyInt: does not accept the non-ASCII decimal digits that Python's `int()` also accepts, because the answers in scope are ASCII.
- Strings.ParsePyInt: parses strings of any length, while Python 3.11 and later raise `ValueError` for more than 4300 digits; such an answer gives index 0 there and may name an index here (a long zero-padded `"000…01"`).
- Decisions.ShowReason: treats slicing a long object-valued `reason` as `TypeError`. That matches Python before 3.12; from 3.12 the slice raises an uncaught `KeyError` instead.
- Decisions.ShowReason: does not raise for a string `reason` holding a lone surrogate such as `"\ud800"`, which `json.loads` accepts. Printing it to a UTF-8 console raises `UnicodeEncodeError`, a `ValueError`, so the code returns index 0. Dafny strings cannot hold a lone surrogate, so the model has no such reason.
- Decisions.TryParseIndex: inherits that gap: for a lone-surrogate string `reason` the code gives index 0, and no modelled answer has one.
- Decisions.ParseJsonResponse: inherits the lone-surrogate gap of `ShowReason`.
- Decisions.ChooseMove: inherits the lone-surrogate gap of `ShowReason`.
- Console encoding: the console is taken to be UTF-8. On a console that cannot encode the Chinese messages, every `print` in `parse_json_response` would raise.
- JSON floats are modelled as reals, so rounding to binary floating point is not modelled.
- `Act` uses the corrected `ParseJsonResponse`. The exceptions the code as written lets escape are recorded under Findings.
- Python's integers on the engine side are unbounded, so there is no overflow to model.

## Findings

| source | as written | input that shows it | evidently intended | confidence | as-written member | corrected member |
|---|---|---|---|---|---|---|
| douzero/evaluation/llm_agent.py:242 | `'action_index' not in decision` runs outside the `try`, so a truthy JSON scalar answer raises `TypeError` out of `act` | the LLM answers `5` (or `true`, `1.5`) | fall back to index 0, as for every other unusable answer | not executed | Decisions.AsWrittenScalarAnswer | Decisions.ParseJsonResponse |
| douzero/evaluation/llm_agent.py:246-260 | `int(decision['action_index'])` raises `OverflowError` for an infinite float, and the `except` names only `ValueError` and `TypeError` | the LLM answers `{"action_index": Infinity}`, which `json.loads` accepts | fall back to index 0 | not executed | Decisions.AsWrittenInfiniteIndex | Decisions.ParseJsonResponse |
