/**
 * Turning the LLM's decoded JSON answer into one of the legal moves
 * (`parse_json_response` and the decision part of `act` in the LLM agent).
 *
 * The answer is whatever `json.loads` returned, so it is modelled as any JSON
 * value, and the Python operations the code applies to it (`not`, `in`,
 * subscripting, `int()`, `len()`, slicing) are modelled with the exceptions
 * they raise.
 */
module Decisions {
  import opened Wrappers
  import opened Strings

  /** A move: the ranks of the cards played, empty for a pass. */
  type Move = seq<int>

  /** A JSON number read as a float; `json.loads` also accepts `Infinity`, `-Infinity` and `NaN`. */
  datatype Float = Finite(x: real) | PosInfinity | NegInfinity | NaN

  datatype Json =
    | JNull
    | JBool(b: bool)
    | JInt(i: int)
    | JFloat(f: Float)
    | JString(s: string)
    | JArray(items: seq<Json>)
    | JObject(fields: map<string, Json>)

  datatype PyException = TypeError | ValueError | OverflowError

  /** A Python expression either gives a value or raises. */
  datatype PyOutcome<+T> = Returned(value: T) | Raised(error: PyException)

  const ActionIndexKey: string := "action_index"
  const ReasonKey: string := "reason"
  /** Reasons longer than this are cut before they are printed. */
  const ReasonDisplayLimit: nat := 100

  /** `bool(v)`. */
  predicate Truthy(v: Json)
  {
    match v
    case JNull => false
    case JBool(b) => b
    case JInt(i) => i != 0
    case JFloat(f) => !(f.Finite? && f.x == 0.0)
    case JString(s) => |s| > 0
    case JArray(items) => |items| > 0
    case JObject(fields) => |fields| > 0
  }

  /** `key` occurs in `s` at some position. */
  predicate IsSubstring(key: string, s: string)
  {
    key <= s || (|s| > 0 && IsSubstring(key, s[1..]))
  }

  /** `key in v` for a string `key`: a key of an object, an element of a list, a substring of a string. */
  function Contains(v: Json, key: string): PyOutcome<bool>
  {
    match v
    case JObject(fields) => Returned(key in fields)
    case JArray(items) => Returned(JString(key) in items)
    case JString(s) => Returned(IsSubstring(key, s))
    case _ => Raised(TypeError)
  }

  /** `v[key]` for a string `key`, where `key in v` held. */
  function Subscript(v: Json, key: string): PyOutcome<Json>
  {
    if v.JObject? && key in v.fields then Returned(v.fields[key]) else Raised(TypeError)
  }

  /** `int(x)` for a finite float: rounds toward zero. */
  function Truncate(x: real): (n: int)
    ensures x >= 0.0 ==> n as real <= x < n as real + 1.0
    ensures x < 0.0 ==> n as real - 1.0 < x <= n as real
  {
    if x >= 0.0 then x.Floor else -((-x).Floor)
  }

  /** `int(v)`. */
  function ToInt(v: Json): PyOutcome<int>
  {
    match v
    case JBool(b) => Returned(if b then 1 else 0)
    case JInt(i) => Returned(i)
    case JFloat(Finite(x)) => Returned(Truncate(x))
    case JFloat(NaN) => Raised(ValueError)
    case JFloat(_) => Raised(OverflowError)
    case JString(s) =>
      (match ParsePyInt(s)
       case Some(n) => Returned(n)
       case None => Raised(ValueError))
    case _ => Raised(TypeError)
  }

  /** `len(v)`. */
  function Len(v: Json): PyOutcome<nat>
  {
    match v
    case JString(s) => Returned(|s|)
    case JArray(items) => Returned(|items|)
    case JObject(fields) => Returned(|fields|)
    case _ => Raised(TypeError)
  }

  /**
   * Printing the reason (lines 249-254): `len(reason)` raises for a number,
   * a boolean or null, and `reason[:100] + "..."` raises for a long list or
   * object; only whether it raises matters to the index returned.
   */
  function ShowReason(decision: Json): PyOutcome<()>
  {
    match Contains(decision, ReasonKey)
    case Raised(e) => Raised(e)
    case Returned(false) => Returned(())
    case Returned(true) =>
      match Subscript(decision, ReasonKey)
      case Raised(e) => Raised(e)
      case Returned(reason) =>
        match Len(reason)
        case Raised(e) => Raised(e)
        case Returned(n) =>
          if n > ReasonDisplayLimit && !reason.JString? then Raised(TypeError) else Returned(())
  }

  /** The body of the `try` in `parse_json_response`. */
  function TryParseIndex(decision: Json, count: nat): PyOutcome<int>
  {
    match Subscript(decision, ActionIndexKey)
    case Raised(e) => Raised(e)
    case Returned(v) =>
      match ToInt(v)
      case Raised(e) => Raised(e)
      case Returned(index) =>
        if 0 <= index < count then
          match ShowReason(decision)
          case Raised(e) => Raised(e)
          case Returned(_) => Returned(index)
        else Returned(0)
  }

  /**
   * `parse_json_response` as written: the membership test runs outside the
   * `try`, and the `except` clause catches only `ValueError` and `TypeError`.
   */
  function ParseJsonResponseAsWritten(decision: Json, count: nat): PyOutcome<int>
  {
    if !Truthy(decision) then Returned(0)
    else
      match Contains(decision, ActionIndexKey)
      case Raised(e) => Raised(e)
      case Returned(false) => Returned(0)
      case Returned(true) =>
        match TryParseIndex(decision, count)
        case Raised(OverflowError) => Raised(OverflowError)
        case Raised(_) => Returned(0)
        case Returned(index) => Returned(index)
  }

  /** The answer is an object whose `action_index` converts with `int()` to `k`. */
  predicate NamesIndex(decision: Json, k: int)
  {
    decision.JObject? && ActionIndexKey in decision.fields && ToInt(decision.fields[ActionIndexKey]) == Returned(k)
  }

  /**
   * The reason, if any, can be printed without raising: it is text, or a
   * list or object short enough not to be sliced.
   */
  predicate ReasonPrintable(decision: Json)
  {
    decision.JObject? &&
    (ReasonKey !in decision.fields ||
     match decision.fields[ReasonKey]
     case JString(_) => true
     case JArray(items) => |items| <= ReasonDisplayLimit
     case JObject(fields) => |fields| <= ReasonDisplayLimit
     case _ => false)
  }

  /**
   * `parse_json_response` with its evident intent: every answer that the
   * code as written lets escape as an exception falls back to index 0 too.
   */
  function ParseJsonResponse(decision: Json, count: nat): (index: int)
    ensures 0 <= index
    ensures count > 0 ==> index < count
    ensures count == 0 ==> index == 0
    ensures index != 0 ==> NamesIndex(decision, index)
    ensures !Truthy(decision) ==> index == 0
    ensures decision.JObject? && ActionIndexKey !in decision.fields ==> index == 0
    ensures forall k :: NamesIndex(decision, k) && 0 <= k < count ==>
      index == if ReasonPrintable(decision) then k else 0
  {
    match ParseJsonResponseAsWritten(decision, count)
    case Returned(index) => index
    case Raised(_) => 0
  }

  /** The code as written raises exactly for a truthy JSON scalar and for an infinite `action_index`. */
  lemma AsWrittenRaises(decision: Json, count: nat)
    ensures ParseJsonResponseAsWritten(decision, count).Raised? <==>
      || (Truthy(decision) && (decision.JBool? || decision.JInt? || decision.JFloat?))
      || (decision.JObject? && ActionIndexKey in decision.fields
          && decision.fields[ActionIndexKey] in {JFloat(PosInfinity), JFloat(NegInfinity)})
  {
    if decision.JObject? && ActionIndexKey in decision.fields {
      var v := decision.fields[ActionIndexKey];
      assert Truthy(decision) by {
        assert ActionIndexKey in decision.fields.Keys;
      }
      if v in {JFloat(PosInfinity), JFloat(NegInfinity)} {
        assert ToInt(v) == Raised(OverflowError);
      }
    }
  }

  /** `json.loads("5")` gives the answer 5, and `'action_index' not in 5` raises `TypeError`. */
  lemma AsWrittenScalarAnswer()
    ensures ParseJsonResponseAsWritten(JInt(5), 2) == Raised(TypeError)
    ensures ParseJsonResponse(JInt(5), 2) == 0
  {
  }

  /** `{"action_index": Infinity}` makes `int()` raise `OverflowError`, which is not caught. */
  lemma AsWrittenInfiniteIndex()
    ensures ParseJsonResponseAsWritten(JObject(map[ActionIndexKey := JFloat(PosInfinity)]), 2) == Raised(OverflowError)
    ensures ParseJsonResponse(JObject(map[ActionIndexKey := JFloat(PosInfinity)]), 2) == 0
  {
  }

  /**
   * Printing the reason is cosmetic, yet a reason that cannot be printed
   * (here `null`, whose `len()` raises `TypeError`) turns a valid choice into
   * index 0, both as written and in the corrected function.
   */
  lemma NullReasonDiscardsChoice()
    ensures var decision := JObject(map[ActionIndexKey := JInt(1), ReasonKey := JNull]);
      && NamesIndex(decision, 1)
      && ParseJsonResponseAsWritten(decision, 2) == Returned(0)
      && ParseJsonResponse(decision, 2) == 0
  {
    var decision := JObject(map[ActionIndexKey := JInt(1), ReasonKey := JNull]);
    assert ActionIndexKey in decision.fields && ReasonKey in decision.fields;
    assert decision.fields[ActionIndexKey] == JInt(1);
    assert Len(decision.fields[ReasonKey]) == Raised(TypeError);
  }

  /**
   * An index written behind the separator U+001C is not a number to `int()`,
   * so the answer falls back to index 0.
   */
  lemma SeparatedIndexFallsBack()
    ensures var decision := JObject(map[ActionIndexKey := JString("\U{1C}1")]);
      && !NamesIndex(decision, 1)
      && ParseJsonResponseAsWritten(decision, 2) == Returned(0)
      && ParseJsonResponse(decision, 2) == 0
  {
    var decision := JObject(map[ActionIndexKey := JString("\U{1C}1")]);
    assert ActionIndexKey in decision.fields && ReasonKey !in decision.fields;
    assert decision.fields[ActionIndexKey] == JString("\U{1C}1");
    ParsePyIntKeepsSeparators('\U{1C}');
    assert ToInt(decision.fields[ActionIndexKey]) == Raised(ValueError);
  }

  /**
   * The decision part of `act` once the LLM has been asked: no answer (or
   * a JSON `null`) takes the first legal move, any other answer the move at
   * the index `parse_json_response` gives.
   */
  function ChooseMove(legalActions: seq<Move>, decision: Option<Json>): (move: Move)
    requires |legalActions| >= 1
    ensures move in legalActions
    ensures decision == None || decision == Some(JNull) ==> move == legalActions[0]
    ensures exists k :: (0 <= k < |legalActions| && move == legalActions[k] &&
                         (k == 0 || (decision.Some? && NamesIndex(decision.value, k))))
    ensures decision.Some? ==>
      forall k :: (NamesIndex(decision.value, k) && 0 <= k < |legalActions|) ==>
        move == legalActions[if ReasonPrintable(decision.value) then k else 0]
  {
    if decision == None || decision == Some(JNull) then legalActions[0]
    else legalActions[ParseJsonResponse(decision.value, |legalActions|)]
  }
}
