/**
 * The LLM agent's state: its seat and the bounded conversation history it
 * sends with every request, and the `act` step that asks the LLM only
 * when there is a choice and falls back to the first legal move.
 */
module LlmAgent {
  import opened Wrappers
  import opened Strings
  import opened Decisions

  /** At most this many messages are kept and sent back to the LLM. */
  const HistoryLimit: nat := 20

  datatype Message = Message(role: string, content: string)

  const UserRole: string := "user"
  const AssistantRole: string := "assistant"

  /** The last `HistoryLimit` messages of `log` (all of them when there are fewer). */
  function Recent(log: seq<Message>): (history: seq<Message>)
    ensures |history| == if |log| <= HistoryLimit then |log| else HistoryLimit
    ensures history == log[|log| - |history|..]
  {
    if |log| <= HistoryLimit then log else log[|log| - HistoryLimit..]
  }

  /** Trimming after every append keeps the same messages as trimming once at the end. */
  lemma RecentAppend(log: seq<Message>, m: Message)
    ensures Recent(Recent(log) + [m]) == Recent(log + [m])
  {
    var h := Recent(log);
    var l := log + [m];
    assert h + [m] == l[|l| - |h| - 1..];
  }

  const Landlord: string := "landlord"
  const LandlordUp: string := "landlord_up"
  const LandlordDown: string := "landlord_down"

  /** The Chinese name of a seat; any other position is shown as it is. */
  function PositionName(position: string): (name: string)
    ensures position !in {Landlord, LandlordUp, LandlordDown} ==> name == position
  {
    if position == Landlord then "地主"
    else if position == LandlordUp then "地主上家"
    else if position == LandlordDown then "地主下家"
    else position
  }

  /** The three seats are shown under three different names, none of which is a seat key. */
  lemma PositionNamesDistinct(p: string, q: string)
    requires p in {Landlord, LandlordUp, LandlordDown} && q in {Landlord, LandlordUp, LandlordDown}
    ensures PositionName(p) == PositionName(q) <==> p == q
    ensures PositionName(p) !in {Landlord, LandlordUp, LandlordDown}
  {
    assert Landlord[0] == LandlordUp[0] == LandlordDown[0] == 'l';
    assert "地主"[0] != 'l' && "地主上家"[0] != 'l' && "地主下家"[0] != 'l';
    assert "地主上家"[2] != "地主下家"[2];
    assert |"地主"| != |"地主上家"|;
  }

  /**
   * What the chat endpoint did with a request: it failed (an HTTP status
   * other than 200, a network error, a malformed envelope), or it answered
   * with message content, which `json.loads` either decoded or rejected.
   */
  datatype ApiReply = Failed | Answered(content: string, decoded: Option<Json>)

  class LLMAgent {
    const position: string
    var conversationHistory: seq<Message>
    /** Every message added since the last reset. */
    ghost var log: seq<Message>

    ghost predicate Valid()
      reads this
    {
      conversationHistory == Recent(log)
    }

    constructor(position: string)
      ensures Valid()
      ensures this.position == position
      ensures conversationHistory == [] && log == []
    {
      this.position := position;
      conversationHistory := [];
      log := [];
    }

    /** Forgets the conversation, at the start of a new game. */
    method ResetConversationHistory()
      modifies this
      ensures Valid()
      ensures conversationHistory == [] && log == []
    {
      conversationHistory := [];
      log := [];
    }

    method AddToHistory(role: string, content: string)
      requires Valid()
      modifies this
      ensures Valid()
      ensures log == old(log) + [Message(role, content)]
      ensures |conversationHistory| <= HistoryLimit
      ensures conversationHistory[|conversationHistory| - 1] == Message(role, content)
      ensures conversationHistory == Recent(old(conversationHistory) + [Message(role, content)])
    {
      var m := Message(role, content);
      conversationHistory := conversationHistory + [m];
      if |conversationHistory| > HistoryLimit {
        conversationHistory := conversationHistory[|conversationHistory| - HistoryLimit..];
      }
      RecentAppend(log, m);
      log := log + [m];
    }

    /**
     * One request to the LLM: on an answer, the prompt and the stripped
     * content join the history before the content is decoded; on a failure
     * nothing changes and there is no decision.
     */
    method CallLlmApiJson(prompt: string, reply: ApiReply) returns (decision: Option<Json>)
      requires Valid()
      modifies this
      ensures Valid()
      ensures reply.Failed? ==> decision == None && log == old(log) && conversationHistory == old(conversationHistory)
      ensures reply.Answered? ==>
        && decision == reply.decoded
        && log == old(log) + [Message(UserRole, prompt), Message(AssistantRole, Strip(reply.content))]
        && conversationHistory == Recent(old(conversationHistory) + [Message(UserRole, prompt), Message(AssistantRole, Strip(reply.content))])
    {
      if reply.Failed? {
        return None;
      }
      var content := Strip(reply.content);
      AddToHistory(UserRole, prompt);
      AddToHistory(AssistantRole, content);
      var m1, m2 := Message(UserRole, prompt), Message(AssistantRole, content);
      RecentAppend(old(conversationHistory) + [m1], m2);
      assert old(conversationHistory) + [m1] + [m2] == old(conversationHistory) + [m1, m2];
      decision := reply.decoded;
    }

    /**
     * Picks a move: with a single legal move the LLM is not asked;
     * otherwise the answer, if there is one, selects the move.
     */
    method Act(legalActions: seq<Move>, prompt: string, reply: ApiReply) returns (move: Move)
      requires Valid()
      requires |legalActions| >= 1
      modifies this
      ensures Valid()
      ensures move in legalActions
      ensures |legalActions| == 1 ==>
        move == legalActions[0] && log == old(log) && conversationHistory == old(conversationHistory)
      ensures |legalActions| > 1 && reply.Failed? ==>
        move == legalActions[0] && log == old(log) && conversationHistory == old(conversationHistory)
      ensures |legalActions| > 1 && reply.Answered? ==>
        && move == ChooseMove(legalActions, reply.decoded)
        && log == old(log) + [Message(UserRole, prompt), Message(AssistantRole, Strip(reply.content))]
    {
      if |legalActions| == 1 {
        return legalActions[0];
      }
      var decision := CallLlmApiJson(prompt, reply);
      move := ChooseMove(legalActions, decision);
    }
  }
}
