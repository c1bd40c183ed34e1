/**
 * The contract finder's dialogue state and its two decisions: the gathering
 * node, which answers every turn with one assistant message, and the routing
 * function on the gathering node's outgoing edge.
 */
module Dialogue {
  import opened PyStr

  /** Python's `Optional[str]` values. */
  datatype Option<T> = None | Some(value: T)

  /** `HumanMessage` and `AIMessage`. */
  datatype Role = User | Assistant

  datatype Message = Message(role: Role, content: string)

  /** The keys `industry`, `contract_type`, `location` and `budget_range` of the state. */
  datatype Key = Industry | ContractType | Location | BudgetRange

  /**
   * What one of those keys holds in the state dictionary. An absent key and
   * a key holding `None` are different: `state.get(k, d)` gives `d` only for
   * the first, and `state[k]` fails only for the first.
   */
  datatype Slot = Absent | Holds(value: Option<string>)

  /** The four optional details, each under its own key. */
  datatype Fields = Fields(industry: Slot, contractType: Slot, location: Slot, budgetRange: Slot)

  /** `ContractState`: the message list plus the four details. */
  datatype DialogueState = DialogueState(messages: seq<Message>, fields: Fields)

  /** What the dictionary holds under `key`. */
  function Lookup(fields: Fields, key: Key): Slot {
    match key
    case Industry => fields.industry
    case ContractType => fields.contractType
    case Location => fields.location
    case BudgetRange => fields.budgetRange
  }

  /** Every key is present, as in the dictionary `run_contract_finder` builds. */
  predicate HasAllKeys(fields: Fields) {
    fields.industry.Holds? && fields.contractType.Holds? && fields.location.Holds?
    && fields.budgetRange.Holds?
  }

  /** `state.get(key)`: the stored value, or `None` when the key is absent. */
  function Get(fields: Fields, key: Key): Option<string> {
    match Lookup(fields, key)
    case Absent => None
    case Holds(v) => v
  }

  /** Python truthiness of an `Optional[str]`: both `None` and `""` are false. */
  predicate Truthy(v: Option<string>) {
    v.Some? && v.value != ""
  }

  /** `all([state.get('industry'), state.get('contract_type'), state.get('location')])`. */
  predicate DetailsComplete(fields: Fields) {
    Truthy(Get(fields, Industry)) && Truthy(Get(fields, ContractType)) && Truthy(Get(fields, Location))
  }

  // The fixed texts are written in pieces of at most 40 characters: the
  // verifier reads the characters of short literals only.
  const CLARIFICATION_INTRO :=
    "I'll help you find contract " + "opportunities. Could you please provide "
    + "more details:\n"
  const INDUSTRY_QUESTION :=
    "1. What industry are you looking for " + "contracts in? (e.g., IT, Construction, "
    + "Marketing)\n"
  const CONTRACT_TYPE_QUESTION :=
    "2. What type of contract are you " + "seeking? (e.g., Full-time, Part-time, "
    + "Project-based)\n"
  const LOCATION_QUESTION := "3. In which location are you looking " + "for contracts?\n"
  const BUDGET_QUESTION := "4. Do you have a specific budget range " + "in mind?"

  const CLARIFICATION_PROMPT: string :=
    CLARIFICATION_INTRO + INDUSTRY_QUESTION + CONTRACT_TYPE_QUESTION + LOCATION_QUESTION + BUDGET_QUESTION
  const ACKNOWLEDGMENT :=
    "Great! I'll search for contract " + "opportunities based on your details."

  lemma PromptsDiffer()
    ensures CLARIFICATION_PROMPT != ACKNOWLEDGMENT
  {
    assert CLARIFICATION_PROMPT[0] == 'I';
    assert ACKNOWLEDGMENT[0] == 'G';
  }

  /**
   * The gathering node: exactly one assistant message, the clarification
   * prompt when a required detail is missing and the acknowledgment otherwise.
   */
  function GatherContractDetails(st: DialogueState): (r: seq<Message>)
    ensures |r| == 1 && r[0].role == Assistant
    ensures r[0].content == CLARIFICATION_PROMPT <==> !DetailsComplete(st.fields)
    ensures r[0].content == ACKNOWLEDGMENT <==> DetailsComplete(st.fields)
  {
    PromptsDiffer();
    if !DetailsComplete(st.fields) then [Message(Assistant, CLARIFICATION_PROMPT)]
    else [Message(Assistant, ACKNOWLEDGMENT)]
  }

  /**
   * The gathering node's reply depends on nothing but whether the three
   * required details are all present: not on which of them is missing, not on
   * the budget, not on the messages.
   */
  lemma GatherDependsOnlyOnCompleteness(a: DialogueState, b: DialogueState)
    ensures GatherContractDetails(a) == GatherContractDetails(b)
            <==> DetailsComplete(a.fields) == DetailsComplete(b.fields)
  {
    PromptsDiffer();
  }

  /** Setting or clearing the budget never changes the gathering node's reply. */
  lemma GatherIgnoresBudget(st: DialogueState, budget: Slot)
    ensures GatherContractDetails(st.(fields := st.fields.(budgetRange := budget)))
            == GatherContractDetails(st)
  {
  }

  /** Each of the last four of five concatenated pieces occurs in the whole. */
  lemma ContainsLastFour(a: string, b: string, c: string, d: string, e: string)
    ensures var whole := a + b + c + d + e;
            Contains(whole, b) && Contains(whole, c) && Contains(whole, d) && Contains(whole, e)
  {
    ContainsInfix(a, b, c + d + e);
    assert a + b + c + d + e == a + b + (c + d + e);
    ContainsInfix(a + b, c, d + e);
    assert a + b + c + d + e == a + b + c + (d + e);
    ContainsInfix(a + b + c, d, e);
    ContainsInfix(a + b + c + d, e, "");
    assert a + b + c + d + e + "" == a + b + c + d + e;
  }

  /** The clarification prompt always asks all four questions, word for word. */
  lemma ClarificationAsksAllFour()
    ensures Contains(CLARIFICATION_PROMPT, INDUSTRY_QUESTION)
    ensures Contains(CLARIFICATION_PROMPT, CONTRACT_TYPE_QUESTION)
    ensures Contains(CLARIFICATION_PROMPT, LOCATION_QUESTION)
    ensures Contains(CLARIFICATION_PROMPT, BUDGET_QUESTION)
  {
    ContainsLastFour(CLARIFICATION_INTRO, INDUSTRY_QUESTION, CONTRACT_TYPE_QUESTION,
                     LOCATION_QUESTION, BUDGET_QUESTION);
  }

  /** The two nodes of the graph: the targets of the conditional edge. */
  datatype Route = InputGathering | ContractSearch

  /**
   * The conditional edge out of the gathering node: back to gathering only
   * right after a user message while a required detail is missing.
   */
  function RouteToSearch(st: DialogueState): (r: Route)
    ensures r == InputGathering
            <==> |st.messages| > 0 && st.messages[|st.messages| - 1].role == User
                 && !DetailsComplete(st.fields)
  {
    var messages := st.messages;
    if |messages| > 0 && messages[|messages| - 1].role == User then
      if !DetailsComplete(st.fields) then InputGathering else ContractSearch
    else ContractSearch
  }

  /**
   * An empty history, or one whose last message is the assistant's, goes to
   * the search even when details are missing.
   */
  lemma RouteWithoutUserTurnSearches(st: DialogueState)
    requires |st.messages| == 0 || st.messages[|st.messages| - 1].role == Assistant
    ensures RouteToSearch(st) == ContractSearch
  {
  }

  /**
   * The route is taken right after the gathering node appended its reply, so
   * the last message is always the assistant's and the self-loop on the
   * gathering node never fires.
   */
  lemma GatherThenRouteSearches(st: DialogueState)
    ensures RouteToSearch(st.(messages := st.messages + GatherContractDetails(st))) == ContractSearch
  {
  }
}
