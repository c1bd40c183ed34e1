/**
 * The interactive loop of `run_contract_finder`: the exit words, the
 * keyword extraction that fills the details from raw input, one pass of the
 * compiled graph per turn, and the session state updated in place.
 */
module Finder {
  import opened PyStr
  import opened Dialogue
  import opened Search

  /** `user_input.lower() in ["quit", "exit", "q"]`. */
  predicate IsExit(input: string) {
    Lower(input) in ["quit", "exit", "q"]
  }

  /** The exit words end the session whatever their casing. */
  lemma ExitWordsInAnyCase()
    ensures IsExit("quit") && IsExit("QUIT") && IsExit("Exit") && IsExit("Q")
  {
    assert Lower("quit") == "quit";
    assert Lower("QUIT") == "quit";
    assert Lower("Exit") == "exit";
    assert Lower("Q") == "q";
  }

  /** Only the whole line counts: an exit word with more text around it is an ordinary turn. */
  lemma ExitNeedsTheWholeLine()
    ensures !IsExit("quit now") && !IsExit("") && !IsExit(" q")
  {
    assert |Lower("quit now")| == 8;
    assert Lower(" q")[0] == ' ';
  }

  /**
   * A line ends the session exactly when it has the length of an exit word
   * and lowers to it character by character: casing is ignored, nothing else.
   */
  lemma ExitIffLowersToExitWord(input: string)
    ensures IsExit(input)
            <==> exists w :: w in ["quit", "exit", "q"] && |input| == |w|
                             && forall k :: 0 <= k < |input| ==> LowerChar(input[k]) == w[k]
  {
    forall k | 0 <= k < |input| ensures Lower(input)[k] == LowerChar(input[k]) {
      LowerAt(input, k);
    }
    if IsExit(input) {
      var w := Lower(input);
      assert w in ["quit", "exit", "q"] && |input| == |w|;
    }
    if exists w :: w in ["quit", "exit", "q"] && |input| == |w|
                   && forall k :: 0 <= k < |input| ==> LowerChar(input[k]) == w[k] {
      var w :| w in ["quit", "exit", "q"] && |input| == |w|
               && forall k :: 0 <= k < |input| ==> LowerChar(input[k]) == w[k];
      assert Lower(input) == w;
    }
  }

  /** `input.split(word)[-1].strip()`, computed on the indices of `input`. */
  function ValueAfter(input: string, word: string): string
    requires |word| > 0
  {
    StripFrom(input, LastPieceStart(input, word, 0))
  }

  /** The value extraction stores is the stripped last piece of the split. */
  lemma {:induction false} ValueAfterIsStrippedLastPiece(input: string, word: string)
    requires |word| > 0
    ensures ValueAfter(input, word) == Strip(SplitLast(input, word))
  {
    StripFromIsStrip(input, LastPieceStart(input, word, 0));
  }

  /** Whether the lowercased input holds a trigger word for `key`. */
  predicate Triggered(key: Key, input: string) {
    var low := Lower(input);
    match key
    case Industry => Contains(low, "industry")
    case ContractType => Contains(low, "contract type")
    case Location => Contains(low, "in") || Contains(low, "location")
    case BudgetRange => Contains(low, "budget")
  }

  /** The separator the input is split on for `key`: "location" even when "in" triggered. */
  function SplitWord(key: Key): string {
    match key
    case Industry => "industry"
    case ContractType => "contract type"
    case Location => "location"
    case BudgetRange => "budget"
  }

  /**
   * The `if` statement of the extraction block for `key`, on that key's own
   * slot: the slot takes the value after the separator when it holds a falsy
   * value and the trigger fired.
   */
  function FillSlot(fields: Fields, key: Key, input: string): Slot {
    if !Truthy(Get(fields, key)) && Triggered(key, input) then Holds(Some(ValueAfter(input, SplitWord(key))))
    else Lookup(fields, key)
  }

  /**
   * The extraction block of `run_contract_finder`. Each of its four
   * statements reads and writes only its own key, so they are independent of
   * one another; `Session.ExtractDetailsInPlace` runs them in their order.
   */
  function ExtractDetails(fields: Fields, input: string): (r: Fields)
    requires HasAllKeys(fields)
    ensures HasAllKeys(r)
  {
    Fields(FillSlot(fields, Industry, input), FillSlot(fields, ContractType, input),
           FillSlot(fields, Location, input), FillSlot(fields, BudgetRange, input))
  }

  /** Each detail is assigned exactly when it is falsy and its own trigger fired, and then takes its own value. */
  lemma ExtractDetailsPerField(fields: Fields, input: string, key: Key)
    requires HasAllKeys(fields)
    ensures Lookup(ExtractDetails(fields, input), key)
            == if !Truthy(Get(fields, key)) && Triggered(key, input) then Holds(Some(ValueAfter(input, SplitWord(key))))
               else Lookup(fields, key)
  {
  }

  /** A detail that already holds a non-empty value is never overwritten. */
  lemma {:induction false} ExtractKeepsSetFields(fields: Fields, input: string)
    requires HasAllKeys(fields)
    ensures var r := ExtractDetails(fields, input);
            forall k :: Truthy(Get(fields, k)) ==> Lookup(r, k) == Lookup(fields, k)
  {
    forall k | Truthy(Get(fields, k)) ensures Lookup(ExtractDetails(fields, input), k) == Lookup(fields, k) {
      ExtractDetailsPerField(fields, input, k);
    }
  }

  /** Two sets of details that agree under every key are the same. */
  lemma FieldsExtensional(a: Fields, b: Fields)
    requires forall k :: Lookup(a, k) == Lookup(b, k)
    ensures a == b
  {
    assert Lookup(a, Industry) == Lookup(b, Industry);
    assert Lookup(a, ContractType) == Lookup(b, ContractType);
    assert Lookup(a, Location) == Lookup(b, Location);
    assert Lookup(a, BudgetRange) == Lookup(b, BudgetRange);
  }

  /** Extracting twice from the same input is extracting once. */
  lemma {:induction false} ExtractIdempotent(fields: Fields, input: string)
    requires HasAllKeys(fields)
    ensures ExtractDetails(ExtractDetails(fields, input), input) == ExtractDetails(fields, input)
  {
    var once := ExtractDetails(fields, input);
    var twice := ExtractDetails(once, input);
    forall k ensures Lookup(twice, k) == Lookup(once, k) {
      ExtractDetailsPerField(fields, input, k);
      ExtractDetailsPerField(once, input, k);
    }
    FieldsExtensional(twice, once);
  }

  /**
   * When the trigger fired only in the lowercased text and the separator does
   * not occur with its own casing, the whole stripped input is stored.
   */
  lemma {:induction false} ExtractWholeInputWithoutSeparator(fields: Fields, input: string, key: Key)
    requires HasAllKeys(fields)
    requires !Truthy(Get(fields, key)) && Triggered(key, input) && !Contains(input, SplitWord(key))
    ensures Lookup(ExtractDetails(fields, input), key) == Holds(Some(Strip(input)))
  {
    ExtractDetailsPerField(fields, input, key);
    ValueAfterIsStrippedLastPiece(input, SplitWord(key));
  }

  /** No separator word overlaps itself. */
  lemma SplitWordsBorderless(key: Key)
    ensures Borderless(SplitWord(key))
  {
    var w := SplitWord(key);
    if w == "contract type" {
      forall k | 0 < k < |w| ensures w[k..] != w[..|w| - k] {
        if k == 6 {
          assert w[k..][1] != w[..|w| - k][1];
        } else {
          assert w[k..][0] != w[..|w| - k][0];
        }
      }
    } else {
      BorderlessByFirstChar(w);
    }
  }

  /**
   * The stored value is the stripped text after the LAST occurrence of the
   * separator, with the separator's own casing.
   */
  lemma ExtractedFollowsLastOccurrence(key: Key, input: string)
    requires Contains(input, SplitWord(key))
    ensures exists p :: && OccursAt(input, SplitWord(key), p)
                        && (forall i :: OccursAt(input, SplitWord(key), i) ==> i <= p)
                        && ValueAfter(input, SplitWord(key)) == Strip(input[p + |SplitWord(key)|..])
  {
    var w := SplitWord(key);
    SplitWordsBorderless(key);
    SplitLastFollowsLastOccurrence(input, w);
    ValueAfterIsStrippedLastPiece(input, w);
    var p := |input| - |SplitLast(input, w)| - |w|;
    assert input[p + |w|..] == SplitLast(input, w);
    assert OccursAt(input, w, p);
  }

  /** "industry" contains "in", so every input that names an industry also triggers the location. */
  lemma IndustryTriggersLocation(input: string)
    requires Triggered(Industry, input)
    ensures Triggered(Location, input)
  {
    var low := Lower(input);
    ContainsIff(low, "industry");
    var i :| OccursAt(low, "industry", i);
    assert low[i..i + 2] == low[i..i + 8][..2];
    assert OccursAt(low, "in", i);
    ContainsIff(low, "in");
  }

  /**
   * One pass of the compiled graph over `st`: the messages its nodes emit, in
   * order. The route out of the gathering node always picks the search, so
   * every pass emits the gathering reply and then the search reply.
   */
  function GraphPass(st: DialogueState, search: SearchService): (events: seq<Message>)
    ensures |events| == 2 && events[0] == GatherContractDetails(st)[0]
    ensures events[1] == RenderResults(SearchResults(st.fields, search))
  {
    var gathered := st.(messages := st.messages + GatherContractDetails(st));
    match RouteToSearch(gathered)
    case ContractSearch => GatherContractDetails(st) + [RenderResults(SearchResults(gathered.fields, search))]
    case InputGathering => assert false; []
  }

  /** `contract_finder_graph.stream(...)`: node by node, each node's message. */
  method StreamGraph(st: DialogueState, search: SearchService) returns (events: seq<Message>)
    ensures events == GraphPass(st, search)
  {
    events := GatherContractDetails(st);
    var current := st.(messages := st.messages + events);
    var route := RouteToSearch(current);
    if route == InputGathering {
      assert false;
    }
    var reply := SearchContracts(current, search);
    events := events + [reply];
  }

  /** The state `run_contract_finder` starts from: no messages, all four keys holding `None`. */
  function InitialState(): DialogueState {
    DialogueState([], Fields(Holds(None), Holds(None), Holds(None), Holds(None)))
  }

  /**
   * The keys are present from the start, so the first query prints "None"
   * for every detail, the budget included.
   */
  lemma FirstQueryPrintsNone()
    ensures SearchQuery(InitialState().fields)
            == "Latest " + "None" + " contract opportunities in "
               + "None" + " industry located in "
               + "None" + " with budget range "
               + "None"
  {
  }

  /** A gathering reply: the clarification prompt or the acknowledgment. */
  predicate IsGatherReply(m: Message) {
    m.role == Assistant && (m.content == CLARIFICATION_PROMPT || m.content == ACKNOWLEDGMENT)
  }

  /** A search reply: the apology or a results list. */
  predicate IsSearchReply(m: Message) {
    m.role == Assistant && (m.content == APOLOGY || RESULTS_HEADER <= m.content)
  }

  /**
   * The state after a turn that is not an exit: the user message appended,
   * then the details extracted from it.
   */
  function Advance(st: DialogueState, input: string): (r: DialogueState)
    requires HasAllKeys(st.fields)
    ensures HasAllKeys(r.fields)
  {
    DialogueState(st.messages + [Message(User, input)], ExtractDetails(st.fields, input))
  }

  /**
   * The two replies of a turn that begins with the details at `fields`: the
   * gathering node's reply and the search node's, in that order. Neither
   * depends on the messages, only on the details and the search tool.
   */
  function TurnReplies(fields: Fields, search: SearchService): (r: seq<Message>)
    ensures |r| == 2 && IsGatherReply(r[0]) && IsSearchReply(r[1])
    ensures r[0].content == CLARIFICATION_PROMPT <==> !DetailsComplete(fields)
    ensures r[1].content == APOLOGY <==> |SearchResults(fields, search)| == 0
  {
    PromptsDiffer();
    [GatherContractDetails(DialogueState([], fields))[0], RenderResults(SearchResults(fields, search))]
  }

  /**
   * What the assistant prints on a turn that is not an exit. The graph runs
   * on the state with the user message appended and the details as they were
   * before the turn: the extraction only runs once the stream has started.
   */
  function Replies(st: DialogueState, input: string, search: SearchService): (r: seq<Message>)
    ensures r == TurnReplies(st.fields, search)
  {
    var appended := st.(messages := st.messages + [Message(User, input)]);
    GraphPass(appended, search)
  }

  datatype TurnResult = Exit | Continue(next: DialogueState, replies: seq<Message>)

  /**
   * One iteration of the `while True` loop. The extraction runs after each
   * of the two events, which by `ExtractIdempotent` is the same as running it
   * once.
   */
  function Turn(st: DialogueState, input: string, search: SearchService): (r: TurnResult)
    requires HasAllKeys(st.fields)
    ensures r.Exit? <==> IsExit(input)
    ensures r.Continue? ==> r.next.messages == st.messages + [Message(User, input)]
    ensures r.Continue? ==> HasAllKeys(r.next.fields)
    ensures r.Continue? ==> forall k :: Truthy(Get(st.fields, k)) ==> Lookup(r.next.fields, k) == Lookup(st.fields, k)
    ensures r.Continue? ==> r.replies == TurnReplies(st.fields, search)
  {
    if IsExit(input) then Exit
    else
      ExtractKeepsSetFields(st.fields, input);
      Continue(Advance(st, input), Replies(st, input, search))
  }

  /**
   * The number of turns the loop runs on the console lines `inputs` from
   * line `k` on: up to the first exit word, or to the end of the lines.
   */
  function TurnsFrom(inputs: seq<string>, k: nat): (n: nat)
    requires k <= |inputs|
    ensures k + n <= |inputs|
    decreases |inputs| - k
  {
    if k == |inputs| || IsExit(inputs[k]) then 0 else 1 + TurnsFrom(inputs, k + 1)
  }

  /** The loop runs exactly up to the first exit word: none before it, and it stops on one. */
  lemma {:induction false} TurnsStopAtFirstExit(inputs: seq<string>, k: nat)
    requires k <= |inputs|
    ensures var n := TurnsFrom(inputs, k);
            && (forall i :: k <= i < k + n ==> !IsExit(inputs[i]))
            && (k + n < |inputs| ==> IsExit(inputs[k + n]))
    decreases |inputs| - k
  {
    if k < |inputs| && !IsExit(inputs[k]) {
      TurnsStopAtFirstExit(inputs, k + 1);
    }
  }

  /** The details after the extraction has run on each of `lines` in turn. */
  function ExtractAcross(fields: Fields, lines: seq<string>): (r: Fields)
    requires HasAllKeys(fields)
    ensures HasAllKeys(r)
  {
    if |lines| == 0 then fields
    else ExtractDetails(ExtractAcross(fields, lines[..|lines| - 1]), lines[|lines| - 1])
  }

  /** A detail that holds a non-empty value keeps it for the rest of the session. */
  lemma {:induction false} ExtractAcrossKeepsSetFields(fields: Fields, lines: seq<string>)
    requires HasAllKeys(fields)
    ensures forall key :: Truthy(Get(fields, key)) ==> Lookup(ExtractAcross(fields, lines), key) == Lookup(fields, key)
  {
    if |lines| > 0 {
      ExtractAcrossKeepsSetFields(fields, lines[..|lines| - 1]);
      ExtractKeepsSetFields(ExtractAcross(fields, lines[..|lines| - 1]), lines[|lines| - 1]);
    }
  }

  /** How a session ends: an exit word, or the console running out of lines. */
  datatype Ending = Exited | InputClosed

  /**
   * `replies` holds, for each of the first `n` lines, the two replies of a
   * turn that begins with the details extracted from the lines before it and
   * searches with `services(t)`, the tool as it answers on turn `t`.
   */
  ghost predicate PrintedPerTurn(replies: seq<Message>, f0: Fields, inputs: seq<string>,
                                 services: nat -> SearchService, n: nat)
    requires HasAllKeys(f0) && n <= |inputs|
  {
    && |replies| == 2 * n
    && forall t :: 0 <= t < n ==>
         && replies[2 * t] == TurnReplies(ExtractAcross(f0, inputs[..t]), services(t))[0]
         && replies[2 * t + 1] == TurnReplies(ExtractAcross(f0, inputs[..t]), services(t))[1]
  }

  /** The replies of `n` turns followed by those of turn `n` are the replies of `n + 1` turns. */
  lemma {:induction false} PrintedExtend(before: seq<Message>, f0: Fields, inputs: seq<string>,
                                         services: nat -> SearchService, n: nat, last: seq<Message>)
    requires HasAllKeys(f0) && n < |inputs|
    requires PrintedPerTurn(before, f0, inputs, services, n)
    requires last == TurnReplies(ExtractAcross(f0, inputs[..n]), services(n))
    ensures PrintedPerTurn(before + last, f0, inputs, services, n + 1)
  {
    var r := before + last;
    forall t | 0 <= t < n + 1
      ensures && r[2 * t] == TurnReplies(ExtractAcross(f0, inputs[..t]), services(t))[0]
              && r[2 * t + 1] == TurnReplies(ExtractAcross(f0, inputs[..t]), services(t))[1]
    {
      if t < n {
        assert r[2 * t] == before[2 * t] && r[2 * t + 1] == before[2 * t + 1];
      } else {
        assert r[2 * t] == last[0] && r[2 * t + 1] == last[1];
      }
    }
  }

  /** A history holding the user lines in order still does after the next one is appended. */
  lemma {:induction false} UserLinesExtend(m0: seq<Message>, before: seq<Message>, inputs: seq<string>, n: nat)
    requires n < |inputs| && |before| == |m0| + n && before[..|m0|] == m0
    requires forall j :: 0 <= j < n ==> before[|m0| + j] == Message(User, inputs[j])
    ensures var after := before + [Message(User, inputs[n])];
            && |after| == |m0| + n + 1 && after[..|m0|] == m0
            && forall j :: 0 <= j < n + 1 ==> after[|m0| + j] == Message(User, inputs[j])
  {
    var after := before + [Message(User, inputs[n])];
    assert after[..|m0|] == before[..|m0|];
    forall j | 0 <= j < n + 1 ensures after[|m0| + j] == Message(User, inputs[j]) {
      if j < n {
        assert after[|m0| + j] == before[|m0| + j];
      }
    }
  }

  /** The details after `n` turns, advanced by the extraction on line `n`, are the details after `n + 1`. */
  lemma {:induction false} ExtractAcrossStep(f0: Fields, inputs: seq<string>, n: nat, fields: Fields)
    requires HasAllKeys(f0) && n < |inputs|
    requires fields == ExtractDetails(ExtractAcross(f0, inputs[..n]), inputs[n])
    ensures fields == ExtractAcross(f0, inputs[..n + 1])
  {
    assert inputs[..n + 1][..n] == inputs[..n];
  }

  /**
   * What the loop of `run_contract_finder` has done after `turns` turns on
   * the console lines `inputs`, starting from the history `m0` and the
   * details `f0`: no exit word yet, one user message per line appended, the
   * extraction run on each line, and each turn's two replies printed.
   */
  ghost predicate Progress(m0: seq<Message>, f0: Fields, inputs: seq<string>, services: nat -> SearchService,
                           turns: nat, messages: seq<Message>, fields: Fields, replies: seq<Message>)
  {
    && HasAllKeys(f0) && turns <= |inputs|
    && TurnsFrom(inputs, 0) == turns + TurnsFrom(inputs, turns)
    && |messages| == |m0| + turns && messages[..|m0|] == m0
    && (forall j :: 0 <= j < turns ==> messages[|m0| + j] == Message(User, inputs[j]))
    && fields == ExtractAcross(f0, inputs[..turns])
    && PrintedPerTurn(replies, f0, inputs, services, turns)
  }

  /** A turn on a line that is not an exit word carries the loop's progress one line further. */
  lemma {:induction false} ProgressStep(m0: seq<Message>, f0: Fields, inputs: seq<string>,
                                        services: nat -> SearchService, turns: nat,
                                        messages: seq<Message>, fields: Fields, replies: seq<Message>,
                                        out: seq<Message>)
    requires Progress(m0, f0, inputs, services, turns, messages, fields, replies)
    requires turns < |inputs| && !IsExit(inputs[turns])
    requires out == TurnReplies(fields, services(turns))
    ensures HasAllKeys(fields)
    ensures Progress(m0, f0, inputs, services, turns + 1, messages + [Message(User, inputs[turns])],
                     ExtractDetails(fields, inputs[turns]), replies + out)
  {
    UserLinesExtend(m0, messages, inputs, turns);
    ExtractAcrossStep(f0, inputs, turns, ExtractDetails(fields, inputs[turns]));
    PrintedExtend(replies, f0, inputs, services, turns, out);
  }

  /**
   * The dictionary `initial_state` of `run_contract_finder`: only user
   * messages are ever appended to it, and the four keys are always present.
   */
  class Session {
    var messages: seq<Message>
    var fields: Fields

    ghost predicate Valid()
      reads this
    {
      HasAllKeys(fields) && forall i :: 0 <= i < |messages| ==> messages[i].role == User
    }

    function State(): DialogueState
      reads this
    {
      DialogueState(messages, fields)
    }

    constructor ()
      ensures Valid() && State() == InitialState()
    {
      messages := [];
      fields := Fields(Holds(None), Holds(None), Holds(None), Holds(None));
    }

    /** The extraction block, assigning the details of `initial_state` in place. */
    method ExtractDetailsInPlace(input: string)
      requires Valid()
      modifies this
      ensures Valid() && messages == old(messages)
      ensures fields == ExtractDetails(old(fields), input)
    {
      ghost var f0 := fields;
      var low := Lower(input);
      if !Truthy(Get(fields, Industry)) && Contains(low, "industry") {
        fields := fields.(industry := Holds(Some(ValueAfter(input, "industry"))));
      }
      assert fields.industry == FillSlot(f0, Industry, input);
      assert Lookup(fields, ContractType) == Lookup(f0, ContractType);
      if !Truthy(Get(fields, ContractType)) && Contains(low, "contract type") {
        fields := fields.(contractType := Holds(Some(ValueAfter(input, "contract type"))));
      }
      assert fields.contractType == FillSlot(f0, ContractType, input);
      assert Lookup(fields, Location) == Lookup(f0, Location);
      if !Truthy(Get(fields, Location)) && (Contains(low, "in") || Contains(low, "location")) {
        fields := fields.(location := Holds(Some(ValueAfter(input, "location"))));
      }
      assert fields.location == FillSlot(f0, Location, input);
      assert Lookup(fields, BudgetRange) == Lookup(f0, BudgetRange);
      if !Truthy(Get(fields, BudgetRange)) && Contains(low, "budget") {
        fields := fields.(budgetRange := Holds(Some(ValueAfter(input, "budget"))));
      }
      assert fields.budgetRange == FillSlot(f0, BudgetRange, input);
    }

    /**
     * One iteration of the loop: stop on an exit word; otherwise append the
     * user message, stream the graph, print each assistant message and run
     * the extraction after every event.
     */
    method Step(input: string, search: SearchService) returns (exited: bool, replies: seq<Message>)
      requires Valid()
      modifies this
      ensures Valid()
      ensures exited <==> Turn(old(State()), input, search).Exit?
      ensures exited ==> State() == old(State()) && replies == []
      ensures !exited ==> State() == Turn(old(State()), input, search).next
      ensures !exited ==> replies == Turn(old(State()), input, search).replies
      ensures !exited ==> messages == old(messages) + [Message(User, input)]
      ensures !exited ==> fields == ExtractDetails(old(fields), input)
      ensures !exited ==> |replies| == 2 && IsGatherReply(replies[0]) && IsSearchReply(replies[1])
    {
      if IsExit(input) {
        return true, [];
      }
      exited := false;
      messages := messages + [Message(User, input)];
      var events := StreamGraph(State(), search);
      replies := [];
      ghost var before := fields;
      for e := 0 to |events|
        invariant Valid()
        invariant messages == old(messages) + [Message(User, input)]
        invariant replies == events[..e]
        invariant fields == if e == 0 then before else ExtractDetails(before, input)
      {
        var last := events[e];
        if last.role == Assistant {
          replies := replies + [last];
        }
        ExtractIdempotent(before, input);
        ExtractDetailsInPlace(input);
      }
      assert events[..|events|] == events;
    }

    /**
     * The `while True` loop over the console lines `inputs`; `services(k)` is
     * the search tool as it answers on turn `k`. The loop stops at the first
     * exit word, or when the lines run out (`input()` raising, which the
     * catch-all turns into the end of the session).
     */
    method Run(inputs: seq<string>, services: nat -> SearchService)
      returns (replies: seq<Message>, turns: nat, ending: Ending)
      requires Valid()
      modifies this
      ensures Valid()
      ensures turns == TurnsFrom(inputs, 0)
      ensures ending == Exited <==> turns < |inputs|
      ensures |messages| == |old(messages)| + turns && messages[..|old(messages)|] == old(messages)
      ensures forall j :: 0 <= j < turns ==> messages[|old(messages)| + j] == Message(User, inputs[j])
      ensures fields == ExtractAcross(old(fields), inputs[..turns])
      ensures |replies| == 2 * turns
      ensures forall t :: 0 <= t < turns ==>
                && replies[2 * t] == TurnReplies(ExtractAcross(old(fields), inputs[..t]), services(t))[0]
                && replies[2 * t + 1] == TurnReplies(ExtractAcross(old(fields), inputs[..t]), services(t))[1]
    {
      replies, turns, ending := [], 0, InputClosed;
      ghost var m0, f0 := messages, fields;
      assert inputs[..0] == [];
      while turns < |inputs|
        invariant Valid()
        invariant Progress(m0, f0, inputs, services, turns, messages, fields, replies)
        decreases |inputs| - turns
      {
        ghost var before, beforeFields := messages, fields;
        var exited, out := Step(inputs[turns], services(turns));
        if exited {
          ending := Exited;
          return;
        }
        ProgressStep(m0, f0, inputs, services, turns, before, beforeFields, replies, out);
        replies := replies + out;
        turns := turns + 1;
      }
    }
  }

  /**
   * `run_contract_finder`: a fresh session driven by the console lines
   * `inputs`. It takes one turn per line up to the first exit word, which
   * ends it; without one it ends when the lines run out. Each turn prints a
   * gathering reply and then a search reply, both computed from the details
   * scraped from the earlier lines; the first turn always asks for the
   * details and searches with every detail printed as "None".
   */
  method RunContractFinder(inputs: seq<string>, services: nat -> SearchService)
    returns (replies: seq<Message>, turns: nat, ending: Ending)
    ensures turns <= |inputs| && forall i :: 0 <= i < turns ==> !IsExit(inputs[i])
    ensures ending == Exited <==> turns < |inputs|
    ensures ending == Exited ==> IsExit(inputs[turns])
    ensures |replies| == 2 * turns
    ensures forall t :: 0 <= t < turns ==> IsGatherReply(replies[2 * t]) && IsSearchReply(replies[2 * t + 1])
    ensures forall t :: 0 <= t < turns ==>
              && replies[2 * t] == TurnReplies(ExtractAcross(InitialState().fields, inputs[..t]), services(t))[0]
              && replies[2 * t + 1] == TurnReplies(ExtractAcross(InitialState().fields, inputs[..t]), services(t))[1]
    ensures turns > 0 ==> && replies[0] == Message(Assistant, CLARIFICATION_PROMPT)
                          && replies[1] == RenderResults(SearchResults(InitialState().fields, services(0)))
  {
    var session := new Session();
    replies, turns, ending := session.Run(inputs, services);
    TurnsStopAtFirstExit(inputs, 0);
    assert inputs[..0] == [];
  }
}
