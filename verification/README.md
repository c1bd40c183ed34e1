# Contract finder: a Dafny model

This project models the core of the contract finder agent in `app.py`: a
console loop that keeps one `ContractState` dictionary (the conversation's
messages plus four optional details — industry, contract type, location and
budget range), and on every line the user types runs a two-node graph. The
gathering node asks for the missing details or acknowledges them; the
conditional edge out of it decides between gathering again and searching;
the search node builds a query from the details, calls a web-search tool,
normalises the records it returns and renders them as one assistant reply.
After each message the graph streams, the loop scrapes the user's line for
the words "industry", "contract type", "in"/"location" and "budget" and
fills the details that are still unset.

Four modules, one file each:

- `pystr.dfy` (`PyStr`): the Python string operations the program relies on
  — `lower()`, `in`, `strip()`, `split(sep)[-1]`, `[:n]`, `join`, `str(int)` —
  each with the properties the rest of the model needs.
- `dialogue.dfy` (`Dialogue`): the state (an absent key and a key holding
  `None` are kept apart, because `dict.get` treats them differently), the
  gathering node and the routing function.
- `search.dfy` (`Search`): the query template, the normalisation loop of
  `safe_search_contracts` (a method proved against a specification
  function), and the rendering of `search_contracts`.
- `finder.dfy` (`Finder`): the exit words, the keyword extraction, one pass of
  the compiled graph, the per-turn specification `Turn`, and the class
  `Session` standing for the mutable `initial_state` dictionary, whose
  methods run the extraction, one turn and the whole loop in place.

Behaviour of the code worth noting, which the model follows:

- `run_contract_finder` creates all four keys holding `None`, so
  `state.get('budget_range', 'any')` never yields `"any"` in a real session:
  the first query reads `None` for every detail (`Finder.FirstQueryPrintsNone`).
  `"any"` appears only when the key is absent (`Search.QueryWithAbsentBudget`).
- The route is evaluated after the gathering node has appended its own
  assistant message, so it always picks the search: the self-loop on the
  gathering node never fires and the search runs on every turn, even while
  details are missing (`Dialogue.GatherThenRouteSearches`), although the
  comment at app.py:70 suggests the search follows only once the details are
  complete.
- The extraction block sits inside the loop over streamed events, so it
  runs once per event (twice per turn); because it is idempotent
  (`Finder.ExtractIdempotent`) that is the same as running it once.
- The extraction runs after each streamed event, so it has already run once
  when the search node executes; the search node still sees the details as
  they were before that turn's line was scraped, because the stream took the
  state's values when it started. The model therefore computes both replies
  of a turn from the details at its start (`Finder.Replies`,
  `Finder.TurnReplies`), and a detail scraped from one line first shows in
  the replies of the next turn (`Finder.RunContractFinder`).
- The location is triggered by the substring "in" (which "industry" and many
  other words contain, `Finder.IndustryTriggersLocation`) but split on
  "location"; when the line has no "location" with that casing the whole
  stripped line is stored (`Finder.ExtractWholeInputWithoutSeparator`).

## Model

| member | source | states |
|---|---|---|
| PyStr.IsSpace | app.py:199 | Definition: the characters Python's `str.isspace()` accepts, the whitespace `strip()` removes. |
| PyStr.LowerChar | app.py:180 | A lowered character is never an ASCII capital, and it is unchanged exactly when it was not one. |
| PyStr.Lower | app.py:180 | `lower()` keeps the length of the string. |
| PyStr.LowerAt | app.py:180 | Lowering works character by character: position k of the result is position k of the input, lowered. |
| PyStr.FindFrom | app.py:198 | The search for a substring from a position gives -1 or a position at or after the start where the substring fits. |
| PyStr.FindFromSpec | app.py:198 | That position is the first occurrence at or after the start; -1 means there is none. |
| PyStr.Contains | app.py:198-204 | Definition: `t in s`, as `s.find(t) >= 0`. |
| PyStr.ContainsIff | app.py:198 | `t in s` holds exactly when t occurs in s at some position. |
| PyStr.ContainsInfix | app.py:198 | Any piece of a concatenation is contained in it. |
| PyStr.SkipSpaces | app.py:199 | Skipping leading whitespace stays inside the string. |
| PyStr.SkipSpacesSpec | app.py:199 | It stops at the first non-whitespace character, or at the end, and skips only whitespace. |
| PyStr.SkipSpacesBack | app.py:199 | Skipping trailing whitespace stays between the lower bound and the end. |
| PyStr.SkipSpacesBackSpec | app.py:199 | It stops after the last non-whitespace character, or at the lower bound, and skips only whitespace. |
| PyStr.StrippedSlice | app.py:199 | A slice with no whitespace at either end and only whitespace around it is the stripped string. |
| PyStr.StripFromStripped | app.py:199 | Stripping the suffix from a position gives a slice with only whitespace removed at either end. |
| PyStr.StripFrom | app.py:199 | Definition: `s[lo:].strip()` computed on the indices of s. |
| PyStr.Strip | app.py:199 | `strip()` gives a slice of its input with whitespace only removed from the two ends and none left at them. |
| PyStr.StrippedUnique | app.py:199 | There is only one such slice, so `strip()` is determined by that property. |
| PyStr.StripFromIsStrip | app.py:199 | Stripping on indices is `strip()` of the suffix. |
| PyStr.LastPieceStart | app.py:199 | The start of the last piece of a split lies between the scan start and the end. |
| PyStr.LastPieceStartSpec | app.py:199 | No separator occurs at or after it, and it is the scan start (when none occurs from there) or the end of an occurrence. |
| PyStr.SplitLast | app.py:199 | `s.split(sep)[-1]` is a suffix of s that holds no occurrence of sep, preceded by one when sep occurs, and is all of s when it does not. |
| PyStr.SplitLastFollowsLastOccurrence | app.py:199 | For a separator that does not overlap itself, the last piece starts right after the last occurrence. |
| PyStr.OverlapIsBorder | app.py:199 | Two overlapping occurrences of a string make a proper suffix of it equal to a prefix of it. |
| PyStr.BorderlessByFirstChar | app.py:199 | A string whose first character does not occur again cannot overlap itself. |
| PyStr.Take | app.py:123 | `s[:n]` is a prefix of s of length min(n, len(s)). |
| PyStr.Join | app.py:120 | Definition: `sep.join(parts)`, the parts with the separator between each two. |
| PyStr.JoinAppend | app.py:120 | Joining one more part appends the separator and that part. |
| PyStr.DigitChar | app.py:121 | A digit value prints as a digit character. |
| PyStr.NatToString | app.py:121 | `str(n)` is a non-empty string of digits with a leading zero only for 0. |
| PyStr.DecimalRoundTrip | app.py:121 | Reading back `str(n)` as a decimal gives n. |
| Dialogue.PromptsDiffer | app.py:60-71 | The clarification prompt and the acknowledgment are different texts. |
| Dialogue.Lookup | app.py:198-205 | Definition: what the dictionary holds under a key, absent or a value; `state[key]` reads it. |
| Dialogue.HasAllKeys | app.py:167-173 | Definition: all four detail keys are present, as in the dictionary `run_contract_finder` builds. |
| Dialogue.Get | app.py:59 | Definition: `state.get(key)`, the stored value or `None` for an absent key. |
| Dialogue.Truthy | app.py:59 | Definition: Python truthiness of an optional string, false for `None` and for "". |
| Dialogue.DetailsComplete | app.py:59 | Definition: industry, contract type and location are all truthy. |
| Dialogue.GatherContractDetails | app.py:54-71 | The gathering node returns exactly one assistant message: the clarification prompt exactly when industry, contract type or location is falsy, the acknowledgment exactly when all three are truthy. |
| Dialogue.GatherDependsOnlyOnCompleteness | app.py:59 | Two states get the same gathering reply exactly when both or neither have all three required details. |
| Dialogue.GatherIgnoresBudget | app.py:59 | The budget, absent, `None` or set, never changes the gathering reply. |
| Dialogue.ContainsLastFour | app.py:60-67 | Each of the last four pieces of a five-piece concatenation occurs in it. |
| Dialogue.ClarificationAsksAllFour | app.py:60-67 | The clarification prompt contains all four numbered questions. |
| Dialogue.RouteToSearch | app.py:138-147 | The route goes back to gathering exactly when the last message is the user's and a required detail is falsy; otherwise it goes to the search. |
| Dialogue.RouteWithoutUserTurnSearches | app.py:142-147 | An empty history, or one ending in an assistant message, always goes to the search. |
| Dialogue.GatherThenRouteSearches | app.py:150-154 | Evaluated after the gathering node's reply, the route always picks the search, so the self-loop never fires. |
| Search.Show | app.py:81-84 | Definition: the text `f"{state.get(key, default)}"` gives: the default for an absent key, "None" for a key holding `None`, the value otherwise. |
| Search.SearchQuery | app.py:80-85 | Definition: the query template with the contract type, industry, location and budget shown in that order, the budget defaulting to "any". |
| Search.QueryWithAbsentBudget | app.py:80-85 | With the budget key absent the query ends in "any". |
| Search.QueryWithNoneBudget | app.py:80-85 | With the budget key present but `None` the query ends in "None". |
| Search.ShowKeepsPresentValues | app.py:81-84 | A key present in the state is printed from its value, "None" for `None`, and never replaced by the default. |
| Search.GetOr | app.py:95-97 | Definition: `result.get(key, default)`, the stored value or the default for an absent key. |
| Search.NormalizeRecord | app.py:94-98 | Definition: one raw record with title, url and content each taken from it or defaulted. |
| Search.Normalized | app.py:91-99 | Definition: the raw records normalised one by one, in order. |
| Search.SearchResults | app.py:74-105 | Definition: the empty list when the search tool raised, otherwise the normalised records of its answer to the query. |
| Search.NormalizedFieldwise | app.py:92-99 | There is one normalised record per raw result in the same order, and each of title, url and content is kept when present and defaulted otherwise. |
| Search.SafeSearchContracts | app.py:74-105 | The method's result is the empty list when the search raised and otherwise the normalised records. |
| Search.Snippet | app.py:123 | A description is its first 200 characters followed by "...", and short descriptions are kept whole. |
| Search.Entry | app.py:121-123 | Definition: entry n as its number, title, URL and description snippet on three lines. |
| Search.Entries | app.py:120-124 | Definition: the entries of all results, numbered from 1 in order. |
| Search.EntryStartsWithItsNumber | app.py:121 | Every entry begins with its number and ". ", and the number reads back as n. |
| Search.RenderResults | app.py:113-129 | The search reply is an assistant message that is the apology exactly when there are no results, and starts with the results header otherwise. |
| Search.RenderOne | app.py:120-128 | One result renders as the header followed by entry 1. |
| Search.RenderAppend | app.py:120-128 | One more result appends a blank line and the next numbered entry, leaving the earlier text unchanged. |
| Search.RenderPrefix | app.py:120-128 | The rendering of the first k results is a prefix of the rendering of all of them. |
| Search.SearchContracts | app.py:107-131 | The search node's reply is the rendering of the search results for the state's details. |
| Finder.IsExit | app.py:180 | Definition: the lowered line is "quit", "exit" or "q". |
| Finder.ExitIffLowersToExitWord | app.py:180 | A line ends the session exactly when it has the length of "quit", "exit" or "q" and lowers to that word character by character. |
| Finder.ExitWordsInAnyCase | app.py:180 | "quit", "QUIT", "Exit" and "Q" all end the session. |
| Finder.ExitNeedsTheWholeLine | app.py:180 | "quit now", the empty line and " q" do not end it. |
| Finder.ValueAfter | app.py:199-205 | Definition: `input.split(word)[-1].strip()` computed on the indices of the line. |
| Finder.Triggered | app.py:198-204 | Definition: the lowered line contains the key's trigger: "industry", "contract type", "in" or "location", and "budget". |
| Finder.SplitWord | app.py:199-205 | Definition: the word the line is split on for each key, "location" for the location. |
| Finder.FillSlot | app.py:198-205 | Definition: one `if` of the extraction block on its own key. |
| Finder.ValueAfterIsStrippedLastPiece | app.py:199 | The stored value is `strip()` of the last piece of the split. |
| Finder.ExtractDetails | app.py:198-205 | The extraction keeps all four keys present. |
| Finder.ExtractDetailsPerField | app.py:198-205 | Each detail is assigned exactly when it is falsy and its own trigger fired, and then takes the stripped text after its own separator. |
| Finder.ExtractKeepsSetFields | app.py:198-205 | A detail that already holds a non-empty value is never overwritten. |
| Finder.FieldsExtensional | app.py:26-31 | Two states that agree under every key hold the same details. |
| Finder.ExtractIdempotent | app.py:198-205 | Extracting twice from the same line is extracting once. |
| Finder.ExtractWholeInputWithoutSeparator | app.py:202-203 | When the trigger fired but the separator does not occur with its own casing, the whole stripped line is stored. |
| Finder.SplitWordsBorderless | app.py:199-205 | None of the four separators overlaps itself. |
| Finder.ExtractedFollowsLastOccurrence | app.py:199-205 | The stored value is the stripped text after the last occurrence of the separator. |
| Finder.IndustryTriggersLocation | app.py:198-203 | Every line that triggers the industry also triggers the location. |
| Finder.GraphPass | app.py:150-156 | One pass of the graph emits exactly two messages: the gathering reply, then the search reply for the state's details. |
| Finder.StreamGraph | app.py:188 | Streaming the graph node by node yields exactly the messages of one pass. |
| Finder.InitialState | app.py:167-173 | Definition: no messages and all four keys holding `None`. |
| Finder.FirstQueryPrintsNone | app.py:167-173 | From the initial state the query prints "None" for all four details. |
| Finder.Advance | app.py:185 | The state after a turn keeps all four keys present. |
| Finder.TurnReplies | app.py:54-131 | The two replies of a turn are a gathering reply and then a search reply; the first is the clarification prompt exactly when a required detail is missing and the second is the apology exactly when the search found nothing. |
| Finder.Replies | app.py:185-195 | The graph streamed on the state with the user message appended prints exactly the two replies computed from the details at the start of the turn. |
| Finder.Turn | app.py:175-205 | A line ends the session exactly when it is an exit word; otherwise exactly one user message is appended, set details are kept, and the replies are those computed from the details at the start of the turn and the turn's search tool. |
| Finder.TurnsFrom | app.py:175-182 | The loop never takes more turns than there are lines. |
| Finder.TurnsStopAtFirstExit | app.py:175-182 | The loop takes a turn on every line before the first exit word and stops on it. |
| Finder.ExtractAcross | app.py:198-205 | Extraction over several lines keeps all four keys present. |
| Finder.ExtractAcrossKeepsSetFields | app.py:198-205 | A detail that holds a non-empty value keeps it for the rest of the session. |
| Finder.PrintedExtend | app.py:175-205 | The replies of n turns followed by those of turn n, computed from the details extracted from lines before n, are the replies of n + 1 turns. |
| Finder.UserLinesExtend | app.py:185 | A history holding the user lines in order still does after the next one is appended. |
| Finder.ExtractAcrossStep | app.py:198-205 | The details after n turns, advanced by line n, are the details after n + 1 turns. |
| Finder.ProgressStep | app.py:175-205 | A turn on a line that is not an exit word carries the loop's progress one line further. |
| Finder.Session.Valid | app.py:167-185 | Definition: all four keys are present and every message in the history is a user message, since the loop only ever appends the user's lines. |
| Finder.Session.constructor | app.py:167-173 | A new session holds no messages and all four keys holding `None`. |
| Finder.Session.ExtractDetailsInPlace | app.py:198-205 | Assigning the four details in their order leaves the messages alone and the details equal to `ExtractDetails` of the old ones. |
| Finder.Session.Step | app.py:177-205 | One loop iteration exits and changes nothing exactly on an exit word; otherwise it appends one user message, extracts from the line, returns the turn's two replies, and agrees with `Turn`. |
| Finder.Session.Run | app.py:175-209 | The loop takes one turn per line up to the first exit word, appends exactly those lines as user messages in order, extracts from each of them, and prints, on turn t, the two replies computed from the details extracted from the lines before t and from the search tool of turn t. |
| Finder.RunContractFinder | app.py:162-209 | A fresh session takes a turn on every line before the first exit word, ends on that exit word if there is one and when the lines run out otherwise; on turn t it prints a gathering and a search reply computed from the details extracted from the lines before t, starting from all four `None`, and the search tool of turn t; so the first turn asks for the details and searches on the all-`None` details. |

## Left out

- Loading the environment and checking the two API keys (app.py:13-23): configuration, not logic.
- The Groq language model and its tool binding (app.py:38-51): created but never called by the graph.
- The Tavily search itself (app.py:88): the tool is a parameter, a function from the query to either raw records or a failure; `max_results=5` is therefore not enforced by the model.
- The graph builder, compilation and LangGraph's streaming and channel mechanics (app.py:34, 134-135, 159): the two nodes and the conditional edge are modelled as one pass, `Finder.GraphPass`.
- The console: the welcome and goodbye texts, `print` of each assistant message, and the error message (app.py:163-164, 181, 195, 208). The lines the user types are a sequence, and the end of that sequence stands for `input()` raising, which the catch-all turns into the end of the loop.
- Other exceptions inside the loop (app.py:207-209): the model has no failure other than the search's, which `safe_search_contracts` catches.
- `s.py` is not part of this model.
- PyStr.LowerChar: maps ASCII capitals only; no other character lowers to one of the ASCII letters that make up the exit words and keywords, except the Kelvin sign (to "k") and capital I with dot (to "i" plus a combining dot), neither of which can complete one of those words.
- PyStr.Lower: applies `PyStr.LowerChar` to each character and so keeps the length, which Python's `lower()` does not for capital I with dot; by the line above this changes no outcome here.
- Finder.ExtractDetails: requires all four keys present, because `initial_state["industry"]` fails on an absent key; `run_contract_finder` always creates them.
