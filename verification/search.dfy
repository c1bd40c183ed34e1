/**
 * The search node: the query sent to the web-search tool, the normalisation
 * of whatever records come back (`safe_search_contracts`), and the reply that
 * lists them (`search_contracts`). The tool itself is a parameter.
 */
module Search {
  import opened PyStr
  import opened Dialogue

  /** What the search tool gives back for one query: raw records, or an exception. */
  datatype SearchOutcome = Failed | Returned(records: seq<map<string, string>>)

  /** The search tool, as a function of the query it is sent. */
  type SearchService = string -> SearchOutcome

  /** One normalised result: the dictionary `{'title': ..., 'url': ..., 'content': ...}`. */
  datatype ContractRecord = ContractRecord(title: string, url: string, content: string)

  /**
   * `f"{state.get(key, default)}"`: the default stands in only for an absent
   * key; a key holding `None` prints as "None".
   */
  function Show(fields: Fields, key: Key, default: string): string {
    match Lookup(fields, key)
    case Absent => default
    case Holds(None) => "None"
    case Holds(Some(s)) => s
  }

  /** The query template of `safe_search_contracts`. */
  function SearchQuery(fields: Fields): string {
    "Latest " + Show(fields, ContractType, "") + " contract opportunities in "
    + Show(fields, Industry, "") + " industry located in "
    + Show(fields, Location, "") + " with budget range "
    + Show(fields, BudgetRange, "any")
  }

  /** With the budget key absent, the query ends in "any". */
  lemma QueryWithAbsentBudget()
    ensures SearchQuery(Fields(Holds(Some("IT")), Holds(Some("Full-time")), Holds(Some("Austin")), Absent))
            == "Latest " + "Full-time" + " contract opportunities in "
               + "IT" + " industry located in "
               + "Austin" + " with budget range "
               + "any"
  {
  }

  /** With the budget key present but `None`, the query ends in "None", not "any". */
  lemma QueryWithNoneBudget()
    ensures SearchQuery(Fields(Holds(Some("IT")), Holds(Some("Full-time")), Holds(Some("Austin")), Holds(None)))
            == "Latest " + "Full-time" + " contract opportunities in "
               + "IT" + " industry located in "
               + "Austin" + " with budget range "
               + "None"
  {
  }

  /** A key present in the state is never replaced by the template's substitute. */
  lemma ShowKeepsPresentValues(fields: Fields, key: Key, default: string)
    requires Lookup(fields, key).Holds?
    ensures var v := Lookup(fields, key).value;
            Show(fields, key, default) == if v.Some? then v.value else "None"
  {
  }

  const UNTITLED := "Untitled Contract Opportunity"
  const NO_URL := "No URL available"
  const NO_DESCRIPTION := "No description available"

  /** `result.get(key, default)`. */
  function GetOr(raw: map<string, string>, key: string, default: string): string {
    if key in raw then raw[key] else default
  }

  /** One raw record with each missing key replaced by its own default. */
  function NormalizeRecord(raw: map<string, string>): ContractRecord {
    ContractRecord(GetOr(raw, "title", UNTITLED), GetOr(raw, "url", NO_URL),
                   GetOr(raw, "content", NO_DESCRIPTION))
  }

  /** The list `processed_results` built from the raw records. */
  function Normalized(raws: seq<map<string, string>>): seq<ContractRecord> {
    seq(|raws|, i requires 0 <= i < |raws| => NormalizeRecord(raws[i]))
  }

  /**
   * One record per raw result, in the same order; each of the three keys is
   * kept when present and defaulted when absent, independently of the others.
   */
  lemma NormalizedFieldwise(raws: seq<map<string, string>>, i: int)
    requires 0 <= i < |raws|
    ensures |Normalized(raws)| == |raws|
    ensures var r, raw := Normalized(raws)[i], raws[i];
            && r.title == (if "title" in raw then raw["title"] else UNTITLED)
            && r.url == (if "url" in raw then raw["url"] else NO_URL)
            && r.content == (if "content" in raw then raw["content"] else NO_DESCRIPTION)
  {
  }

  /** What `safe_search_contracts` returns: `[]` when the search raised, else the normalised records. */
  function SearchResults(fields: Fields, search: SearchService): seq<ContractRecord> {
    match search(SearchQuery(fields))
    case Failed => []
    case Returned(raws) => Normalized(raws)
  }

  /** `safe_search_contracts`: build the query, call the tool, normalise record by record. */
  method SafeSearchContracts(st: DialogueState, search: SearchService) returns (processed: seq<ContractRecord>)
    ensures processed == SearchResults(st.fields, search)
  {
    var query := SearchQuery(st.fields);
    var outcome := search(query);
    if outcome.Failed? {
      return [];
    }
    var raws := outcome.records;
    processed := [];
    for i := 0 to |raws|
      invariant |processed| == i
      invariant forall j :: 0 <= j < i ==> processed[j] == NormalizeRecord(raws[j])
    {
      processed := processed + [NormalizeRecord(raws[i])];
    }
  }

  const APOLOGY :=
    "I'm sorry, but I couldn't find any " + "contract opportunities matching your "
    + "criteria. Would you like to modify your " + "search parameters?"
  const RESULTS_HEADER :=
    "I've found some contract opportunities " + "matching your criteria:\n\n"
  const SNIPPET_LENGTH := 200

  /** `content[:200] + "..."`: the description of one entry. */
  function Snippet(content: string): (s: string)
    ensures |s| == (if |content| < SNIPPET_LENGTH then |content| else SNIPPET_LENGTH) + 3
    ensures s[..|s| - 3] <= content && s[|s| - 3..] == "..."
    ensures |content| <= SNIPPET_LENGTH ==> s == content + "..."
  {
    Take(content, SNIPPET_LENGTH) + "..."
  }

  /** Entry `n` of the list: number, title, URL and description on three lines. */
  function Entry(n: nat, r: ContractRecord): string {
    NatToString(n) + ". " + r.title + "\n"
    + "   URL: " + r.url + "\n"
    + "   Description: " + Snippet(r.content)
  }

  /** Every entry begins with its number, which reads back as `n`. */
  lemma EntryStartsWithItsNumber(n: nat, r: ContractRecord)
    ensures var digits := NatToString(n);
            digits + ". " <= Entry(n, r) && DecimalValue(digits) == n
  {
    DecimalRoundTrip(n);
  }

  /** The entries, numbered from 1 in the order of the results. */
  function Entries(results: seq<ContractRecord>): seq<string> {
    seq(|results|, i requires 0 <= i < |results| => Entry(i + 1, results[i]))
  }

  /**
   * The reply of the search node: the apology exactly when there is nothing
   * to show, otherwise the header followed by the entries.
   */
  function RenderResults(results: seq<ContractRecord>): (m: Message)
    ensures m.role == Assistant
    ensures m.content == APOLOGY <==> |results| == 0
    ensures |results| > 0 ==> RESULTS_HEADER <= m.content
  {
    if |results| == 0 then Message(Assistant, APOLOGY)
    else
      var text := RESULTS_HEADER + Join("\n\n", Entries(results));
      assert text[2] == 'v' && APOLOGY[2] == 'm';
      Message(Assistant, text)
  }

  /** One result gives the header and entry 1. */
  lemma RenderOne(r: ContractRecord)
    ensures RenderResults([r]).content == RESULTS_HEADER + Entry(1, r)
  {
  }

  /**
   * One more result adds a blank line and the next numbered entry at the end,
   * leaving everything before it as it was.
   */
  lemma RenderAppend(results: seq<ContractRecord>, r: ContractRecord)
    requires |results| > 0
    ensures RenderResults(results + [r]).content
            == RenderResults(results).content + "\n\n" + Entry(|results| + 1, r)
  {
    assert Entries(results + [r]) == Entries(results) + [Entry(|results| + 1, r)];
    JoinAppend("\n\n", Entries(results), Entry(|results| + 1, r));
  }

  /** The rendering of the first `k` results is a prefix of the rendering of all of them. */
  lemma {:induction false} RenderPrefix(results: seq<ContractRecord>, k: nat)
    requires 0 < k <= |results|
    ensures RenderResults(results[..k]).content <= RenderResults(results).content
    decreases |results| - k
  {
    if k < |results| {
      RenderPrefix(results, k + 1);
      assert results[..k + 1] == results[..k] + [results[k]];
      RenderAppend(results[..k], results[k]);
    } else {
      assert results[..k] == results;
    }
  }

  /** `search_contracts`: search, then render. */
  method SearchContracts(st: DialogueState, search: SearchService) returns (reply: Message)
    ensures reply == RenderResults(SearchResults(st.fields, search))
  {
    var results := SafeSearchContracts(st, search);
    reply := RenderResults(results);
  }
}
