/**
 * The search service of src/app/core/search.ts: the per-query handler with
 * its loading and error state, the provider order (Gemini with search
 * grounding first, then Custom Search with Gemini extraction), the
 * two-strategy Custom Search loop, the search-context builder and the two
 * answer checks.
 *
 * Every HTTP exchange is an input: a `Network` holds one function per
 * endpoint that says what a request gets back. Each pipeline step returns
 * its outcome (a value, or the exception it throws) together with the list
 * of requests it made, so that which providers were asked, and in what
 * order, can be stated.
 */
module Search {
  import opened JsText
  import SetEnv

  const SearchFailedMessage := "Search failed. Please try again."
  const GeminiKeyMissingMessage := "Gemini API key not configured"
  const NotFoundSentinel := "NOT_FOUND"
  const SiteRestriction := " site:quizlet.com"

  /** A flashcard: the question asked and the answer found. */
  datatype Card = Card(term: string, definition: string)

  /** What an async step ends with: a value, or an exception with its message. */
  datatype Outcome<T> = Returned(value: T) | Threw(message: string)

  /**
   * A Gemini `generateContent` exchange: the request rejects (no connection,
   * or a body that is not JSON), the response is not OK, or it is OK and
   * `candidates[0].content.parts[0].text` is present or not.
   */
  datatype GeminiReply = GeminiThrew(message: string) | GeminiHttpError(status: nat) | GeminiOk(text: Option<string>)

  /** The fields of a Custom Search result item that the service reads; `ogDescription` is `pagemap.metatags[0]['og:description']`. */
  datatype SearchItem = SearchItem(title: Option<string>, snippet: Option<string>, link: Option<string>, ogDescription: Option<string>)

  /** A Custom Search exchange: the request rejects, the response is not OK, or it is OK with `items || []`. */
  datatype SearchReply = SearchThrew(message: string) | SearchHttpError | SearchOk(items: seq<SearchItem>)

  /** The three endpoints: grounding by query, Custom Search by search query, extraction by query and context. */
  datatype Network = Network(
    grounding: string -> GeminiReply,
    customSearch: string -> SearchReply,
    extraction: (string, string) -> GeminiReply)

  /** A request the service makes. */
  datatype Call = GroundingCall(query: string) | CustomSearchCall(searchQuery: string) | ExtractionCall(query: string, context: string)

  /** The outcome of a step and the requests it made, in order. */
  datatype Run<T> = Run(outcome: Outcome<T>, calls: seq<Call>)

  function Prepend<T>(calls: seq<Call>, run: Run<T>): Run<T> {
    Run(run.outcome, calls + run.calls)
  }

  // ---------------------------------------------------------------------
  // The query handler (the body of the switchMap)

  /** `!query.trim()`. */
  predicate IsBlank(query: string) {
    Trim(query) == []
  }

  /** A query is blank exactly when it is all whitespace. */
  lemma BlankMeansWhitespace(query: string)
    ensures IsBlank(query) <==> forall k :: 0 <= k < |query| ==> IsJsSpace(query[k])
  {
    TrimEmpty(query);
  }

  /** The service's state: the environment it was built with, the endpoints, and the loading and error signals. */
  class SearchService {
    const env: SetEnv.Environment
    const net: Network
    var loading: bool
    var error: Option<string>

    constructor (env: SetEnv.Environment, net: Network)
      ensures this.env == env && this.net == net
      ensures !loading && error == None
    {
      this.env := env;
      this.net := net;
      loading := false;
      error := None;
    }

    /**
     * One debounced query: a blank query gives no card and touches neither
     * signal; any other query ends with loading off, and either the search
     * result with no error or no card with the fixed failure message.
     */
    method HandleQuery(query: string) returns (card: Option<Card>)
      modifies this
      ensures IsBlank(query) ==> card == None && loading == old(loading) && error == old(error)
      ensures !IsBlank(query) ==> !loading
      ensures !IsBlank(query) ==> var outcome := SearchQuizlet(env, net, query).outcome;
        && (outcome.Returned? ==> card == outcome.value && error == None)
        && (outcome.Threw? ==> card == None && error == Some(SearchFailedMessage))
    {
      if IsBlank(query) {
        return None;
      }
      loading := true;
      error := None;
      var outcome := SearchQuizlet(env, net, query).outcome;
      if outcome.Returned? {
        card := outcome.value;
      } else {
        error := Some(SearchFailedMessage);
        card := None;
      }
      loading := false;
    }
  }

  // ---------------------------------------------------------------------
  // Provider order (searchQuizlet)

  /**
   * Gemini with grounding first, then possibly Custom Search; without a
   * Gemini key it throws before any request.
   */
  function SearchQuizlet(env: SetEnv.Environment, net: Network, query: string): (r: Run<Option<Card>>)
    ensures env.geminiApiKey == [] <==> r == Run(Threw(GeminiKeyMissingMessage), [])
    ensures env.geminiApiKey != [] ==> |r.calls| >= 1 && r.calls[0] == GroundingCall(query)
  {
    if env.geminiApiKey == [] then
      Run(Threw(GeminiKeyMissingMessage), [])
    else
      var grounding := SearchWithGeminiGrounding(query, net.grounding(query));
      var calls := [GroundingCall(query)];
      match grounding
      case Threw(message) => Run(Threw(message), calls)
      case Returned(Some(card)) => Run(Returned(Some(card)), calls)
      case Returned(None) =>
        if env.googleSearchApiKey != [] && env.googleSearchEngineId != [] then
          Prepend(calls, CustomSearch(query, net))
        else
          Run(Returned(None), calls)
  }

  /**
   * Custom Search is asked exactly when grounding answered no card (rather
   * than a card or an exception) and both Custom Search settings are
   * present; then its result is the result. Otherwise grounding's outcome
   * is the result.
   */
  lemma ProviderOrder(env: SetEnv.Environment, net: Network, query: string)
    requires env.geminiApiKey != []
    ensures var r := SearchQuizlet(env, net, query);
      var grounding := SearchWithGeminiGrounding(query, net.grounding(query));
      && (|r.calls| > 1 <==> grounding == Returned(None) && !SetEnv.CustomSearchUnconfigured(env))
      && (|r.calls| > 1 ==> r == Prepend([GroundingCall(query)], CustomSearch(query, net)))
      && (|r.calls| == 1 ==> r.outcome == grounding)
  {
  }

  /**
   * In an environment where the build script warns that Custom Search is
   * not configured, no Custom Search request is ever made.
   */
  lemma UnconfiguredMeansGroundingOnly(env: SetEnv.Environment, net: Network, query: string)
    requires SetEnv.CustomSearchUnconfigured(env)
    ensures var r := SearchQuizlet(env, net, query);
      forall i :: 0 <= i < |r.calls| ==> r.calls[i] == GroundingCall(query)
  {
    if env.geminiApiKey != [] {
      ProviderOrder(env, net, query);
    }
  }

  // ---------------------------------------------------------------------
  // Gemini with search grounding

  /** The first check of searchWithGeminiGrounding on the trimmed text. */
  predicate GroundingRejects(text: string) {
    text == [] || text == NotFoundSentinel || Contains(ToLower(text), "not found") || Contains(ToLower(text), "cannot find")
  }

  /**
   * The "no answer" test on a trimmed answer: empty, the sentinel, or saying
   * "not found". It is the whole answer check of searchWithCustomSearch, and
   * the second check of searchWithGeminiGrounding repeats it.
   */
  predicate SaysNotFound(text: string) {
    text == [] || text == NotFoundSentinel || Contains(ToLower(text), "not found")
  }

  /** The second check can never reject what the first let through. */
  lemma SecondGroundingCheckIsDead(text: string)
    ensures SaysNotFound(text) ==> GroundingRejects(text)
  {
  }

  /** The answer check of searchWithGeminiGrounding, both checks as written. */
  function AcceptGroundingAnswer(query: string, text: Option<string>): (card: Option<Card>)
    ensures card.Some? ==> text.Some? && card.value == Card(query, Trim(text.value))
    ensures card.Some? ==> card.value.definition != [] && IsTrimmed(card.value.definition)
    ensures card.Some? <==> text.Some? && !GroundingRejects(Trim(text.value))
  {
    match text
    case None => None
    case Some(raw) =>
      var answer := Trim(raw);
      if GroundingRejects(answer) then None
      else if SaysNotFound(answer) then None
      else Some(Card(query, answer))
  }

  /** searchWithGeminiGrounding: a failed response is no answer rather than an error, so that Custom Search can follow. */
  function SearchWithGeminiGrounding(query: string, reply: GeminiReply): (r: Outcome<Option<Card>>)
    ensures reply.GeminiHttpError? ==> r == Returned(None)
    ensures reply.GeminiThrew? <==> r.Threw?
    ensures reply.GeminiOk? ==> r == Returned(AcceptGroundingAnswer(query, reply.text))
    ensures r.Returned? && r.value.Some? ==> r.value.value.term == query && r.value.value.definition != []
  {
    match reply
    case GeminiThrew(message) => Threw(message)
    case GeminiHttpError(_) => Returned(None)
    case GeminiOk(text) => Returned(AcceptGroundingAnswer(query, text))
  }

  // ---------------------------------------------------------------------
  // Custom Search with Gemini extraction

  /** The two search queries, in the order they are tried: the exact phrase first, then the plain query. */
  function Strategies(query: string): (strategies: seq<string>)
    ensures |strategies| == 2 && strategies[0] != strategies[1]
  {
    ["\"" + query + "\"" + SiteRestriction, query + SiteRestriction]
  }

  /** A reply after which the loop goes on to the next strategy: not OK, or OK with no items. */
  predicate Misses(reply: SearchReply) {
    reply.SearchHttpError? || (reply.SearchOk? && reply.items == [])
  }

  /** The strategy loop: the queries are sent in order until one throws or one gives items. */
  function ScanStrategies(queries: seq<string>, search: string -> SearchReply): (r: Run<seq<SearchItem>>)
    ensures |r.calls| <= |queries| && (queries != [] ==> |r.calls| >= 1 && r.calls[0] == CustomSearchCall(queries[0]))
    decreases |queries|
  {
    if queries == [] then Run(Returned([]), [])
    else
      var here := [CustomSearchCall(queries[0])];
      match search(queries[0])
      case SearchThrew(message) => Run(Threw(message), here)
      case SearchHttpError => Prepend(here, ScanStrategies(queries[1..], search))
      case SearchOk(items) =>
        if |items| > 0 then Run(Returned(items), here) else Prepend(here, ScanStrategies(queries[1..], search))
  }

  /**
   * The loop asks the queries in order, one request each, and goes past a
   * query only when it missed; it ends with no items exactly when every
   * query missed, and otherwise with what the last query asked gave back.
   */
  lemma {:induction false} ScanStrategiesOrder(queries: seq<string>, search: string -> SearchReply)
    ensures var r := ScanStrategies(queries, search);
      && (forall i :: 0 <= i < |r.calls| ==> r.calls[i] == CustomSearchCall(queries[i]))
      && (forall i :: 0 <= i < |r.calls| - 1 ==> Misses(search(queries[i])))
      && (r.outcome == Returned([]) <==>
           |r.calls| == |queries| && forall i :: 0 <= i < |queries| ==> Misses(search(queries[i])))
      && (r.outcome.Returned? && r.outcome.value != [] ==> search(queries[|r.calls| - 1]) == SearchOk(r.outcome.value))
      && (r.outcome.Threw? ==> search(queries[|r.calls| - 1]) == SearchThrew(r.outcome.message))
    decreases |queries|
  {
    if queries != [] {
      var rest := queries[1..];
      ScanStrategiesOrder(rest, search);
      assert forall i :: 1 <= i < |queries| ==> queries[i] == rest[i - 1];
    }
  }

  /** The error searchWithCustomSearch throws when the extraction response is not OK. */
  function GeminiErrorMessage(status: nat): string {
    "Gemini API error: " + NatToString(status)
  }

  /**
   * searchWithCustomSearch: the strategy loop, then, only when it found
   * items, one extraction request over their context and the answer check.
   */
  function CustomSearch(query: string, net: Network): (r: Run<Option<Card>>)
    ensures |r.calls| >= 1 && r.calls[0] == CustomSearchCall(Strategies(query)[0])
    ensures r.outcome.Returned? && r.outcome.value.Some? ==>
      r.outcome.value.value.term == query && r.calls[|r.calls| - 1].ExtractionCall?
  {
    var scan := ScanStrategies(Strategies(query), net.customSearch);
    match scan.outcome
    case Threw(message) => Run(Threw(message), scan.calls)
    case Returned(items) =>
      if |items| == 0 then Run(Returned(None), scan.calls)
      else Prepend(scan.calls, Extract(query, items, net))
  }

  /** The extraction step: one request over the items' context, then the answer check. */
  function Extract(query: string, items: seq<SearchItem>, net: Network): (r: Run<Option<Card>>)
    ensures r.calls == [ExtractionCall(query, SearchContext(items))]
    ensures r.outcome.Returned? && r.outcome.value.Some? ==> r.outcome.value.value.term == query
  {
    var context := SearchContext(items);
    var calls := [ExtractionCall(query, context)];
    match net.extraction(query, context)
    case GeminiThrew(message) => Run(Threw(message), calls)
    case GeminiHttpError(status) => Run(Threw(GeminiErrorMessage(status)), calls)
    case GeminiOk(text) => Run(Returned(AcceptExtractedAnswer(query, text)), calls)
  }

  lemma ExtractCases(query: string, items: seq<SearchItem>, net: Network)
    ensures var reply := net.extraction(query, SearchContext(items));
      var outcome := Extract(query, items, net).outcome;
      && (reply.GeminiThrew? ==> outcome == Threw(reply.message))
      && (reply.GeminiHttpError? ==> outcome == Threw(GeminiErrorMessage(reply.status)))
      && (reply.GeminiOk? ==> outcome == Returned(AcceptExtractedAnswer(query, reply.text)))
  {
  }

  /** One turn of the strategy loop. */
  lemma ScanStep(queries: seq<string>, search: string -> SearchReply)
    requires queries != []
    ensures var here := [CustomSearchCall(queries[0])];
      ScanStrategies(queries, search) ==
        match search(queries[0])
        case SearchThrew(message) => Run(Threw(message), here)
        case SearchHttpError => Prepend(here, ScanStrategies(queries[1..], search))
        case SearchOk(items) =>
          if |items| > 0 then Run(Returned(items), here) else Prepend(here, ScanStrategies(queries[1..], search))
  {
  }

  /** When every strategy misses, both are tried, the result is no card, and Gemini is never asked. */
  lemma NoResultsNoExtraction(query: string, net: Network)
    requires forall i :: 0 <= i < 2 ==> Misses(net.customSearch(Strategies(query)[i]))
    ensures CustomSearch(query, net) ==
      Run(Returned(None), [CustomSearchCall(Strategies(query)[0]), CustomSearchCall(Strategies(query)[1])])
  {
    var scan := ScanStrategies(Strategies(query), net.customSearch);
    ScanStrategiesOrder(Strategies(query), net.customSearch);
    assert scan.outcome == Returned([]);
    assert scan.calls == [CustomSearchCall(Strategies(query)[0]), CustomSearchCall(Strategies(query)[1])];
  }

  /** A strategy request that throws ends the search with that exception, after the requests made so far. */
  lemma CustomSearchThrows(query: string, net: Network)
    ensures var scan := ScanStrategies(Strategies(query), net.customSearch);
      scan.outcome.Threw? ==> CustomSearch(query, net) == Run(Threw(scan.outcome.message), scan.calls)
  {
  }

  /** Once a strategy gives items, the result is the extraction over them, after the search requests. */
  lemma CustomSearchFound(query: string, net: Network)
    ensures var scan := ScanStrategies(Strategies(query), net.customSearch);
      scan.outcome.Returned? && scan.outcome.value != [] ==>
        CustomSearch(query, net) == Prepend(scan.calls, Extract(query, scan.outcome.value, net))
  {
  }

  /** The first strategy giving items ends the loop: the second is never sent, and Gemini reads those items. */
  lemma FirstHitStopsTheLoop(query: string, net: Network, items: seq<SearchItem>)
    requires net.customSearch(Strategies(query)[0]) == SearchOk(items) && items != []
    ensures var r := CustomSearch(query, net);
      |r.calls| == 2 && r.calls[1] == ExtractionCall(query, SearchContext(items))
  {
  }

  /** The strategy loop of searchWithCustomSearch: each query in turn, on to the next after a miss, stopping at the first items. */
  method SendStrategies(strategies: seq<string>, search: string -> SearchReply) returns (scan: Run<seq<SearchItem>>)
    ensures scan == ScanStrategies(strategies, search)
  {
    ghost var spec := ScanStrategies(strategies, search);
    var items: seq<SearchItem> := [];
    var calls: seq<Call> := [];
    var i := 0;
    while i < |strategies|
      invariant 0 <= i <= |strategies| && items == []
      invariant spec == Prepend(calls, ScanStrategies(strategies[i..], search))
    {
      var searchQuery := strategies[i];
      ScanStep(strategies[i..], search);
      assert strategies[i..][1..] == strategies[i + 1..];
      calls := calls + [CustomSearchCall(searchQuery)];
      var reply := search(searchQuery);
      if reply.SearchThrew? {
        return Run(Threw(reply.message), calls);
      }
      if reply.SearchHttpError? {
        i := i + 1;
        continue;
      }
      items := reply.items;
      if |items| > 0 {
        break;
      }
      i := i + 1;
    }
    if items == [] {
      assert strategies[i..] == [];
    }
    scan := Run(Returned(items), calls);
  }

  /** searchWithCustomSearch as the service runs it: the strategy loop, then the extraction request when there are items. */
  method SearchWithCustomSearch(query: string, net: Network) returns (r: Run<Option<Card>>)
    ensures r == CustomSearch(query, net)
  {
    var scan := SendStrategies(Strategies(query), net.customSearch);
    if scan.outcome.Threw? {
      return Run(Threw(scan.outcome.message), scan.calls);
    }
    var items := scan.outcome.value;
    if |items| == 0 {
      return Run(Returned(None), scan.calls);
    }
    var context := SearchContext(items);
    var calls := scan.calls + [ExtractionCall(query, context)];
    ExtractCases(query, items, net);
    match net.extraction(query, context) {
      case GeminiThrew(message) =>
        r := Run(Threw(message), calls);
      case GeminiHttpError(status) =>
        r := Run(Threw(GeminiErrorMessage(status)), calls);
      case GeminiOk(text) =>
        r := Run(Returned(AcceptExtractedAnswer(query, text)), calls);
    }
  }

  /** How a template literal writes a field that may be missing: `undefined` when it is. */
  function Render(field: Option<string>): string {
    match field
    case None => "undefined"
    case Some(text) => text
  }

  /** The context entry of the `i`-th item: numbered from one, title and snippet, and the og:description when there is one. */
  function ContextEntry(i: nat, item: SearchItem): (entry: string)
    ensures StartsWith(entry, "[" + NatToString(i + 1) + "] ")
    ensures StartsWith(entry, "[" + NatToString(i + 1) + "] " + Render(item.title) + "\nSnippet: " + Render(item.snippet))
  {
    var content := "[" + NatToString(i + 1) + "] " + Render(item.title) + "\nSnippet: " + Render(item.snippet);
    if Truthy(item.ogDescription) then content + "\nMore content: " + item.ogDescription.value else content
  }

  /** The context sent for extraction: one entry per item, in item order, separated by blank lines. */
  function SearchContext(items: seq<SearchItem>): (context: string)
    ensures context == [] <==> items == []
    ensures items != [] ==> StartsWith(context, ContextEntry(0, items[0]))
  {
    Join(seq(|items|, i requires 0 <= i < |items| => ContextEntry(i, items[i])), "\n\n")
  }

  /** One item's context is its entry alone. */
  lemma ContextOfOne(item: SearchItem)
    ensures SearchContext([item]) == ContextEntry(0, item)
  {
    assert seq(1, i requires 0 <= i < 1 => ContextEntry(i, [item][i])) == [ContextEntry(0, item)];
  }

  /** Adding an item adds a blank line and its entry, numbered after the others, and changes nothing before. */
  lemma ContextGrows(items: seq<SearchItem>, item: SearchItem)
    requires items != []
    ensures SearchContext(items + [item]) == SearchContext(items) + "\n\n" + ContextEntry(|items|, item)
  {
    var entries := seq(|items|, i requires 0 <= i < |items| => ContextEntry(i, items[i]));
    var more := items + [item];
    assert seq(|more|, i requires 0 <= i < |more| => ContextEntry(i, more[i])) == entries + [ContextEntry(|items|, item)];
    JoinSnoc(entries, ContextEntry(|items|, item), "\n\n");
  }

  /** The `i`-th entry opens with its number `i + 1` in brackets, a number that reads back as `i + 1`. */
  lemma ContextEntryNumbered(i: nat, item: SearchItem)
    ensures var number := NatToString(i + 1);
      StartsWith(ContextEntry(i, item), "[" + number + "] ") && ParseDecimal(number) == Some(i + 1)
  {
    DecimalRoundTrip(i + 1);
    var number := NatToString(i + 1);
    var content := "[" + number + "] " + Render(item.title) + "\nSnippet: " + Render(item.snippet);
    assert StartsWith(content, "[" + number + "] ");
    assert StartsWith(content + "\nMore content: " + Render(item.ogDescription), "[" + number + "] ");
  }

  /** The `More content:` line is added to an entry exactly when the og:description is present and not empty. */
  lemma MoreContentOnlyWhenPresent(i: nat, item: SearchItem)
    ensures var plain := ContextEntry(i, item.(ogDescription := None));
      && (Truthy(item.ogDescription) ==> ContextEntry(i, item) == plain + "\nMore content: " + item.ogDescription.value)
      && (!Truthy(item.ogDescription) ==> ContextEntry(i, item) == plain)
  {
  }

  /** The answer check of searchWithCustomSearch: as the grounding check, except that "cannot find" is let through. */
  function AcceptExtractedAnswer(query: string, text: Option<string>): (card: Option<Card>)
    ensures card.Some? ==> text.Some? && card.value == Card(query, Trim(text.value))
    ensures card.Some? ==> card.value.definition != [] && IsTrimmed(card.value.definition)
    ensures card.Some? <==> text.Some? && !SaysNotFound(Trim(text.value))
  {
    match text
    case None => None
    case Some(raw) =>
      var answer := Trim(raw);
      if SaysNotFound(answer) then None
      else Some(Card(query, answer))
  }

  /** Whatever grounding accepts, extraction accepts as the same card. */
  lemma GroundingIsStricter(query: string, text: Option<string>)
    requires AcceptGroundingAnswer(query, text).Some?
    ensures AcceptExtractedAnswer(query, text) == AcceptGroundingAnswer(query, text)
  {
  }

  /** An answer that says only "cannot find" is a card from extraction and nothing from grounding. */
  lemma CannotFindSplitsTheChecks(query: string, raw: string)
    requires !SaysNotFound(Trim(raw)) && Contains(ToLower(Trim(raw)), "cannot find")
    ensures AcceptExtractedAnswer(query, Some(raw)) == Some(Card(query, Trim(raw)))
    ensures AcceptGroundingAnswer(query, Some(raw)) == None
  {
  }

  /** The sentinel is not caught by the "not found" test (its lower case has an underscore), so its own check is needed. */
  lemma SentinelNeedsItsOwnCheck()
    ensures !Contains(ToLower(NotFoundSentinel), "not found")
  {
    var lower := ToLower(NotFoundSentinel);
    assert lower[3] == '_';
    ContainsAt(lower, "not found");
  }
}
