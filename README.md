# quizbase search core, modelled in Dafny

quizbase answers a flashcard question typed by the user with an answer taken
from Quizlet. This project models two parts of it:

- `src/app/core/search.ts`: the search service. Its parts are:
  - the per-query handler, with its `loading` and `error` signals;
  - the provider order (Gemini with Google Search grounding first, then the Custom Search API with a Gemini extraction call);
  - the two-strategy Custom Search loop;
  - the search-context builder;
  - the two answer checks;
  - the Quizlet page scraper: three extraction patterns in priority order, the two card formatters, the span-text pairing and the page loop.
- `scripts/set-env.js`: the build script. It parses `.env`, resolves the three API keys against the process environment, writes `environment.ts` and decides whether to print the Custom Search warning.

Modules:

- `JsText` (`js_text.dfy`) holds the JavaScript string operations the code relies on, each with its JavaScript meaning:
  - `trim`, over the ECMAScript WhiteSpace and LineTerminator characters;
  - `toLowerCase`, `startsWith` and `includes`;
  - `split` on one character and `join`;
  - `||` on strings;
  - how a template literal writes a number.

  It also holds `IndexOf`, which the code does not call. It is a reference definition of "the first separator", used to state what splitting on `=` and joining back computes.
- `SetEnv` (`set_env.dfy`) holds the build script. The `forEach` over the lines is a loop method, proved equal to a fold over the parsed lines.
- `Search` (`search_service.dfy`) holds the search service.
  - `SearchService` is a class whose `loading` and `error` fields the handler updates.
  - Provider order, answer checks and context building are functions.
  - The strategy loop is a method with `break`/`continue`, proved equal to its specification function.
- `Flashcards` (`flashcards.dfy`) holds the page scraper. The `push` loop, the step-by-two `result +=` loop and the page loop are methods, each proved equal to a specification function.

Every HTTP endpoint is an input. A `Network` value holds one function per endpoint, giving the reply to each request:

- grounding;
- Custom Search;
- Gemini extraction.

Each pipeline step returns its outcome together with the list of requests it made. The outcome is a value, or the exception it throws. The list makes properties like these stateable:

- Gemini is never asked when no strategy found anything;
- Custom Search is never asked when its key or engine id is empty.

In the build script, two inputs stand in for I/O: `.env` is its text (absent when the file does not exist) and `process.env` is a map. The written file is returned as a string, and the warning as a boolean.

## Model

| member | source | states |
|---|---|---|
| JsText.Trim | src/app/core/search.ts:19 | `trim()` leaves no ECMAScript whitespace at either end and never lengthens the string |
| JsText.TrimStartDrops | scripts/set-env.js:15 | dropping leading whitespace leaves a suffix that starts with a non-space, and only whitespace was dropped |
| JsText.TrimEndDrops | scripts/set-env.js:15 | dropping trailing whitespace leaves a prefix that ends with a non-space, and only whitespace was dropped |
| JsText.TrimEmpty | src/app/core/search.ts:19 | `s.trim()` is empty exactly when every character of `s` is whitespace |
| JsText.TrimTrimmed | scripts/set-env.js:18 | trimming text that is already trimmed changes nothing |
| JsText.TrimIgnoresTrailingSpace | scripts/set-env.js:15 | one more whitespace character at the end (a CR, say) does not change `trim()` |
| JsText.ToLower | src/app/core/search.ts:184 | `toLowerCase()` keeps the length, turns each ASCII capital into its lower-case letter, and keeps every other character |
| JsText.Contains | src/app/core/search.ts:247 | `includes(sub)` can hold only when `sub` is no longer than the text, and always holds for the empty `sub` |
| JsText.Join | scripts/set-env.js:18 | `join(sep)` of a non-empty list starts with its first part |
| JsText.StartsWithChar | scripts/set-env.js:16 | `startsWith('#')` holds exactly when the first character is `#` |
| JsText.ContainsAt | src/app/core/search.ts:184 | `includes(sub)` holds exactly when `sub` occurs at some position |
| JsText.IndexOf | scripts/set-env.js:17 | the result is the first position holding the character, and it is absent exactly when the character does not occur |
| JsText.Split | scripts/set-env.js:14 | `split(sep)` gives at least one part, and no part holds the separator |
| JsText.JoinSplit | scripts/set-env.js:17-18 | joining the parts of a split with the same separator gives back the original string |
| JsText.SplitAtFirst | scripts/set-env.js:17-18 | the first part is the text before the first separator, and the other parts joined back are the text after it |
| JsText.NatToString | src/app/core/search.ts:126 | a number is written as decimal digits: at least one digit, and no leading zero |
| JsText.DecimalRoundTrip | src/app/core/search.ts:126 | reading back the decimal text of `n` gives `n` |
| SetEnv.ParseLine | scripts/set-env.js:15-19 | a parsed key and its value are both trimmed |
| SetEnv.KeyValueAtFirstEquals | scripts/set-env.js:17-18 | splitting on every `=` and joining the value parts back is the same as cutting at the first `=`; with no `=` the whole text is the key and the value is empty |
| SetEnv.ParseLineShape | scripts/set-env.js:15-18 | a line that is blank or starts with `#` once trimmed gives nothing; any other line is cut at its first `=` |
| SetEnv.CollectEnvVars | scripts/set-env.js:14-20 | every key and value of the table built from the lines is trimmed |
| SetEnv.AssignTrimmed | scripts/set-env.js:18 | assigning trimmed keys and values only ever gives a table of trimmed keys and values |
| SetEnv.EnvVarsOf | scripts/set-env.js:10-21 | with no `.env` file the table is empty, and every key and value in it is trimmed |
| SetEnv.AssignLines | scripts/set-env.js:14-20 | the `forEach` loop builds exactly the table given by folding the parsed lines |
| SetEnv.LoadEnvVars | scripts/set-env.js:10-21 | with no `.env` file the table is empty; otherwise it is the table built from the file's lines |
| SetEnv.AssignKeys | scripts/set-env.js:18 | a key is in the table exactly when some entry assigns it |
| SetEnv.LastAssignmentWins | scripts/set-env.js:18 | the value kept for a key is the one from its last assignment |
| SetEnv.EnvVarsKeys | scripts/set-env.js:14-20 | a key is in `envVars` exactly when some line of the file defines it |
| SetEnv.LastDefinitionWins | scripts/set-env.js:14-20 | when several lines define a key, the value on the last of them is kept |
| SetEnv.ParseLineIgnoresCr | scripts/set-env.js:15 | a line parses the same with a CR at its end |
| SetEnv.CollectEnvVarsIgnoresCr | scripts/set-env.js:14-20 | lines that differ only by trailing CRs build the same table |
| SetEnv.SplitCrlf | scripts/set-env.js:14 | splitting CRLF text on LF gives the LF lines, each but the last ending in CR |
| SetEnv.CrlfFileParsesSame | scripts/set-env.js:12-21 | a `.env` file saved with CRLF endings gives the same table as with LF endings |
| SetEnv.Resolve | scripts/set-env.js:24-26 | a key resolves to its `.env` value if that is non-empty, else to the process environment's value if non-empty, else to `''`; so an empty `.env` value falls through |
| SetEnv.EnvironmentTs | scripts/set-env.js:29-39 | the generated text opens with the doc comment, `export const environment = {` and `production: false,`, and ends with `};` and a newline |
| SetEnv.GeneratedFileIsDevelopment | scripts/set-env.js:34 | the generated file contains `production: false,` |
| SetEnv.GeneratedFileCarriesGeminiKey | scripts/set-env.js:35 | the generated file contains `geminiApiKey: '<value>',` with the resolved value verbatim |
| SetEnv.GeneratedFileCarriesSearchKey | scripts/set-env.js:36 | the generated file contains `googleSearchApiKey: '<value>',` with the resolved value verbatim |
| SetEnv.GeneratedFileCarriesEngineId | scripts/set-env.js:37 | the generated file contains `googleSearchEngineId: '<value>',` with the resolved value verbatim |
| SetEnv.GenerateEnvironmentFile | scripts/set-env.js:12-48 | the script writes the template filled with the resolved keys, and it warns exactly when the search key or the engine id resolves to `''` |
| Search.SearchService.constructor | src/app/core/search.ts:11-13 | the service starts with loading off and no error |
| Search.SearchService.HandleQuery | src/app/core/search.ts:18-33 | a blank query gives null and leaves loading and error untouched; any other query ends with loading off, and either the search result with no error, or null with exactly `Search failed. Please try again.` |
| Search.BlankMeansWhitespace | src/app/core/search.ts:19 | a query counts as blank exactly when it is all whitespace |
| Search.SearchQuizlet | src/app/core/search.ts:50-71 | it throws `Gemini API key not configured` before any request exactly when the Gemini key is empty; otherwise its first request is the grounding request |
| Search.ProviderOrder | src/app/core/search.ts:59-70 | Custom Search is asked exactly when grounding gave no card (neither a card nor an exception) and both the search key and the engine id are non-empty, and then its result is the result; otherwise grounding's outcome is the result |
| Search.UnconfiguredMeansGroundingOnly | src/app/core/search.ts:66-68 | in an environment the build script warns about, every request made is the grounding request |
| Search.SecondGroundingCheckIsDead | src/app/core/search.ts:247-253 | whatever the second grounding check rejects, the first has already rejected |
| Search.AcceptGroundingAnswer | src/app/core/search.ts:244-255 | grounding gives a card exactly when the trimmed text is non-empty, is not `NOT_FOUND`, and its lower case contains neither `not found` nor `cannot find`; the card is the query with the trimmed text |
| Search.SearchWithGeminiGrounding | src/app/core/search.ts:194-256 | a non-OK response is no card rather than an error; it throws exactly when the request throws; an OK reply gives exactly what the grounding answer check makes of its text, so a card's term is the query and its definition is non-empty |
| Search.Strategies | src/app/core/search.ts:84-87 | there are exactly two strategies, and they are distinct |
| Search.ScanStrategies | src/app/core/search.ts:91-116 | the loop makes at most one request per strategy, and its first request is the first strategy |
| Search.ScanStrategiesOrder | src/app/core/search.ts:91-116 | strategies are asked in order; the loop moves past one only when it was not OK or had no items; it ends with no items exactly when every strategy missed; otherwise it ends with the items, or the exception, of the last strategy asked |
| Search.NoResultsNoExtraction | src/app/core/search.ts:118-121 | when both strategies miss, both are asked, the result is null, and Gemini is not called |
| Search.CustomSearchFound | src/app/core/search.ts:112-188 | once a strategy gives items, the result is the extraction over those items, after the search requests made |
| Search.CustomSearchThrows | src/app/core/search.ts:89-116 | a strategy request that throws ends the Custom Search with that exception, after the requests made so far |
| Search.FirstHitStopsTheLoop | src/app/core/search.ts:112-115 | when the first strategy gives items, the second is never asked, and the next request is extraction over those items |
| Search.CustomSearch | src/app/core/search.ts:76-189 | the first request is the first strategy; a card comes only from an extraction request, and its term is the query |
| Search.Extract | src/app/core/search.ts:136-188 | extraction makes exactly one Gemini request, carrying the query and the context of the items; a card's term is the query |
| Search.SendStrategies | src/app/core/search.ts:89-116 | the `for … of` loop with `continue` and `break` gives exactly the outcome and the requests of the strategy scan |
| Search.SearchWithCustomSearch | src/app/core/search.ts:76-189 | the method gives exactly the outcome and the requests of the Custom Search specification |
| Search.ContextEntry | src/app/core/search.ts:125-131 | the entry of the `i`-th item opens with `[i+1] `, the title, a line break and `Snippet: ` with the snippet, a missing field written `undefined` |
| Search.SearchContext | src/app/core/search.ts:124-133 | the context is empty exactly when there are no items, and otherwise opens with the first item's entry |
| Search.ContextOfOne | src/app/core/search.ts:124-133 | one item's context is its entry alone |
| Search.ContextGrows | src/app/core/search.ts:124-133 | each further item adds a blank line and its entry, numbered after the others, and changes nothing before it |
| Search.ContextEntryNumbered | src/app/core/search.ts:126 | entry `i` starts with `[i+1] `, and that number reads back as `i + 1` |
| Search.MoreContentOnlyWhenPresent | src/app/core/search.ts:128-130 | the `More content:` line is added exactly when og:description is present and non-empty |
| Search.AcceptExtractedAnswer | src/app/core/search.ts:180-188 | extraction gives a card exactly when the trimmed answer is non-empty, is not `NOT_FOUND`, and its lower case does not contain `not found`; the card is the untrimmed query with the trimmed answer |
| Search.GroundingIsStricter | src/app/core/search.ts:184 | any answer grounding accepts, extraction accepts as the same card |
| Search.CannotFindSplitsTheChecks | src/app/core/search.ts:247 | an answer rejected only for `cannot find` is a card from extraction and null from grounding |
| Search.SentinelNeedsItsOwnCheck | src/app/core/search.ts:184 | the lower case of `NOT_FOUND` does not contain `not found`, so the sentinel needs its own test |
| Flashcards.FormatCards | src/app/core/search.ts:353-356 | the formatted cards are empty exactly when there are no cards |
| Flashcards.FormatOneCard | src/app/core/search.ts:354 | one card is formatted as its `Q: …\nA: …` block alone |
| Flashcards.FormatCardsGrows | src/app/core/search.ts:353-356 | each further card adds a blank line and its block, and changes nothing before it |
| Flashcards.FindStudiable | src/app/core/search.ts:350-351 | a field that `find` returns is always truthy |
| Flashcards.FindStudiableFirst | src/app/core/search.ts:350-351 | `find` stops at the first query that does not have falsy studiable items: it throws if that query is `null`, else returns its field |
| Flashcards.FindStudiableMissing | src/app/core/search.ts:350-351 | `find` finds nothing exactly when every query has falsy studiable items |
| Flashcards.ExtractCardsFromNextData | src/app/core/search.ts:347-362 | cards come only from a query that `find` reaches whose studiable items are an array with no `null` item |
| Flashcards.NextDataNullItem | src/app/core/search.ts:353-360 | a `null` studiable item in the array found makes reading its sides throw, and the extraction gives null |
| Flashcards.NextDataNotArray | src/app/core/search.ts:353 | studiable items that are truthy but not an array give null |
| Flashcards.NextDataCards | src/app/core/search.ts:353-356 | the first truthy studiable-items array with no `null` item gives one block per item, in order, front as question and back as answer, separated by blank lines |
| Flashcards.ExtractCardsFromPageData | src/app/core/search.ts:364-376 | cards come only from chosen terms that are an object with no `null` term |
| Flashcards.PageDataNullTerm | src/app/core/search.ts:366-374 | a `null` term among the chosen terms makes reading its fields throw, and the extraction gives null |
| Flashcards.PageDataChoice | src/app/core/search.ts:366-367 | a truthy `termIdToTermsMap` hides `terms`, and chosen terms that are not an object give null |
| Flashcards.PageDataCards | src/app/core/search.ts:366-370 | chosen terms that are an object with no `null` term give one block per term, in order, with the word, or the term when the word is empty, as question and the definition as answer, separated by blank lines |
| Flashcards.PageDataQuestion | src/app/core/search.ts:368-370 | a term's question is its `word`, or its `term` when the word is empty |
| Flashcards.StripTags | src/app/core/search.ts:327 | removing tags never lengthens the text and adds no character that was not there |
| Flashcards.StripTagsDropsTag | src/app/core/search.ts:327 | a tag `<…>` with at least one character inside is removed whole, and the strip carries on after it |
| Flashcards.StripTagsKeepsText | src/app/core/search.ts:327 | the text before the first `<` is kept as it is |
| Flashcards.StripTagsNoClose | src/app/core/search.ts:327 | text with no `>` is left as it is |
| Flashcards.StripTagsPlain | src/app/core/search.ts:327 | text that opens no tag is left as it is |
| Flashcards.StripTagsLeavesNoTag | src/app/core/search.ts:327 | no tag remains after the strip |
| Flashcards.StripTagsIdempotent | src/app/core/search.ts:327 | stripping twice is the same as stripping once |
| Flashcards.NonEmpty | src/app/core/search.ts:324-329 | the kept texts are no more than the span texts, and none of them is empty |
| Flashcards.NonEmptyAppend | src/app/core/search.ts:324-329 | the filter works text by text: the non-empty texts of two runs are those of the first followed by those of the second, so every non-empty span text is kept, in order |
| Flashcards.NonEmptyDropsBlanks | src/app/core/search.ts:328 | spans whose texts are all empty give no terms |
| Flashcards.NonEmptyKeepsFull | src/app/core/search.ts:328 | spans whose texts are all non-empty give all of them, in order |
| Flashcards.CollectTermTexts | src/app/core/search.ts:324-329 | the `push` loop collects exactly the non-empty span texts, in order |
| Flashcards.QaBlocks | src/app/core/search.ts:331-338 | with two terms or more, the text opens with the block of the first two |
| Flashcards.QaBlocksEmpty | src/app/core/search.ts:331-338 | the pairing text is empty exactly when there are fewer than two terms |
| Flashcards.OddTermDropped | src/app/core/search.ts:333-335 | an odd trailing term is dropped |
| Flashcards.QaBlocksGrow | src/app/core/search.ts:333-335 | two more terms add their `Q: …\nA: …\n\n` block at the end |
| Flashcards.PairTerms | src/app/core/search.ts:331-338 | the step-by-two loop writes exactly one block per pair `t[2k]`, `t[2k+1]`, in order |
| Flashcards.FlashcardText | src/app/core/search.ts:301-345 | any text extracted from a page is non-empty |
| Flashcards.NextDataWins | src/app/core/search.ts:306-312 | cards from `__NEXT_DATA__` win over the later patterns |
| Flashcards.PageDataWinsOverSpans | src/app/core/search.ts:314-320 | page-data cards win over the spans when `__NEXT_DATA__` gave none |
| Flashcards.SpansAfterEmptyPatterns | src/app/core/search.ts:306-340 | when each JSON pattern is absent or parses but gives no cards, the spans decide: their pairs with two terms or more, null with fewer |
| Flashcards.MalformedNextDataAborts | src/app/core/search.ts:341-344 | `__NEXT_DATA__` that is not JSON gives null, whatever the spans hold |
| Flashcards.MalformedPageDataAborts | src/app/core/search.ts:314-344 | page data that is not JSON gives null when `__NEXT_DATA__` gave no cards, whatever the spans hold |
| Flashcards.SpansDecideAlone | src/app/core/search.ts:331-340 | with neither JSON pattern present, the result is the pairs of the terms when there are at least two, and null exactly when there are fewer |
| Flashcards.ExtractFlashcardsFromHtml | src/app/core/search.ts:301-345 | the method returns exactly the page's flashcard text |
| Flashcards.PageContent | src/app/core/search.ts:264-292 | a search result adds at most one text, never an empty one; it adds one only when its link is on quizlet.com, the fetch gives an OK page and that page's flashcard text is what is added; so a fetch that throws or is not OK adds nothing |
| Flashcards.PageContentFound | src/app/core/search.ts:266-288 | a Quizlet result whose page is fetched and gives flashcard text adds exactly that text |
| Flashcards.PageContents | src/app/core/search.ts:261-296 | there are never more contents than search results |
| Flashcards.PageContentsNonEmpty | src/app/core/search.ts:286-289 | every collected text is non-empty |
| Flashcards.NoQuizletLinksNoContents | src/app/core/search.ts:266-267 | results without a Quizlet link give no contents |
| Flashcards.FetchQuizletPages | src/app/core/search.ts:261-296 | the page loop collects exactly the flashcard texts of the fetched Quizlet pages, in result order |

## Left out

- HTTP itself is not modelled: URL and query-parameter building, headers, request bodies and decoding JSON responses. Each endpoint is a function from its request to the reply the code acts on.
- The Gemini prompts and generation settings are not modelled. They shape the reply, which is an input here.
- The reactive wiring is not modelled: rxjs `debounceTime`, `distinctUntilChanged`, `switchMap` cancellation, and the Angular `signal`/`toObservable`/`toSignal` plumbing. Only the handler body is modelled, and it returns the value that `searchResultState` would receive.
- Search.SearchService.HandleQuery: its contract states only the final signal values. `loading` is true while the search runs, but that cannot be observed after the call.
- `console` logging is not modelled. It does not affect any result.
- Search.AcceptExtractedAnswer: `toLowerCase` is modelled for ASCII letters only. Every letter searched for (`not found`, `cannot find`) is ASCII. The only non-ASCII capital whose lower case includes one of them is U+0130, and that lower case also carries a combining mark, so the tests are unaffected.
- Search.AcceptGroundingAnswer: the same ASCII-only `toLowerCase` applies.
- Strings are sequences of Unicode scalar values, not UTF-16 code units. Nothing here depends on string lengths.
- Search.ContextEntry: a missing `title` or `snippet` is written `undefined`. A JSON `null`, which JavaScript writes `null`, and non-string values are not modelled.
- `searchData.items` is taken to be an array or missing. A truthy non-array is not modelled.
- Reading the body of a non-OK Custom Search response is assumed not to throw. Any exception raised in a strategy iteration is modelled as the request throwing.
- Search.SearchWithGeminiGrounding: the answer text is assumed to be a string when present. A non-string `text` would make `trim` throw.
- Regular-expression matching and `JSON.parse` are not modelled. A page comes already split into the two JSON patterns, each absent, not JSON, or parsed, plus the captured inner HTML of the `TermText` spans. The tag strip `<[^>]+>` is modelled directly as `Flashcards.StripTags`.
- In the card formatters, a card side or term field is a string, with `''` for any falsy value. A truthy non-string value (a number, say), which JavaScript would convert with `String`, is not modelled. `Object.values` order is taken as given.
- File and process I/O in the build script is not modelled. The `.env` text and the process environment are inputs. The written file and the warning are outputs. The success message is not modelled.
- SetEnv.AssignLines: `envVars` is a map. JavaScript object-key quirks, such as an assignment to `__proto__` being ignored, are not modelled.
- `src/app/core/quizlet-data.ts`, the UI components and `src/environments/environment.prod.ts` hold no logic that the search core uses.
- Nothing on the `searchQuizlet` path calls `fetchQuizletPages`, and `fetchQuizletPages` is the only caller of `extractFlashcardsFromHtml`. Both are modelled as written, with `FetchQuizletPages` calling `ExtractFlashcardsFromHtml` as the source does.
