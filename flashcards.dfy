/**
 * Flashcard extraction from Quizlet pages, as in src/app/core/search.ts:
 * the three patterns tried in priority order (the `__NEXT_DATA__` JSON, the
 * `Quizlet.setPageData` JSON, the `TermText` spans), the two card
 * formatters, the span-text pairing, and the page loop over search results.
 *
 * A page reaches the model already matched and parsed: each JSON pattern is
 * absent, present but not JSON, or present with the fields the formatters
 * read; the spans are the captured inner HTML of each `TermText` span in
 * page order. A string field that is missing or falsy is written `""`,
 * which is how `|| ''` renders it.
 */
module Flashcards {
  import opened JsText
  import Search

  /** A regular-expression match handed to `JSON.parse`: no match, a match that is not JSON (the parse throws), or the parsed value. */
  datatype Parsed<T> = NoMatch | Malformed | Parsed(data: T)

  /** An element of `studiableItems`: `null` (reading its sides throws), or the plain text of its two sides. */
  datatype StudiableItem = NullItem | StudiableItem(front: string, back: string)

  /** `state.data.studiableItems` of a query: falsy, truthy but not an array, or an array. */
  datatype StudiableField = NoItems | ItemsNotArray | ItemArray(items: seq<StudiableItem>)

  /** An element of `dehydratedState.queries`: `null` (reading its state throws), or its studiable items. */
  datatype QueryEntry = NullQuery | QueryEntry(studiableItems: StudiableField)

  /** The `__NEXT_DATA__` record: its `props.pageProps.dehydratedState.queries` array, or none when that path is missing or is not an array. */
  datatype NextData = NextData(queries: Option<seq<QueryEntry>>)

  /** An element of the page-data terms: `null` (reading its fields throws), or its word, term and definition. */
  datatype TermEntry = NullTerm | TermEntry(word: string, term: string, definition: string)

  /** A `termIdToTermsMap` or `terms` field: falsy, truthy but not an object, or an object (arrays included) with its values in `Object.values` order. */
  datatype TermsField = NoTerms | TermsNotObject | TermObject(values: seq<TermEntry>)

  /** The `Quizlet.setPageData` record. */
  datatype PageData = PageData(termIdToTermsMap: TermsField, terms: TermsField)

  /** A fetched Quizlet page as the three patterns see it. */
  datatype HtmlPage = HtmlPage(nextData: Parsed<NextData>, pageData: Parsed<PageData>, termSpans: seq<string>)

  /** Fetching a page: the request or reading the body throws, the response is not OK, or the page. */
  datatype PageReply = PageThrew | PageHttpError | PageHtml(page: HtmlPage)

  // ---------------------------------------------------------------------
  // Card formatters

  /** One card block. */
  function CardBlock(question: string, answer: string): string {
    "Q: " + question + "\nA: " + answer
  }

  /** The blocks of `cards`, in order. */
  function CardBlocks(cards: seq<(string, string)>): seq<string> {
    seq(|cards|, i requires 0 <= i < |cards| => CardBlock(cards[i].0, cards[i].1))
  }

  /** One block per card, separated by blank lines; empty exactly when there are no cards. */
  function FormatCards(cards: seq<(string, string)>): (text: string)
    ensures text == [] <==> cards == []
  {
    Join(CardBlocks(cards), "\n\n")
  }

  /** One card is its block alone. */
  lemma FormatOneCard(card: (string, string))
    ensures FormatCards([card]) == CardBlock(card.0, card.1)
  {
    assert CardBlocks([card]) == [CardBlock(card.0, card.1)];
  }

  /** Another card adds a blank line and its block and changes nothing before. */
  lemma FormatCardsGrows(cards: seq<(string, string)>, card: (string, string))
    requires cards != []
    ensures FormatCards(cards + [card]) == FormatCards(cards) + "\n\n" + CardBlock(card.0, card.1)
  {
    assert CardBlocks(cards + [card]) == CardBlocks(cards) + [CardBlock(card.0, card.1)];
    JoinSnoc(CardBlocks(cards), CardBlock(card.0, card.1), "\n\n");
  }

  /** What `find` over the queries ends with: it throws on a `null` query, finds nothing, or finds a truthy field. */
  datatype FindResult = FindThrew | NotFound | Found(field: StudiableField)

  /** A query `find` passes over: present, with falsy studiable items. */
  predicate Passed(q: QueryEntry) {
    q.QueryEntry? && q.studiableItems.NoItems?
  }

  /** `queries.find(q => q.state?.data?.studiableItems)`, with the field it found. */
  function FindStudiable(queries: seq<QueryEntry>): (r: FindResult)
    ensures r.Found? ==> !r.field.NoItems?
    decreases |queries|
  {
    if queries == [] then NotFound
    else match queries[0]
      case NullQuery => FindThrew
      case QueryEntry(field) => if field.NoItems? then FindStudiable(queries[1..]) else Found(field)
  }

  /** `find` stops at the first query it does not pass over: that query's field, or a throw when it is `null`. */
  lemma {:induction false} FindStudiableFirst(queries: seq<QueryEntry>, i: nat)
    requires i < |queries| && !Passed(queries[i])
    requires forall j :: 0 <= j < i ==> Passed(queries[j])
    ensures FindStudiable(queries) == if queries[i].NullQuery? then FindThrew else Found(queries[i].studiableItems)
    decreases i
  {
    if i > 0 {
      assert Passed(queries[0]);
      FindStudiableFirst(queries[1..], i - 1);
    }
  }

  /** `find` finds nothing exactly when it passes over every query. */
  lemma {:induction false} FindStudiableMissing(queries: seq<QueryEntry>)
    ensures FindStudiable(queries).NotFound? <==> forall j :: 0 <= j < |queries| ==> Passed(queries[j])
    decreases |queries|
  {
    if queries != [] {
      FindStudiableMissing(queries[1..]);
      if queries[0].QueryEntry? && queries[0].studiableItems.NoItems? {
        assert forall j :: 1 <= j < |queries| ==> queries[j] == queries[1..][j - 1];
      }
    }
  }

  /** The sides of the studiable items, or none when one of them is `null`. */
  function ItemSides(items: seq<StudiableItem>): Option<seq<(string, string)>> {
    if forall i :: 0 <= i < |items| ==> items[i].StudiableItem? then
      Some(seq(|items|, i requires 0 <= i < |items| && items[i].StudiableItem? => (items[i].front, items[i].back)))
    else None
  }

  /** extractCardsFromNextData: the cards of the first query with truthy studiable items, when those are an array; null otherwise or when anything read is `null`. */
  function ExtractCardsFromNextData(data: NextData): (text: Option<string>)
    ensures text.Some? ==> data.queries.Some?
    ensures text.Some? ==> var found := FindStudiable(data.queries.value); found.Found? && found.field.ItemArray?
    ensures text.Some? ==> var found := FindStudiable(data.queries.value);
      forall k :: 0 <= k < |found.field.items| ==> found.field.items[k].StudiableItem?
  {
    match data.queries
    case None => None
    case Some(queries) =>
      match FindStudiable(queries)
      case Found(ItemArray(items)) =>
        (match ItemSides(items)
         case Some(cards) => Some(FormatCards(cards))
         case None => None)
      case _ => None
  }

  /** Studiable items that are not an array give no cards, whatever follows. */
  lemma NextDataNotArray(queries: seq<QueryEntry>, i: nat)
    requires i < |queries| && queries[i] == QueryEntry(ItemsNotArray)
    requires forall j :: 0 <= j < i ==> Passed(queries[j])
    ensures ExtractCardsFromNextData(NextData(Some(queries))) == None
  {
    FindStudiableFirst(queries, i);
  }

  /** A `null` studiable item makes reading its sides throw, and the extraction gives nothing. */
  lemma NextDataNullItem(queries: seq<QueryEntry>, i: nat, items: seq<StudiableItem>, k: nat)
    requires i < |queries| && queries[i] == QueryEntry(ItemArray(items))
    requires forall j :: 0 <= j < i ==> Passed(queries[j])
    requires k < |items| && items[k] == NullItem
    ensures ExtractCardsFromNextData(NextData(Some(queries))) == None
  {
    FindStudiableFirst(queries, i);
  }

  /** The first truthy studiable-items array gives one block per item, front as question and back as answer. */
  lemma NextDataCards(queries: seq<QueryEntry>, i: nat, items: seq<StudiableItem>)
    requires i < |queries| && queries[i] == QueryEntry(ItemArray(items))
    requires forall j :: 0 <= j < i ==> Passed(queries[j])
    requires forall k :: 0 <= k < |items| ==> items[k].StudiableItem?
    ensures ExtractCardsFromNextData(NextData(Some(queries))) ==
      Some(FormatCards(seq(|items|, k requires 0 <= k < |items| && items[k].StudiableItem? => (items[k].front, items[k].back))))
  {
    FindStudiableFirst(queries, i);
  }

  /** `data?.termIdToTermsMap || data?.terms`: the map unless it is falsy. */
  function ChosenTerms(data: PageData): TermsField {
    if data.termIdToTermsMap.NoTerms? then data.terms else data.termIdToTermsMap
  }

  /** The cards of the terms, question `word || term || ''`, or none when one of them is `null`. */
  function TermCards(values: seq<TermEntry>): Option<seq<(string, string)>> {
    if forall i :: 0 <= i < |values| ==> values[i].TermEntry? then
      Some(seq(|values|, i requires 0 <= i < |values| && values[i].TermEntry? =>
        (Or(values[i].word, values[i].term), values[i].definition)))
    else None
  }

  /** extractCardsFromPageData: the cards of the chosen terms when they are an object; null otherwise or when a term is `null`. */
  function ExtractCardsFromPageData(data: PageData): (text: Option<string>)
    ensures text.Some? ==> ChosenTerms(data).TermObject?
    ensures text.Some? ==> forall k :: 0 <= k < |ChosenTerms(data).values| ==> ChosenTerms(data).values[k].TermEntry?
  {
    match ChosenTerms(data)
    case TermObject(values) =>
      (match TermCards(values)
       case Some(cards) => Some(FormatCards(cards))
       case None => None)
    case _ => None
  }

  /**
   * A truthy `termIdToTermsMap` hides `terms`; terms that are not an object
   * give no cards; a term's question is its word, else its term.
   */
  lemma PageDataChoice(data: PageData)
    ensures !data.termIdToTermsMap.NoTerms? ==>
      ExtractCardsFromPageData(data) == ExtractCardsFromPageData(data.(terms := NoTerms))
    ensures ChosenTerms(data).TermsNotObject? ==> ExtractCardsFromPageData(data) == None
  {
  }

  /** Chosen terms that are an object with no `null` term give one block per term, in order, question `word || term`. */
  lemma PageDataCards(data: PageData, values: seq<TermEntry>)
    requires ChosenTerms(data) == TermObject(values)
    requires forall k :: 0 <= k < |values| ==> values[k].TermEntry?
    ensures ExtractCardsFromPageData(data) ==
      Some(FormatCards(seq(|values|, k requires 0 <= k < |values| && values[k].TermEntry? =>
        (Or(values[k].word, values[k].term), values[k].definition))))
  {
  }

  /** A `null` term makes reading its fields throw, and the extraction gives nothing. */
  lemma PageDataNullTerm(data: PageData, values: seq<TermEntry>, k: nat)
    requires ChosenTerms(data) == TermObject(values)
    requires k < |values| && values[k] == NullTerm
    ensures ExtractCardsFromPageData(data) == None
  {
  }

  /** The question of a page-data card: `word`, or `term` when the word is empty, or empty. */
  lemma PageDataQuestion(entry: TermEntry)
    requires entry.TermEntry?
    ensures var text := ExtractCardsFromPageData(PageData(TermObject([entry]), NoTerms));
      && (entry.word != [] ==> text == Some(CardBlock(entry.word, entry.definition)))
      && (entry.word == [] ==> text == Some(CardBlock(entry.term, entry.definition)))
  {
    var cards := TermCards([entry]).value;
    assert cards == [(Or(entry.word, entry.term), entry.definition)];
    FormatOneCard(cards[0]);
  }

  // ---------------------------------------------------------------------
  // The span fallback

  /** At `s[i]` opens a tag `<…>` with at least one character inside: the first `>` after it is not right next to it. */
  predicate OpensTag(s: string, i: int) {
    0 <= i < |s| && s[i] == '<' &&
    match IndexOf(s[i + 1..], '>')
    case Some(k) => k >= 1
    case None => false
  }

  /** `s.replace(/<[^>]+>/g, '')`: each tag, found left to right, is removed. */
  function StripTags(s: string): (r: string)
    ensures |r| <= |s|
    ensures forall k :: 0 <= k < |r| ==> r[k] in s
    decreases |s|
  {
    if s == [] then []
    else if s[0] == '<' then
      match IndexOf(s[1..], '>')
      case Some(k) => if k >= 1 then StripTags(s[k + 2..]) else [s[0]] + StripTags(s[1..])
      case None => [s[0]] + StripTags(s[1..])
    else [s[0]] + StripTags(s[1..])
  }

  /** Without any `>` there is no tag and nothing is removed. */
  lemma {:induction false} StripTagsNoClose(s: string)
    requires '>' !in s
    ensures StripTags(s) == s
    decreases |s|
  {
    if s != [] {
      assert '>' !in s[1..];
      StripTagsNoClose(s[1..]);
    }
  }

  /** Text that opens no tag is left as it is. */
  lemma {:induction false} StripTagsPlain(s: string)
    requires forall i :: 0 <= i < |s| ==> !OpensTag(s, i)
    ensures StripTags(s) == s
    decreases |s|
  {
    if s != [] {
      forall i | 0 <= i < |s| - 1
        ensures !OpensTag(s[1..], i)
      {
        assert s[1..][i + 1..] == s[i + 2..];
        assert !OpensTag(s, i + 1);
      }
      StripTagsPlain(s[1..]);
      assert !OpensTag(s, 0);
    }
  }

  /** No tag survives the strip. */
  lemma {:induction false} StripTagsLeavesNoTag(s: string)
    ensures forall i :: 0 <= i < |StripTags(s)| ==> !OpensTag(StripTags(s), i)
    decreases |s|
  {
    if s != [] {
      if s[0] == '<' && IndexOf(s[1..], '>').Some? && IndexOf(s[1..], '>').value >= 1 {
        StripTagsLeavesNoTag(s[IndexOf(s[1..], '>').value + 2..]);
      } else if s[0] == '<' && IndexOf(s[1..], '>').None? {
        StripTagsNoClose(s[1..]);
        assert StripTags(s) == s;
        forall i | 0 <= i < |s|
          ensures !OpensTag(s, i)
        {
          if i > 0 {
            assert s[i + 1..] == s[1..][i..];
          }
        }
      } else {
        var rest := StripTags(s[1..]);
        StripTagsLeavesNoTag(s[1..]);
        var r := [s[0]] + rest;
        assert StripTags(s) == r;
        forall i | 0 <= i < |r|
          ensures !OpensTag(r, i)
        {
          if i > 0 {
            assert r[i + 1..] == rest[i..];
            assert !OpensTag(rest, i - 1);
          } else if s[0] == '<' {
            assert s[1] == '>';
            assert rest == [s[1]] + StripTags(s[2..]) by {
              assert s[1..][1..] == s[2..];
            }
            assert r[1..][0] == '>';
          }
        }
      }
    }
  }

  /** A tag `<…>` with at least one character inside is removed, and the strip goes on after it. */
  lemma StripTagsDropsTag(inner: string, rest: string)
    requires inner != [] && '>' !in inner
    ensures StripTags(['<'] + inner + ['>'] + rest) == StripTags(rest)
  {
    var s := ['<'] + inner + ['>'] + rest;
    assert s[1..] == inner + ['>'] + rest;
    IndexOfAfter(inner, '>', rest);
    assert s[|inner| + 2..] == rest;
  }

  /** Text before the first `<` is kept as it is. */
  lemma {:induction false} StripTagsKeepsText(a: string, b: string)
    requires '<' !in a
    ensures StripTags(a + b) == a + StripTags(b)
    decreases |a|
  {
    if a != [] {
      StripTagsOther(a + b);
      assert (a + b)[1..] == a[1..] + b;
      StripTagsKeepsText(a[1..], b);
      assert [a[0]] + (a[1..] + StripTags(b)) == a + StripTags(b);
    } else {
      assert a + b == b;
    }
  }

  /** A first character other than `<` is kept. */
  lemma StripTagsOther(s: string)
    requires s != [] && s[0] != '<'
    ensures StripTags(s) == [s[0]] + StripTags(s[1..])
  {
  }

  /** Stripping twice is stripping once. */
  lemma StripTagsIdempotent(s: string)
    ensures StripTags(StripTags(s)) == StripTags(s)
  {
    StripTagsLeavesNoTag(s);
    StripTagsPlain(StripTags(s));
  }

  /** The text of a span: tags stripped, then trimmed. */
  function SpanText(span: string): string {
    Trim(StripTags(span))
  }

  /** The texts of the spans, in order. */
  function SpanTexts(spans: seq<string>): seq<string> {
    seq(|spans|, k requires 0 <= k < |spans| => SpanText(spans[k]))
  }

  /** `texts` in order, with the empty ones dropped. */
  function NonEmpty(texts: seq<string>): (kept: seq<string>)
    ensures |kept| <= |texts|
    ensures forall k :: 0 <= k < |kept| ==> kept[k] != []
    decreases |texts|
  {
    if texts == [] then []
    else
      var last := texts[|texts| - 1];
      NonEmpty(texts[..|texts| - 1]) + (if last != [] then [last] else [])
  }

  /** The terms of the fallback: the span texts that are not empty. */
  function TermTexts(spans: seq<string>): seq<string> {
    NonEmpty(SpanTexts(spans))
  }

  /** Texts that are all empty leave nothing. */
  lemma {:induction false} NonEmptyDropsBlanks(texts: seq<string>)
    requires forall k :: 0 <= k < |texts| ==> texts[k] == []
    ensures NonEmpty(texts) == []
    decreases |texts|
  {
    if texts != [] {
      NonEmptyDropsBlanks(texts[..|texts| - 1]);
    }
  }

  /** Texts that are all non-empty are all kept, in order. */
  lemma {:induction false} NonEmptyKeepsFull(texts: seq<string>)
    requires forall k :: 0 <= k < |texts| ==> texts[k] != []
    ensures NonEmpty(texts) == texts
    decreases |texts|
  {
    if texts != [] {
      NonEmptyKeepsFull(texts[..|texts| - 1]);
      assert texts[..|texts| - 1] + [texts[|texts| - 1]] == texts;
    }
  }

  /** The filter works text by text: the kept texts of two runs are those of each, in order. */
  lemma {:induction false} NonEmptyAppend(a: seq<string>, b: seq<string>)
    ensures NonEmpty(a + b) == NonEmpty(a) + NonEmpty(b)
    decreases |b|
  {
    if b == [] {
      assert a + b == a;
    } else {
      var init := b[..|b| - 1];
      NonEmptyAppend(a, init);
      assert (a + b)[..|a + b| - 1] == a + init;
    }
  }

  lemma NonEmptyStep(texts: seq<string>, k: nat)
    requires k < |texts|
    ensures NonEmpty(texts[..k + 1]) == NonEmpty(texts[..k]) + (if texts[k] != [] then [texts[k]] else [])
  {
    assert texts[..k + 1][..k] == texts[..k];
  }

  /** `terms.push` over the spans. */
  method CollectTermTexts(spans: seq<string>) returns (terms: seq<string>)
    ensures terms == TermTexts(spans)
  {
    ghost var texts := SpanTexts(spans);
    terms := [];
    for k := 0 to |spans|
      invariant terms == NonEmpty(texts[..k])
    {
      NonEmptyStep(texts, k);
      var text := Trim(StripTags(spans[k]));
      if text != [] {
        terms := terms + [text];
      }
    }
    assert texts[..|spans|] == texts;
  }

  /** One question-and-answer block of the fallback, blank line included. */
  function QaBlock(question: string, answer: string): string {
    CardBlock(question, answer) + "\n\n"
  }

  /** The blocks of the pairs `terms[2k]`, `terms[2k + 1]`: `|terms| / 2` of them. */
  function PairBlocks(terms: seq<string>): seq<string> {
    seq(|terms| / 2, k requires 0 <= k < |terms| / 2 => QaBlock(terms[2 * k], terms[2 * k + 1]))
  }

  /** The fallback text: the pair blocks written one after another. */
  function QaBlocks(terms: seq<string>): (text: string)
    ensures |terms| >= 2 ==> StartsWith(text, QaBlock(terms[0], terms[1]))
  {
    Concat(PairBlocks(terms))
  }

  /** The fallback text is empty exactly when there are fewer than two terms. */
  lemma QaBlocksEmpty(terms: seq<string>)
    ensures QaBlocks(terms) == [] <==> |terms| < 2
  {
    if |terms| >= 2 {
      assert PairBlocks(terms)[0] == QaBlock(terms[0], terms[1]);
    }
  }

  /** An odd trailing term is dropped. */
  lemma OddTermDropped(terms: seq<string>)
    requires |terms| % 2 == 1
    ensures QaBlocks(terms) == QaBlocks(terms[..|terms| - 1])
  {
    assert PairBlocks(terms) == PairBlocks(terms[..|terms| - 1]);
  }

  /** Two more terms add their block at the end. */
  lemma QaBlocksGrow(terms: seq<string>, question: string, answer: string)
    requires |terms| % 2 == 0
    ensures QaBlocks(terms + [question, answer]) == QaBlocks(terms) + QaBlock(question, answer)
  {
    var more := terms + [question, answer];
    assert PairBlocks(more) == PairBlocks(terms) + [QaBlock(question, answer)];
    ConcatSnoc(PairBlocks(terms), QaBlock(question, answer));
  }

  /** The `result +=` loop stepping over the terms two at a time. */
  method PairTerms(terms: seq<string>) returns (result: string)
    ensures result == QaBlocks(terms)
  {
    result := "";
    var i := 0;
    while i < |terms| - 1
      invariant 0 <= i <= |terms| && i % 2 == 0
      invariant result == Concat(PairBlocks(terms)[..i / 2])
    {
      var blocks := PairBlocks(terms);
      assert blocks[i / 2] == QaBlock(terms[i], terms[i + 1]);
      assert blocks[..i / 2 + 1] == blocks[..i / 2] + [blocks[i / 2]];
      ConcatSnoc(blocks[..i / 2], blocks[i / 2]);
      result := result + ("Q: " + terms[i] + "\nA: " + terms[i + 1] + "\n\n");
      i := i + 2;
    }
    assert PairBlocks(terms)[..i / 2] == PairBlocks(terms);
  }

  // ---------------------------------------------------------------------
  // Pattern priority

  /** What a JSON pattern gives: its cards when it matched and parsed, nothing when it did not match. */
  function PatternCards<T>(parsed: Parsed<T>, extract: T -> Option<string>): Option<string> {
    if parsed.Parsed? then extract(parsed.data) else None
  }

  /**
   * extractFlashcardsFromHtml: the `__NEXT_DATA__` cards when there are
   * any, else the page-data cards when there are any, else the span pairs
   * when there are at least two terms; a pattern that matched text that is
   * not JSON ends the extraction with nothing.
   */
  function FlashcardText(page: HtmlPage): (text: Option<string>)
    ensures text.Some? ==> text.value != []
  {
    if page.nextData.Malformed? then None
    else
      var first := PatternCards(page.nextData, ExtractCardsFromNextData);
      if Truthy(first) then first
      else if page.pageData.Malformed? then None
      else
        var second := PatternCards(page.pageData, ExtractCardsFromPageData);
        if Truthy(second) then second
        else
          var terms := TermTexts(page.termSpans);
          QaBlocksEmpty(terms);
          if |terms| >= 2 then Some(QaBlocks(terms)) else None
  }

  /** Cards from `__NEXT_DATA__` win over everything after them. */
  lemma NextDataWins(page: HtmlPage)
    requires page.nextData.Parsed? && Truthy(ExtractCardsFromNextData(page.nextData.data))
    ensures FlashcardText(page) == ExtractCardsFromNextData(page.nextData.data)
  {
  }

  /** Cards from page data win over the spans when `__NEXT_DATA__` gave none. */
  lemma PageDataWinsOverSpans(page: HtmlPage)
    requires page.nextData.NoMatch? || (page.nextData.Parsed? && !Truthy(ExtractCardsFromNextData(page.nextData.data)))
    requires page.pageData.Parsed? && Truthy(ExtractCardsFromPageData(page.pageData.data))
    ensures FlashcardText(page) == ExtractCardsFromPageData(page.pageData.data)
  {
  }

  /** A JSON pattern that is absent, or parses but gives no cards, falls through: then the spans decide. */
  lemma SpansAfterEmptyPatterns(page: HtmlPage)
    requires page.nextData.NoMatch? || (page.nextData.Parsed? && !Truthy(ExtractCardsFromNextData(page.nextData.data)))
    requires page.pageData.NoMatch? || (page.pageData.Parsed? && !Truthy(ExtractCardsFromPageData(page.pageData.data)))
    ensures FlashcardText(page) ==
      if |TermTexts(page.termSpans)| >= 2 then Some(QaBlocks(TermTexts(page.termSpans))) else None
  {
  }

  /** Page data that is not JSON leaves nothing when `__NEXT_DATA__` gave no cards, however many terms the spans hold. */
  lemma MalformedPageDataAborts(page: HtmlPage)
    requires page.nextData.NoMatch? || (page.nextData.Parsed? && !Truthy(ExtractCardsFromNextData(page.nextData.data)))
    requires page.pageData.Malformed?
    ensures FlashcardText(page) == None
  {
  }

  /** `__NEXT_DATA__` that is not JSON leaves nothing, however many terms the spans hold. */
  lemma MalformedNextDataAborts(page: HtmlPage)
    requires page.nextData.Malformed?
    ensures FlashcardText(page) == None
  {
  }

  /** With neither JSON pattern matched, the spans decide: their pairs with two terms or more, nothing with fewer. */
  lemma SpansDecideAlone(spans: seq<string>)
    ensures var text := FlashcardText(HtmlPage(NoMatch, NoMatch, spans));
      && (|TermTexts(spans)| >= 2 ==> text == Some(QaBlocks(TermTexts(spans))))
      && (|TermTexts(spans)| < 2 <==> text == None)
  {
  }

  /** extractFlashcardsFromHtml as the service runs it. */
  method ExtractFlashcardsFromHtml(page: HtmlPage) returns (text: Option<string>)
    ensures text == FlashcardText(page)
  {
    if page.nextData.Malformed? {
      return None;
    }
    if page.nextData.Parsed? {
      var cards := ExtractCardsFromNextData(page.nextData.data);
      if Truthy(cards) {
        return cards;
      }
    }
    if page.pageData.Malformed? {
      return None;
    }
    if page.pageData.Parsed? {
      var cards := ExtractCardsFromPageData(page.pageData.data);
      if Truthy(cards) {
        return cards;
      }
    }
    var terms := CollectTermTexts(page.termSpans);
    if |terms| >= 2 {
      var result := PairTerms(terms);
      return Some(result);
    }
    return None;
  }

  // ---------------------------------------------------------------------
  // The page loop

  /** A link the page loop fetches: present, not empty, and on quizlet.com. */
  predicate IsQuizletLink(link: Option<string>) {
    Truthy(link) && Contains(link.value, "quizlet.com")
  }

  /** What one search result adds to the contents: the page's flashcard text, when the link is fetched and the page gives one. */
  function PageContent(item: Search.SearchItem, fetch: string -> PageReply): (added: seq<string>)
    ensures |added| <= 1 && (added != [] ==> added[0] != [])
    ensures !IsQuizletLink(item.link) ==> added == []
    ensures added != [] ==> IsQuizletLink(item.link) && fetch(item.link.value).PageHtml?
    ensures added != [] ==> FlashcardText(fetch(item.link.value).page) == Some(added[0])
  {
    if !IsQuizletLink(item.link) then []
    else match fetch(item.link.value)
      case PageHtml(page) =>
        (match FlashcardText(page)
         case Some(text) => [text]
         case None => [])
      case _ => []
  }

  /** A Quizlet page that is fetched and gives flashcard text adds exactly that text. */
  lemma PageContentFound(item: Search.SearchItem, fetch: string -> PageReply, page: HtmlPage, text: string)
    requires IsQuizletLink(item.link) && fetch(item.link.value) == PageHtml(page)
    requires FlashcardText(page) == Some(text)
    ensures PageContent(item, fetch) == [text]
  {
  }

  /** The contents of fetchQuizletPages: the flashcard texts of the result pages, in result order. */
  function PageContents(items: seq<Search.SearchItem>, fetch: string -> PageReply): (contents: seq<string>)
    ensures |contents| <= |items|
    decreases |items|
  {
    if items == [] then []
    else PageContents(items[..|items| - 1], fetch) + PageContent(items[|items| - 1], fetch)
  }

  /** Every collected text is non-empty. */
  lemma {:induction false} PageContentsNonEmpty(items: seq<Search.SearchItem>, fetch: string -> PageReply)
    ensures forall k :: 0 <= k < |PageContents(items, fetch)| ==> PageContents(items, fetch)[k] != []
    decreases |items|
  {
    if items != [] {
      PageContentsNonEmpty(items[..|items| - 1], fetch);
    }
  }

  /** Results with no Quizlet link contribute nothing. */
  lemma {:induction false} NoQuizletLinksNoContents(items: seq<Search.SearchItem>, fetch: string -> PageReply)
    requires forall k :: 0 <= k < |items| ==> !IsQuizletLink(items[k].link)
    ensures PageContents(items, fetch) == []
    decreases |items|
  {
    if items != [] {
      NoQuizletLinksNoContents(items[..|items| - 1], fetch);
    }
  }

  /** fetchQuizletPages: each result in turn, skipping non-Quizlet links and failed fetches, pushing each flashcard text found. */
  method FetchQuizletPages(items: seq<Search.SearchItem>, fetch: string -> PageReply) returns (contents: seq<string>)
    ensures contents == PageContents(items, fetch)
  {
    contents := [];
    for k := 0 to |items|
      invariant contents == PageContents(items[..k], fetch)
    {
      assert items[..k + 1][..k] == items[..k];
      var item := items[k];
      var url := item.link;
      if !Truthy(url) || !Contains(url.value, "quizlet.com") {
        continue;
      }
      var reply := fetch(url.value);
      if !reply.PageHtml? {
        continue;
      }
      var flashcardData := ExtractFlashcardsFromHtml(reply.page);
      if flashcardData.Some? {
        contents := contents + [flashcardData.value];
      }
    }
    assert items[..|items|] == items;
  }
}
