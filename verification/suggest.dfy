/** The suggestion server of index.js: three fuzzy-searchable corpora (acts,
    titles, keywords), the category dispatch of its `POST /chat` handler and
    `formatChatResponse`. The fuzzy matcher is an oracle. */
module Suggestions {
  import opened Wrappers
  import opened Text
  import opened Seqs

  /** A record of a corpus file; the matcher searches, and the reply prints,
      its `data` field. */
  datatype Suggestion = Suggestion(data: string)

  type Dataset = seq<Suggestion>

  /** The fuzzy matcher: the records of a corpus that match a query, best
      first. A search with a limit `n` receives the first `n`. */
  type FuzzySearch = (Dataset, string) -> seq<Suggestion>

  /** The corpus files on disk. */
  datatype Files = Files(acts: Dataset, titles: Dataset, keywords: Dataset)

  /** The three corpora the server searches. */
  datatype Corpora = Corpora(acts: Dataset, titles: Dataset, keywords: Dataset)

  // ---------------------------------------------------------------------------
  // Loading the corpora (lines 14-16, 29-31)

  /** The loading as written: the titles corpus is read from the acts file,
      so a titles search can never be told apart from an acts search. */
  function LoadCorporaAsWritten(files: Files): (c: Corpora)
    ensures c.acts == files.acts && c.keywords == files.keywords
    ensures forall fuzzy: FuzzySearch, t: string, a: string, q: string ::
      CategoryOf(t) == TitlesOnly && CategoryOf(a) == ActsOnly ==>
        Dispatch(c, fuzzy, t, q) == Dispatch(c, fuzzy, a, q)
  {
    Corpora(files.acts, files.acts, files.keywords)
  }

  /** The loading as evidently intended: each corpus from its own file, so a
      titles search ranks the titles file. */
  function LoadCorpora(files: Files): (c: Corpora)
    ensures c.acts == files.acts && c.titles == files.titles && c.keywords == files.keywords
    ensures forall fuzzy: FuzzySearch, t: string, q: string ::
      CategoryOf(t) == TitlesOnly ==> IsTopOf(Dispatch(c, fuzzy, t, q), fuzzy(files.titles, q), 5)
  {
    Corpora(files.acts, files.titles, files.keywords)
  }

  // ---------------------------------------------------------------------------
  // Category dispatch (lines 58-77)

  datatype Category = ActsOnly | TitlesOnly | KeywordsOnly | Everything

  /** `category.toLowerCase()` against the three named cases; anything else,
      `all` included, falls to the default branch. */
  function CategoryOf(category: string): Category {
    var l := ToLowerJs(category);
    if l == "acts" then ActsOnly
    else if l == "titles" then TitlesOnly
    else if l == "keywords" then KeywordsOnly
    else Everything
  }

  /** `r` is the best `n` of `ranking`: all of it when it is shorter. */
  predicate IsTopOf(r: seq<Suggestion>, ranking: seq<Suggestion>, n: nat) {
    |r| == (if |ranking| < n then |ranking| else n) && r == ranking[..|r|]
  }

  /** `corpus.search(query, { limit })`. */
  function Search(fuzzy: FuzzySearch, corpus: Dataset, query: string, limit: nat): (r: seq<Suggestion>)
    ensures IsTopOf(r, fuzzy(corpus, query), limit)
  {
    Take(fuzzy(corpus, query), limit)
  }

  /** The corpus a named category searches. */
  function Selected(c: Corpora, cat: Category): Dataset
    requires cat != Everything
  {
    match cat
    case ActsOnly => c.acts
    case TitlesOnly => c.titles
    case KeywordsOnly => c.keywords
  }

  /** The suggestions for a query: the best 5 of one corpus for a named
      category, otherwise the best 3 of acts, then of titles, then of
      keywords, concatenated without re-ranking. */
  function Dispatch(c: Corpora, fuzzy: FuzzySearch, category: string, query: string): (r: seq<Suggestion>)
    ensures CategoryOf(category) != Everything ==>
      IsTopOf(r, fuzzy(Selected(c, CategoryOf(category)), query), 5)
    ensures CategoryOf(category) == Everything ==>
      (exists i: nat, j: nat :: i <= j <= |r|
        && IsTopOf(r[..i], fuzzy(c.acts, query), 3)
        && IsTopOf(r[i..j], fuzzy(c.titles, query), 3)
        && IsTopOf(r[j..], fuzzy(c.keywords, query), 3))
  {
    var cat := CategoryOf(category);
    if cat != Everything then Search(fuzzy, Selected(c, cat), query, 5)
    else
      var a := Search(fuzzy, c.acts, query, 3);
      var t := Search(fuzzy, c.titles, query, 3);
      var k := Search(fuzzy, c.keywords, query, 3);
      ConcatParts(a, t, k);
      a + t + k
  }

  /** The three parts of a concatenation are its slices. */
  lemma ConcatParts(a: seq<Suggestion>, t: seq<Suggestion>, k: seq<Suggestion>)
    ensures var r := a + t + k;
      r[..|a|] == a && r[|a|..|a| + |t|] == t && r[|a| + |t|..] == k
  {
  }

  /** A category selects a named corpus exactly when it spells the name in any
      mix of upper and lower case (KELVIN SIGN counting as `k`); every other
      category, `all` among them, searches all three. */
  lemma CategoryCaseInsensitive(category: string)
    ensures CategoryOf(category) == ActsOnly <==> SpellsIgnoringCase(category, "acts")
    ensures CategoryOf(category) == TitlesOnly <==> SpellsIgnoringCase(category, "titles")
    ensures CategoryOf(category) == KeywordsOnly <==> SpellsIgnoringCase(category, "keywords")
    ensures CategoryOf(category) == Everything <==>
      !SpellsIgnoringCase(category, "acts") && !SpellsIgnoringCase(category, "titles")
      && !SpellsIgnoringCase(category, "keywords")
  {
    ToLowerJsMatches(category, "acts");
    ToLowerJsMatches(category, "titles");
    ToLowerJsMatches(category, "keywords");
  }

  /** At most 5 suggestions for a named category and at most 9 otherwise. */
  lemma DispatchBound(c: Corpora, fuzzy: FuzzySearch, category: string, query: string)
    ensures |Dispatch(c, fuzzy, category, query)| <= (if CategoryOf(category) == Everything then 9 else 5)
  {
    if CategoryOf(category) == Everything {
      var r := Dispatch(c, fuzzy, category, query);
      var i: nat, j: nat :| i <= j <= |r|
        && IsTopOf(r[..i], fuzzy(c.acts, query), 3)
        && IsTopOf(r[i..j], fuzzy(c.titles, query), 3)
        && IsTopOf(r[j..], fuzzy(c.keywords, query), 3);
      assert |r| == |r[..i]| + |r[i..j]| + |r[j..]|;
    }
  }

  // ---------------------------------------------------------------------------
  // formatChatResponse (lines 34-43)

  function NotFoundMessage(query: string): string {
    "I couldn't find anything related to \"" + query + "\". Could you try rephrasing or providing more details?"
  }

  function ResultsHeader(query: string): string {
    "Here are some results for \"" + query + "\":"
  }

  /** The `i`-th suggestion (counting from 0) as `"{i+1}. data"`. */
  function NumberedLine(i: nat, s: Suggestion): string {
    NatToString(i + 1) + ". " + s.data
  }

  function NumberedLines(ss: seq<Suggestion>): seq<string> {
    seq(|ss|, i requires 0 <= i < |ss| => NumberedLine(i, ss[i]))
  }

  function FormatChatResponse(query: string, suggestions: seq<Suggestion>): string {
    if |suggestions| == 0 then NotFoundMessage(query)
    else ResultsHeader(query) + "\n\n" + Join(NumberedLines(suggestions), "\n")
  }

  /** Without suggestions the reply is the fixed message, which names the
      query. */
  lemma FormatNothingFound(query: string)
    ensures FormatChatResponse(query, []) == NotFoundMessage(query)
    ensures Contains(NotFoundMessage(query), query)
  {
    ContainsPart("I couldn't find anything related to \"", query,
                 "\". Could you try rephrasing or providing more details?");
  }

  /** With suggestions, and no line break in the query or in any suggestion,
      the reply reads back line by line as the header, a blank line, and the
      numbered suggestions in order. */
  lemma FormatLines(query: string, suggestions: seq<Suggestion>)
    requires |suggestions| > 0
    requires '\n' !in query
    requires forall i :: 0 <= i < |suggestions| ==> '\n' !in suggestions[i].data
    ensures Split(FormatChatResponse(query, suggestions), '\n')
         == [ResultsHeader(query), ""] + NumberedLines(suggestions)
  {
    var numbered := NumberedLines(suggestions);
    var all := [ResultsHeader(query), ""] + numbered;
    JoinBlankLine(ResultsHeader(query), numbered, "\n");
    assert ResultsHeader(query) + "\n" + "\n" == ResultsHeader(query) + "\n\n";
    assert Join(all, "\n") == FormatChatResponse(query, suggestions);
    NoBreakInLines(query, suggestions);
    SplitJoin(all, '\n');
  }

  /** Joining with an empty second element puts the separator twice after
      the first. */
  lemma JoinBlankLine(head: string, rest: seq<string>, sep: string)
    requires |rest| > 0
    ensures Join([head, []] + rest, sep) == head + sep + sep + Join(rest, sep)
  {
    var all := [head, []] + rest;
    var tail := [[]] + rest;
    assert all[1..] == tail;
    assert tail[1..] == rest;
    calc {
      Join(all, sep);
      head + sep + Join(tail, sep);
      head + sep + ([] + sep + Join(rest, sep));
    }
  }

  lemma NoBreakInLines(query: string, suggestions: seq<Suggestion>)
    requires '\n' !in query
    requires forall i :: 0 <= i < |suggestions| ==> '\n' !in suggestions[i].data
    ensures var all := [ResultsHeader(query), ""] + NumberedLines(suggestions);
      forall k :: 0 <= k < |all| ==> '\n' !in all[k]
  {
    var all := [ResultsHeader(query), ""] + NumberedLines(suggestions);
    assert '\n' !in all[0] by {
      assert all[0] == "Here are some results for \"" + query + "\":";
    }
    forall k | 2 <= k < |all| ensures '\n' !in all[k] {
      NumberedLineShape(k - 2, suggestions[k - 2]);
    }
  }

  /** A numbered line is its number, `". "` and the suggestion, with no line
      break of its own; the number reads back as the position counting
      from 1. */
  lemma NumberedLineShape(i: nat, s: Suggestion)
    ensures var num := NatToString(i + 1);
      var line := NumberedLine(i, s);
      && |num| + 2 <= |line| && line[..|num|] == num && line[|num|..|num| + 2] == ". "
      && DigitsValue(num) == i + 1
      && ('\n' !in s.data ==> '\n' !in line)
  {
    var num := NatToString(i + 1);
    assert NumberedLine(i, s) == num + (". " + s.data);
    assert '\n' !in num by {
      forall p | 0 <= p < |num| ensures num[p] != '\n' {
        assert IsAsciiDigit(num[p]);
      }
    }
    ParsePrinted(i + 1);
  }

  /** The two shapes never coincide: the header opens with `Here`, the
      fixed message with `I`. */
  lemma FormatDistinguishes(query: string, suggestions: seq<Suggestion>)
    ensures FormatChatResponse(query, suggestions)[0] == (if |suggestions| == 0 then 'I' else 'H')
  {
  }

  // ---------------------------------------------------------------------------
  // The handler (lines 46-87)

  datatype SuggestResponse = SuggestResponse(userQuery: string, category: string, message: string)

  /** `req.body.category || 'all'`. */
  function RequestCategory(category: Option<string>): (r: string)
    ensures r != ""
    ensures category.Some? && category.value != "" ==> r == category.value
    ensures category.None? || category.value == "" ==> r == "all"
  {
    OrDefault(category, "all")
  }

  /** `POST /chat` of the suggestion server over the corpora `c` it loaded.
      The 400 body carries its text under `message`. */
  function Respond(c: Corpora, fuzzy: FuzzySearch, query: Option<string>,
                   category: Option<string>): (r: Reply<SuggestResponse>)
    ensures r.BadRequest? <==> query.None? || query.value == ""
    ensures r.BadRequest? ==> r.error == "Query is missing."
    ensures !r.ServerError?
    // the reply echoes the query and the category as sent, not lower-cased
    ensures r.Ok? ==> r.body.userQuery == query.value && r.body.category == RequestCategory(category)
    // the fixed message exactly when no corpus searched has a match
    ensures r.Ok? ==> (r.body.message == NotFoundMessage(query.value)
      <==> Dispatch(c, fuzzy, RequestCategory(category), query.value) == [])
  {
    if query.None? || query.value == "" then BadRequest("Query is missing.")
    else
      var cat := RequestCategory(category);
      var found := Dispatch(c, fuzzy, cat, query.value);
      FormatDistinguishes(query.value, found);
      FormatDistinguishes(query.value, []);
      Ok(SuggestResponse(query.value, cat, FormatChatResponse(query.value, found)))
  }

  /** With matches, and no line break in the query or in any match, the
      message reads back as the header naming the query, a blank line, and
      one numbered line per match, in dispatch order. */
  lemma RespondLines(c: Corpora, fuzzy: FuzzySearch, query: string, category: Option<string>)
    requires query != ""
    requires var found := Dispatch(c, fuzzy, RequestCategory(category), query);
      && |found| > 0 && '\n' !in query
      && forall i :: 0 <= i < |found| ==> '\n' !in found[i].data
    ensures var found := Dispatch(c, fuzzy, RequestCategory(category), query);
      Split(Respond(c, fuzzy, Some(query), category).body.message, '\n')
        == [ResultsHeader(query), ""] + NumberedLines(found)
  {
    FormatLines(query, Dispatch(c, fuzzy, RequestCategory(category), query));
  }

  /** The suggestion server as written: the titles category answers the
      best 5 of the acts file. */
  function SuggestChatAsWritten(files: Files, fuzzy: FuzzySearch, query: Option<string>,
                                category: Option<string>): (r: Reply<SuggestResponse>)
    ensures r.Ok? && query.Some? && CategoryOf(RequestCategory(category)) == TitlesOnly ==>
      r.body.message == FormatChatResponse(query.value, Search(fuzzy, files.acts, query.value, 5))
  {
    Respond(LoadCorporaAsWritten(files), fuzzy, query, category)
  }

  /** The suggestion server as evidently intended: the titles category
      answers the best 5 of the titles file. */
  function SuggestChat(files: Files, fuzzy: FuzzySearch, query: Option<string>,
                       category: Option<string>): (r: Reply<SuggestResponse>)
    ensures r.Ok? && query.Some? && CategoryOf(RequestCategory(category)) == TitlesOnly ==>
      r.body.message == FormatChatResponse(query.value, Search(fuzzy, files.titles, query.value, 5))
  {
    Respond(LoadCorpora(files), fuzzy, query, category)
  }

  /** A missing category searches all three corpora; the titles category
      searches the titles file. */
  lemma SuggestChatSources(files: Files, fuzzy: FuzzySearch, query: string, category: Option<string>)
    requires query != ""
    ensures var cat := RequestCategory(category);
      category.None? ==> CategoryOf(cat) == Everything
    ensures var cat := RequestCategory(category);
      CategoryOf(cat) == TitlesOnly ==>
        IsTopOf(Dispatch(LoadCorpora(files), fuzzy, cat, query), fuzzy(files.titles, query), 5)
  {
    assert ToLowerJs("all") == "all";
  }

  // ---------------------------------------------------------------------------
  // The titles corpus as written

  /** As written, any spelling of `titles` answers exactly what any spelling
      of `acts` answers, whatever the titles file holds. */
  lemma TitlesAsWrittenAreActs(files: Files, fuzzy: FuzzySearch, t: string, a: string, query: string)
    requires SpellsIgnoringCase(t, "titles") && SpellsIgnoringCase(a, "acts")
    ensures Dispatch(LoadCorporaAsWritten(files), fuzzy, t, query)
         == Dispatch(LoadCorporaAsWritten(files), fuzzy, a, query)
  {
    CategoryCaseInsensitive(t);
    CategoryCaseInsensitive(a);
  }

  /** One act and one different title, and a matcher that returns a whole
      corpus: the titles category answers the act as written and the title
      as intended. */
  lemma TitlesAsWrittenExample()
    ensures var files := Files([Suggestion("Contract Act")], [Suggestion("Smith v Jones")], []);
      var fuzzy := (d: Dataset, q: string) => d;
      && Dispatch(LoadCorporaAsWritten(files), fuzzy, "titles", "smith") == [Suggestion("Contract Act")]
      && Dispatch(LoadCorpora(files), fuzzy, "titles", "smith") == [Suggestion("Smith v Jones")]
  {
    assert ToLowerJs("titles") == "titles";
  }
}
