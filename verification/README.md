# Legal chatbot core in Dafny

This project models the decision and formatting logic of a legal-case chatbot. It covers three services.

- **Chat service** (`node_server/index.js`). `POST /chat` classifies the user's text as a single year, a year range or free text, then builds an Elasticsearch request from it. For date queries it answers straight from the hits. For free text it asks a language model, grounding it in the user's last six messages and the hits, falls back to a fixed text when the model fails, and appends the list of relevant cases. Each answered turn stores two messages. The history endpoints read, delete and list the stored messages.
- **Suggestion service** (`index.js`). It fuzzy-matches a query against three corpora (acts, titles, keywords), picks corpora by a case-insensitive category, and renders a numbered list.
- **Prediction service** (`flask_server/app.py`). `POST /predict` validates the JSON body, asks a T5 model, adds up to three case summaries from a best-effort search, and combines the two.

Every external service is an oracle passed in as a function:

- the search engine returns a ranked list of hits or fails, and a request of size `n` receives the first `n`;
- each generator returns a text or fails;
- the fuzzy matcher returns a ranked list, and a limit keeps its first `n`.

The message store is a value. It holds the message sequence and a logical clock that stands in for `Date.now`. `ChatServer.Chat` returns the new store together with the list of external calls it made, in order. `ChatServer.DeleteHistory` returns its reply with the new store, `ChatServer.GetHistory` only its reply, and `Predict.PredictHandler` its reply with the list of calls it made.

Modules and files:

- `Wrappers` (wrappers.dfy): `Option` and `Reply`.
- `Seqs` (seqs.dfy): `Take` and `Reverse`.
- `Text` (text.dfy): JavaScript and Python string built-ins with their exact character sets — `trim`/`strip`, `join`/`split`, `includes`, decimal printing and parsing — and `toLowerCase` as far as a comparison with ASCII names can observe.
- `Years` (years.dfy): the two regular expressions and the classifier.
- `MessageStore` (store.dfy): the message store.
- `Composer` (composer.dfy): the `/chat` reply composition.
- `ChatServer` (chat.dfy): the chat-service handlers.
- `Suggestions` (suggest.dfy): the suggestion service.
- `Predict` (predict.dfy): the prediction service.

Three behaviours of the code are easy to miss:

- **Titles corpus.** The titles corpus is loaded from the acts file (see Findings). `Suggestions.SuggestChatAsWritten` serves the corpora as loaded, and `Suggestions.SuggestChat` serves each corpus from its own file.
- **History order.** Both messages of a turn take their `Date.now` default inside one `insertMany` and usually get the same millisecond, so the ascending sort then has no key that puts the input before the reply. The model does not keep this: it orders the two messages strictly (see `MessageStore.AppendTurn` under Left out).
- **Persistence.** Messages are stored only after the search succeeds. A failing search stores nothing, and the model keeps this.

## Model

| member | source | states |
|---|---|---|
| Text.Trim | node_server/index.js:68 | The result is empty exactly when the text is all whitespace of the given class, and otherwise neither starts nor ends with such whitespace. |
| Text.TrimPadded | flask_server/app.py:44 | Trimming removes exactly the whitespace padding around a core that neither starts nor ends with whitespace. |
| Text.PrintParsed | node_server/index.js:85-88 | Printing the value of a decimal digit string with no leading zero gives back the same string, so `String(parseInt(token))` is the token. |
| Text.ParsePrinted | node_server/index.js:114 | Parsing the decimal text of a number gives back the number. |
| Text.ToLowerJsMatches | index.js:59 | A string lower-cases to a lower-case ASCII word exactly when it spells the word letter by letter in any case, with KELVIN SIGN standing for `k`. |
| Years.Token | node_server/index.js:75 | A year token is four ASCII digits that do not start with `0`. |
| Years.YearValue | node_server/index.js:85-86 | `parseInt` of a year token lies in 1900..2099. |
| Years.FirstYear | node_server/index.js:75 | The scan returns the first index from its start where the single-year pattern matches, or none when it matches nowhere after it. |
| Years.FirstYearFinds | node_server/index.js:75 | `match` with the single-year pattern succeeds exactly when the pattern matches somewhere, and then returns the leftmost match. |
| Years.RangeAtSound | node_server/index.js:76 | Every range match the deterministic matcher reports is a match of the declarative pattern: token, spaces, `and`/`to`/`-`, spaces, boundary, token. |
| Years.RangeAtComplete | node_server/index.js:76 | Every match of the declarative pattern at an index is the one the matcher reports, so backtracking cannot produce a different second year. |
| Years.FirstRange | node_server/index.js:76 | The scan returns the first index from its start where the range pattern matches, or none. |
| Years.FirstRangeFinds | node_server/index.js:76 | `match` with the range pattern succeeds exactly when it matches somewhere, and then returns the leftmost match. |
| Years.Classify | node_server/index.js:75-99 | Classification is total and exclusive. A range match wins. Otherwise a year match gives the leftmost token verbatim. Otherwise the whole text is free text. A range is min then max of its two years, both in 1900..2099. |
| Years.RangeImpliesYear | node_server/index.js:75-76 | Every range match contains a single-year match. |
| Years.DateBranchExact | node_server/index.js:119 | The date-branch test (a single-year match or a range match) holds exactly when the classification is a single year or a range. |
| Years.RequestShape | node_server/index.js:80-99 | The request is stated on the text. A range gives an inclusive range on `date.keyword` whose bounds are the two written tokens in increasing order, with size 100. A lone year gives a prefix query on the leftmost token, with size 50. Other text is searched whole on the three text fields, with size 5. |
| Years.ReversedRangeExample | node_server/index.js:84-90 | `2010 to 1995` gives the range 1995..2010. |
| Years.RangeWinsExample | node_server/index.js:75-84 | In `1980, 1990-2000` the single-year match is 1980, yet the range 1990..2000 is chosen. |
| Years.GluedRangeExample | node_server/index.js:75-76 | `1990to2000` has no word boundary at either year, so it is free text. |
| MessageStore.OfUser | node_server/index.js:179 | `find({ user })` keeps exactly the messages of that user, never more than there are, and keeps a chronological store chronological. |
| MessageStore.History | node_server/index.js:179 | A user's history is chronological and holds exactly that user's stored messages. |
| MessageStore.ChronologicalUnique | node_server/index.js:179 | Two chronological sequences with the same members are equal, so sorting by timestamp determines the history. |
| MessageStore.RecentIsTail | node_server/index.js:125-126 | Newest-first, limit n, then reversed, is the last n messages of the history (all of them when there are fewer). |
| MessageStore.RecentWindow | node_server/index.js:125-126 | The window has at most n messages, is chronological, and holds only that user's messages. |
| MessageStore.RecentIsNewest | node_server/index.js:125 | Every message of the user left out of the window is older than every message in it. |
| MessageStore.AppendTurn | node_server/index.js:163-166 | A turn appends exactly two messages: the input from the user, then the reply from the bot, for the same user, with fresh increasing timestamps. Earlier messages are unchanged and the store stays valid. |
| MessageStore.AppendTurnHistory | node_server/index.js:163-166 | After a turn, that user's history gains exactly those two messages at its end, and every other user's history is unchanged. |
| MessageStore.DeleteUser | node_server/index.js:185 | Deletion removes all and only that user's messages. The user's history becomes empty, other histories are unchanged, and the store stays valid. |
| MessageStore.OfUserWithout | node_server/index.js:185 | Filtering by user after removing user x gives nothing for x and the original filter for anyone else. |
| MessageStore.UsersOfHistory | node_server/index.js:220 | A user is among the distinct users exactly when their history is non-empty. |
| MessageStore.DistinctUsers | node_server/index.js:219-222 | The listing holds each user with stored messages, each exactly once. |
| Composer.DocsFrom | node_server/index.js:112-115 | One formatted entry per hit, in hit order, the i-th numbered i+1. |
| Composer.DocNumbering | node_server/index.js:114 | Every formatted hit opens with its position counting from 1 followed by `. [`, and that number reads back as the position. |
| Composer.DateAnswerContents | node_server/index.js:119-122 | With hits, the date answer opens with "Found N case(s):" for N hits and contains every formatted hit. Without hits it is the no-cases message, which names the input. |
| Composer.HistoryTextEmpty | node_server/index.js:126-136 | The history block is empty exactly when the window holds no message. |
| Composer.Prompt | node_server/index.js:130-138 | The message list starts with the fixed instruction and ends with the user input. It has a history entry exactly when the history is non-empty and a cases entry exactly when there are hits, so it has 2 to 4 entries. |
| Composer.FallbackNeverAnnotated | node_server/index.js:151-159 | With hits, the fallback carries the `cases only` marker and every formatted hit, so the relevant-cases list is never appended to it. |
| Composer.AnnotateAppendsEveryHit | node_server/index.js:157-159 | A model reply without the marker, with hits, keeps the reply as its prefix and gains a `- doc` entry for every hit. |
| Composer.AnnotateModelAnswer | node_server/index.js:156-159 | Any reply keeps its text as prefix. It gains a `- doc` entry for every hit exactly when there are hits and it lacks the `cases only` marker, and is otherwise left alone. |
| ChatServer.Hits | node_server/index.js:103-108 | A search for size n yields at most n hits, or fails. |
| ChatServer.RequestUser | node_server/index.js:69 | A missing or empty user becomes `anonymous`. Any other user is used as given. |
| ChatServer.RequestText | node_server/index.js:68 | The input is empty exactly when the text is missing or all whitespace. |
| ChatServer.Chat | node_server/index.js:67-173 | Empty input is a 400 with no call and no store change. Otherwise the classified request is sent first, and a failing search is a 500 that stores nothing. An answer stores the input and the reply for the requesting user. A date query makes no other call. Free text reads that user's recent history, then calls the model once with 2 to 4 messages ending in the input. |
| ChatServer.ChatTurnPersists | node_server/index.js:163-166 | After an answered turn, the requesting user's history gains the input then the reply with consecutive timestamps, and every other history is unchanged. |
| ChatServer.ChatDateAnswer | node_server/index.js:119-122 | A date query whose search succeeds is answered with the date answer over at most 50 or 100 hits. |
| ChatServer.ChatPromptEntries | node_server/index.js:125-138 | On free text the model is sent the instruction, the requesting user's last six messages, the formatted hits and the input. It sees a history entry exactly when that user has stored messages, and a cases entry exactly when the search found hits. |
| ChatServer.ChatModelAnswer | node_server/index.js:148-159 | When the model answers, the reply starts with its trimmed answer. With hits, and unless the answer contains `cases only`, a `- doc` entry follows for every hit. Otherwise the trimmed answer stands alone. |
| ChatServer.ChatFallback | node_server/index.js:149-157 | When the model fails on free text, the reply is the fallback on at most 5 hits and is not annotated. |
| ChatServer.GetHistory | node_server/index.js:176-181 | A missing or empty user is a 400. Otherwise the reply is exactly that user's messages in ascending timestamp order. |
| ChatServer.DeleteHistory | node_server/index.js:182-187 | A missing or empty user is a 400 and changes nothing. Otherwise exactly that user's messages are removed and every other history is unchanged. |
| ChatServer.DeleteHistoryUnlists | node_server/index.js:233-238 | After a delete the user is no longer listed by `/admin/users`, and every other user is listed exactly as before. |
| Suggestions.LoadCorporaAsWritten | index.js:14-16 | As written, any category that selects titles answers exactly what any category that selects acts answers, for every matcher and query. |
| Suggestions.LoadCorpora | index.js:14-16 | Corrected, a category that selects titles answers the best 5 matches of the titles file. |
| Suggestions.Search | index.js:61 | A search with limit n returns the best n matches of the corpus, or all of them when there are fewer. |
| Suggestions.Dispatch | index.js:58-77 | A named category returns the best 5 of its corpus. Any other category returns the best 3 of acts, then of titles, then of keywords, concatenated in that order without re-ranking. |
| Suggestions.CategoryCaseInsensitive | index.js:59-70 | A category selects a named corpus exactly when it spells that name in any case. Every other category, `all` included, searches all three. |
| Suggestions.DispatchBound | index.js:59-76 | At most 5 suggestions for a named category and at most 9 otherwise. |
| Suggestions.FormatNothingFound | index.js:35-37 | With no suggestions the message is the fixed "couldn't find" text, and it names the query. |
| Suggestions.FormatLines | index.js:39-42 | With suggestions, and no line break in the query or in any suggestion's text, the message splits into lines as the header naming the query, a blank line, and one numbered line per suggestion in order. |
| Suggestions.NumberedLineShape | index.js:40 | Each line is its position counting from 1, then `. `, then the suggestion's text, and the number reads back as the position. |
| Suggestions.FormatDistinguishes | index.js:34-43 | The two message shapes never coincide. |
| Suggestions.RequestCategory | index.js:48 | A missing or empty category becomes `all`. Any other category is used as given. |
| Suggestions.Respond | index.js:46-87 | A missing or empty query is a 400 with "Query is missing.". Otherwise the reply echoes the query and the category as sent, not lower-cased, and the message is the "couldn't find" text exactly when the dispatch found nothing. |
| Suggestions.RespondLines | index.js:79-86 | With matches and no line breaks, the message reads back as the header naming the query, a blank line, and one numbered line per match in dispatch order. |
| Suggestions.SuggestChatAsWritten | index.js:14-87 | As written, a category that selects titles is answered from the best 5 matches of the acts file. |
| Suggestions.SuggestChat | index.js:14-87 | Corrected, a category that selects titles is answered from the best 5 matches of the titles file. |
| Suggestions.SuggestChatSources | index.js:48-64 | A missing category searches all three corpora. The titles category searches the titles file. |
| Suggestions.TitlesAsWrittenAreActs | index.js:15 | As written, every spelling of `titles` in any case answers exactly what every spelling of `acts` answers, whatever the titles file holds. |
| Suggestions.TitlesAsWrittenExample | index.js:15-30 | With one act and one different title, the titles category returns the act as written and the title as corrected. |
| Predict.ReadText | flask_server/app.py:40-46 | The reply is a 400 exactly when the body is missing or falsy, has no `text` member, or has a blank `text` string. The text is accepted exactly when the body is an object whose `text` is a non-blank string, and then it is that string stripped. Every other shape raises a 500. |
| Predict.ReadTextOfString | flask_server/app.py:44-46 | A padded non-blank text is accepted without its padding, and a text of whitespace alone is the "Empty" 400. |
| Predict.Summaries | flask_server/app.py:71-75 | No more summaries than hits. None when no hit has `Summary200`, and every hit's summary in order when all have it. |
| Predict.SummariesAppend | flask_server/app.py:71-75 | The filter distributes over concatenation, so each hit contributes its own summary in place. |
| Predict.SummariesMembers | flask_server/app.py:71-75 | A text is a suggestion exactly when some hit carries it as `Summary200`. |
| Predict.Context | flask_server/app.py:57-78 | At most 3 summaries, and none when the search raises. |
| Predict.CombineShape | flask_server/app.py:80-84 | Without suggestions the response is the stripped reply. With them it is the stripped reply, the header, then lines reading `- s` for each suggestion in order. |
| Predict.PredictHandler | flask_server/app.py:37-86 | Invalid input is refused before any call. A failing generator is a 500 and nothing is searched. Otherwise the stripped text is generated from, then searched for 3 hits, and the response combines the two. |
| Predict.PredictSearchFailure | flask_server/app.py:76-84 | A failing search degrades to the stripped generated reply alone. |

## Left out

- Passport/OAuth strategies, sessions and `/api/me`: these are identity-provider wiring with no logic of the chatbot's own.
- Elasticsearch relevance, OpenAI and T5 generation, and Fuse.js scoring are foreign services. They are oracles. The Fuse options (threshold 0.4, distance 100, ...) are part of the matcher, not of the model.
- Express and Flask routing, JSON serialisation, logging, and the connections to MongoDB and Elasticsearch are not modelled.
- Failures of `insertMany`, `find`, `deleteMany` and `distinct` are not modelled. The model treats the store as always available. In the source a failing insert after a successful search is a 500.
- MessageStore.AppendTurn: gives the bot message a later tick than the user message. In the source both take the `Date.now` default inside one `insertMany` and usually share a millisecond, so MongoDB's ascending sort has no key to order them by. The model's strict order is stronger than what the database promises.
- MessageStore.DistinctUsers: lists users in order of first appearance. MongoDB's `distinct` promises no order.
- ChatServer.DeleteHistory: takes `user` as a string. Express parses `?user[$ne]=x` into an object, which `deleteMany({ user })` at node_server/index.js lines 185 and 236 reads as a MongoDB operator and which would delete every other user's messages. The promise that nothing else is removed holds for string users only.
- ChatServer.GetHistory: takes `user` as a string. An object-valued `user` such as `?user[$ne]=x` reaches `find({ user })` at node_server/index.js lines 179 and 228 as an operator and would return other users' messages.
- Suggestions.SuggestChat: serves the titles category from the titles file, as evidently intended. The handler as written is `Suggestions.SuggestChatAsWritten` (see Findings).
- Non-string request fields are not modelled. In particular a numeric or object `text`/`user`/`query`/`category` in the Express handlers, and an array-valued `req.query.user`, are out of scope. Strings and absence are modelled.
- Text.ToLowerJs: lower-cases only the characters whose lower case is ASCII (A-Z and KELVIN SIGN). Every other character keeps its case, which a comparison with the ASCII category names cannot observe.
- Predict.ReadText: JSON numbers are integers. Floats (where `0.0` is falsy) are not modelled.
- The `_source` of a hit in the prediction service holds string fields only. A non-string `Summary200` would be printed with Python's `str`, which is not modelled.
- A search response without `hits.hits` is not modelled. Node treats it as empty. Flask raises a `KeyError`, which is not an `ElasticsearchException`.
- Fuse.js from version 6 returns `{ item, refIndex }` records, which would make `s.data` print `undefined`. The Fuse version is not fixed in the source, so suggestions are modelled as the matched records themselves, printed by their `data` field.
- Concurrency is not modelled. The read-then-write race between concurrent `/chat` requests of one user needs two interleaved requests, and the model handles one request at a time.
- `main.py` (bulk loading and query forwarding), the `/predict` forwarding route and the `/` welcome route of `index.js`, and `tailwind.config.js` are I/O glue or styling.
- The T5 `max_length=100` truncation and the OpenAI `temperature` are properties of the generators.

## Findings

| source | as written | input that shows it | evidently intended | confidence | as-written member | corrected member |
|---|---|---|---|---|---|---|
| index.js:15 | The titles corpus is loaded from `./acts.json`, the same file as the acts corpus. | Category `titles` with any query returns the acts suggestions. For an acts file `[Contract Act]` and a titles file `[Smith v Jones]`, it returns `Contract Act`. | The titles corpus is loaded from its own titles file. | medium, not executed | Suggestions.LoadCorporaAsWritten, Suggestions.SuggestChatAsWritten, Suggestions.TitlesAsWrittenAreActs, Suggestions.TitlesAsWrittenExample | Suggestions.LoadCorpora, Suggestions.SuggestChat, Suggestions.SuggestChatSources |
