/** The request handlers of node_server/index.js that carry logic: `POST /chat`
    (lines 67-173) and the history endpoints (lines 176-187 and 219-238).
    The search engine and the language model are oracles passed in as
    functions; the message store is a value threaded through. */
module ChatServer {
  import opened Wrappers
  import opened Text
  import opened Seqs
  import opened Years
  import opened MessageStore
  import opened Composer

  /** The search engine: the hits it ranks for a query, best first, or `None`
      when the request fails. A request of size `n` receives the first `n`. */
  type SearchOracle = SearchQuery -> Option<seq<Hit>>

  /** The language model: the reply content for a message list, or `None`
      when the call throws (network error, missing content, ...). */
  type Generator = seq<ChatMessage> -> Option<string>

  /** The hits a search request returns. */
  function Hits(search: SearchOracle, req: SearchRequest): (r: Option<seq<Hit>>)
    ensures r.Some? ==> |r.value| <= req.size
  {
    match search(req.query)
    case None => None
    case Some(ranked) => Some(Take(ranked, req.size))
  }

  /** An external call the handler makes, in order. */
  datatype Call =
    | Searched(request: SearchRequest)
    | ReadRecent(user: string, limit: nat)
    | Generated(messages: seq<ChatMessage>)

  datatype ChatOutcome = ChatOutcome(reply: Reply<string>, store: Store, calls: seq<Call>)

  const HistoryWindow: nat := 6

  /** `req.body.user || 'anonymous'`. */
  function RequestUser(user: Option<string>): (who: string)
    ensures who != ""
    ensures user.Some? && user.value != "" ==> who == user.value
    ensures user.None? || user.value == "" ==> who == "anonymous"
  {
    OrDefault(user, "anonymous")
  }

  /** `(req.body.text || '').trim()`. */
  function RequestText(text: Option<string>): (input: string)
    ensures input == "" <==> text.None? || AllSatisfy(text.value, IsJsSpace)
  {
    TrimJs(OrDefault(text, ""))
  }

  /** `POST /chat`. */
  function Chat(st: Store, text: Option<string>, user: Option<string>,
                search: SearchOracle, generate: Generator): (r: ChatOutcome)
    requires Valid(st)
    ensures Valid(r.store)
    // empty or whitespace-only text: 400, nothing searched, nothing stored
    ensures r.reply.BadRequest? <==> RequestText(text) == ""
    ensures r.reply.BadRequest? ==> r.store == st && r.calls == []
    // otherwise the classified query is the first thing sent anywhere
    ensures !r.reply.BadRequest? ==>
      |r.calls| >= 1 && r.calls[0] == Searched(RequestFor(Classify(RequestText(text))))
    // a failing search is a 500 and stores nothing
    ensures r.reply.ServerError? <==>
      RequestText(text) != "" && Hits(search, RequestFor(Classify(RequestText(text)))).None?
    ensures r.reply.ServerError? ==> r.store == st
    // an answered turn stores the input and the answer for the requesting user
    ensures r.reply.Ok? ==> r.store == AppendTurn(st, RequestUser(user), RequestText(text), r.reply.body)
    // a date query is answered from the hits alone
    ensures r.reply.Ok? && IsDateQuery(RequestText(text)) ==> |r.calls| == 1
    // free text reads the recent history of that user, then calls the model once
    ensures r.reply.Ok? && !IsDateQuery(RequestText(text)) ==>
      |r.calls| == 3 && r.calls[1] == ReadRecent(RequestUser(user), HistoryWindow)
      && r.calls[2].Generated? && 2 <= |r.calls[2].messages| <= 4
      && r.calls[2].messages[|r.calls[2].messages| - 1] == ChatMessage(UserRole, RequestText(text))
  {
    var input := RequestText(text);
    var who := RequestUser(user);
    if input == "" then
      ChatOutcome(BadRequest("No text provided"), st, [])
    else
      var req := RequestFor(Classify(input));
      match Hits(search, req)
      case None =>
        ChatOutcome(ServerError("Internal server error."), st, [Searched(req)])
      case Some(hits) =>
        if IsDateQuery(input) then
          var combined := DateAnswer(input, hits);
          ChatOutcome(Ok(combined), AppendTurn(st, who, input, combined), [Searched(req)])
        else
          var docs := Docs(hits);
          var prompt := Prompt(HistoryText(Recent(st, who, HistoryWindow)), docs, input);
          var combined := FreeTextAnswer(input, docs, generate(prompt));
          ChatOutcome(Ok(combined), AppendTurn(st, who, input, combined),
                      [Searched(req), ReadRecent(who, HistoryWindow), Generated(prompt)])
  }

  /** A successful turn adds exactly two messages to its user's history, the
      input and then the reply, and leaves every other user's history alone. */
  lemma ChatTurnPersists(st: Store, text: Option<string>, user: Option<string>,
                         search: SearchOracle, generate: Generator, u: string)
    requires Valid(st)
    requires RequestText(text) != ""
    requires Hits(search, RequestFor(Classify(RequestText(text)))).Some?
    ensures var r := Chat(st, text, user, search, generate);
      var who := RequestUser(user);
      History(r.store, u) == History(st, u)
        + (if u == who
           then [Message(RequestText(text), User, who, st.clock), Message(r.reply.body, Bot, who, st.clock + 1)]
           else [])
  {
    var r := Chat(st, text, user, search, generate);
    AppendTurnHistory(st, RequestUser(user), RequestText(text), r.reply.body, u);
  }

  /** A date query is answered from at most 50 (single year) or 100 (range)
      hits: "Found N case(s)" with every hit, or the no-cases message. */
  lemma ChatDateAnswer(st: Store, text: Option<string>, user: Option<string>,
                       search: SearchOracle, generate: Generator)
    requires Valid(st)
    requires Hits(search, RequestFor(Classify(RequestText(text)))).Some?
    ensures var input := RequestText(text);
      var req := RequestFor(Classify(input));
      var hits := Hits(search, req).value;
      IsDateQuery(input) ==>
        && Chat(st, text, user, search, generate).reply == Ok(DateAnswer(input, hits))
        && (req.size == 50 || req.size == 100)
        && |hits| <= req.size
  {
    DateBranchExact(RequestText(text));
    if IsDateQuery(RequestText(text)) {
      assert RequestText(text) != "" by {
        assert FirstYear(RequestText(text), 0).Some? || FirstRange(RequestText(text), 0).Some?;
      }
    }
  }

  /** On free text the model is sent the system prompt, the user's recent
      history, the retrieved cases and the input; it sees a history entry
      exactly when the user has spoken before, and a cases entry exactly
      when the search found hits. */
  lemma ChatPromptEntries(st: Store, text: Option<string>, user: Option<string>,
                          search: SearchOracle, generate: Generator)
    requires Valid(st)
    requires RequestText(text) != "" && !IsDateQuery(RequestText(text))
    requires Hits(search, RequestFor(Classify(RequestText(text)))).Some?
    ensures var hits := Hits(search, RequestFor(Classify(RequestText(text)))).value;
      var prompt := Chat(st, text, user, search, generate).calls[2].messages;
      prompt == Prompt(HistoryText(Recent(st, RequestUser(user), HistoryWindow)), Docs(hits), RequestText(text))
    ensures var hits := Hits(search, RequestFor(Classify(RequestText(text)))).value;
      var prompt := Chat(st, text, user, search, generate).calls[2].messages;
      |prompt| == 2 + (if History(st, RequestUser(user)) != [] then 1 else 0) + (if |hits| > 0 then 1 else 0)
    ensures var hits := Hits(search, RequestFor(Classify(RequestText(text)))).value;
      var prompt := Chat(st, text, user, search, generate).calls[2].messages;
      var recent := Recent(st, RequestUser(user), HistoryWindow);
      && (ChatMessage(SystemRole, "History:\n" + HistoryText(recent)) in prompt <==> History(st, RequestUser(user)) != [])
      && (ChatMessage(SystemRole, "Cases:\n" + Join(Docs(hits), "\n\n")) in prompt <==> |hits| > 0)
  {
    var who := RequestUser(user);
    RecentIsTail(st, who, HistoryWindow);
    HistoryTextEmpty(Recent(st, who, HistoryWindow));
  }

  /** When the model fails on a free-text query the reply is the fallback,
      with no list of relevant cases appended. */
  lemma ChatFallback(st: Store, text: Option<string>, user: Option<string>,
                     search: SearchOracle, generate: Generator)
    requires Valid(st)
    requires RequestText(text) != "" && !IsDateQuery(RequestText(text))
    requires Hits(search, RequestFor(Classify(RequestText(text)))).Some?
    requires var input := RequestText(text);
      var hits := Hits(search, RequestFor(Classify(input))).value;
      generate(Prompt(HistoryText(Recent(st, RequestUser(user), HistoryWindow)), Docs(hits), input)).None?
    ensures var input := RequestText(text);
      var hits := Hits(search, RequestFor(Classify(input))).value;
      Chat(st, text, user, search, generate).reply == Ok(Fallback(input, Docs(hits)))
      && |hits| <= 5
  {
    var input := RequestText(text);
    DateBranchExact(input);
    FallbackNeverAnnotated(input, Docs(Hits(search, RequestFor(Classify(input))).value));
  }

  /** When the model answers a free-text query, the reply is its trimmed
      answer. With hits, and unless that answer happens to contain the
      fallback marker, a `- doc` entry follows for every hit; otherwise the
      trimmed answer stands alone. */
  lemma ChatModelAnswer(st: Store, text: Option<string>, user: Option<string>,
                        search: SearchOracle, generate: Generator, answer: string)
    requires Valid(st)
    requires RequestText(text) != "" && !IsDateQuery(RequestText(text))
    requires Hits(search, RequestFor(Classify(RequestText(text)))).Some?
    requires var input := RequestText(text);
      var hits := Hits(search, RequestFor(Classify(input))).value;
      generate(Prompt(HistoryText(Recent(st, RequestUser(user), HistoryWindow)), Docs(hits), input)) == Some(answer)
    ensures var hits := Hits(search, RequestFor(Classify(RequestText(text)))).value;
      Chat(st, text, user, search, generate).reply == Ok(Annotate(TrimJs(answer), Docs(hits)))
    ensures var hits := Hits(search, RequestFor(Classify(RequestText(text)))).value;
      ModelAnswerShape(TrimJs(answer), Docs(hits), Chat(st, text, user, search, generate).reply.body)
  {
    var input := RequestText(text);
    var docs := Docs(Hits(search, RequestFor(Classify(input))).value);
    DateBranchExact(input);
    AnnotateModelAnswer(TrimJs(answer), docs);
  }

  // ---------------------------------------------------------------------------
  // History endpoints (the /admin/history routes, lines 225-238, are the same code)

  /** `req.query.user` is missing or empty. */
  predicate NoUser(user: Option<string>) {
    user.None? || user.value == ""
  }

  /** `GET /history`: the user's messages, oldest first. */
  function GetHistory(st: Store, user: Option<string>): (r: Reply<seq<Message>>)
    requires Valid(st)
    ensures r.BadRequest? <==> NoUser(user)
    ensures !r.ServerError?
    ensures r.Ok? ==> (Chronological(r.body)
      && forall m :: m in r.body <==> m in st.messages && m.user == user.value)
  {
    if NoUser(user) then BadRequest("No user specified") else Ok(History(st, user.value))
  }

  /** `DELETE /history`: every message of the user goes, nothing else does. */
  function DeleteHistory(st: Store, user: Option<string>): (r: (Reply<()>, Store))
    requires Valid(st)
    ensures Valid(r.1)
    ensures r.0.BadRequest? <==> NoUser(user)
    ensures !r.0.ServerError?
    ensures r.0.BadRequest? ==> r.1 == st
    ensures r.0.Ok? ==> (History(r.1, user.value) == []
      && (forall u :: u != user.value ==> History(r.1, u) == History(st, u))
      && (forall m :: m in r.1.messages <==> m in st.messages && m.user != user.value))
  {
    if NoUser(user) then (BadRequest("No user specified"), st)
    else (Ok(()), DeleteUser(st, user.value))
  }

  /** After a successful delete the user no longer appears among the users
      `GET /admin/users` lists, and every other user still does exactly when
      they did before. */
  lemma DeleteHistoryUnlists(st: Store, user: Option<string>, u: string)
    requires Valid(st) && !NoUser(user)
    ensures var after := DeleteHistory(st, user).1;
      u in UsersOf(after.messages) <==> u in UsersOf(st.messages) && u != user.value
  {
    var after := DeleteHistory(st, user).1;
    UsersOfHistory(after, u);
    UsersOfHistory(st, u);
  }
}
