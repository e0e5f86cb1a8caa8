/** The `POST /predict` handler of flask_server/app.py (lines 37-86): input
    validation with Python's semantics for whatever JSON arrives, one call to
    the text generator, a best-effort search for legal context, and the
    combination of the two. The generator and the search engine are oracles. */
module Predict {
  import opened Wrappers
  import opened Text
  import opened Seqs

  /** A parsed JSON value (numbers are integers here). */
  datatype Json =
    | JNull
    | JBool(b: bool)
    | JNum(n: int)
    | JStr(s: string)
    | JArr(items: seq<Json>)
    | JObj(fields: map<string, Json>)

  /** Python truthiness of the value `json.loads` makes of it. */
  predicate Truthy(v: Json) {
    match v
    case JNull => false
    case JBool(b) => b
    case JNum(n) => n != 0
    case JStr(s) => s != ""
    case JArr(items) => items != []
    case JObj(fields) => fields != map[]
  }

  const MissingText: string := "Missing JSON body with \"text\" field."
  const EmptyText: string := "Empty \"text\" field."
  const GenerationFailed: string := "AI generation error."
  /** Stands for Flask's response to an exception the handler does not catch. */
  const Uncaught: string := "Internal Server Error"

  /** `"text" in data` for the value `data`: a key test on an object, an
      element test on an array, a substring test on a string; `None` when
      the test itself raises (a number or a boolean). */
  function HasTextKey(data: Json): Option<bool>
    requires Truthy(data)
  {
    match data
    case JObj(fields) => Some("text" in fields)
    case JArr(items) => Some(JStr("text") in items)
    case JStr(s) => Some(Contains(s, "text"))
    case _ => None
  }

  /** Lines 40-46: the stripped text, or the error response. `body` is
      `None` when the request does not parse as JSON. */
  function ReadText(body: Option<Json>): (r: Reply<string>)
    // 400 exactly when there is no usable body, no "text" in it, or the text is blank
    ensures r.BadRequest? <==>
      || body.None? || !Truthy(body.value)
      || HasTextKey(body.value) == Some(false)
      || (body.value.JObj? && "text" in body.value.fields && body.value.fields["text"].JStr?
          && AllSatisfy(body.value.fields["text"].s, IsPySpace))
    ensures r.BadRequest? ==> r.error == MissingText || r.error == EmptyText
    // the text accepted is the stripped string under the key, never blank
    ensures r.Ok? <==> (body.Some? && body.value.JObj? && "text" in body.value.fields
      && body.value.fields["text"].JStr? && !AllSatisfy(body.value.fields["text"].s, IsPySpace))
    ensures r.Ok? ==> r.body == StripPy(body.value.fields["text"].s) && r.body != ""
  {
    if body.None? || !Truthy(body.value) then BadRequest(MissingText)
    else
      match HasTextKey(body.value)
      case None => ServerError(Uncaught)
      case Some(false) => BadRequest(MissingText)
      case Some(true) =>
        match body.value
        case JObj(fields) =>
          (match fields["text"]
           case JStr(s) => if StripPy(s) == "" then BadRequest(EmptyText) else Ok(StripPy(s))
           case _ => ServerError(Uncaught))
        case _ => ServerError(Uncaught)
  }

  /** An object whose "text" is a string: 400 only when the string is blank,
      otherwise the string without its surrounding whitespace. */
  lemma ReadTextOfString(pad: string, text: string, pad2: string)
    requires AllSatisfy(pad, IsPySpace) && AllSatisfy(pad2, IsPySpace)
    requires text != [] && !IsPySpace(text[0]) && !IsPySpace(text[|text| - 1])
    ensures ReadText(Some(JObj(map["text" := JStr(pad + text + pad2)]))) == Ok(text)
    ensures ReadText(Some(JObj(map["text" := JStr(pad + pad2)]))) == BadRequest(EmptyText)
  {
    TrimPadded(pad, text, pad2, IsPySpace);
    TrimPadded(pad, [], pad2, IsPySpace);
    assert pad + [] + pad2 == pad + pad2;
  }

  // ---------------------------------------------------------------------------
  // Search results (lines 57-78)

  /** The `_source` of a hit: its string fields. */
  type Source = map<string, string>

  const SummaryKey: string := "Summary200"

  /** The one query the prediction service sends: `multi_match` of the text
      over the given fields. */
  datatype CaseQuery = MultiMatch(query: string, fields: seq<string>)

  const TextFields: seq<string> := ["Summary200", "title", "legal_key"]

  /** The search engine: the sources of the ranked hits, or `None` when it
      raises an `ElasticsearchException`. */
  type CaseSearch = CaseQuery -> Option<seq<Source>>

  /** The generator: the decoded text for a prompt, or `None` when it raises. */
  type Generate = string -> Option<string>

  const ContextSize: nat := 3

  /** The `Summary200` value of each hit that has one, in hit order. */
  function Summaries(hits: seq<Source>): (r: seq<string>)
    ensures |r| <= |hits|
    ensures (forall i :: 0 <= i < |hits| ==> SummaryKey !in hits[i]) ==> r == []
    ensures (forall i :: 0 <= i < |hits| ==> SummaryKey in hits[i]) ==>
      |r| == |hits| && forall i :: 0 <= i < |hits| ==> r[i] == hits[i][SummaryKey]
  {
    if |hits| == 0 then []
    else (if SummaryKey in hits[0] then [hits[0][SummaryKey]] else []) + Summaries(hits[1..])
  }

  /** The filter distributes over concatenation, so it keeps exactly the
      summaries of the hits that have one, each in place. */
  lemma {:induction false} SummariesAppend(a: seq<Source>, b: seq<Source>)
    ensures Summaries(a + b) == Summaries(a) + Summaries(b)
  {
    if |a| == 0 {
      assert a + b == b;
    } else {
      assert (a + b)[1..] == a[1..] + b;
      SummariesAppend(a[1..], b);
    }
  }

  /** A summary is kept exactly when some hit carries it. */
  lemma {:induction false} SummariesMembers(hits: seq<Source>, s: string)
    ensures s in Summaries(hits) <==> exists i :: 0 <= i < |hits| && SummaryKey in hits[i] && hits[i][SummaryKey] == s
  {
    if |hits| > 0 {
      SummariesMembers(hits[1..], s);
      if s in Summaries(hits[1..]) {
        var i :| 0 <= i < |hits[1..]| && SummaryKey in hits[1..][i] && hits[1..][i][SummaryKey] == s;
        assert hits[i + 1] == hits[1..][i];
      }
      if exists i :: 0 <= i < |hits| && SummaryKey in hits[i] && hits[i][SummaryKey] == s {
        var i :| 0 <= i < |hits| && SummaryKey in hits[i] && hits[i][SummaryKey] == s;
        if i > 0 {
          assert hits[1..][i - 1] == hits[i];
        }
      }
    }
  }

  /** The legal context for the input: at most 3 summaries, none when the
      search fails. */
  function Context(search: CaseSearch, input: string): (r: seq<string>)
    ensures |r| <= ContextSize
    ensures search(MultiMatch(input, TextFields)).None? ==> r == []
  {
    match search(MultiMatch(input, TextFields))
    case None => []
    case Some(ranked) => Summaries(Take(ranked, ContextSize))
  }

  // ---------------------------------------------------------------------------
  // Combination (lines 80-86)

  const LegalInfoHeader: string := "\n\n\U{1F4DA} Relevant Legal Info:\n"

  function Combine(ai: string, suggestions: seq<string>): string {
    var reply := StripPy(ai);
    if |suggestions| == 0 then reply
    else reply + LegalInfoHeader + Join(seq(|suggestions|, i requires 0 <= i < |suggestions| => "- " + suggestions[i]), "\n")
  }

  /** Without suggestions the response is the stripped reply; with them it is
      the stripped reply, the header, and the bullet lines that read back as
      `- s` for each suggestion in order (when no suggestion breaks a line). */
  lemma CombineShape(ai: string, suggestions: seq<string>)
    ensures |suggestions| == 0 ==> Combine(ai, suggestions) == StripPy(ai)
    ensures |suggestions| > 0 ==>
      var r := Combine(ai, suggestions);
      var pre := StripPy(ai) + LegalInfoHeader;
      |pre| <= |r| && r[..|pre|] == pre
      && ((forall i :: 0 <= i < |suggestions| ==> '\n' !in suggestions[i]) ==>
          var lines := Split(r[|pre|..], '\n');
          |lines| == |suggestions| && forall i :: 0 <= i < |suggestions| ==> lines[i] == "- " + suggestions[i])
  {
    if |suggestions| > 0 {
      var r := Combine(ai, suggestions);
      var pre := StripPy(ai) + LegalInfoHeader;
      var bullets := seq(|suggestions|, i requires 0 <= i < |suggestions| => "- " + suggestions[i]);
      assert r == pre + Join(bullets, "\n");
      assert r[|pre|..] == Join(bullets, "\n");
      if forall i :: 0 <= i < |suggestions| ==> '\n' !in suggestions[i] {
        forall k | 0 <= k < |bullets| ensures '\n' !in bullets[k] {
          assert bullets[k] == "- " + suggestions[k];
        }
        SplitJoin(bullets, '\n');
      }
    }
  }

  // ---------------------------------------------------------------------------
  // The handler

  datatype PredictCall = Generated(prompt: string) | Searched(query: CaseQuery, size: nat)

  datatype PredictOutcome = PredictOutcome(reply: Reply<string>, calls: seq<PredictCall>)

  /** `POST /predict`. */
  function PredictHandler(body: Option<Json>, generate: Generate, search: CaseSearch): (r: PredictOutcome)
    // invalid input is refused before anything is called
    ensures !ReadText(body).Ok? ==> r.reply == ReadText(body) && r.calls == []
    // a failing generator is a 500 and nothing is searched
    ensures ReadText(body).Ok? && generate(ReadText(body).body).None? ==>
      r == PredictOutcome(ServerError(GenerationFailed), [Generated(ReadText(body).body)])
    // otherwise the stripped text is generated from, then searched for 3 hits
    ensures ReadText(body).Ok? && generate(ReadText(body).body).Some? ==>
      var input := ReadText(body).body;
      r.reply.Ok? && r.calls == [Generated(input), Searched(MultiMatch(input, TextFields), ContextSize)]
      && r.reply.body == Combine(generate(input).value, Context(search, input))
  {
    match ReadText(body)
    case Ok(input) =>
      (match generate(input)
       case None => PredictOutcome(ServerError(GenerationFailed), [Generated(input)])
       case Some(ai) =>
         PredictOutcome(Ok(Combine(ai, Context(search, input))),
                        [Generated(input), Searched(MultiMatch(input, TextFields), ContextSize)]))
    case BadRequest(e) => PredictOutcome(BadRequest(e), [])
    case ServerError(e) => PredictOutcome(ServerError(e), [])
  }

  /** A failing search degrades to the stripped generated reply alone. */
  lemma PredictSearchFailure(body: Option<Json>, generate: Generate, search: CaseSearch)
    requires ReadText(body).Ok? && generate(ReadText(body).body).Some?
    requires search(MultiMatch(ReadText(body).body, TextFields)).None?
    ensures PredictHandler(body, generate, search).reply == Ok(StripPy(generate(ReadText(body).body).value))
  {
  }
}
