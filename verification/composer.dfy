/** The response composer of the `/chat` handler (node_server/index.js,
    lines 111-160): hit formatting, the direct answer to date queries, the
    prompt sent to the language model, the fallback used when generation
    fails, and the trailing list of relevant cases. */
module Composer {
  import opened Wrappers
  import opened Text
  import opened MessageStore

  /** The fields of a search hit's `_source` the composer reads. */
  datatype Hit = Hit(date: string, title: string, summary: string)

  // ---------------------------------------------------------------------------
  // Hit formatting (lines 112-115)

  /** The `i`-th hit (counting from 0) as `"{i+1}. [date] title\n   → summary"`. */
  function FormatHit(i: nat, h: Hit): string {
    NatToString(i + 1) + ". [" + h.date + "] " + h.title + "\n   \U{2192} " + h.summary
  }

  /** `hits.map((h, i) => ...)` with the numbering starting at `start + 1`. */
  function DocsFrom(hits: seq<Hit>, start: nat): (docs: seq<string>)
    ensures |docs| == |hits|
    ensures forall i :: 0 <= i < |hits| ==> docs[i] == FormatHit(start + i, hits[i])
  {
    if |hits| == 0 then [] else [FormatHit(start, hits[0])] + DocsFrom(hits[1..], start + 1)
  }

  /** The formatted hits, numbered from 1. */
  function Docs(hits: seq<Hit>): seq<string> {
    DocsFrom(hits, 0)
  }

  /** Each formatted hit opens with the decimal number of its position
      (counting from 1) followed by `". ["`, and that number reads back as
      the position. */
  lemma DocNumbering(hits: seq<Hit>, i: nat)
    requires i < |hits|
    ensures var d := Docs(hits)[i];
      var num := NatToString(i + 1);
      |num| + 3 <= |d| && d[..|num| + 3] == num + ". ["
      && DigitsValue(num) == i + 1
  {
    var d := Docs(hits)[i];
    var num := NatToString(i + 1);
    assert d == num + ". [" + (hits[i].date + "] " + hits[i].title + "\n   \U{2192} " + hits[i].summary);
    ParsePrinted(i + 1);
  }

  // ---------------------------------------------------------------------------
  // Date queries (lines 119-122)

  function NoCasesMessage(input: string): string {
    "\U{274C} No cases found for \"" + input + "\"."
  }

  const FoundPrefix: string := "\U{1F5C2} Found "

  /** The answer to a single-year or year-range query, built from the hits alone. */
  function DateAnswer(input: string, hits: seq<Hit>): string {
    var docs := Docs(hits);
    if |docs| > 0 then FoundPrefix + NatToString(|hits|) + " case(s):\n\n" + Join(docs, "\n\n")
    else NoCasesMessage(input)
  }

  /** With hits, the answer reports their number and contains every formatted
      hit; without, it is the fixed message naming the input. */
  lemma DateAnswerContents(input: string, hits: seq<Hit>)
    ensures |hits| > 0 ==> var r := DateAnswer(input, hits);
      var head := FoundPrefix + NatToString(|hits|) + " case(s):";
      |head| <= |r| && r[..|head|] == head
      && forall i :: 0 <= i < |hits| ==> Contains(r, Docs(hits)[i])
    ensures |hits| == 0 ==> (DateAnswer(input, hits) == NoCasesMessage(input)
      && Contains(DateAnswer(input, hits), input))
  {
    var r := DateAnswer(input, hits);
    if |hits| > 0 {
      var docs := Docs(hits);
      var head := FoundPrefix + NatToString(|hits|) + " case(s):";
      var pre := head + "\n\n";
      assert r == pre + Join(docs, "\n\n");
      assert r[..|head|] == head;
      forall i | 0 <= i < |hits| ensures Contains(r, docs[i]) {
        JoinContains(docs, "\n\n", i);
        var j := OccurrenceFromContains(Join(docs, "\n\n"), docs[i]);
        assert r[|pre| + j..|pre| + j + |docs[i]|] == Join(docs, "\n\n")[j..j + |docs[i]|];
        ContainsFromOccurrence(r, docs[i], |pre| + j);
      }
    } else {
      ContainsPart("\U{274C} No cases found for \"", input, "\".");
    }
  }

  // ---------------------------------------------------------------------------
  // The prompt (lines 124-138)

  /** `"User: text"` for the user's messages, `"Assistant: text"` for the bot's. */
  function SpeakerLine(m: Message): string {
    (if m.sender == User then "User" else "Assistant") + ": " + m.text
  }

  /** The history block: one speaker line per message, joined by newlines. */
  function HistoryText(msgs: seq<Message>): string {
    Join(seq(|msgs|, i requires 0 <= i < |msgs| => SpeakerLine(msgs[i])), "\n")
  }

  /** The history block is empty exactly when there is no history, so
      `if (history)` tests whether any message was found. */
  lemma HistoryTextEmpty(msgs: seq<Message>)
    ensures HistoryText(msgs) == "" <==> msgs == []
  {
    var lines := seq(|msgs|, i requires 0 <= i < |msgs| => SpeakerLine(msgs[i]));
    if |msgs| > 0 {
      JoinContains(lines, "\n", 0);
      var j := OccurrenceFromContains(Join(lines, "\n"), lines[0]);
      assert |lines[0]| > 0;
    }
  }

  datatype Role = SystemRole | UserRole

  datatype ChatMessage = ChatMessage(role: Role, content: string)

  /** The fixed system instruction, in the three pieces the source concatenates. */
  const Instruction: string :=
    "You are a knowledgeable legal assistant. " + "Answer using ONLY the provided case summaries. " + "Do NOT hallucinate."

  /** The message list handed to the language model. */
  function Prompt(history: string, docs: seq<string>, input: string): (r: seq<ChatMessage>)
    ensures 2 <= |r| <= 4
    ensures r[0] == ChatMessage(SystemRole, Instruction)
    ensures r[|r| - 1] == ChatMessage(UserRole, input)
    ensures ChatMessage(SystemRole, "History:\n" + history) in r <==> history != ""
    ensures ChatMessage(SystemRole, "Cases:\n" + Join(docs, "\n\n")) in r <==> |docs| > 0
    ensures |r| == 2 + (if history != "" then 1 else 0) + (if |docs| > 0 then 1 else 0)
  {
    var h := ChatMessage(SystemRole, "History:\n" + history);
    var c := ChatMessage(SystemRole, "Cases:\n" + Join(docs, "\n\n"));
    var first := ChatMessage(SystemRole, Instruction);
    var last := ChatMessage(UserRole, input);
    assert first != h && first != c && h != c by {
      assert Instruction[0] == 'Y';
      assert ("History:\n" + history)[0] == 'H';
      assert ("Cases:\n" + Join(docs, "\n\n"))[0] == 'C';
    }
    [first]
      + (if history != "" then [h] else [])
      + (if |docs| > 0 then [c] else [])
      + [last]
  }

  // ---------------------------------------------------------------------------
  // Fallback and citations (lines 149-159)

  const FallbackMarker: string := "cases only"
  const FallbackHeader: string := "\U{2139}\U{FE0F} (AI unavailable, showing cases only)"
  const CitationsHeader: string := "\U{1F4DA} Relevant cases:"

  /** The reply used when the language model cannot be reached. */
  function Fallback(input: string, docs: seq<string>): string {
    if |docs| > 0 then FallbackHeader + "\n\n" + Join(docs, "\n\n") else NoCasesMessage(input)
  }

  /** `- doc` for each formatted hit. */
  function Bullets(docs: seq<string>): (r: seq<string>)
    ensures |r| == |docs|
  {
    seq(|docs|, i requires 0 <= i < |docs| => "- " + docs[i])
  }

  /** Appends the list of relevant cases unless there are none or the reply
      carries the fallback marker. */
  function Annotate(reply: string, docs: seq<string>): string {
    if |docs| > 0 && !Contains(reply, FallbackMarker) then
      reply + "\n\n" + CitationsHeader + "\n" + Join(Bullets(docs), "\n")
    else reply
  }

  /** The reply after the model answered (`Some`) or failed (`None`). */
  function FreeTextAnswer(input: string, docs: seq<string>, generated: Option<string>): string {
    Annotate(if generated.Some? then TrimJs(generated.value) else Fallback(input, docs), docs)
  }

  /** The fallback always carries the marker when there are hits, so it is
      never annotated; and it lists every hit. */
  lemma FallbackNeverAnnotated(input: string, docs: seq<string>)
    ensures Annotate(Fallback(input, docs), docs) == Fallback(input, docs)
    ensures |docs| > 0 ==> Contains(Fallback(input, docs), FallbackMarker)
    ensures forall i :: 0 <= i < |docs| ==> Contains(Fallback(input, docs), docs[i])
  {
    if |docs| > 0 {
      var f := Fallback(input, docs);
      assert FallbackHeader == "\U{2139}\U{FE0F} (AI unavailable, showing " + FallbackMarker + ")";
      ContainsPart("\U{2139}\U{FE0F} (AI unavailable, showing ", FallbackMarker, ")\n\n" + Join(docs, "\n\n"));
      assert f == "\U{2139}\U{FE0F} (AI unavailable, showing " + FallbackMarker + (")\n\n" + Join(docs, "\n\n"));
      var pre := FallbackHeader + "\n\n";
      forall i | 0 <= i < |docs| ensures Contains(f, docs[i]) {
        JoinContains(docs, "\n\n", i);
        var j := OccurrenceFromContains(Join(docs, "\n\n"), docs[i]);
        assert f[|pre| + j..|pre| + j + |docs[i]|] == Join(docs, "\n\n")[j..j + |docs[i]|];
        ContainsFromOccurrence(f, docs[i], |pre| + j);
      }
    }
  }

  /** A successful model reply without the marker keeps the reply as its
      prefix and gains one `- doc` line per hit. */
  lemma AnnotateAppendsEveryHit(reply: string, docs: seq<string>)
    requires |docs| > 0 && !Contains(reply, FallbackMarker)
    ensures var r := Annotate(reply, docs);
      |reply| <= |r| && r[..|reply|] == reply
      && forall i :: 0 <= i < |docs| ==> Contains(r, "- " + docs[i])
  {
    var r := Annotate(reply, docs);
    var pre := reply + "\n\n" + CitationsHeader + "\n";
    var bullets := Bullets(docs);
    assert r == pre + Join(bullets, "\n");
    assert r[..|reply|] == reply;
    forall i | 0 <= i < |docs| ensures Contains(r, "- " + docs[i]) {
      assert bullets[i] == "- " + docs[i];
      JoinContains(bullets, "\n", i);
      var j := OccurrenceFromContains(Join(bullets, "\n"), bullets[i]);
      assert r[|pre| + j..|pre| + j + |bullets[i]|] == Join(bullets, "\n")[j..j + |bullets[i]|];
      ContainsFromOccurrence(r, bullets[i], |pre| + j);
    }
  }

  /** The reply `r` starts with the model's trimmed answer. With hits, and
      unless the answer contains the fallback marker, it holds a `- doc`
      entry for every hit; otherwise it is the answer alone. */
  predicate ModelAnswerShape(answer: string, docs: seq<string>, r: string) {
    && |answer| <= |r| && r[..|answer|] == answer
    && (|docs| > 0 && !Contains(answer, FallbackMarker) ==>
        forall i :: 0 <= i < |docs| ==> Contains(r, "- " + docs[i]))
    && (|docs| == 0 || Contains(answer, FallbackMarker) ==> r == answer)
  }

  /** A model answer that happens to mention the marker loses its list of
      cases, like the fallback does; any other answer gains it. */
  lemma AnnotateModelAnswer(answer: string, docs: seq<string>)
    ensures ModelAnswerShape(answer, docs, Annotate(answer, docs))
  {
    if |docs| > 0 && !Contains(answer, FallbackMarker) {
      AnnotateAppendsEveryHit(answer, docs);
    }
  }
}
