/**
 * The keyword classifier used when the language model gives no usable answer
 * (utils/llm_interface.py, `keyword_fallback_parser`). The model client itself is HTTP and
 * is not modelled.
 */
module LlmInterface {
  import opened Wrappers
  import opened Text
  import opened Validation

  /** The words tested by each branch, in the order the branches are tried. */
  const BookWords: seq<string> := ["book", "schedule", "add"]
  const CancelWords: seq<string> := ["cancel", "delete", "remove"]
  const ListWords: seq<string> := ["list", "show", "appointments", "meetings"]

  /** Some word of `words` occurs in `text`. */
  predicate Mentions(text: string, words: seq<string>) {
    exists k :: 0 <= k < |words| && Contains(text, words[k])
  }

  /**
   * `keyword_fallback_parser`: the lower-cased text is tested for booking words, then for
   * cancelling words, then for listing words; the reply carries the original text as its
   * description and no other field.
   */
  function KeywordFallback(text: string): (r: IntentData)
    ensures r.description == Some(text)
    ensures r.id.None? && r.date.None? && r.time.None?
    ensures r.intent.Some? && r.intent.value.Str?
  {
    var lower := Lower(text);
    var intent :=
      if Contains(lower, "book") || Contains(lower, "schedule") || Contains(lower, "add") then "book_schedule"
      else if Contains(lower, "cancel") || Contains(lower, "delete") || Contains(lower, "remove") then "cancel_schedule"
      else if Contains(lower, "list") || Contains(lower, "show") || Contains(lower, "appointments") || Contains(lower, "meetings") then "get_schedule"
      else "unknown";
    IntentData(Some(Str(intent)), None, None, None, Some(text))
  }

  /** The intent of the fallback reply. */
  function FallbackIntent(text: string): string {
    KeywordFallback(text).intent.value.s
  }

  /** The branches in priority order: booking words win over cancelling words, which win over listing words. */
  lemma FallbackIntentIff(text: string)
    ensures var l := Lower(text);
      && (FallbackIntent(text) == "book_schedule" <==> Mentions(l, BookWords))
      && (FallbackIntent(text) == "cancel_schedule" <==> !Mentions(l, BookWords) && Mentions(l, CancelWords))
      && (FallbackIntent(text) == "get_schedule" <==>
            !Mentions(l, BookWords) && !Mentions(l, CancelWords) && Mentions(l, ListWords))
      && (FallbackIntent(text) == "unknown" <==>
            !Mentions(l, BookWords) && !Mentions(l, CancelWords) && !Mentions(l, ListWords))
  {
    var l := Lower(text);
    assert BookWords[0] == "book" && BookWords[1] == "schedule" && BookWords[2] == "add";
    assert CancelWords[0] == "cancel" && CancelWords[1] == "delete" && CancelWords[2] == "remove";
    assert ListWords[0] == "list" && ListWords[1] == "show";
    assert ListWords[2] == "appointments" && ListWords[3] == "meetings";
    assert Mentions(l, BookWords) <==> Contains(l, "book") || Contains(l, "schedule") || Contains(l, "add");
    assert Mentions(l, CancelWords) <==> Contains(l, "cancel") || Contains(l, "delete") || Contains(l, "remove");
    assert Mentions(l, ListWords) <==>
      Contains(l, "list") || Contains(l, "show") || Contains(l, "appointments") || Contains(l, "meetings");
  }

  /** Whatever the text, the fallback reply passes `validate_llm_response`. */
  lemma FallbackAccepted(text: string)
    ensures ValidateLlmResponse(Fields(KeywordFallback(text))) == (true, "")
  {
    var i := FallbackIntent(text);
    assert i == ValidIntents[0] || i == ValidIntents[1] || i == ValidIntents[2] || i == ValidIntents[3];
  }

  /** A booking word anywhere, in any letter case, makes the reply a booking, whatever else the text says. */
  lemma BookWordAnywhere(a: string, w: string, b: string)
    requires Lower(w) in BookWords
    ensures FallbackIntent(a + w + b) == "book_schedule"
  {
    LowerConcat(a, w);
    LowerConcat(a + w, b);
    var l := Lower(a + w + b);
    assert l == Lower(a) + Lower(w) + Lower(b);
    assert l[|a|..|a| + |w|] == Lower(w);
    ContainsAt(l, Lower(w), |a|);
    var k :| 0 <= k < |BookWords| && BookWords[k] == Lower(w);
    FallbackIntentIff(a + w + b);
  }

  /** A cancelling word makes the reply a cancellation unless a booking word is present too. */
  lemma CancelWordAnywhere(a: string, w: string, b: string)
    requires Lower(w) in CancelWords
    requires !Mentions(Lower(a + w + b), BookWords)
    ensures FallbackIntent(a + w + b) == "cancel_schedule"
  {
    LowerConcat(a, w);
    LowerConcat(a + w, b);
    var l := Lower(a + w + b);
    assert l == Lower(a) + Lower(w) + Lower(b);
    assert l[|a|..|a| + |w|] == Lower(w);
    ContainsAt(l, Lower(w), |a|);
    var k :| 0 <= k < |CancelWords| && CancelWords[k] == Lower(w);
    FallbackIntentIff(a + w + b);
  }

  /** The example the module runs on itself: "I want to see my schedule." is read as a booking. */
  lemma SeeMyScheduleIsBooking(t: string)
    requires t == "I want to see my schedule."
    ensures FallbackIntent(t) == "book_schedule"
  {
    var w := "schedule";
    assert Lower(w) == w;
    assert t == t[..17] + w + t[25..];
    BookWordAnywhere(t[..17], w, t[25..]);
  }
}
