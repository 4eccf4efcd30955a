/** The response engine: a fixed FAQ table keyed by canonical phrases, and a
    named-entity fallback for queries the table does not answer. The OpenNLP models
    (tokenizer, part-of-speech tagger, lemmatizer, person and location name finders)
    are opaque functions handed to the constructor. */
module Chatbot {
  import opened Text
  import opened Normalization
  import opened KnowledgeBase

  datatype Option<T> = None | Some(value: T)

  /** `opennlp.tools.util.Span`: a start and an end position (a name finder produces
      them in token indices). */
  datatype Span = Span(start: nat, end: nat)

  /** What `getCoveredText(text)` needs of the first span in order not to throw:
      `start <= end <= text.length()`. */
  predicate FirstSpanFits(names: seq<Span>, text: string) {
    |names| > 0 ==> names[0].start <= names[0].end <= |text|
  }

  const NotUnderstood: string :=
    "I'm sorry, I don't understand that. Could you please rephrase your question?"

  function BothReply(person: string, location: string): string {
    "I recognize that " + person + " is a person" + " and " + location + " is a location" + ". That's interesting!"
  }

  function PersonReply(person: string): string {
    "I know that " + person + " is a person."
  }

  function LocationReply(location: string): string {
    "I can see that " + location + " is a location."
  }

  /** `r` is one of the three named-entity reply templates. */
  ghost predicate IsEntityReply(r: string) {
    (exists p, l :: r == BothReply(p, l))
    || (exists p :: r == PersonReply(p))
    || (exists l :: r == LocationReply(l))
  }

  /** `haystack` contains `needle` as a contiguous piece. */
  ghost predicate Contains(haystack: string, needle: string) {
    exists before, after :: haystack == before + needle + after
  }

  class ChatbotLogic {
    const faqResponses: map<string, string>
    const tokenizer: string -> seq<string>
    const posTagger: seq<string> -> seq<string>
    const lemmatizer: (seq<string>, seq<string>) -> seq<string>
    const nameFinderPerson: seq<string> -> seq<Span>
    const nameFinderLocation: seq<string> -> seq<Span>

    /** The table is the one the constructor built from the fixed FAQ list. */
    ghost predicate Valid() {
      faqResponses == Table(FaqEntries)
    }

    /** The loaded models are passed in, and the table is filled once by putting the
        17 FAQ pairs in order; every field is a constant afterwards. */
    constructor (tokenizer: string -> seq<string>, posTagger: seq<string> -> seq<string>,
                 lemmatizer: (seq<string>, seq<string>) -> seq<string>,
                 nameFinderPerson: seq<string> -> seq<Span>,
                 nameFinderLocation: seq<string> -> seq<Span>)
      ensures this.tokenizer == tokenizer && this.posTagger == posTagger && this.lemmatizer == lemmatizer
      ensures this.nameFinderPerson == nameFinderPerson && this.nameFinderLocation == nameFinderLocation
      ensures Valid()
    {
      this.tokenizer := tokenizer;
      this.posTagger := posTagger;
      this.lemmatizer := lemmatizer;
      this.nameFinderPerson := nameFinderPerson;
      this.nameFinderLocation := nameFinderLocation;
      faqResponses := Table(FaqEntries);
    }

    /** The tokens, tags, lemmas and canonical phrase of one query. */
    function CleanLemmatizedPhrase(input: string): string {
      var tokens := tokenizer(input);
      var posTags := posTagger(tokens);
      var lemmas := lemmatizer(tokens, posTags);
      Normalize(lemmas)
    }

    /** What `getChatbotResponse` demands of its input: on a long FAQ miss, the first span
        of each finder must lie within the input. */
    predicate EntitySpansFit(input: string) {
      CleanLemmatizedPhrase(input) !in faqResponses && |tokenizer(input)| > 1 ==>
        FirstSpanFits(nameFinderPerson(tokenizer(input)), input)
        && FirstSpanFits(nameFinderLocation(tokenizer(input)), input)
    }

    /** `getNamedEntity`: the covered text of the finder's first span, taken as character
        offsets into the original input, or nothing when the finder finds nothing. */
    function GetNamedEntity(nameFinder: seq<string> -> seq<Span>, originalInput: string): (r: Option<string>)
      requires FirstSpanFits(nameFinder(tokenizer(originalInput)), originalInput)
      ensures r.None? <==> |nameFinder(tokenizer(originalInput))| == 0
      ensures r.Some? ==>
        var first := nameFinder(tokenizer(originalInput))[0];
        |r.value| == first.end - first.start
        && forall k :: 0 <= k < |r.value| ==> r.value[k] == originalInput[first.start + k]
    {
      var tokens := tokenizer(originalInput);
      var names := nameFinder(tokens);
      if |names| > 0 then Some(originalInput[names[0].start..names[0].end]) else None
    }

    /** `getChatbotResponse`: an exact FAQ hit answers; otherwise, for more than one token,
        the person and location finders choose a template; otherwise the default reply. */
    function GetChatbotResponse(input: string): (r: string)
      requires EntitySpansFit(input)
      ensures CleanLemmatizedPhrase(input) in faqResponses ==> r == faqResponses[CleanLemmatizedPhrase(input)]
      ensures CleanLemmatizedPhrase(input) !in faqResponses && |tokenizer(input)| <= 1 ==> r == NotUnderstood
      ensures CleanLemmatizedPhrase(input) !in faqResponses && |tokenizer(input)| > 1 ==>
        var person := GetNamedEntity(nameFinderPerson, input);
        var location := GetNamedEntity(nameFinderLocation, input);
        && (person.Some? && location.Some? ==> r == BothReply(person.value, location.value))
        && (person.Some? && location.None? ==> r == PersonReply(person.value))
        && (person.None? && location.Some? ==> r == LocationReply(location.value))
        && (person.None? && location.None? ==> r == NotUnderstood)
      ensures r in faqResponses.Values || IsEntityReply(r) || r == NotUnderstood
    {
      var cleanLemmatizedPhrase := CleanLemmatizedPhrase(input);
      if cleanLemmatizedPhrase in faqResponses then faqResponses[cleanLemmatizedPhrase]
      else if |tokenizer(input)| > 1 then
        var person := GetNamedEntity(nameFinderPerson, input);
        var location := GetNamedEntity(nameFinderLocation, input);
        if person.Some? && location.Some? then BothReply(person.value, location.value)
        else if person.Some? then PersonReply(person.value)
        else if location.Some? then LocationReply(location.value)
        else NotUnderstood
      else NotUnderstood
    }
  }

  // ---- properties ----

  /** Two chatbots that tokenize, tag and lemmatize alike and share a table. */
  ghost predicate SameFrontEnd(a: ChatbotLogic, b: ChatbotLogic, input: string) {
    && a.faqResponses == b.faqResponses
    && a.tokenizer(input) == b.tokenizer(input)
    && a.posTagger(a.tokenizer(input)) == b.posTagger(b.tokenizer(input))
    && a.lemmatizer(a.tokenizer(input), a.posTagger(a.tokenizer(input)))
       == b.lemmatizer(b.tokenizer(input), b.posTagger(b.tokenizer(input)))
  }

  /** On an FAQ hit, and on a miss with at most one token, the name finders are not
      consulted: chatbots that differ only in their finders give the same reply. */
  lemma FindersOnlyOnLongMiss(a: ChatbotLogic, b: ChatbotLogic, input: string)
    requires SameFrontEnd(a, b, input)
    requires a.CleanLemmatizedPhrase(input) in a.faqResponses || |a.tokenizer(input)| <= 1
    ensures a.EntitySpansFit(input) && b.EntitySpansFit(input)
    ensures a.GetChatbotResponse(input) == b.GetChatbotResponse(input)
  {
  }

  /** Both finders are run on a long miss: when both find something, the reply names the
      person in the person role and the location in the location role. */
  lemma BothRolesNamed(bot: ChatbotLogic, input: string)
    requires bot.EntitySpansFit(input)
    requires bot.CleanLemmatizedPhrase(input) !in bot.faqResponses && |bot.tokenizer(input)| > 1
    requires |bot.nameFinderPerson(bot.tokenizer(input))| > 0
    requires |bot.nameFinderLocation(bot.tokenizer(input))| > 0
    ensures Contains(bot.GetChatbotResponse(input), bot.GetNamedEntity(bot.nameFinderPerson, input).value + " is a person")
    ensures Contains(bot.GetChatbotResponse(input), bot.GetNamedEntity(bot.nameFinderLocation, input).value + " is a location")
  {
    BothReplyNamesRoles(bot.GetNamedEntity(bot.nameFinderPerson, input).value,
                        bot.GetNamedEntity(bot.nameFinderLocation, input).value);
  }

  /** The combined template puts the person before " is a person" and the location
      before " is a location". */
  lemma BothReplyNamesRoles(p: string, l: string)
    ensures Contains(BothReply(p, l), p + " is a person")
    ensures Contains(BothReply(p, l), l + " is a location")
  {
    Regroup("I recognize that ", p, " is a person", " and ", l, " is a location", ". That's interesting!");
  }

  /** Re-bracketing a seven-part concatenation around its second and sixth pieces. */
  lemma Regroup(a: string, p: string, b: string, c: string, l: string, d: string, e: string)
    ensures a + p + b + c + l + d + e == a + (p + b) + (c + l + d + e)
    ensures a + p + b + c + l + d + e == (a + p + b + c) + (l + d) + e
  {
  }

  /** Only the first span matters: finders that agree on it give the same entity. */
  lemma FirstSpanOnly(bot: ChatbotLogic, f: seq<string> -> seq<Span>, g: seq<string> -> seq<Span>, input: string)
    requires FirstSpanFits(f(bot.tokenizer(input)), input)
    requires |f(bot.tokenizer(input))| > 0 && |g(bot.tokenizer(input))| > 0
    requires f(bot.tokenizer(input))[0] == g(bot.tokenizer(input))[0]
    ensures FirstSpanFits(g(bot.tokenizer(input)), input)
    ensures bot.GetNamedEntity(f, input) == bot.GetNamedEntity(g, input)
  {
  }

  /** The constructed table has 17 keys, maps each FAQ phrase to its own answer, and every
      key is a fixed point of normalisation that the lemma sequence of its own words
      reaches. */
  lemma FaqTableFacts(bot: ChatbotLogic)
    requires bot.Valid()
    ensures |bot.faqResponses| == 17
    ensures forall i :: 0 <= i < |FaqEntries| ==>
      FaqEntries[i].phrase in bot.faqResponses && bot.faqResponses[FaqEntries[i].phrase] == FaqEntries[i].answer
    ensures forall k <- bot.faqResponses.Keys :: Canon(k) == k && Normalize(Words(k)) == k
  {
    FaqPhrasesDistinct();
    FaqPhrasesCanonical();
    TableSize(FaqEntries);
    TableKeys(FaqEntries);
    forall i | 0 <= i < |FaqEntries|
      ensures FaqEntries[i].phrase in bot.faqResponses && bot.faqResponses[FaqEntries[i].phrase] == FaqEntries[i].answer
    {
      TableLookup(FaqEntries, i);
    }
    forall k <- bot.faqResponses.Keys
      ensures Canon(k) == k && Normalize(Words(k)) == k
    {
      CanonicalIsFixed(k);
      CanonicalReachable(k);
    }
  }

  /** Every reply is an FAQ answer, one of the three entity templates, or the default. */
  lemma ReplyIsOneOfFour(bot: ChatbotLogic, input: string)
    requires bot.Valid() && bot.EntitySpansFit(input)
    ensures var r := bot.GetChatbotResponse(input);
      (exists i :: 0 <= i < |FaqEntries| && r == FaqEntries[i].answer) || IsEntityReply(r) || r == NotUnderstood
  {
    var phrase := bot.CleanLemmatizedPhrase(input);
    if phrase in bot.faqResponses {
      TableKeys(FaqEntries);
      FaqPhrasesDistinct();
      var i :| 0 <= i < |FaqEntries| && FaqEntries[i].phrase == phrase;
      TableLookup(FaqEntries, i);
    }
  }

  /** The span is read as character offsets although a name finder reports token
      indices: for "John visited Berlin" tokenized into three words, a person span over
      token 0 yields "J", not "John". */
  lemma TokenSpanReadAsCharOffsets(bot: ChatbotLogic, finder: seq<string> -> seq<Span>)
    requires bot.tokenizer("John visited Berlin") == ["John", "visited", "Berlin"]
    requires finder(["John", "visited", "Berlin"]) == [Span(0, 1)]
    ensures bot.GetNamedEntity(finder, "John visited Berlin") == Some("J")
  {
    assert "John visited Berlin"[0..1] == "J";
  }
}
