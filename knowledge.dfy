/** The chatbot's knowledge base: the fixed list of (canonical phrase, answer) pairs the
    `ChatbotLogic` constructor puts into its map, and the map those puts produce. */
module KnowledgeBase {
  import opened Normalization

  /** One FAQ pair: the pre-lemmatized question phrase and the answer text. */
  datatype FaqEntry = FaqEntry(phrase: string, answer: string)

  // The 17 question phrases, in lemmatized and lower-cased form.
  const HiPhrase: string := "hi"
  const HelloPhrase: string := "hello"
  const ContinentsPhrase: string := "how many continent be there"
  const CapitalPhrase: string := "what be the capital of france"
  const HamletPhrase: string := "who write the play hamlet"
  const OceanPhrase: string := "what be the large ocean in the world"
  const RubyPhrase: string := "what be the color of ruby"
  const RedPlanetPhrase: string := "which planet be know as the red planet"
  const MoonPhrase: string := "who be the first man on the moon"
  const AtmospherePhrase: string := "what be the main gas in earth atmosphere"
  const BulbPhrase: string := "who invent the light bulb"
  const CountryPhrase: string := "what be the small country in the world"
  const StudyPhrase: string := "i have doubt regard my study"
  const HowAreYouPhrase: string := "how be you"
  const PurposePhrase: string := "what be your purpose"
  const NamePhrase: string := "your name"
  const ByePhrase: string := "bye"

  /** The 17 pairs, in the order of the constructor's `put` calls. */
  const FaqEntries: seq<FaqEntry> := [
    FaqEntry(HiPhrase, "Hello! How can I assist you today?"),
    FaqEntry(HelloPhrase, "Hello there! What's on your mind?"),
    FaqEntry(ContinentsPhrase, "There are seven continents: Africa, Antarctica, Asia, Australia, Europe, North America, and South America."),
    FaqEntry(CapitalPhrase, "The capital of France is Paris."),
    FaqEntry(HamletPhrase, "William Shakespeare wrote the play Hamlet."),
    FaqEntry(OceanPhrase, "The largest ocean in the world is the Pacific Ocean."),
    FaqEntry(RubyPhrase, "The most common color of a ruby is red."),
    FaqEntry(RedPlanetPhrase, "The planet known as the Red Planet is Mars."),
    FaqEntry(MoonPhrase, "The first man to walk on the moon was Neil Armstrong."),
    FaqEntry(AtmospherePhrase, "The main gas in Earth's atmosphere is nitrogen."),
    FaqEntry(BulbPhrase, "Thomas Edison is credited with inventing the practical incandescent light bulb."),
    FaqEntry(CountryPhrase, "The smallest country in the world is Vatican City."),
    FaqEntry(StudyPhrase, "i understand studying is difficult ,im more than grateful to help you with it"),
    FaqEntry(HowAreYouPhrase, "I'm doing great, thank you for asking!"),
    FaqEntry(PurposePhrase, "I am a conversational agent created to assist you."),
    FaqEntry(NamePhrase, "I don't have a name, but you can call me Chatbot."),
    FaqEntry(ByePhrase, "Goodbye! Have a nice day!")
  ]

  /** A `HashMap` after `put(e.phrase, e.answer)` for each entry in order, starting empty:
      a later put of the same phrase replaces the earlier answer. */
  function Table(entries: seq<FaqEntry>): map<string, string>
  {
    if entries == [] then map[]
    else
      var last := entries[|entries| - 1];
      Table(entries[..|entries| - 1])[last.phrase := last.answer]
  }

  predicate DistinctPhrases(entries: seq<FaqEntry>) {
    forall i, j :: 0 <= i < j < |entries| ==> entries[i].phrase != entries[j].phrase
  }

  // ---- properties of successive puts ----

  /** The keys of the table are exactly the phrases put. */
  lemma {:induction false} TableKeys(entries: seq<FaqEntry>)
    ensures forall k :: k in Table(entries) <==> exists i :: 0 <= i < |entries| && entries[i].phrase == k
  {
    if entries != [] {
      var front := entries[..|entries| - 1];
      TableKeys(front);
      forall k ensures k in Table(entries) <==> exists i :: 0 <= i < |entries| && entries[i].phrase == k {
        if k in Table(front) {
          var i :| 0 <= i < |front| && front[i].phrase == k;
          assert entries[i].phrase == k;
        }
        if exists i :: 0 <= i < |entries| && entries[i].phrase == k {
          var i :| 0 <= i < |entries| && entries[i].phrase == k;
          if i < |front| {
            assert front[i].phrase == k;
          }
        }
      }
    }
  }

  /** With distinct phrases no put overwrites another: each phrase maps to its own answer. */
  lemma {:induction false} TableLookup(entries: seq<FaqEntry>, i: nat)
    requires DistinctPhrases(entries) && i < |entries|
    ensures entries[i].phrase in Table(entries)
    ensures Table(entries)[entries[i].phrase] == entries[i].answer
  {
    var front := entries[..|entries| - 1];
    if i < |front| {
      assert front[i] == entries[i];
      TableLookup(front, i);
    }
  }

  /** With distinct phrases the table has one key per entry. */
  lemma {:induction false} TableSize(entries: seq<FaqEntry>)
    requires DistinctPhrases(entries)
    ensures |Table(entries)| == |entries|
  {
    if entries != [] {
      var front := entries[..|entries| - 1];
      var last := entries[|entries| - 1];
      TableSize(front);
      TableKeys(front);
      assert last.phrase !in Table(front);
    }
  }

  // ---- properties of the fixed list ----

  /** No two of the 17 phrases are equal. */
  lemma FaqPhrasesDistinct()
    ensures |FaqEntries| == 17 && DistinctPhrases(FaqEntries)
  {
    PhrasesDistinctFrom0();
    PhrasesDistinctFrom4();
    PhrasesDistinctFrom8();
    PhrasesDistinctFrom12();
  }

  lemma PhrasesDistinctFrom0()
    ensures forall i, j :: 0 <= i < 4 && i < j < |FaqEntries| ==> FaqEntries[i].phrase != FaqEntries[j].phrase
  {
    PhraseLengths();
    SameLengthPhrasesDiffer();
  }

  lemma PhrasesDistinctFrom4()
    ensures forall i, j :: 4 <= i < 8 && i < j < |FaqEntries| ==> FaqEntries[i].phrase != FaqEntries[j].phrase
  {
    PhraseLengths();
    SameLengthPhrasesDiffer();
  }

  lemma PhrasesDistinctFrom8()
    ensures forall i, j :: 8 <= i < 12 && i < j < |FaqEntries| ==> FaqEntries[i].phrase != FaqEntries[j].phrase
  {
    PhraseLengths();
    SameLengthPhrasesDiffer();
  }

  lemma PhrasesDistinctFrom12()
    ensures forall i, j :: 12 <= i < 17 && i < j < |FaqEntries| ==> FaqEntries[i].phrase != FaqEntries[j].phrase
  {
    PhraseLengths();
    SameLengthPhrasesDiffer();
  }

  /** Every one of the 17 phrases is already canonical: lower-case, punctuation-free and
      trimmed. */
  lemma FaqPhrasesCanonical()
    ensures forall i :: 0 <= i < |FaqEntries| ==> IsCanonical(FaqEntries[i].phrase)
  {
    PlainPhrases0();
    PlainPhrases1();
    PlainPhrases2();
    PlainPhrases3();
    PlainPhrases4();
    PlainPhrases5();
    PlainPhrases6();
    PlainPhrases7();
    forall i | 0 <= i < |FaqEntries|
      ensures IsCanonical(FaqEntries[i].phrase)
    {
      PlainPhraseIsCanonical(FaqEntries[i].phrase);
    }
  }

  /** Lower-case ASCII letters and single-space-free ends: the shape of every FAQ phrase. */
  predicate PlainPhrase(s: string) {
    && (forall i :: 0 <= i < |s| ==> ('a' <= s[i] <= 'z') || s[i] == ' ')
    && s != [] && s[0] != ' ' && s[|s| - 1] != ' '
  }

  lemma PlainPhraseIsCanonical(s: string)
    requires PlainPhrase(s)
    ensures IsCanonical(s)
  {
  }

  // The character checks of the 17 literal phrases, in small groups so that each proof
  // stays cheap.
  lemma PlainPhrases0()
    ensures PlainPhrase(HiPhrase)
         && PlainPhrase(HelloPhrase)
         && PlainPhrase(ByePhrase)
         && PlainPhrase(NamePhrase)
         && PlainPhrase(HowAreYouPhrase)
         && PlainPhrase(PurposePhrase)
  {
  }

  lemma PlainPhrases1()
    ensures PlainPhrase(ContinentsPhrase)
         && PlainPhrase(CapitalPhrase)
  {
  }

  lemma PlainPhrases2()
    ensures PlainPhrase(HamletPhrase)
         && PlainPhrase(RubyPhrase)
  {
  }

  lemma PlainPhrases3()
    ensures PlainPhrase(OceanPhrase)
         && PlainPhrase(BulbPhrase)
  {
  }

  lemma PlainPhrases4()
    ensures PlainPhrase(RedPlanetPhrase)
  {
  }

  lemma PlainPhrases5()
    ensures PlainPhrase(MoonPhrase)
         && PlainPhrase(StudyPhrase)
  {
  }

  lemma PlainPhrases6()
    ensures PlainPhrase(AtmospherePhrase)
  {
  }

  lemma PlainPhrases7()
    ensures PlainPhrase(CountryPhrase)
  {
  }

  /** The phrase lengths, which already tell most phrases apart. */
  lemma PhraseLengths()
    ensures |HiPhrase| == 2
         && |HelloPhrase| == 5
         && |ContinentsPhrase| == 27
         && |CapitalPhrase| == 29
         && |HamletPhrase| == 25
         && |OceanPhrase| == 36
         && |RubyPhrase| == 25
         && |RedPlanetPhrase| == 38
         && |MoonPhrase| == 32
         && |AtmospherePhrase| == 40
         && |BulbPhrase| == 25
         && |CountryPhrase| == 38
         && |StudyPhrase| == 28
         && |HowAreYouPhrase| == 10
         && |PurposePhrase| == 20
         && |NamePhrase| == 9
         && |ByePhrase| == 3
  {
  }

  /** The phrases of equal length differ in some character. */
  lemma SameLengthPhrasesDiffer()
    ensures HamletPhrase[2] != RubyPhrase[2] && HamletPhrase[4] != BulbPhrase[4] && RubyPhrase[2] != BulbPhrase[2]
    ensures RedPlanetPhrase[2] != CountryPhrase[2]
  {
  }
}
