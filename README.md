# Chatbot response engine in Dafny

This project models `ChatbotLogic`, the response engine of a small desktop FAQ chatbot. The engine answers a query in four steps:

1. It tokenizes, part-of-speech tags and lemmatizes the query with OpenNLP models.
2. It reduces the lemmas to a canonical phrase: punctuation is removed from every lemma, the lemmas are joined with single spaces, and the result is lower-cased and trimmed.
3. It looks the phrase up in a fixed table of 17 FAQ phrases.
4. On a miss with more than one token, it runs a person finder and a location finder. The reply then names what they found, using one of three templates. Every other query gets a fixed apology.

The model has four modules:

- `Text`: the Java string operations the pipeline uses, namely `replaceAll("\\p{Punct}", "")`, `toLowerCase()`, `trim()` and `Collectors.joining`.
- `Normalization`: the canonical-phrase pipeline and its properties.
- `KnowledgeBase`: the 17 FAQ pairs, and the map that putting them in order produces.
- `Chatbot`: the `ChatbotLogic` class.

In `ChatbotLogic`, the OpenNLP models are function-valued constant fields given to the constructor. The FAQ map is a constant field, set once by the constructor and never modified afterwards. `GetChatbotResponse` and `GetNamedEntity` are functions over this read-only state, since the source methods only branch and return.

A name finder reports spans in token indices, but `getCoveredText(originalInput)` reads them as character offsets into the raw input. The model reproduces this literally. `GetNamedEntity` returns the characters `start..end` of the input. `getCoveredText` throws unless `start <= end <= input.length()`, so that bound is a precondition. `Chatbot.TokenSpanReadAsCharOffsets` shows the consequence: for "John visited Berlin", a person span over token 0 yields "J", not "John".

## Model

| member | source | states |
|---|---|---|
| Text.StripPunct | Chatbot/src/harry/Chatbotgui.java:197 | the result has no `\p{Punct}` character, is no longer than the input, and keeps every other character with its multiplicity |
| Text.LowerCase | Chatbot/src/harry/Chatbotgui.java:199 | the result has the input's length, contains no uppercase ASCII letter, and is the input lowered character by character |
| Text.Trim | Chatbot/src/harry/Chatbotgui.java:200 | the result is a slice of the input whose two ends are not trimmable, and everything cut away is a character at or below U+0020 |
| Text.TrimUnique | Chatbot/src/harry/Chatbotgui.java:200 | any slice meeting `trim()`'s description is the result of `Trim`, so the result is determined by that description |
| Text.TrimFixed | Chatbot/src/harry/Chatbotgui.java:200 | trimming a string whose ends are not whitespace changes nothing |
| Text.StripAppend | Chatbot/src/harry/Chatbotgui.java:197 | stripping punctuation distributes over concatenation |
| Text.StripFixedIff | Chatbot/src/harry/Chatbotgui.java:197 | stripping leaves a string unchanged exactly when it contains no punctuation |
| Text.LowerAppend | Chatbot/src/harry/Chatbotgui.java:199 | lower-casing distributes over concatenation |
| Text.LowerFixedIff | Chatbot/src/harry/Chatbotgui.java:199 | lower-casing leaves a string unchanged exactly when it has no uppercase letter |
| Text.StripLowerCommute | Chatbot/src/harry/Chatbotgui.java:197-199 | stripping punctuation and lower-casing can be done in either order |
| Text.JoinWords | Chatbot/src/harry/Chatbotgui.java:198 | joining the space-separated words of a string with " " gives back the string |
| Text.WordsJoin | Chatbot/src/harry/Chatbotgui.java:198 | splitting at spaces undoes joining with " " when no part contains a space |
| Normalization.Normalize | Chatbot/src/harry/Chatbotgui.java:196-200 | the canonical phrase has no punctuation, no uppercase ASCII letter, and no leading or trailing whitespace |
| Normalization.StripJoin | Chatbot/src/harry/Chatbotgui.java:196-198 | stripping each lemma and then joining equals joining and then stripping, because the separator is not punctuation |
| Normalization.NormalizeIsCanonOfJoin | Chatbot/src/harry/Chatbotgui.java:196-200 | the canonical phrase is strip, lower-case and trim applied to the space-joined lemmas |
| Normalization.CanonicalIsFixed | Chatbot/src/harry/Chatbotgui.java:197-200 | each of strip, lower-case and trim leaves a canonical phrase unchanged |
| Normalization.NormalizeIdempotent | Chatbot/src/harry/Chatbotgui.java:196-200 | re-applying strip, lower-case and trim to a normalised phrase changes nothing, nor does normalising it again as one lemma |
| Normalization.CanonIdempotent | Chatbot/src/harry/Chatbotgui.java:197-200 | the three string steps applied to any string give a canonical phrase, and applying them twice equals applying them once |
| Normalization.CanonicalReachable | Chatbot/src/harry/Chatbotgui.java:196-200 | every canonical phrase is the normal form of its own space-separated words |
| Normalization.ReachableIffCanonical | Chatbot/src/harry/Chatbotgui.java:196-200 | a phrase is the normal form of some lemma sequence exactly when it is canonical |
| Normalization.NormalizeIgnoresCase | Chatbot/src/harry/Chatbotgui.java:196-200 | lower-casing the lemmas beforehand does not change the canonical phrase |
| Normalization.EmptiedLemmaLeavesDoubleSpace | Chatbot/src/harry/Chatbotgui.java:196-200 | a lemma made only of punctuation between two canonical words leaves two spaces between them, and interior spaces are not collapsed |
| KnowledgeBase.TableKeys | Chatbot/src/harry/Chatbotgui.java:168-187 | a phrase is a key of the map built by the puts exactly when some put used it |
| KnowledgeBase.TableLookup | Chatbot/src/harry/Chatbotgui.java:168-187 | with distinct phrases, every put phrase maps to the answer put with it |
| KnowledgeBase.TableSize | Chatbot/src/harry/Chatbotgui.java:168-187 | with distinct phrases, the map has one key per put |
| KnowledgeBase.FaqPhrasesDistinct | Chatbot/src/harry/Chatbotgui.java:171-187 | there are 17 FAQ pairs and their phrases are pairwise distinct |
| KnowledgeBase.FaqPhrasesCanonical | Chatbot/src/harry/Chatbotgui.java:171-187 | every FAQ phrase is canonical: no punctuation, no uppercase letter, no outer whitespace |
| Chatbot.ChatbotLogic.constructor | Chatbot/src/harry/Chatbotgui.java:161-187 | the model fields are the given models, and the FAQ map is the one the 17 puts produce |
| Chatbot.ChatbotLogic.GetNamedEntity | Chatbot/src/harry/Chatbotgui.java:224-231 | there is no entity exactly when the finder yields no span; otherwise the entity is the input's characters from the first span's start to its end |
| Chatbot.ChatbotLogic.GetChatbotResponse | Chatbot/src/harry/Chatbotgui.java:190-222 | an FAQ hit returns the mapped answer; a miss with at most one token returns the apology; a longer miss picks the both, person, location or apology reply from which finders found something; every reply is an answer, a template or the apology |
| Chatbot.FindersOnlyOnLongMiss | Chatbot/src/harry/Chatbotgui.java:204-208 | on a hit, or on a miss with at most one token, the name finders do not affect the reply |
| Chatbot.BothRolesNamed | Chatbot/src/harry/Chatbotgui.java:208-213 | on a longer miss where both finders find something, the reply says the person is a person and the location is a location |
| Chatbot.BothReplyNamesRoles | Chatbot/src/harry/Chatbotgui.java:213 | the combined template contains "P is a person" and "L is a location" |
| Chatbot.FirstSpanOnly | Chatbot/src/harry/Chatbotgui.java:226-228 | finders that agree on their first span give the same entity, so later spans are ignored |
| Chatbot.FaqTableFacts | Chatbot/src/harry/Chatbotgui.java:168-187 | the constructed map has 17 keys and maps each FAQ phrase to its answer; every key is a fixed point of normalisation and the normal form of its own words |
| Chatbot.ReplyIsOneOfFour | Chatbot/src/harry/Chatbotgui.java:204-221 | every reply is one of four things: one of the 17 FAQ answers, one of the three entity templates, or the apology |
| Chatbot.TokenSpanReadAsCharOffsets | Chatbot/src/harry/Chatbotgui.java:225-228 | a token span over "John" in "John visited Berlin" is read as character offsets and yields "J" |

## Left out

- The Swing window (`Chatbotgui`): layout, message display, caret handling and the action listener. These are presentation and event wiring.
- Loading the five models from classpath resources, and the `FileNotFoundException` checks on them. These are I/O. The constructor takes the loaded models as parameters.
- The internals of the OpenNLP tokenizer, tagger, lemmatizer, name finders and `Span`. They are foreign statistical models, so they are uninterpreted functions here.
- The debug `System.out.println` of the lemmatized phrase. It is output only and does not affect the reply.
- Text.LowerCase: lowers ASCII letters only, not Java's full Unicode and locale-dependent `toLowerCase()`. Every FAQ phrase and every property here is stated over ASCII.
- Chatbot.ChatbotLogic.GetNamedEntity: the `getCoveredText` bounds check is a precondition. The `IllegalArgumentException` it would throw is not modelled as a value, and `getChatbotResponse` catches nothing.
- Chatbot.ChatbotLogic.GetNamedEntity: span offsets and the `end <= length()` bound count Unicode scalar values, not Java's UTF-16 code units, so on input holding a character outside the Basic Multilingual Plane (an emoji, say) the covered text and the bound differ from Java's.
- Chatbot.ChatbotLogic.GetChatbotResponse: the name finders are stateless functions. OpenNLP's `NameFinderME.find` updates adaptive data that later calls read, and nothing clears it, so whether a query reaches the finders can change what they find on later queries; that cross-query state is not captured, and `FindersOnlyOnLongMiss` speaks of one query only.
- Chatbot.ChatbotLogic.GetChatbotResponse: the person finder runs before the location finder. That order is not observable in this pure model, because the finders are functions without side effects.
- Chatbot.ChatbotLogic.constructor: the 17 successive `put` calls are the fold `Table` over the list of pairs in put order, not 17 separate statements.
