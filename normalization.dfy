/** The canonical phrase a query is looked up by: each lemma loses its punctuation,
    the lemmas are joined with single spaces, and the whole is lower-cased and trimmed. */
module Normalization {
  import opened Text

  /** A phrase that normalisation leaves alone: no punctuation, no uppercase letter,
      no trimmable character at either end. */
  predicate IsCanonical(p: string) {
    NoPunct(p) && NoUpper(p) && Trimmed(p)
  }

  /** `Stream.of(lemmas).map(s -> s.replaceAll("\\p{Punct}", ""))` */
  function StripEach(lemmas: seq<string>): seq<string>
  {
    seq(|lemmas|, i requires 0 <= i < |lemmas| => StripPunct(lemmas[i]))
  }

  /** The three per-string steps of the pipeline applied to one string. */
  function Canon(s: string): string
  {
    Trim(LowerCase(StripPunct(s)))
  }

  /** The canonical lemmatized phrase of a lemma sequence. Interior runs of spaces
      (from lemmas that were all punctuation) are kept, not collapsed. */
  function Normalize(lemmas: seq<string>): (phrase: string)
    ensures IsCanonical(phrase)
  {
    var joined := Join(StripEach(lemmas), " ");
    StripJoin(lemmas);
    var lowered := LowerCase(joined);
    TrimKeepsCanonicalChars(lowered);
    Trim(lowered)
  }

  /** Trimming only cuts off ends, so it adds no punctuation and no uppercase letter. */
  lemma TrimKeepsCanonicalChars(s: string)
    requires NoPunct(s) && NoUpper(s)
    ensures IsCanonical(Trim(s))
  {
    var i := LeadingRun(s);
    assert forall k :: 0 <= k < |Trim(s)| ==> Trim(s)[k] == s[i + k];
  }

  // ---- properties ----

  /** Every step of the pipeline fixes a canonical phrase. */
  lemma CanonicalIsFixed(p: string)
    requires IsCanonical(p)
    ensures StripPunct(p) == p && LowerCase(p) == p && Trim(p) == p
    ensures Canon(p) == p
  {
    StripFixedIff(p);
    LowerFixedIff(p);
    TrimFixed(p);
  }

  /** Stripping the joined string is the same as stripping each lemma, because the
      separator is not punctuation. */
  lemma {:induction false} StripJoin(lemmas: seq<string>)
    ensures StripPunct(Join(lemmas, " ")) == Join(StripEach(lemmas), " ")
  {
    if |lemmas| > 1 {
      var rest := Join(lemmas[1..], " ");
      StripJoin(lemmas[1..]);
      assert StripEach(lemmas[1..]) == StripEach(lemmas)[1..];
      assert Join(StripEach(lemmas), " ") == StripPunct(lemmas[0]) + " " + StripPunct(rest);
      assert Join(lemmas, " ") == lemmas[0] + (" " + rest);
      StripAppend(" ", rest);
      assert StripPunct(" ") == " ";
      StripAppend(lemmas[0], " " + rest);
    }
  }

  /** Normalising a lemma sequence is the pipeline applied to the space-joined lemmas. */
  lemma NormalizeIsCanonOfJoin(lemmas: seq<string>)
    ensures Normalize(lemmas) == Canon(Join(lemmas, " "))
  {
    StripJoin(lemmas);
  }

  /** Re-running strip, lower-case and trim on a normalised phrase changes nothing, and
      so does normalising it again as a single lemma. */
  lemma NormalizeIdempotent(lemmas: seq<string>)
    ensures Canon(Normalize(lemmas)) == Normalize(lemmas)
    ensures Normalize([Normalize(lemmas)]) == Normalize(lemmas)
  {
    var p := Normalize(lemmas);
    CanonicalIsFixed(p);
    NormalizeIsCanonOfJoin([p]);
  }

  /** The pipeline on a single string is idempotent and its result is canonical. */
  lemma CanonIdempotent(s: string)
    ensures IsCanonical(Canon(s))
    ensures Canon(Canon(s)) == Canon(s)
  {
    NormalizeIsCanonOfJoin([s]);
    CanonicalIsFixed(Canon(s));
  }

  /** Every canonical phrase is the normal form of its own space-separated words, so a
      lemmatizer that yields exactly those words reaches it. */
  lemma CanonicalReachable(p: string)
    requires IsCanonical(p)
    ensures Normalize(Words(p)) == p
  {
    NormalizeIsCanonOfJoin(Words(p));
    JoinWords(p);
    CanonicalIsFixed(p);
  }

  /** Only canonical phrases are normal forms: a phrase is reachable iff it is canonical. */
  lemma ReachableIffCanonical(p: string)
    ensures (exists lemmas :: Normalize(lemmas) == p) <==> IsCanonical(p)
  {
    if IsCanonical(p) {
      CanonicalReachable(p);
    }
  }

  /** The case of the lemmas does not matter. */
  lemma NormalizeIgnoresCase(lemmas: seq<string>)
    ensures Normalize(LowerEach(lemmas)) == Normalize(lemmas)
  {
    NormalizeIsCanonOfJoin(lemmas);
    NormalizeIsCanonOfJoin(LowerEach(lemmas));
    JoinLower(lemmas);
    var joined := Join(lemmas, " ");
    StripLowerCommute(joined);
    LowerTwice(StripPunct(joined));
  }

  function LowerEach(lemmas: seq<string>): seq<string>
  {
    seq(|lemmas|, i requires 0 <= i < |lemmas| => LowerCase(lemmas[i]))
  }

  lemma {:induction false} JoinLower(lemmas: seq<string>)
    ensures Join(LowerEach(lemmas), " ") == LowerCase(Join(lemmas, " "))
  {
    if |lemmas| > 1 {
      var rest := Join(lemmas[1..], " ");
      JoinLower(lemmas[1..]);
      assert LowerEach(lemmas[1..]) == LowerEach(lemmas)[1..];
      assert Join(LowerEach(lemmas), " ") == LowerCase(lemmas[0]) + " " + LowerCase(rest);
      assert Join(lemmas, " ") == lemmas[0] + (" " + rest);
      LowerAppend(" ", rest);
      assert LowerCase(" ") == " ";
      LowerAppend(lemmas[0], " " + rest);
    }
  }

  lemma LowerTwice(s: string)
    ensures LowerCase(LowerCase(s)) == LowerCase(s)
  {
    LowerFixedIff(LowerCase(s));
  }

  /** A lemma that is all punctuation (a "," token, say) between two canonical words
      leaves two spaces in the phrase: interior spaces are never collapsed. */
  lemma EmptiedLemmaLeavesDoubleSpace(a: string, m: string, b: string)
    requires IsCanonical(a) && IsCanonical(b) && a != [] && b != []
    requires forall k :: 0 <= k < |m| ==> IsPunct(m[k])
    ensures Normalize([a, m, b]) == a + "  " + b
  {
    assert StripEach([a, m, b]) == [a, "", b] by {
      AllPunctStrips(m);
      StripFixedIff(a);
      StripFixedIff(b);
    }
    assert Join([a, "", b], " ") == a + "  " + b by {
      JoinThree(a, "", b);
      assert "" + " " + b == " " + b;
      assert a + " " + (" " + b) == a + "  " + b;
    }
    SpacedPairFixed(a, b);
  }

  lemma JoinThree(a: string, m: string, b: string)
    ensures Join([a, m, b], " ") == a + " " + (m + " " + b)
  {
    assert [a, m, b][1..] == [m, b] && [m, b][1..] == [b];
    assert Join([m, b], " ") == m + " " + b;
  }

  /** Two canonical words around two spaces survive lower-casing and trimming. */
  lemma SpacedPairFixed(a: string, b: string)
    requires IsCanonical(a) && IsCanonical(b) && a != [] && b != []
    ensures Trim(LowerCase(a + "  " + b)) == a + "  " + b
  {
    SpacedPairLower(a, b);
    SpacedPairTrimmed(a, b);
    TrimFixed(a + "  " + b);
  }

  lemma SpacedPairLower(a: string, b: string)
    requires NoUpper(a) && NoUpper(b)
    ensures LowerCase(a + "  " + b) == a + "  " + b
  {
    LowerFixedIff(a);
    LowerFixedIff(b);
    LowerAppend(a + "  ", b);
    LowerAppend(a, "  ");
    assert LowerCase("  ") == "  ";
  }

  lemma SpacedPairTrimmed(a: string, b: string)
    requires Trimmed(a) && Trimmed(b) && a != [] && b != []
    ensures Trimmed(a + "  " + b)
  {
    var p := a + "  " + b;
    assert p[0] == a[0] && p[|p| - 1] == b[|b| - 1];
  }

  lemma {:induction false} AllPunctStrips(m: string)
    requires forall k :: 0 <= k < |m| ==> IsPunct(m[k])
    ensures StripPunct(m) == ""
  {
    if m != [] {
      AllPunctStrips(m[1..]);
    }
  }
}
