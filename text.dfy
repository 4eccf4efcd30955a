/** The Java string operations the chatbot's normalisation pipeline is built from:
    the `\p{Punct}` character class, ASCII lower-casing, `String.trim()` and
    `Collectors.joining`. Strings are sequences of Unicode scalar values (`char`), not
    of Java's UTF-16 code units. */
module Text {

  /** Java's `\p{Punct}` (POSIX class, US-ASCII only): the 32 characters
      !"#$%&'()*+,-./:;<=>?@[\]^_`{|}~ */
  predicate IsPunct(c: char) {
    ('!' <= c <= '/') || (':' <= c <= '@') || ('[' <= c <= '`') || ('{' <= c <= '~')
  }

  predicate IsUpper(c: char) {
    'A' <= c <= 'Z'
  }

  /** `String.trim()` removes every leading and trailing char whose code is at most U+0020. */
  predicate IsTrimmable(c: char) {
    c <= ' '
  }

  predicate NoPunct(s: string) {
    forall i :: 0 <= i < |s| ==> !IsPunct(s[i])
  }

  predicate NoUpper(s: string) {
    forall i :: 0 <= i < |s| ==> !IsUpper(s[i])
  }

  /** Neither end of `s` is a character that `trim()` would remove. */
  predicate Trimmed(s: string) {
    s == [] || (!IsTrimmable(s[0]) && !IsTrimmable(s[|s| - 1]))
  }

  /** `s.replaceAll("\\p{Punct}", "")`: keeps the other characters, in order. */
  function StripPunct(s: string): (r: string)
    ensures |r| <= |s| && NoPunct(r)
    ensures forall c {:trigger multiset(r)[c]} :: !IsPunct(c) ==> multiset(r)[c] == multiset(s)[c]
  {
    if s == [] then []
    else
      assert s == [s[0]] + s[1..];
      if IsPunct(s[0]) then StripPunct(s[1..])
      else [s[0]] + StripPunct(s[1..])
  }

  /** `Character.toLowerCase` restricted to ASCII: 'A'..'Z' become 'a'..'z', all else is kept. */
  function ToLower(c: char): (d: char)
    ensures !IsUpper(d)
    ensures !IsUpper(c) ==> d == c
    ensures IsPunct(d) == IsPunct(c) && IsTrimmable(d) == IsTrimmable(c)
  {
    if IsUpper(c) then (c as int + ('a' as int - 'A' as int)) as char else c
  }

  /** `String.toLowerCase()`, ASCII only. */
  function LowerCase(s: string): (r: string)
    ensures |r| == |s| && NoUpper(r)
    ensures forall i {:trigger r[i]} :: 0 <= i < |s| ==> r[i] == ToLower(s[i])
  {
    if s == [] then [] else [ToLower(s[0])] + LowerCase(s[1..])
  }

  /** The length of the leading run of trimmable characters. */
  function LeadingRun(s: string): (n: nat)
    ensures n <= |s|
    ensures forall k :: 0 <= k < n ==> IsTrimmable(s[k])
    ensures n < |s| ==> !IsTrimmable(s[n])
  {
    if s != [] && IsTrimmable(s[0]) then 1 + LeadingRun(s[1..]) else 0
  }

  /** The length of the trailing run of trimmable characters. */
  function TrailingRun(s: string): (n: nat)
    ensures n <= |s|
    ensures forall k :: |s| - n <= k < |s| ==> IsTrimmable(s[k])
    ensures n < |s| ==> !IsTrimmable(s[|s| - 1 - n])
  {
    if s != [] && IsTrimmable(s[|s| - 1]) then 1 + TrailingRun(s[..|s| - 1]) else 0
  }

  /** `String.trim()`: the slice of `s` after the leading run of trimmable characters,
      whose ends are not trimmable, and outside which every character is trimmable. */
  function Trim(s: string): (r: string)
    ensures Trimmed(r)
    ensures LeadingRun(s) + |r| <= |s| && r == s[LeadingRun(s)..LeadingRun(s) + |r|]
    ensures IsTrimCut(s, LeadingRun(s), LeadingRun(s) + |r|)
  {
    var i := LeadingRun(s);
    if i == |s| then []
    else
      var n := TrailingRun(s);
      assert |s| - n > i by {
        assert !IsTrimmable(s[i]);
      }
      s[i..|s| - n]
  }

  /** Everything of `s` outside `s[i..j]` is trimmable. */
  predicate IsTrimCut(s: string, i: nat, j: nat)
    requires i <= j <= |s|
  {
    (forall k :: 0 <= k < i ==> IsTrimmable(s[k])) && (forall k :: j <= k < |s| ==> IsTrimmable(s[k]))
  }

  /** `Collectors.joining(sep)`: the parts with `sep` between neighbours, "" for no parts. */
  function Join(parts: seq<string>, sep: string): string
  {
    if |parts| == 0 then ""
    else if |parts| == 1 then parts[0]
    else parts[0] + sep + Join(parts[1..], sep)
  }

  /** Splits at every single space, keeping empty fields (so "a  b" has three words). */
  function Words(s: string): (ws: seq<string>)
    ensures |ws| >= 1
    ensures forall k :: 0 <= k < |ws| ==> ' ' !in ws[k]
  {
    if s == [] then [""]
    else
      var rest := Words(s[1..]);
      if s[0] == ' ' then [""] + rest
      else [[s[0]] + rest[0]] + rest[1..]
  }

  // ---- properties ----

  /** Any slice of a trimmed string that `trim()` could have produced is the whole string:
      the result of `Trim` is the only string meeting its own specification. */
  lemma TrimUnique(s: string, i: nat, j: nat)
    requires i <= j <= |s| && IsTrimCut(s, i, j) && Trimmed(s[i..j])
    ensures Trim(s) == s[i..j]
  {
    var i' := LeadingRun(s);
    var j' := i' + |Trim(s)|;
    if i < j {
      TrimCutInside(s, i, j, i', j');
    }
    if i' < j' {
      assert Trim(s)[0] == s[i'] && Trim(s)[|Trim(s)| - 1] == s[j' - 1];
      TrimCutInside(s, i', j', i, j);
    }
  }

  /** A non-empty untrimmable-ended slice lies inside every trim cut. */
  lemma TrimCutInside(s: string, i: nat, j: nat, i': nat, j': nat)
    requires i < j <= |s| && !IsTrimmable(s[i]) && !IsTrimmable(s[j - 1])
    requires i' <= j' <= |s| && IsTrimCut(s, i', j')
    ensures i' <= i && j <= j'
  {
  }

  /** A string with untrimmable ends is left alone by `trim()`. */
  lemma TrimFixed(s: string)
    requires Trimmed(s)
    ensures Trim(s) == s
  {
    assert s[0..|s|] == s;
    TrimUnique(s, 0, |s|);
  }

  lemma {:induction false} StripAppend(a: string, b: string)
    ensures StripPunct(a + b) == StripPunct(a) + StripPunct(b)
  {
    if a != [] {
      assert (a + b)[0] == a[0] && (a + b)[1..] == a[1..] + b;
      StripAppend(a[1..], b);
      if !IsPunct(a[0]) {
        assert StripPunct(a + b) == [a[0]] + StripPunct(a[1..] + b);
      }
    } else {
      assert a + b == b;
    }
  }

  /** Stripping changes exactly the strings that contain punctuation. */
  lemma {:induction false} StripFixedIff(s: string)
    ensures StripPunct(s) == s <==> NoPunct(s)
  {
    if s != [] {
      StripFixedIff(s[1..]);
      if IsPunct(s[0]) {
        assert |StripPunct(s)| <= |s[1..]| < |s|;
      }
    }
  }

  lemma {:induction false} LowerAppend(a: string, b: string)
    ensures LowerCase(a + b) == LowerCase(a) + LowerCase(b)
  {
    if a != [] {
      assert (a + b)[1..] == a[1..] + b;
      LowerAppend(a[1..], b);
    }
  }

  /** Lower-casing changes exactly the strings that contain an uppercase letter. */
  lemma LowerFixedIff(s: string)
    ensures LowerCase(s) == s <==> NoUpper(s)
  {
    if NoUpper(s) {
      assert forall i :: 0 <= i < |s| ==> LowerCase(s)[i] == s[i];
    }
  }

  /** Stripping punctuation and lower-casing commute (lower-casing never makes or
      unmakes punctuation). */
  lemma {:induction false} StripLowerCommute(s: string)
    ensures StripPunct(LowerCase(s)) == LowerCase(StripPunct(s))
  {
    if s != [] {
      assert LowerCase(s)[1..] == LowerCase(s[1..]);
      StripLowerCommute(s[1..]);
    }
  }

  lemma {:induction false} JoinWords(s: string)
    ensures Join(Words(s), " ") == s
  {
    if s != [] {
      JoinWords(s[1..]);
      var rest := Words(s[1..]);
      if s[0] != ' ' && |rest| > 1 {
        assert Join(rest, " ") == rest[0] + " " + Join(rest[1..], " ");
      }
    }
  }

  lemma {:induction false} WordsJoin(ws: seq<string>)
    requires |ws| >= 1
    requires forall k :: 0 <= k < |ws| ==> ' ' !in ws[k]
    ensures Words(Join(ws, " ")) == ws
  {
    if |ws| == 1 {
      WordsOfWord(ws[0]);
    } else {
      WordsJoin(ws[1..]);
      WordsPrefix(ws[0], Join(ws[1..], " "));
    }
  }

  lemma {:induction false} WordsOfWord(w: string)
    requires ' ' !in w
    ensures Words(w) == [w]
  {
    if w != [] {
      assert w[0] in w && w == [w[0]] + w[1..];
      WordsOfWord(w[1..]);
    }
  }

  lemma {:induction false} WordsPrefix(w: string, t: string)
    requires ' ' !in w
    ensures Words(w + " " + t) == [w] + Words(t)
  {
    if w == [] {
      assert ([] + " " + t)[1..] == t;
    } else {
      assert w[0] in w && w == [w[0]] + w[1..];
      assert (w + " " + t)[0] == w[0] && (w + " " + t)[1..] == w[1..] + " " + t;
      WordsPrefix(w[1..], t);
    }
  }
}
