/**
 * `detect_language`: a question is tagged Tagalog when it holds more Tagalog
 * marker words than English stopwords, and English otherwise.
 */
module Language {
  import opened Text

  /** The Tagalog marker words (ai_brain.py:35-38). */
  const TagalogWords: set<string> :=
    {"ako", "ikaw", "siya", "kami", "kayo", "sila", "ang", "ng",
     "sa", "ay", "mga", "na", "at", "para", "kung", "pero",
     "kasi", "oo", "hindi", "salamat", "kamusta", "kumusta",
     "magandang", "araw", "gabi", "umaga", "tanghali"}

  /** `sum(1 for word in words if word in vocabulary)`. */
  function Count(words: seq<string>, vocabulary: set<string>): (n: nat)
    ensures n <= |words|
    ensures n == |words| <==> forall k :: 0 <= k < |words| ==> words[k] in vocabulary
    ensures n == 0 <==> forall k :: 0 <= k < |words| ==> words[k] !in vocabulary
  {
    if words == [] then 0
    else (if words[0] in vocabulary then 1 else 0) + Count(words[1..], vocabulary)
  }

  /** The decision on already-split words: `'tl'` only on a strict majority. */
  function DetectWords(words: seq<string>, english: set<string>): (lang: string)
    ensures lang == "tl" || lang == "en"
  {
    if Count(words, TagalogWords) > Count(words, english) then "tl" else "en"
  }

  /** `detect_language(text)`, with the English stopword corpus passed in. */
  function DetectLanguage(text: string, english: set<string>): (lang: string)
    ensures lang == "tl" || lang == "en"
  {
    DetectWords(Tokens(text), english)
  }

  lemma {:induction false} CountAppend(a: seq<string>, b: seq<string>, vocabulary: set<string>)
    ensures Count(a + b, vocabulary) == Count(a, vocabulary) + Count(b, vocabulary)
  {
    if a == [] {
      assert a + b == b;
    } else {
      assert (a + b)[1..] == a[1..] + b;
      CountAppend(a[1..], b, vocabulary);
    }
  }

  lemma {:induction false} CountMonotone(words: seq<string>, small: set<string>, large: set<string>)
    requires small <= large
    ensures Count(words, small) <= Count(words, large)
  {
    if words != [] {
      CountMonotone(words[1..], small, large);
    }
  }

  /** A tie is English: with no Tagalog marker the answer is `'en'`, whatever the stopwords. */
  lemma NoMarkerIsEnglish(text: string, english: set<string>)
    requires forall k :: 0 <= k < |Tokens(text)| ==> Tokens(text)[k] !in TagalogWords
    ensures DetectLanguage(text, english) == "en"
  {
  }

  /**
   * Words that are both Tagalog markers and English stopwords (such as `at`)
   * count for both sides, so a text made only of them is a tie and thus English.
   */
  lemma {:induction false} SharedWordsAreEnglish(text: string, english: set<string>)
    requires forall k :: 0 <= k < |Tokens(text)| ==> Tokens(text)[k] in TagalogWords * english
    ensures DetectLanguage(text, english) == "en"
  {
    var ws := Tokens(text);
    CountMonotone(ws, TagalogWords * english, TagalogWords);
    CountMonotone(ws, TagalogWords * english, english);
  }

  /** Case never changes the detected language. */
  lemma DetectIgnoresCase(text: string, english: set<string>)
    ensures DetectLanguage(Lower(text), english) == DetectLanguage(text, english)
  {
    LowerIsNoUpper(text);
    LowerOfNoUpper(Lower(text));
  }

  /**
   * Detection agrees with itself across whitespace: two texts that are both
   * tagged the same way are tagged that way when joined by whitespace.
   */
  lemma {:induction false} DetectJoin(a: string, c: char, b: string, english: set<string>)
    requires IsSpace(c)
    requires DetectLanguage(a, english) == DetectLanguage(b, english)
    ensures DetectLanguage(a + [c] + b, english) == DetectLanguage(a, english)
  {
    TokensJoin(a, c, b);
    CountAppend(Tokens(a), Tokens(b), TagalogWords);
    CountAppend(Tokens(a), Tokens(b), english);
  }
}
