/**
 * The string handling the knowledge engine uses on every question:
 * `str.lower()`, `str.strip()` and `str.split()` as Python defines them,
 * restricted to the character classes the engine depends on.
 */
module Text {

  /** Python's `str.isspace`: the characters `strip()` and `split()` treat as whitespace. */
  predicate IsSpace(c: char)
  {
    ('\t' <= c <= '\r') || ('\U{001C}' <= c <= ' ') || c == '\U{0085}' || c == '\U{00A0}' ||
    c == '\U{1680}' || ('\U{2000}' <= c <= '\U{200A}') || c == '\U{2028}' || c == '\U{2029}' ||
    c == '\U{202F}' || c == '\U{205F}' || c == '\U{3000}'
  }

  /**
   * The capitals `str.lower()` maps to a single lower-case character, in the
   * blocks this model covers: ASCII, Latin-1, Latin Extended-A (where capitals
   * and small letters alternate), the basic Greek and the basic Cyrillic capitals.
   */
  predicate IsUpper(c: char)
  {
    ('A' <= c <= 'Z') || ('\U{00C0}' <= c <= '\U{00DE}' && c != '\U{00D7}') ||
    (('\U{0100}' <= c <= '\U{012F}' || '\U{0132}' <= c <= '\U{0137}' || '\U{014A}' <= c <= '\U{0177}') && c as int % 2 == 0) ||
    (('\U{0139}' <= c <= '\U{0148}' || '\U{0179}' <= c <= '\U{017E}') && c as int % 2 == 1) ||
    c == '\U{0178}' || ('\U{0391}' <= c <= '\U{03A9}' && c != '\U{03A2}') || ('\U{0400}' <= c <= '\U{042F}')
  }

  /** The lower-case form of one character; everything that is not a capital is kept. */
  function LowerChar(c: char): char
  {
    if !IsUpper(c) then c
    else if c == '\U{0178}' then '\U{00FF}'
    else if '\U{0100}' <= c <= '\U{017F}' then (c as int + 1) as char
    else if '\U{0400}' <= c <= '\U{040F}' then (c as int + 80) as char
    else (c as int + 32) as char
  }

  /** `s.lower()`, character by character. */
  function Lower(s: string): (r: string)
    ensures |r| == |s| && forall i :: 0 <= i < |s| ==> r[i] == LowerChar(s[i])
  {
    if s == [] then [] else Lower(s[..|s| - 1]) + [LowerChar(s[|s| - 1])]
  }

  predicate NoUpper(s: string)
  {
    forall i :: 0 <= i < |s| ==> !IsUpper(s[i])
  }

  predicate NoSpace(s: string)
  {
    forall i :: 0 <= i < |s| ==> !IsSpace(s[i])
  }

  predicate AllSpace(s: string)
  {
    forall i :: 0 <= i < |s| ==> IsSpace(s[i])
  }

  /** `s.lstrip()`: leading whitespace removed (see `TrimLeftCuts`). */
  function TrimLeft(s: string): string
  {
    if |s| > 0 && IsSpace(s[0]) then TrimLeft(s[1..]) else s
  }

  /** `s.rstrip()`: trailing whitespace removed (see `TrimRightCuts`). */
  function TrimRight(s: string): string
  {
    if |s| > 0 && IsSpace(s[|s| - 1]) then TrimRight(s[..|s| - 1]) else s
  }

  /** `s.strip()`. */
  function Strip(s: string): string
  {
    TrimRight(TrimLeft(s))
  }

  /** A key as the store keeps it: lower-case, with no whitespace at either end. */
  predicate IsNormal(s: string)
  {
    NoUpper(s) && (|s| > 0 ==> !IsSpace(s[0]) && !IsSpace(s[|s| - 1]))
  }

  /** `question.lower().strip()`, the store's key for a question. */
  function Normalize(s: string): string
  {
    Strip(Lower(s))
  }

  /** The longest prefix of `s` without whitespace. */
  function Word(s: string): (w: string)
    ensures |w| <= |s| && w == s[..|w|]
    ensures NoSpace(w)
    ensures |w| < |s| ==> IsSpace(s[|w|])
  {
    if |s| == 0 || IsSpace(s[0]) then [] else [s[0]] + Word(s[1..])
  }

  /** `s.split()` without a separator: the maximal runs of non-whitespace, in order. */
  function Split(s: string): (ws: seq<string>)
    ensures forall k :: 0 <= k < |ws| ==> ws[k] != [] && NoSpace(ws[k])
    decreases |s|
  {
    if |s| == 0 then []
    else if IsSpace(s[0]) then Split(s[1..])
    else
      var w := Word(s);
      [w] + Split(s[|w|..])
  }

  /** `s.lower().split()`, the tokens the keyword and language rules look at. */
  function Tokens(s: string): seq<string>
  {
    Split(Lower(s))
  }

  // ---------------------------------------------------------------------------
  // Lower

  /** A lowered character is never a capital, so lowering twice is lowering once. */
  lemma LowerCharIsLower(c: char)
    ensures !IsUpper(LowerChar(c))
  {
  }

  lemma LowerIsNoUpper(s: string)
    ensures NoUpper(Lower(s))
  {
    forall i | 0 <= i < |s| ensures !IsUpper(Lower(s)[i]) {
      LowerCharIsLower(s[i]);
    }
  }

  lemma LowerOfNoUpper(s: string)
    requires NoUpper(s)
    ensures Lower(s) == s
  {
    assert forall i :: 0 <= i < |s| ==> Lower(s)[i] == s[i];
  }

  lemma LowerAppend(a: string, b: string)
    ensures Lower(a + b) == Lower(a) + Lower(b)
  {
    assert forall i :: 0 <= i < |a| ==> (a + b)[i] == a[i];
    assert forall i :: |a| <= i < |a| + |b| ==> (a + b)[i] == b[i - |a|];
  }

  lemma LowerKeepsSpace(c: char)
    ensures IsSpace(LowerChar(c)) <==> IsSpace(c)
  {
  }

  // ---------------------------------------------------------------------------
  // Strip and Normalize

  lemma NoUpperSlice(s: string, i: nat, j: nat)
    requires NoUpper(s) && i <= j <= |s|
    ensures NoUpper(s[i..j])
  {
    assert forall k :: 0 <= k < j - i ==> s[i..j][k] == s[i + k];
  }

  /** What `lstrip` keeps is a suffix of `s`, everything it cut was whitespace, and it starts with a non-space. */
  lemma {:induction false} TrimLeftCuts(s: string)
    ensures |TrimLeft(s)| <= |s| && TrimLeft(s) == s[|s| - |TrimLeft(s)|..]
    ensures AllSpace(s[..|s| - |TrimLeft(s)|])
    ensures TrimLeft(s) != [] ==> !IsSpace(TrimLeft(s)[0])
    decreases |s|
  {
    if |s| > 0 && IsSpace(s[0]) {
      var r := s[1..];
      TrimLeftCuts(r);
      var n := |r| - |TrimLeft(r)|;
      assert TrimLeft(s) == TrimLeft(r) == r[n..] == s[n + 1..];
      assert s[..n + 1] == [s[0]] + r[..n];
    } else {
      assert s[0..] == s;
    }
  }

  /** What `rstrip` keeps is a prefix of `s`, everything it cut was whitespace, and it ends with a non-space. */
  lemma {:induction false} TrimRightCuts(s: string)
    ensures |TrimRight(s)| <= |s| && TrimRight(s) == s[..|TrimRight(s)|]
    ensures AllSpace(s[|TrimRight(s)|..])
    ensures TrimRight(s) != [] ==> !IsSpace(TrimRight(s)[|TrimRight(s)| - 1])
    decreases |s|
  {
    if |s| > 0 && IsSpace(s[|s| - 1]) {
      var l := s[..|s| - 1];
      TrimRightCuts(l);
      var n := |TrimRight(l)|;
      assert TrimRight(s) == TrimRight(l) == l[..n] == s[..n];
      assert s[n..] == l[n..] + [s[|s| - 1]];
    } else {
      assert s[..|s|] == s;
    }
  }

  lemma StripSlice(s: string) returns (i: nat, j: nat)
    ensures i <= j <= |s| && Strip(s) == s[i..j]
    ensures AllSpace(s[..i]) && AllSpace(s[j..])
    ensures Strip(s) != [] ==> !IsSpace(Strip(s)[0]) && !IsSpace(Strip(s)[|Strip(s)| - 1])
  {
    var l := TrimLeft(s);
    TrimLeftCuts(s);
    TrimRightCuts(l);
    i := |s| - |l|;
    j := i + |TrimRight(l)|;
    assert s[j..] == l[|TrimRight(l)|..];
  }

  /** Whatever comes out of `Normalize` is a key in normal form. */
  lemma NormalizeIsNormal(s: string)
    ensures IsNormal(Normalize(s))
  {
    LowerIsNoUpper(s);
    var i, j := StripSlice(Lower(s));
    NoUpperSlice(Lower(s), i, j);
  }

  /** A key already in normal form is its own key. */
  lemma NormalOfNormal(s: string)
    requires IsNormal(s)
    ensures Normalize(s) == s
  {
    LowerOfNoUpper(s);
  }

  /** Normalising twice is normalising once. */
  lemma NormalizeIdempotent(s: string)
    ensures Normalize(Normalize(s)) == Normalize(s)
  {
    NormalizeIsNormal(s);
    NormalOfNormal(Normalize(s));
  }

  /** Case does not matter to the key. */
  lemma NormalizeIgnoresCase(s: string)
    ensures Normalize(Lower(s)) == Normalize(s)
  {
    LowerIsNoUpper(s);
    LowerOfNoUpper(Lower(s));
  }

  lemma TrimLeftSpace(c: char, s: string)
    requires IsSpace(c)
    ensures TrimLeft([c] + s) == TrimLeft(s)
  {
    assert ([c] + s)[1..] == s;
  }

  lemma TrimRightSpace(s: string, c: char)
    requires IsSpace(c)
    ensures TrimRight(s + [c]) == TrimRight(s)
  {
    assert (s + [c])[..|s|] == s;
  }

  lemma TrimLeftThenSpace(s: string, c: char)
    requires IsSpace(c)
    ensures TrimRight(TrimLeft(s + [c])) == TrimRight(TrimLeft(s))
    decreases |s|
  {
    if |s| > 0 && IsSpace(s[0]) {
      assert (s + [c])[1..] == s[1..] + [c];
      TrimLeftThenSpace(s[1..], c);
    } else if |s| > 0 {
      TrimRightSpace(s, c);
    }
  }

  /** Whitespace before or after a question does not matter to the key. */
  lemma NormalizeIgnoresPadding(s: string, c: char)
    requires IsSpace(c)
    ensures Normalize([c] + s) == Normalize(s)
    ensures Normalize(s + [c]) == Normalize(s)
  {
    LowerAppend([c], s);
    LowerAppend(s, [c]);
    assert Lower([c]) == [LowerChar(c)];
    LowerKeepsSpace(c);
    TrimLeftSpace(LowerChar(c), Lower(s));
    TrimLeftThenSpace(Lower(s), LowerChar(c));
  }

  // ---------------------------------------------------------------------------
  // Split

  lemma {:induction false} WordOfNoSpace(w: string)
    requires NoSpace(w)
    ensures Word(w) == w
    decreases |w|
  {
    if |w| > 0 {
      WordOfNoSpace(w[1..]);
    }
  }

  lemma {:induction false} WordBeforeSpace(a: string, c: char, b: string)
    requires IsSpace(c)
    ensures Word(a + [c] + b) == Word(a)
    decreases |a|
  {
    if |a| > 0 && !IsSpace(a[0]) {
      assert (a + [c] + b)[1..] == a[1..] + [c] + b;
      WordBeforeSpace(a[1..], c, b);
    }
  }

  /** Splitting text joined by whitespace is splitting each part. */
  lemma {:induction false} SplitJoin(a: string, c: char, b: string)
    requires IsSpace(c)
    ensures Split(a + [c] + b) == Split(a) + Split(b)
    decreases |a|
  {
    var s := a + [c] + b;
    if |a| == 0 {
      assert s[1..] == b;
    } else if IsSpace(a[0]) {
      assert s[1..] == a[1..] + [c] + b;
      SplitJoin(a[1..], c, b);
    } else {
      WordBeforeSpace(a, c, b);
      var w := Word(a);
      assert s[|w|..] == a[|w|..] + [c] + b;
      SplitJoin(a[|w|..], c, b);
    }
  }

  /** Tokens of two texts joined by whitespace are the tokens of each, in order. */
  lemma TokensJoin(a: string, c: char, b: string)
    requires IsSpace(c)
    ensures Tokens(a + [c] + b) == Tokens(a) + Tokens(b)
  {
    LowerAppend(a + [c], b);
    LowerAppend(a, [c]);
    assert Lower([c]) == [LowerChar(c)];
    LowerKeepsSpace(c);
    SplitJoin(Lower(a), LowerChar(c), Lower(b));
  }

  /** No token ever contains whitespace, so a two-word phrase can never equal a token. */
  lemma PhraseIsNeverToken(s: string, phrase: string)
    requires exists i :: 0 <= i < |phrase| && IsSpace(phrase[i])
    ensures phrase !in Tokens(s)
  {
  }
}
