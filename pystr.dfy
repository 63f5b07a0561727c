/** The built-in `str` operations the service applies to query text and names:
    `split()`, `strip()`, `lower()` and `title()`, each with no arguments.
    Whitespace is Python's `str.isspace()`; upper and lower case are those of
    the ASCII letters (see README, "Left out"). */
module PyStr {

  /** `c.isspace()`: the characters `split()` and `strip()` treat as separators. */
  predicate IsSpace(c: char) {
    || c == ' '
    || ('\t' <= c <= '\r')
    || ('\U{1c}' <= c <= '\U{1f}')
    || c == '\U{85}' || c == '\U{a0}' || c == '\U{1680}'
    || ('\U{2000}' <= c <= '\U{200a}')
    || c == '\U{2028}' || c == '\U{2029}' || c == '\U{202f}' || c == '\U{205f}' || c == '\U{3000}'
  }

  predicate IsUpper(c: char) { 'A' <= c <= 'Z' }

  predicate IsLower(c: char) { 'a' <= c <= 'z' }

  /** A character that has an upper- and a lower-case form. */
  predicate IsCased(c: char) { IsUpper(c) || IsLower(c) }

  function ToLower(c: char): char {
    if IsUpper(c) then (c as int + 32) as char else c
  }

  function ToUpper(c: char): char {
    if IsLower(c) then (c as int - 32) as char else c
  }

  predicate AllSpace(s: string) {
    forall i :: 0 <= i < |s| ==> IsSpace(s[i])
  }

  predicate NoSpace(s: string) {
    forall i :: 0 <= i < |s| ==> !IsSpace(s[i])
  }

  // ---------------------------------------------------------------------------
  // lower()
  // ---------------------------------------------------------------------------

  /** `s.lower()`: every character in lower case, nothing else changed. */
  function Lower(s: string): (r: string)
    ensures |r| == |s|
    ensures forall i :: 0 <= i < |s| ==> r[i] == ToLower(s[i])
    ensures forall i :: 0 <= i < |r| ==> !IsUpper(r[i])
  {
    if s == [] then [] else [ToLower(s[0])] + Lower(s[1..])
  }

  // ---------------------------------------------------------------------------
  // title()
  // ---------------------------------------------------------------------------

  /** How `title()` maps one character: lower case after a cased character,
      upper (title) case otherwise. */
  function TitleChar(afterCased: bool, c: char): char {
    if afterCased then ToLower(c) else ToUpper(c)
  }

  /** The recursive scan of `title()`, which remembers whether the previous
      character was cased. */
  function TitleFrom(s: string, afterCased: bool): (r: string)
    ensures |r| == |s|
  {
    if s == [] then [] else [TitleChar(afterCased, s[0])] + TitleFrom(s[1..], IsCased(s[0]))
  }

  /** The scan maps each character by whether the one before it is cased. */
  lemma {:induction false} TitleFromAt(s: string, afterCased: bool, i: nat)
    requires i < |s|
    ensures TitleFrom(s, afterCased)[i] == TitleChar(if i == 0 then afterCased else IsCased(s[i - 1]), s[i])
  {
    if i > 0 {
      TitleFromAt(s[1..], IsCased(s[0]), i - 1);
    }
  }

  /** `s.title()`: the first letter of every run of letters in upper case,
      the others in lower case, every non-letter unchanged. */
  function Title(s: string): (r: string)
    ensures |r| == |s|
  {
    TitleFrom(s, false)
  }

  /** Each character of `s.title()`, in terms of `s` alone. Stated one index
      at a time: as a quantifier it would loop on a fixed point of `Title`. */
  lemma TitleAt(s: string, i: nat)
    requires i < |s|
    ensures Title(s)[i] == TitleChar(i > 0 && IsCased(s[i - 1]), s[i])
  {
    TitleFromAt(s, false, i);
  }

  /** What `TitleChar` keeps of a character: being a letter, being whitespace,
      being the space; and converting twice is converting once. */
  lemma TitleCharKeeps(afterCased: bool, c: char)
    ensures IsCased(TitleChar(afterCased, c)) == IsCased(c)
    ensures IsSpace(TitleChar(afterCased, c)) == IsSpace(c)
    ensures TitleChar(afterCased, c) == ' ' <==> c == ' '
    ensures TitleChar(afterCased, TitleChar(afterCased, c)) == TitleChar(afterCased, c)
  {
  }

  /** Title casing a title-cased string changes nothing. */
  lemma TitleIdempotent(s: string)
    ensures Title(Title(s)) == Title(s)
  {
    var t := Title(s);
    forall i | 0 <= i < |s|
      ensures Title(t)[i] == t[i]
    {
      var after := i > 0 && IsCased(s[i - 1]);
      TitleAt(s, i);
      TitleAt(t, i);
      if i > 0 {
        TitleAt(s, i - 1);
        TitleCharKeeps(i > 1 && IsCased(s[i - 2]), s[i - 1]);
        assert IsCased(t[i - 1]) == IsCased(s[i - 1]);
      }
      TitleCharKeeps(after, s[i]);
      assert Title(t)[i] == TitleChar(after, TitleChar(after, s[i]));
    }
  }

  /** Title casing keeps every whitespace character where it was and adds none. */
  lemma TitleKeepsSpaces(s: string, i: nat)
    requires i < |s|
    ensures IsSpace(Title(s)[i]) <==> IsSpace(s[i])
    ensures Title(s)[i] == ' ' <==> s[i] == ' '
  {
    TitleAt(s, i);
    TitleCharKeeps(i > 0 && IsCased(s[i - 1]), s[i]);
  }

  // ---------------------------------------------------------------------------
  // strip()
  // ---------------------------------------------------------------------------

  /** The number of whitespace characters `s` starts with. */
  function LeadingSpace(s: string): (n: nat)
    ensures n <= |s|
    ensures forall i :: 0 <= i < n ==> IsSpace(s[i])
    ensures n < |s| ==> !IsSpace(s[n])
  {
    if s == [] || !IsSpace(s[0]) then 0 else 1 + LeadingSpace(s[1..])
  }

  /** The length of `s` without the whitespace it ends with. */
  function TrimmedEnd(s: string): (n: nat)
    ensures n <= |s|
    ensures forall i :: n <= i < |s| ==> IsSpace(s[i])
    ensures n > 0 ==> !IsSpace(s[n - 1])
  {
    if s == [] || !IsSpace(s[|s| - 1]) then |s| else TrimmedEnd(s[..|s| - 1])
  }

  /** `s.strip()`: `s` without its leading and trailing whitespace. */
  function Strip(s: string): (r: string)
    ensures |r| <= |s|
    ensures r == [] <==> AllSpace(s)
    ensures r != [] ==> !IsSpace(r[0]) && !IsSpace(r[|r| - 1])
  {
    var a, b := LeadingSpace(s), TrimmedEnd(s);
    if a < b then s[a..b] else []
  }

  /** `s` has a space character with a non-whitespace character somewhere
      before it and another somewhere after it. */
  ghost predicate InnerSpace(s: string) {
    exists i, j, k :: 0 <= i < j < k < |s| && !IsSpace(s[i]) && s[j] == ' ' && !IsSpace(s[k])
  }

  lemma StripSpaceIsInner(s: string)
    requires ' ' in Strip(s)
    ensures InnerSpace(s)
  {
    var a, b := LeadingSpace(s), TrimmedEnd(s);
    var r := Strip(s);
    assert a < b && r == s[a..b];
    var j :| 0 <= j < |r| && r[j] == ' ';
    assert r[0] == s[a] && r[|r| - 1] == s[b - 1] && r[j] == s[a + j];
    assert 0 <= a < a + j < b - 1 < |s| && !IsSpace(s[a]) && s[a + j] == ' ' && !IsSpace(s[b - 1]);
  }

  lemma LeadingSpaceBefore(s: string, i: nat)
    requires i < |s| && !IsSpace(s[i])
    ensures LeadingSpace(s) <= i
  {
  }

  lemma TrimmedEndAfter(s: string, k: nat)
    requires k < |s| && !IsSpace(s[k])
    ensures k < TrimmedEnd(s)
  {
  }

  lemma InnerSpaceSurvivesStrip(s: string, i: nat, j: nat, k: nat)
    requires 0 <= i < j < k < |s| && !IsSpace(s[i]) && s[j] == ' ' && !IsSpace(s[k])
    ensures ' ' in Strip(s)
  {
    LeadingSpaceBefore(s, i);
    TrimmedEndAfter(s, k);
    var a, b := LeadingSpace(s), TrimmedEnd(s);
    StripSlice(s);
    var r := s[a..b];
    assert r[j - a] == ' ';
  }

  lemma StripSlice(s: string)
    ensures LeadingSpace(s) < TrimmedEnd(s) ==> Strip(s) == s[LeadingSpace(s)..TrimmedEnd(s)]
  {
  }

  /** `' ' in s.strip()` holds exactly when `s` has an inner space. */
  lemma StripHasSpace(s: string)
    ensures ' ' in Strip(s) <==> InnerSpace(s)
  {
    if ' ' in Strip(s) {
      StripSpaceIsInner(s);
    }
    if InnerSpace(s) {
      var i, j, k :| 0 <= i < j < k < |s| && !IsSpace(s[i]) && s[j] == ' ' && !IsSpace(s[k]);
      InnerSpaceSurvivesStrip(s, i, j, k);
    }
  }

  /** Title casing neither creates nor removes an inner space. */
  lemma TitleInnerSpace(s: string)
    ensures InnerSpace(Title(s)) <==> InnerSpace(s)
  {
    var t := Title(s);
    if InnerSpace(s) {
      var i, j, k :| 0 <= i < j < k < |s| && !IsSpace(s[i]) && s[j] == ' ' && !IsSpace(s[k]);
      TitleKeepsSpaces(s, i);
      TitleKeepsSpaces(s, j);
      TitleKeepsSpaces(s, k);
      assert !IsSpace(t[i]) && t[j] == ' ' && !IsSpace(t[k]);
    }
    if InnerSpace(t) {
      var i, j, k :| 0 <= i < j < k < |t| && !IsSpace(t[i]) && t[j] == ' ' && !IsSpace(t[k]);
      TitleKeepsSpaces(s, i);
      TitleKeepsSpaces(s, j);
      TitleKeepsSpaces(s, k);
      assert !IsSpace(s[i]) && s[j] == ' ' && !IsSpace(s[k]);
    }
  }

  // ---------------------------------------------------------------------------
  // split()
  // ---------------------------------------------------------------------------

  /** The number of non-whitespace characters `s` starts with. */
  function WordLength(s: string): (n: nat)
    ensures n <= |s|
    ensures forall i :: 0 <= i < n ==> !IsSpace(s[i])
    ensures n < |s| ==> IsSpace(s[n])
  {
    if s == [] || IsSpace(s[0]) then 0 else 1 + WordLength(s[1..])
  }

  /** `s.split()`: the maximal runs of non-whitespace characters, in order. */
  function Split(s: string): (r: seq<string>)
    ensures forall k :: 0 <= k < |r| ==> r[k] != [] && NoSpace(r[k])
    ensures r == [] <==> AllSpace(s)
    decreases |s|
  {
    var a := LeadingSpace(s);
    if a == |s| then []
    else
      var t := s[a..];
      var n := WordLength(t);
      assert t[0] == s[a] && n > 0;
      assert NoSpace(t[..n]) by {
        forall i | 0 <= i < n
          ensures !IsSpace(t[..n][i])
        {
          assert t[..n][i] == t[i];
        }
      }
      assert !AllSpace(s) by {
        assert !IsSpace(s[a]);
      }
      [t[..n]] + Split(t[n..])
  }

  /** The words of a split are separated only by whitespace: the first word
      is whatever follows the leading whitespace, up to the next whitespace
      or the end. */
  lemma SplitFirstWord(s: string, a: nat, b: nat)
    requires a < b <= |s|
    requires AllSpace(s[..a])
    requires NoSpace(s[a..b])
    requires b == |s| || IsSpace(s[b])
    ensures Split(s) != [] && Split(s)[0] == s[a..b]
  {
    var a' := LeadingSpace(s);
    forall i | 0 <= i < a
      ensures IsSpace(s[i])
    {
      assert s[..a][i] == s[i];
    }
    assert s[a..b][0] == s[a];
    assert a' == a;
    var t := s[a..];
    var n := WordLength(t);
    forall i | 0 <= i < b - a
      ensures !IsSpace(t[i])
    {
      assert s[a..b][i] == t[i];
    }
    assert b < |s| ==> t[b - a] == s[b];
    assert n == b - a;
    assert t[..n] == s[a..b];
  }

  /** `s` with every whitespace character removed. */
  function RemoveSpaces(s: string): (r: string)
  {
    if s == [] then [] else (if IsSpace(s[0]) then [] else [s[0]]) + RemoveSpaces(s[1..])
  }

  /** The concatenation of a sequence of strings, `''.join(ws)`. */
  function Concat(ws: seq<string>): string
  {
    if ws == [] then [] else ws[0] + Concat(ws[1..])
  }

  lemma {:induction false} RemoveSpacesAppend(x: string, y: string)
    ensures RemoveSpaces(x + y) == RemoveSpaces(x) + RemoveSpaces(y)
  {
    if x == [] {
      assert x + y == y;
    } else {
      assert (x + y)[1..] == x[1..] + y;
      RemoveSpacesAppend(x[1..], y);
    }
  }

  lemma {:induction false} RemoveSpacesOfSpaces(x: string)
    requires AllSpace(x)
    ensures RemoveSpaces(x) == []
  {
    if x != [] {
      RemoveSpacesOfSpaces(x[1..]);
    }
  }

  lemma {:induction false} RemoveSpacesOfWord(x: string)
    requires NoSpace(x)
    ensures RemoveSpaces(x) == x
  {
    if x != [] {
      RemoveSpacesOfWord(x[1..]);
    }
  }

  /** The leading whitespace is whitespace. */
  lemma LeadingSpaceIsSpace(s: string)
    ensures AllSpace(s[..LeadingSpace(s)])
  {
    var a := LeadingSpace(s);
    forall i | 0 <= i < a
      ensures IsSpace(s[..a][i])
    {
      assert s[..a][i] == s[i];
    }
  }

  /** The first word has no whitespace. */
  lemma WordHasNoSpace(t: string)
    ensures NoSpace(t[..WordLength(t)])
  {
    var n := WordLength(t);
    forall i | 0 <= i < n
      ensures !IsSpace(t[..n][i])
    {
      assert t[..n][i] == t[i];
    }
  }

  /** One step of `split()`: the leading whitespace, the first word, and
      the words of the rest. */
  lemma SplitStep(s: string)
    requires LeadingSpace(s) < |s|
    ensures var a := LeadingSpace(s); var t := s[a..]; var n := WordLength(t);
      Concat(Split(s)) == t[..n] + Concat(Split(t[n..]))
  {
    var a := LeadingSpace(s);
    var t := s[a..];
    var n := WordLength(t);
    var ws := Split(s);
    assert ws == [t[..n]] + Split(t[n..]);
    assert ws[1..] == Split(t[n..]);
  }

  /** Splitting loses exactly the whitespace: joining the words gives back
      every other character of `s`, in order. */
  lemma {:induction false} SplitKeepsNonSpace(s: string)
    ensures Concat(Split(s)) == RemoveSpaces(s)
    decreases |s|
  {
    var a := LeadingSpace(s);
    LeadingSpaceIsSpace(s);
    if a == |s| {
      assert s[..a] == s;
      RemoveSpacesOfSpaces(s);
    } else {
      var t := s[a..];
      var n := WordLength(t);
      var w, rest := t[..n], t[n..];
      var lead := s[..a];
      assert s == lead + (w + rest);
      SplitStep(s);
      SplitKeepsNonSpace(rest);
      RemoveSpacesAppend(lead, w + rest);
      RemoveSpacesAppend(w, rest);
      RemoveSpacesOfSpaces(lead);
      WordHasNoSpace(t);
      RemoveSpacesOfWord(w);
      calc {
        RemoveSpaces(s);
        RemoveSpaces(lead) + RemoveSpaces(w + rest);
        RemoveSpaces(w) + RemoveSpaces(rest);
        w + Concat(Split(rest));
        Concat(Split(s));
      }
    }
  }
}
