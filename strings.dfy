/** The few Python `str` operations the scraper relies on: substring test (`in`),
    `lower()`, `capitalize()`, `replace()` and the ordering `<` used by `sorted`.
    Case mapping covers the ASCII letters only. */
module Strings {

  /** Python's `needle in hay` for strings, computed by trying each start position in turn. */
  predicate Contains(hay: string, needle: string)
  {
    ContainsFrom(hay, needle, 0)
  }

  /** `needle` starts at some position `i` or later of `hay`. */
  predicate ContainsFrom(hay: string, needle: string, i: nat)
    decreases |hay| - i
  {
    if |hay| < i + |needle| then false
    else if hay[i..i + |needle|] == needle then true
    else ContainsFrom(hay, needle, i + 1)
  }

  /** The window of `hay` starting at `i` spells `needle`. */
  ghost predicate MatchAt(hay: string, needle: string, i: int)
  {
    0 <= i <= |hay| - |needle| && hay[i..i + |needle|] == needle
  }

  /** Reference meaning of `needle in hay`: some window of `hay` equals `needle`. */
  ghost predicate Occurs(hay: string, needle: string)
  {
    exists i :: MatchAt(hay, needle, i)
  }

  lemma {:induction false} ContainsFromIff(hay: string, needle: string, i: nat)
    ensures ContainsFrom(hay, needle, i) <==> exists j :: i <= j && MatchAt(hay, needle, j)
    decreases |hay| - i
  {
    if |hay| < i + |needle| {
    } else if hay[i..i + |needle|] == needle {
      assert MatchAt(hay, needle, i);
    } else {
      ContainsFromIff(hay, needle, i + 1);
      if exists j :: i <= j && MatchAt(hay, needle, j) {
        var j :| i <= j && MatchAt(hay, needle, j);
        assert j != i;
      }
    }
  }

  /** A string spliced between two others occurs right after the first. */
  lemma MatchAtSplice(pre: string, needle: string, post: string)
    ensures MatchAt(pre + needle + post, needle, |pre|)
  {
    assert (pre + needle + post)[|pre|..|pre| + |needle|] == needle;
  }

  /** The scanning test and the window definition agree on every input. */
  lemma ContainsIff(hay: string, needle: string)
    ensures Contains(hay, needle) <==> Occurs(hay, needle)
  {
    ContainsFromIff(hay, needle, 0);
  }

  /** A needle holding a character the haystack lacks does not occur in it. */
  lemma AbsentChar(hay: string, needle: string, c: char)
    requires c in needle && c !in hay
    ensures !Contains(hay, needle)
  {
    ContainsIff(hay, needle);
  }

  function LowerChar(c: char): char
  {
    if 'A' <= c <= 'Z' then (c as int + 32) as char else c
  }

  function UpperChar(c: char): char
  {
    if 'a' <= c <= 'z' then (c as int - 32) as char else c
  }

  /** Python's `s.lower()`, restricted to ASCII letters. */
  function Lower(s: string): string
  {
    seq(|s|, i requires 0 <= i < |s| => LowerChar(s[i]))
  }

  /** The window of `hay` starting at `i` spells `word` up to letter case. */
  ghost predicate MatchAtIgnoringCase(hay: string, word: string, i: int)
  {
    0 <= i <= |hay| - |word| && Lower(hay[i..i + |word|]) == Lower(word)
  }

  /** `word` occurs in `hay` when letter case is ignored. */
  ghost predicate OccursIgnoringCase(hay: string, word: string)
  {
    exists i :: MatchAtIgnoringCase(hay, word, i)
  }

  /** A word spliced between two strings occurs there, whatever the letter case. */
  lemma MatchAtIgnoringCaseSplice(pre: string, word: string, post: string)
    ensures MatchAtIgnoringCase(pre + word + post, word, |pre|)
  {
    MatchAtSplice(pre, word, post);
  }

  /** Lower-casing commutes with taking a slice. */
  lemma LowerSlice(s: string, i: nat, j: nat)
    requires i <= j <= |s|
    ensures Lower(s[i..j]) == Lower(s)[i..j]
  {
  }

  /** Lower-casing both sides before `in` is exactly a case-insensitive occurrence test. */
  lemma ContainsLowerIff(hay: string, word: string)
    ensures Contains(Lower(hay), Lower(word)) <==> OccursIgnoringCase(hay, word)
  {
    var n := |word|;
    ContainsIff(Lower(hay), Lower(word));
    if Occurs(Lower(hay), Lower(word)) {
      var i :| MatchAt(Lower(hay), Lower(word), i);
      LowerSlice(hay, i, i + n);
      assert MatchAtIgnoringCase(hay, word, i);
    }
    if OccursIgnoringCase(hay, word) {
      var i :| MatchAtIgnoringCase(hay, word, i);
      LowerSlice(hay, i, i + n);
      assert MatchAt(Lower(hay), Lower(word), i);
    }
  }

  /** Python's `s.capitalize()`: first character upper-cased, the rest lower-cased. */
  function Capitalize(s: string): string
  {
    if s == [] then [] else [UpperChar(s[0])] + Lower(s[1..])
  }

  /** A string with no upper-case letter is its own lower-case form. */
  lemma LowerNoUpper(s: string)
    requires forall i :: 0 <= i < |s| ==> !('A' <= s[i] <= 'Z')
    ensures Lower(s) == s
  {
  }

  /** Capitalising a string with no upper-case letter only upper-cases its first character. */
  lemma CapitalizeLower(s: string)
    requires |s| > 0 && forall i :: 0 <= i < |s| ==> !('A' <= s[i] <= 'Z')
    ensures Capitalize(s) == [UpperChar(s[0])] + s[1..]
  {
    LowerNoUpper(s[1..]);
  }

  /** Capitalising changes letter case and nothing else. */
  lemma CapitalizeOnlyCase(s: string)
    ensures |Capitalize(s)| == |s|
    ensures Lower(Capitalize(s)) == Lower(s)
  {
    if s != [] {
      var r := Capitalize(s);
      forall i | 0 <= i < |s|
        ensures Lower(r)[i] == Lower(s)[i]
      {
        if i > 0 {
          assert r[i] == LowerChar(s[i]);
        }
      }
    }
  }

  /** Python's `s.replace(pat, rep)`: every non-overlapping occurrence of `pat`,
      scanning left to right, is replaced by `rep`. */
  function Replace(s: string, pat: string, rep: string): string
    requires |pat| > 0
    decreases |s|
  {
    if |s| < |pat| then s
    else
      var hit := s[..|pat|] == pat;
      (if hit then rep else [s[0]]) + Replace(s[if hit then |pat| else 1..], pat, rep)
  }

  /** Replacing one character by another, position by position. */
  lemma {:induction false} ReplaceCharPointwise(s: string, a: char, b: char)
    ensures Replace(s, [a], [b]) == seq(|s|, i requires 0 <= i < |s| => if s[i] == a then b else s[i])
    decreases |s|
  {
    if |s| >= 1 {
      ReplaceCharPointwise(s[1..], a, b);
      assert s[..1] == [a] <==> s[0] == a;
    }
  }

  /** A string without the first character of the pattern is left as it is. */
  lemma {:induction false} ReplaceAbsent(s: string, pat: string, rep: string)
    requires |pat| > 0 && pat[0] !in s
    ensures Replace(s, pat, rep) == s
    decreases |s|
  {
    if |s| >= |pat| {
      assert s[0] != pat[0];
      ReplaceAbsent(s[1..], pat, rep);
      assert s == [s[0]] + s[1..];
    }
  }

  /** A pattern at the front of a string that holds no further start of it is replaced once. */
  lemma ReplaceAtFront(pat: string, rest: string, rep: string)
    requires |pat| > 0 && pat[0] !in rest
    ensures Replace(pat + rest, pat, rep) == rep + rest
  {
    var s := pat + rest;
    assert s[..|pat|] == pat && s[|pat|..] == rest;
    ReplaceAbsent(rest, pat, rep);
  }

  /** Replacing a pattern by a same-length spelling that differs only in letter case
      changes letter case and nothing else. */
  lemma {:induction false} ReplaceOnlyCase(s: string, pat: string, rep: string)
    requires |pat| > 0 && |rep| == |pat| && Lower(rep) == Lower(pat)
    ensures |Replace(s, pat, rep)| == |s|
    ensures Lower(Replace(s, pat, rep)) == Lower(s)
    decreases |s|
  {
    var n := |pat|;
    if |s| < n {
    } else if s[..n] == pat {
      ReplaceOnlyCase(s[n..], pat, rep);
      LowerConcat(rep, Replace(s[n..], pat, rep));
      LowerConcat(s[..n], s[n..]);
      assert s == s[..n] + s[n..];
    } else {
      ReplaceOnlyCase(s[1..], pat, rep);
      LowerConcat([s[0]], Replace(s[1..], pat, rep));
      LowerConcat([s[0]], s[1..]);
      assert s == [s[0]] + s[1..];
    }
  }

  lemma LowerConcat(a: string, b: string)
    ensures Lower(a + b) == Lower(a) + Lower(b)
  {
  }

  /** Python's `a < b` on strings: lexicographic by code point, a proper prefix first. */
  predicate Below(a: string, b: string)
    decreases |a|
  {
    if |b| == 0 then false
    else if |a| == 0 then true
    else if a[0] != b[0] then a[0] < b[0]
    else Below(a[1..], b[1..])
  }

  lemma {:induction false} BelowIrreflexive(a: string)
    ensures !Below(a, a)
    decreases |a|
  {
    if |a| > 0 {
      BelowIrreflexive(a[1..]);
    }
  }

  lemma {:induction false} BelowAsymmetric(a: string, b: string)
    ensures !(Below(a, b) && Below(b, a))
    decreases |a|
  {
    if |a| > 0 && |b| > 0 && a[0] == b[0] {
      BelowAsymmetric(a[1..], b[1..]);
    }
  }

  lemma {:induction false} BelowTransitive(a: string, b: string, c: string)
    requires Below(a, b) && Below(b, c)
    ensures Below(a, c)
    decreases |a|
  {
    if |a| > 0 && a[0] == b[0] && b[0] == c[0] {
      BelowTransitive(a[1..], b[1..], c[1..]);
    }
  }

  /** Any two different strings are ordered one way or the other. */
  lemma {:induction false} BelowTotal(a: string, b: string)
    requires a != b
    ensures Below(a, b) || Below(b, a)
    decreases |a|
  {
    if |a| > 0 && |b| > 0 && a[0] == b[0] {
      assert a == [a[0]] + a[1..] && b == [b[0]] + b[1..];
      BelowTotal(a[1..], b[1..]);
    }
  }
}
