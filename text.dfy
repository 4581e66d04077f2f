/** String operations the handlers rely on: Python's `str.capitalize()`
    and the substring match of an SQL `LIKE '%q%'` pattern. Case mapping
    is modelled on ASCII letters only. */
module Text {

  function ToUpper(c: char): char {
    if 'a' <= c <= 'z' then (c as int - 32) as char else c
  }

  function ToLower(c: char): char {
    if 'A' <= c <= 'Z' then (c as int + 32) as char else c
  }

  /** Every character lower-cased. */
  function Lower(s: string): (r: string)
    ensures |r| == |s|
    ensures forall i :: 0 <= i < |s| ==> r[i] == ToLower(s[i])
  {
    if s == [] then [] else [ToLower(s[0])] + Lower(s[1..])
  }

  /** `s.capitalize()`: the first character upper-cased, the rest lower-cased. */
  function Capitalize(s: string): (r: string)
    ensures |r| == |s|
    ensures |s| > 0 ==> r[0] == ToUpper(s[0])
    ensures forall i :: 0 < i < |s| ==> r[i] == ToLower(s[i])
  {
    if s == [] then [] else [ToUpper(s[0])] + Lower(s[1..])
  }

  /** A capitalized string is its own capitalization, so a stored catalog
      name is in normal form. */
  lemma {:induction false} CapitalizeIdempotent(s: string)
    ensures Capitalize(Capitalize(s)) == Capitalize(s)
  {
    var c := Capitalize(s);
    var cc := Capitalize(c);
    assert |cc| == |c|;
    forall i | 0 <= i < |c|
      ensures cc[i] == c[i]
    {
      if i == 0 {
        assert cc[0] == ToUpper(ToUpper(s[0]));
      } else {
        assert cc[i] == ToLower(ToLower(s[i]));
      }
    }
  }

  /** Two names land on the same catalog entry exactly when they are equal
      ignoring case. */
  lemma {:induction false} CapitalizeMatchesIgnoringCase(a: string, b: string)
    ensures Capitalize(a) == Capitalize(b) <==> Lower(a) == Lower(b)
  {
    if Capitalize(a) == Capitalize(b) {
      assert |a| == |b|;
      forall i | 0 <= i < |a|
        ensures Lower(a)[i] == Lower(b)[i]
      {
        if i == 0 {
          assert ToUpper(a[0]) == ToUpper(b[0]);
        } else {
          assert Capitalize(a)[i] == Capitalize(b)[i];
        }
      }
    }
    if Lower(a) == Lower(b) {
      assert |a| == |b|;
      forall i | 0 <= i < |a|
        ensures Capitalize(a)[i] == Capitalize(b)[i]
      {
        if i == 0 {
          assert ToLower(a[0]) == ToLower(b[0]);
        } else {
          assert Lower(a)[i] == Lower(b)[i];
        }
      }
    }
  }

  /** `p` is a prefix of `s`. */
  predicate StartsWith(s: string, p: string) {
    |p| <= |s| && s[..|p|] == p
  }

  /** `text LIKE '%pattern%'`, read as a plain substring match: try every
      starting position from the left. */
  predicate Contains(text: string, pattern: string)
    decreases |text|
  {
    StartsWith(text, pattern) || (text != [] && Contains(text[1..], pattern))
  }

  /** The pattern occurs in the text at position `i`. */
  predicate MatchAt(text: string, pattern: string, i: int) {
    0 <= i && i + |pattern| <= |text| && text[i..i + |pattern|] == pattern
  }

  /** The scan finds the pattern exactly when some window of the text equals it. */
  lemma {:induction false} ContainsIff(text: string, pattern: string)
    ensures Contains(text, pattern) <==> exists i :: MatchAt(text, pattern, i)
    decreases |text|
  {
    if StartsWith(text, pattern) {
      assert MatchAt(text, pattern, 0);
    }
    if text != [] {
      ContainsIff(text[1..], pattern);
      if exists i :: MatchAt(text, pattern, i) {
        var i :| MatchAt(text, pattern, i);
        if i > 0 {
          assert text[1..][i - 1..i - 1 + |pattern|] == text[i..i + |pattern|];
          assert MatchAt(text[1..], pattern, i - 1);
        } else {
          assert StartsWith(text, pattern);
        }
      }
      if Contains(text[1..], pattern) {
        var j :| MatchAt(text[1..], pattern, j);
        assert text[j + 1..j + 1 + |pattern|] == text[1..][j..j + |pattern|];
        assert MatchAt(text, pattern, j + 1);
      }
    } else {
      if exists i :: MatchAt(text, pattern, i) {
        var i :| MatchAt(text, pattern, i);
        assert i == 0 && pattern == [];
      }
    }
  }

  /** `text ILIKE '%pattern%'`: the match ignores (ASCII) case. */
  predicate ContainsIgnoringCase(text: string, pattern: string) {
    Contains(Lower(text), Lower(pattern))
  }
}
