/** Python string operations the engine relies on: split, join, replace, strip and word splitting. */
module Text {

  predicate StartsWith(s: string, p: string)
  {
    |p| <= |s| && s[..|p|] == p
  }

  /** Python's `s.split(sep)`: the pieces between the leftmost non-overlapping occurrences of `sep`. */
  function Split(s: string, sep: string): (parts: seq<string>)
    requires |sep| > 0
    ensures |parts| >= 1
    decreases |s|
  {
    if |s| < |sep| then [s]
    else if s[..|sep|] == sep then [""] + Split(s[|sep|..], sep)
    else
      var r := Split(s[1..], sep);
      [[s[0]] + r[0]] + r[1..]
  }

  /** Python's `sep.join(parts)`. */
  function Join(parts: seq<string>, sep: string): string
  {
    if |parts| == 0 then ""
    else if |parts| == 1 then parts[0]
    else parts[0] + sep + Join(parts[1..], sep)
  }

  lemma JoinCons(c: char, x: string, rest: seq<string>, sep: string)
    ensures Join([[c] + x] + rest, sep) == [c] + Join([x] + rest, sep)
  {
    var a, b := [[c] + x] + rest, [x] + rest;
    if |rest| > 0 {
      assert a[1..] == rest && b[1..] == rest;
    }
  }

  /** Splitting and joining again with the same separator gives the original text back. */
  lemma {:induction false} JoinSplit(s: string, sep: string)
    requires |sep| > 0
    ensures Join(Split(s, sep), sep) == s
    decreases |s|
  {
    if |s| < |sep| {
    } else if s[..|sep|] == sep {
      var r := Split(s[|sep|..], sep);
      JoinSplit(s[|sep|..], sep);
      var parts := [""] + r;
      assert Split(s, sep) == parts;
      assert parts[0] == "" && parts[1..] == r;
      assert Join(parts, sep) == "" + sep + Join(r, sep);
      assert s == sep + s[|sep|..];
    } else {
      var r := Split(s[1..], sep);
      JoinSplit(s[1..], sep);
      assert Split(s, sep) == [[s[0]] + r[0]] + r[1..];
      JoinCons(s[0], r[0], r[1..], sep);
      assert [r[0]] + r[1..] == r;
      assert s == [s[0]] + s[1..];
    }
  }

  /** Python's `s.replace(pattern, replacement)`, which is `replacement.join(s.split(pattern))`. */
  function ReplaceAll(s: string, pattern: string, replacement: string): string
    requires |pattern| > 0
  {
    Join(Split(s, pattern), replacement)
  }

  /** `s` with every occurrence of `c` deleted. */
  function Without(s: string, c: char): (r: string)
  {
    if |s| == 0 then "" else if s[0] == c then Without(s[1..], c) else [s[0]] + Without(s[1..], c)
  }

  /** Replacing a one-character string by "" deletes exactly that character, keeping every other one in order. */
  lemma {:induction false} ReplaceCharByNothing(s: string, c: char)
    ensures ReplaceAll(s, [c], "") == Without(s, c)
    decreases |s|
  {
    if |s| == 0 {
    } else if s[0] == c {
      ReplaceCharByNothing(s[1..], c);
      var r := Split(s[1..], [c]);
      assert Split(s, [c]) == [""] + r;
      assert ([""] + r)[1..] == r;
    } else {
      ReplaceCharByNothing(s[1..], c);
      var r := Split(s[1..], [c]);
      JoinCons(s[0], r[0], r[1..], "");
      assert [r[0]] + r[1..] == r;
    }
  }

  lemma {:induction false} WithoutFacts(s: string, c: char)
    ensures c !in Without(s, c)
    ensures |Without(s, c)| <= |s|
    ensures c !in s ==> Without(s, c) == s
    decreases |s|
  {
    if |s| > 0 {
      WithoutFacts(s[1..], c);
      assert s == [s[0]] + s[1..];
    }
  }

  /** Python's `str.isspace` for one character (`str.split()` and `str.strip()` use this set). */
  predicate IsSpace(ch: char)
  {
    ch == ' ' || ('\t' <= ch <= '\r') || ('\U{001C}' <= ch <= '\U{001F}')
    || ch == '\U{0085}' || ch == '\U{00A0}' || ch == '\U{1680}'
    || ('\U{2000}' <= ch <= '\U{200A}') || ch == '\U{2028}' || ch == '\U{2029}'
    || ch == '\U{202F}' || ch == '\U{205F}' || ch == '\U{3000}'
  }

  predicate Blank(s: string)
  {
    forall i :: 0 <= i < |s| ==> IsSpace(s[i])
  }

  /** Python's `s.lstrip()`. */
  function TrimStart(s: string): string
  {
    if |s| > 0 && IsSpace(s[0]) then TrimStart(s[1..]) else s
  }

  /** Python's `s.rstrip()`. */
  function TrimEnd(s: string): string
  {
    if |s| > 0 && IsSpace(s[|s| - 1]) then TrimEnd(s[..|s| - 1]) else s
  }

  /** `lstrip` drops a blank prefix and nothing else, and keeps no space at the front. */
  lemma {:induction false} TrimStartFacts(s: string)
    ensures |TrimStart(s)| <= |s| && TrimStart(s) == s[|s| - |TrimStart(s)|..]
    ensures |TrimStart(s)| > 0 ==> !IsSpace(TrimStart(s)[0])
    ensures Blank(s[..|s| - |TrimStart(s)|])
    decreases |s|
  {
    if |s| > 0 && IsSpace(s[0]) {
      var t := s[1..];
      TrimStartFacts(t);
      var r := TrimStart(t);
      assert t[|t| - |r|..] == s[|s| - |r|..];
      var prefix, rest := s[..|s| - |r|], t[..|t| - |r|];
      forall i | 0 <= i < |prefix|
        ensures IsSpace(prefix[i])
      {
        if i > 0 {
          assert prefix[i] == rest[i - 1];
        }
      }
    } else {
      assert s[..0] == [];
    }
  }

  /** `rstrip` drops a blank suffix and nothing else, and keeps no space at the end. */
  lemma {:induction false} TrimEndFacts(s: string)
    ensures |TrimEnd(s)| <= |s| && TrimEnd(s) == s[..|TrimEnd(s)|]
    ensures |TrimEnd(s)| > 0 ==> !IsSpace(TrimEnd(s)[|TrimEnd(s)| - 1])
    ensures Blank(s[|TrimEnd(s)|..])
    decreases |s|
  {
    if |s| > 0 && IsSpace(s[|s| - 1]) {
      var t := s[..|s| - 1];
      TrimEndFacts(t);
      var r := TrimEnd(t);
      assert t[..|r|] == s[..|r|];
      var suffix, rest := s[|r|..], t[|r|..];
      forall i | 0 <= i < |suffix|
        ensures IsSpace(suffix[i])
      {
        if i < |rest| {
          assert suffix[i] == rest[i];
        }
      }
    } else {
      assert s[|s|..] == [];
    }
  }

  /** Python's `s.strip()`. */
  function Strip(s: string): string
  {
    TrimEnd(TrimStart(s))
  }

  /** `lstrip` leaves nothing of blank text. */
  lemma {:induction false} TrimStartBlank(s: string)
    requires Blank(s)
    ensures TrimStart(s) == ""
    decreases |s|
  {
    if |s| > 0 {
      var t := s[1..];
      forall i | 0 <= i < |t|
        ensures IsSpace(t[i])
      {
        assert t[i] == s[i + 1];
      }
      TrimStartBlank(t);
    }
  }

  /** `strip()` is empty exactly for blank text. */
  lemma StripEmptyIffBlank(s: string)
    ensures Strip(s) == "" <==> Blank(s)
  {
    TrimStartFacts(s);
    TrimEndFacts(TrimStart(s));
    var u := TrimStart(s);
    if Strip(s) == "" {
      assert u[0..] == u;
      assert |u| == 0;
      assert s[..|s|] == s;
    }
    if Blank(s) {
      TrimStartBlank(s);
    }
  }

  /** The result of `strip()` has no space at either end. */
  lemma StripEnds(s: string)
    ensures |Strip(s)| > 0 ==> !IsSpace(Strip(s)[0]) && !IsSpace(Strip(s)[|Strip(s)| - 1])
  {
    TrimStartFacts(s);
    TrimEndFacts(TrimStart(s));
    var u := TrimStart(s);
    if |Strip(s)| > 0 {
      assert Strip(s)[0] == u[0];
    }
  }

  /** Length of the run of non-space characters at the start of `s`. */
  function WordLength(s: string): (n: nat)
    ensures n <= |s|
    ensures forall i :: 0 <= i < n ==> !IsSpace(s[i])
    ensures n < |s| ==> IsSpace(s[n])
  {
    if |s| == 0 || IsSpace(s[0]) then 0 else 1 + WordLength(s[1..])
  }

  /** Python's `s.split()` with no argument: the maximal runs of non-space characters. */
  function Words(s: string): (ws: seq<string>)
    decreases |s|
  {
    if |s| == 0 then []
    else if IsSpace(s[0]) then Words(s[1..])
    else
      var n := WordLength(s);
      [s[..n]] + Words(s[n..])
  }

  /** Every word is non-empty and free of spaces, and there are no words exactly for blank text. */
  lemma {:induction false} WordsFacts(s: string)
    ensures forall w :: w in Words(s) ==> |w| > 0 && forall i :: 0 <= i < |w| ==> !IsSpace(w[i])
    ensures Words(s) == [] <==> Blank(s)
    decreases |s|
  {
    if |s| == 0 {
    } else if IsSpace(s[0]) {
      WordsFacts(s[1..]);
      if Blank(s[1..]) {
        assert forall i :: 1 <= i < |s| ==> s[i] == s[1..][i - 1];
      }
    } else {
      WordsFacts(s[WordLength(s)..]);
    }
  }

  /** Python's `s.rsplit(c, 1)[0]`: the text before the last `c`, or all of `s` when there is none. */
  function BeforeLast(s: string, c: char): (r: string)
    ensures c !in s ==> r == s
    ensures c in s ==> |r| < |s| && r == s[..|r|] && s[|r|] == c && c !in s[|r| + 1..]
    decreases |s|
  {
    if |s| == 0 then s
    else if s[|s| - 1] == c then s[..|s| - 1]
    else if c in s[..|s| - 1] then BeforeLast(s[..|s| - 1], c)
    else s
  }
}
