/**
 * Python's string splitting and stripping over `seq<char>`: `str.isspace`
 * for one character, `strip()`, whitespace `split()` and `split(sep)`.
 */
module Text {
  /** Python's `str.isspace` for a single character. */
  predicate IsSpace(c: char)
  {
    c == ' ' || '\t' <= c <= '\r' || '\U{1C}' <= c <= '\U{1F}' || c == '\U{85}' || c == '\U{A0}'
    || c == '\U{1680}' || '\U{2000}' <= c <= '\U{200A}' || c == '\U{2028}' || c == '\U{2029}'
    || c == '\U{202F}' || c == '\U{205F}' || c == '\U{3000}'
  }

  /** A string all of whose characters are whitespace. */
  predicate AllSpace(s: string)
  {
    forall j :: 0 <= j < |s| ==> IsSpace(s[j])
  }

  /** The string without its leading whitespace. */
  function TrimStart(s: string): string
  {
    if s != [] && IsSpace(s[0]) then TrimStart(s[1..]) else s
  }

  /** The string without its trailing whitespace. */
  function TrimEnd(s: string): string
  {
    if s != [] && IsSpace(s[|s| - 1]) then TrimEnd(s[..|s| - 1]) else s
  }

  /** `TrimStart` cuts off a whitespace prefix and leaves a string that does not start with whitespace. */
  lemma {:induction false} TrimStartShape(s: string)
    ensures |TrimStart(s)| <= |s|
    ensures var t := TrimStart(s); AllSpace(s[..|s| - |t|]) && s == s[..|s| - |t|] + t
    ensures TrimStart(s) == [] || !IsSpace(TrimStart(s)[0])
  {
    if s != [] && IsSpace(s[0]) {
      TrimStartShape(s[1..]);
      var t := TrimStart(s);
      var k := |s| - |t|;
      assert s[1..][..k - 1] == s[1..k];
      assert s[..k] == [s[0]] + s[1..k];
    }
  }

  /** `TrimEnd` cuts off a whitespace suffix and leaves a string that does not end with whitespace. */
  lemma {:induction false} TrimEndShape(s: string)
    ensures |TrimEnd(s)| <= |s|
    ensures var r := TrimEnd(s); AllSpace(s[|r|..]) && s == r + s[|r|..]
    ensures TrimEnd(s) == [] || !IsSpace(TrimEnd(s)[|TrimEnd(s)| - 1])
  {
    if s != [] && IsSpace(s[|s| - 1]) {
      var p := s[..|s| - 1];
      TrimEndShape(p);
      var r := TrimEnd(s);
      assert p[|r|..] + [s[|s| - 1]] == s[|r|..];
    }
  }

  /** `str.strip()`: the string without whitespace at either end. */
  function Strip(s: string): string
  {
    TrimEnd(TrimStart(s))
  }

  /** A stripped string neither starts nor ends with whitespace. */
  lemma StripEnds(s: string)
    ensures Strip(s) == [] || (!IsSpace(Strip(s)[0]) && !IsSpace(Strip(s)[|Strip(s)| - 1]))
  {
    var t := TrimStart(s);
    var r := TrimEnd(t);
    TrimStartShape(s);
    TrimEndShape(t);
    if r != [] {
      assert t == r + t[|r|..];
      assert r[0] == t[0];
    }
  }

  /** What `Strip` removes is whitespace at the two ends and nothing else. */
  lemma StripShape(s: string)
    ensures exists before, after :: AllSpace(before) && AllSpace(after) && s == before + Strip(s) + after
  {
    var t := TrimStart(s);
    var r := TrimEnd(t);
    TrimStartShape(s);
    TrimEndShape(t);
    var before, after := s[..|s| - |t|], t[|r|..];
    assert before + r + after == before + (r + after);
    assert AllSpace(before) && AllSpace(after) && s == before + Strip(s) + after;
  }

  /** The non-whitespace characters of `s`, in order. */
  function NonSpace(s: string): string
  {
    if s == [] then [] else (if IsSpace(s[0]) then [] else [s[0]]) + NonSpace(s[1..])
  }

  /** The concatenation of a list of strings. */
  function Concat(ws: seq<string>): string
  {
    if ws == [] then [] else ws[0] + Concat(ws[1..])
  }

  /** A token of a whitespace split: non-empty and free of whitespace. */
  predicate IsWord(w: string)
  {
    w != [] && forall j :: 0 <= j < |w| ==> !IsSpace(w[j])
  }

  /** `str.split()` with no separator: the maximal runs of non-whitespace characters. */
  function Words(s: string): seq<string>
  {
    if s == [] then []
    else if IsSpace(s[0]) then
      Words(s[1..])
    else
      var rest := Words(s[1..]);
      if |s| > 1 && !IsSpace(s[1]) && rest != [] then
        [[s[0]] + rest[0]] + rest[1..]
      else
        [[s[0]]] + rest
  }

  /**
   * Every word is non-empty and free of whitespace, and a string that starts
   * with a non-whitespace character has it as the first character of its
   * first word.
   */
  lemma {:induction false} WordsAreWords(s: string)
    ensures forall i :: 0 <= i < |Words(s)| ==> IsWord(Words(s)[i])
    ensures s != [] && !IsSpace(s[0]) ==> Words(s) != [] && |Words(s)[0]| > 0 && Words(s)[0][0] == s[0]
  {
    if s != [] {
      var rest := Words(s[1..]);
      WordsAreWords(s[1..]);
      if !IsSpace(s[0]) {
        var ws := Words(s);
        if |s| > 1 && !IsSpace(s[1]) && rest != [] {
          assert ws == [[s[0]] + rest[0]] + rest[1..];
          forall i | 0 <= i < |ws| ensures IsWord(ws[i]) {
            if i > 0 {
              assert ws[i] == rest[i];
            }
          }
        } else {
          assert ws == [[s[0]]] + rest;
          forall i | 0 <= i < |ws| ensures IsWord(ws[i]) {
            if i > 0 {
              assert ws[i] == rest[i - 1];
            }
          }
        }
      }
    }
  }

  /** The words together are exactly the non-whitespace characters. */
  lemma {:induction false} WordsJoin(s: string)
    ensures Concat(Words(s)) == NonSpace(s)
  {
    if s != [] {
      var rest := Words(s[1..]);
      WordsJoin(s[1..]);
      if !IsSpace(s[0]) {
        var ws := Words(s);
        if |s| > 1 && !IsSpace(s[1]) && rest != [] {
          assert Concat(rest) == rest[0] + Concat(rest[1..]);
          assert ws == [[s[0]] + rest[0]] + rest[1..];
          assert ws[1..] == rest[1..];
          assert Concat(ws) == ([s[0]] + rest[0]) + Concat(rest[1..]);
        } else {
          assert ws == [[s[0]]] + rest;
          assert ws[1..] == rest;
        }
      }
    }
  }

  /** There are no words exactly when the string is all whitespace. */
  lemma {:induction false} WordsNoneIffAllSpace(s: string)
    ensures Words(s) == [] <==> AllSpace(s)
  {
    if s != [] {
      WordsNoneIffAllSpace(s[1..]);
      assert AllSpace(s) <==> IsSpace(s[0]) && AllSpace(s[1..]) by {
        if IsSpace(s[0]) && AllSpace(s[1..]) {
          forall j | 0 <= j < |s| ensures IsSpace(s[j]) {
            if j > 0 {
              assert s[j] == s[1..][j - 1];
            }
          }
        }
      }
    }
  }

  /** Leading whitespace never starts a word: the split skips it. */
  lemma {:induction false} WordsSkipSpace(ws: string, s: string)
    requires AllSpace(ws)
    ensures Words(ws + s) == Words(s)
  {
    if ws != [] {
      assert (ws + s)[0] == ws[0];
      assert (ws + s)[1..] == ws[1..] + s;
      assert AllSpace(ws[1..]) by {
        forall j | 0 <= j < |ws[1..]| ensures IsSpace(ws[1..][j]) {
          assert ws[1..][j] == ws[j + 1];
        }
      }
      WordsSkipSpace(ws[1..], s);
    } else {
      assert ws + s == s;
    }
  }

  /** A word followed by nothing or by whitespace is the first word, and the split goes on after it. */
  lemma {:induction false} WordsPrefix(a: string, rest: string)
    requires IsWord(a)
    requires rest == [] || IsSpace(rest[0])
    ensures Words(a + rest) == [a] + Words(rest)
  {
    var s := a + rest;
    assert s[0] == a[0];
    if |a| == 1 {
      assert s[1..] == rest;
      assert a == [s[0]];
      if rest != [] {
        assert s[1] == rest[0];
      }
    } else {
      assert s[1..] == a[1..] + rest;
      assert IsWord(a[1..]) by {
        forall j | 0 <= j < |a[1..]| ensures !IsSpace(a[1..][j]) {
          assert a[1..][j] == a[j + 1];
        }
      }
      WordsPrefix(a[1..], rest);
      assert s[1] == a[1];
      assert [s[0]] + a[1..] == a;
    }
  }

  /** A string that neither starts nor ends with whitespace is its own strip. */
  lemma StripUnchanged(s: string)
    requires s == [] || (!IsSpace(s[0]) && !IsSpace(s[|s| - 1]))
    ensures Strip(s) == s
  {
  }

  /** Two words with one space between them split back into the two words. */
  lemma WordsOfTwo(a: string, b: string)
    requires IsWord(a) && IsWord(b)
    ensures Strip(a + " " + b) == a + " " + b
    ensures Words(a + " " + b) == [a, b]
  {
    var s := a + " " + b;
    assert s[0] == a[0] && s[|s| - 1] == b[|b| - 1];
    StripUnchanged(s);
    assert a + " " + b == a + (" " + b);
    WordsPrefix(a, " " + b);
    assert (" " + b)[1..] == b;
    WordsPrefix(b, []);
    assert b + [] == b;
  }

  /** `str.split(sep)`: the pieces between separators, never an empty list. */
  function SplitOn(s: string, sep: char): (parts: seq<string>)
    ensures |parts| >= 1
    ensures forall i :: 0 <= i < |parts| ==> sep !in parts[i]
  {
    if s == [] then [""]
    else
      var rest := SplitOn(s[1..], sep);
      if s[0] == sep then [""] + rest
      else [[s[0]] + rest[0]] + rest[1..]
  }

  /** `sep.join(parts)`. */
  function JoinWith(parts: seq<string>, sep: char): string
    requires |parts| >= 1
  {
    if |parts| == 1 then parts[0] else parts[0] + [sep] + JoinWith(parts[1..], sep)
  }

  /** Joining the pieces of a split gives back the string. */
  lemma {:induction false} JoinSplit(s: string, sep: char)
    ensures JoinWith(SplitOn(s, sep), sep) == s
  {
    if s != [] {
      var rest := SplitOn(s[1..], sep);
      JoinSplit(s[1..], sep);
      if s[0] != sep {
        var parts := SplitOn(s, sep);
        if |rest| == 1 {
          assert parts == [[s[0]] + rest[0]];
        } else {
          assert parts[1..] == rest[1..];
          assert JoinWith(parts, sep) == [s[0]] + (rest[0] + [sep] + JoinWith(rest[1..], sep));
        }
      }
    }
  }

  /** A string without the separator splits into itself alone. */
  lemma {:induction false} SplitWithoutSeparator(s: string, sep: char)
    requires sep !in s
    ensures SplitOn(s, sep) == [s]
  {
    if s != [] {
      SplitWithoutSeparator(s[1..], sep);
      assert s[0] != sep;
      assert s == [s[0]] + s[1..];
    }
  }

  /** A separator after a separator-free prefix ends the first piece there. */
  lemma {:induction false} SplitAtFirstSeparator(a: string, sep: char, b: string)
    requires sep !in a
    ensures SplitOn(a + [sep] + b, sep) == [a] + SplitOn(b, sep)
  {
    if a != [] {
      var s := a + [sep] + b;
      assert s[0] == a[0] && a[0] != sep;
      assert s[1..] == a[1..] + [sep] + b;
      SplitAtFirstSeparator(a[1..], sep, b);
      assert a == [a[0]] + a[1..];
    } else {
      assert ([sep] + b)[1..] == b;
    }
  }

  /** Splitting the join of separator-free pieces gives back the pieces. */
  lemma {:induction false} SplitJoin(parts: seq<string>, sep: char)
    requires |parts| >= 1
    requires forall i :: 0 <= i < |parts| ==> sep !in parts[i]
    ensures SplitOn(JoinWith(parts, sep), sep) == parts
  {
    if |parts| == 1 {
      SplitWithoutSeparator(parts[0], sep);
    } else {
      SplitJoin(parts[1..], sep);
      SplitAtFirstSeparator(parts[0], sep, JoinWith(parts[1..], sep));
    }
  }
}
