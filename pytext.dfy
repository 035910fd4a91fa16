/** The handful of Python `str` operations the chatbot's core relies on,
    over strings as sequences of code points (as Python 3 sees them). */
module PyText {

  /** Python's `str.isspace()`: the 29 code points U+0009 to U+000D,
      U+001C to U+0020, U+0085, U+00A0, U+1680, U+2000 to U+200A, U+2028,
      U+2029, U+202F, U+205F and U+3000. */
  predicate IsSpace(c: char) {
    ('\t' <= c <= '\r') || ('\U{1C}' <= c <= ' ') || c == '\U{85}' || c == '\U{A0}'
    || c == '\U{1680}' || ('\U{2000}' <= c <= '\U{200A}') || c == '\U{2028}' || c == '\U{2029}'
    || c == '\U{202F}' || c == '\U{205F}' || c == '\U{3000}'
  }

  /** The characters `strip()` with no argument removes. */
  const Whitespace: set<char> := set c: char | IsSpace(c)

  /** Neither end of `s` is whitespace. */
  predicate Trimmed(s: string) {
    s == [] || (s[0] !in Whitespace && s[|s| - 1] !in Whitespace)
  }

  predicate AllIn(s: string, cs: set<char>) {
    forall i :: 0 <= i < |s| ==> s[i] in cs
  }

  /** `s.lstrip(chars)`: drop the longest prefix made of characters of `cs`. */
  function LStrip(s: string, cs: set<char>): (r: string)
    ensures |r| <= |s|
  {
    if |s| > 0 && s[0] in cs then LStrip(s[1..], cs) else s
  }

  /** `LStrip` keeps a suffix of `s`, removes only characters of `cs`, and
      stops at the first character outside `cs`: the prefix it removes is
      the longest one made of characters of `cs`. */
  lemma {:induction false} LStripSpec(s: string, cs: set<char>)
    ensures var r := LStrip(s, cs);
            r == s[|s| - |r|..] && (r == [] || r[0] !in cs)
            && AllIn(s[..|s| - |r|], cs)
  {
    if |s| > 0 && s[0] in cs {
      LStripSpec(s[1..], cs);
      var n := |s| - |LStrip(s, cs)|;
      forall i | 0 <= i < n ensures s[..n][i] in cs {
        if i > 0 { assert s[..n][i] == s[1..][..n - 1][i - 1]; }
      }
    }
  }

  /** A string made only of characters of `cs` is stripped to nothing. */
  lemma {:induction false} LStripAll(s: string, cs: set<char>)
    requires AllIn(s, cs)
    ensures LStrip(s, cs) == []
  {
    if s != [] {
      LStripAll(s[1..], cs);
    }
  }

  /** Once `LStrip` stops inside `s`, what follows `s` is kept whole. */
  lemma {:induction false} LStripConcat(s: string, t: string, cs: set<char>)
    requires LStrip(s, cs) != []
    ensures LStrip(s + t, cs) == LStrip(s, cs) + t
  {
    assert (s + t)[0] == s[0];
    if s[0] in cs {
      assert (s + t)[1..] == s[1..] + t;
      LStripConcat(s[1..], t, cs);
    }
  }

  /** When `LStrip` removes all of `s`, it goes on into what follows. */
  lemma {:induction false} LStripConcatAll(s: string, t: string, cs: set<char>)
    requires LStrip(s, cs) == []
    ensures LStrip(s + t, cs) == LStrip(t, cs)
  {
    if s == [] {
      assert s + t == t;
    } else {
      assert (s + t)[0] == s[0] && (s + t)[1..] == s[1..] + t;
      LStripConcatAll(s[1..], t, cs);
    }
  }

  /** `s.rstrip(chars)`: drop the longest suffix made of characters of `cs`. */
  function RStrip(s: string, cs: set<char>): (r: string)
    ensures |r| <= |s|
  {
    if |s| > 0 && s[|s| - 1] in cs then RStrip(s[..|s| - 1], cs) else s
  }

  /** `RStrip` keeps a prefix of `s`, removes only characters of `cs`, and
      stops at the last character outside `cs`. */
  lemma {:induction false} RStripSpec(s: string, cs: set<char>)
    ensures var r := RStrip(s, cs);
            r == s[..|r|] && (r == [] || r[|r| - 1] !in cs)
            && AllIn(s[|r|..], cs)
  {
    if |s| > 0 && s[|s| - 1] in cs {
      var t := s[..|s| - 1];
      RStripSpec(t, cs);
      var m := |RStrip(s, cs)|;
      forall i | 0 <= i < |s| - m ensures s[m..][i] in cs {
        if m + i < |s| - 1 { assert s[m..][i] == t[m..][i]; }
      }
    }
  }

  /** `s.strip()`: `s` without its leading and trailing whitespace. */
  function Strip(s: string): (r: string)
    ensures |r| <= |s| && Trimmed(r)
  {
    LStripSpec(s, Whitespace);
    RStripSpec(LStrip(s, Whitespace), Whitespace);
    RStrip(LStrip(s, Whitespace), Whitespace)
  }

  /** `r` is `s[a..a + |r|]` and everything of `s` around it is whitespace. */
  predicate StrippedAt(s: string, r: string, a: int) {
    0 <= a <= |s| - |r| && r == s[a..a + |r|]
    && AllIn(s[..a], Whitespace) && AllIn(s[a + |r|..], Whitespace)
  }

  /** `Strip` removes whitespace, and only whitespace, from both ends. */
  lemma StripRemovesOnlyWhitespace(s: string)
    ensures exists a :: StrippedAt(s, Strip(s), a)
  {
    var left := LStrip(s, Whitespace);
    var r := RStrip(left, Whitespace);
    var a := |s| - |left|;
    LStripSpec(s, Whitespace);
    RStripSpec(left, Whitespace);
    assert r == Strip(s);
    assert r == s[a..a + |r|];
    assert s[a + |r|..] == left[|r|..];
    assert AllIn(s[..a], Whitespace);
    assert AllIn(s[a + |r|..], Whitespace);
    assert StrippedAt(s, r, a);
  }

  /** A string is blank (falsy after `strip()`) exactly when it is all whitespace. */
  lemma StripEmptyIff(s: string)
    ensures Strip(s) == [] <==> AllIn(s, Whitespace)
  {
    StripRemovesOnlyWhitespace(s);
    var r := Strip(s);
    var a :| StrippedAt(s, r, a);
    if r == [] {
      forall i | 0 <= i < |s| ensures s[i] in Whitespace {
        if i < a { assert s[..a][i] == s[i]; } else { assert s[a..][i - a] == s[i]; }
      }
    } else {
      assert s[a] == r[0];
    }
  }

  /** A trailing whitespace character, such as the `\r` of a CRLF line
      ending, makes no difference after `strip()`. */
  lemma StripTrailingSpace(s: string, c: char)
    requires c in Whitespace
    ensures Strip(s + [c]) == Strip(s)
  {
    var left := LStrip(s, Whitespace);
    if left != [] {
      LStripConcat(s, [c], Whitespace);
      RStripAppend(left, c, Whitespace);
    } else {
      LStripConcatAll(s, [c], Whitespace);
      LStripAll([c], Whitespace);
    }
  }

  /** A character of `cs` appended to `s` is the first thing `RStrip` removes. */
  lemma RStripAppend(s: string, c: char, cs: set<char>)
    requires c in cs
    ensures RStrip(s + [c], cs) == RStrip(s, cs)
  {
    var sc := s + [c];
    assert sc[|sc| - 1] == c && sc[..|sc| - 1] == s;
  }

  /** A part of a string lacks every character the string lacks. */
  lemma InfixLacks(s: string, t: string, a: int, c: char)
    requires c !in s
    requires 0 <= a <= |s| - |t| && t == s[a..a + |t|]
    ensures c !in t
  {
  }

  /** Stripping never introduces a character. */
  lemma StripLacks(s: string, c: char)
    requires c !in s
    ensures c !in Strip(s)
  {
    StripRemovesOnlyWhitespace(s);
    var a :| StrippedAt(s, Strip(s), a);
    InfixLacks(s, Strip(s), a, c);
  }

  lemma LStripLacks(s: string, cs: set<char>, c: char)
    requires c !in s
    ensures c !in LStrip(s, cs)
  {
    LStripSpec(s, cs);
    InfixLacks(s, LStrip(s, cs), |s| - |LStrip(s, cs)|, c);
  }

  /** Whitespace-free ends are kept: stripping twice changes nothing. */
  lemma StripTrimmed(s: string)
    requires Trimmed(s)
    ensures Strip(s) == s
  {
  }

  /** Number of occurrences of `c` in `s`. */
  function Count(s: string, c: char): (n: nat)
    ensures n <= |s|
    ensures n == 0 <==> c !in s
  {
    if s == [] then 0 else (if s[0] == c then 1 else 0) + Count(s[1..], c)
  }

  /** `s.split(sep)` for a one-character separator: the pieces between
      separators, always at least one (`"".split("\n") == [""]`). */
  function Split(s: string, sep: char): (r: seq<string>)
    ensures |r| == Count(s, sep) + 1
    ensures forall k :: 0 <= k < |r| ==> sep !in r[k]
  {
    if s == [] then [[]]
    else
      var rest := Split(s[1..], sep);
      if s[0] == sep then [[]] + rest
      else [[s[0]] + rest[0]] + rest[1..]
  }

  /** `sep.join(parts)` for a one-character separator (`"".join([]) == ""`). */
  function Join(parts: seq<string>, sep: char): (r: string)
  {
    if parts == [] then []
    else if |parts| == 1 then parts[0]
    else parts[0] + [sep] + Join(parts[1..], sep)
  }

  /** Joining the pieces again gives back the string that was split. */
  lemma {:induction false} JoinSplit(s: string, sep: char)
    ensures Join(Split(s, sep), sep) == s
  {
    if s != [] {
      var rest := Split(s[1..], sep);
      JoinSplit(s[1..], sep);
      if s[0] != sep {
        if |rest| == 1 {
          assert Split(s, sep) == [[s[0]] + rest[0]];
        } else {
          assert Split(s, sep)[1..] == rest[1..];
        }
      }
    }
  }

  /** Splitting a join gives back the parts, when none contains the separator. */
  lemma {:induction false} SplitJoin(parts: seq<string>, sep: char)
    requires |parts| > 0
    requires forall k :: 0 <= k < |parts| ==> sep !in parts[k]
    ensures Split(Join(parts, sep), sep) == parts
  {
    if |parts| == 1 {
      SplitNoSep(parts[0], sep);
    } else {
      SplitJoin(parts[1..], sep);
      SplitPrefix(parts[0], Join(parts[1..], sep), sep);
      assert parts == [parts[0]] + parts[1..];
    }
  }

  lemma {:induction false} SplitNoSep(s: string, sep: char)
    requires sep !in s
    ensures Split(s, sep) == [s]
  {
    if s != [] {
      SplitNoSep(s[1..], sep);
      assert [s[0]] + s[1..] == s;
    }
  }

  lemma {:induction false} SplitPrefix(p: string, t: string, sep: char)
    requires sep !in p
    ensures Split(p + [sep] + t, sep) == [p] + Split(t, sep)
  {
    var s := p + [sep] + t;
    if p == [] {
      assert s == [sep] + t;
      assert s[0] == sep && s[1..] == t;
    } else {
      assert s[0] == p[0] != sep;
      assert s[1..] == p[1..] + [sep] + t;
      SplitPrefix(p[1..], t, sep);
      var rest := Split(s[1..], sep);
      assert rest == [p[1..]] + Split(t, sep);
      assert rest[0] == p[1..] && rest[1..] == Split(t, sep);
      assert Split(s, sep) == [[s[0]] + rest[0]] + rest[1..];
      assert [p[0]] + p[1..] == p;
    }
  }

  /** Python's list comprehension `[f(x) for x in xs if keep(x)]`. */
  function Comprehension<T, U>(xs: seq<T>, keep: T -> bool, f: T -> U): (r: seq<U>)
    ensures |r| <= |xs|
  {
    if xs == [] then []
    else (if keep(xs[0]) then [f(xs[0])] else []) + Comprehension(xs[1..], keep, f)
  }

  /** The comprehension works element by element, in order. */
  lemma {:induction false} ComprehensionAppend<T, U>(a: seq<T>, b: seq<T>, keep: T -> bool, f: T -> U)
    ensures Comprehension(a + b, keep, f) == Comprehension(a, keep, f) + Comprehension(b, keep, f)
  {
    if a == [] {
      assert a + b == b;
    } else {
      var ab := a + b;
      var head := if keep(a[0]) then [f(a[0])] else [];
      assert ab[0] == a[0];
      assert ab[1..] == a[1..] + b;
      ComprehensionAppend(a[1..], b, keep, f);
      calc {
        Comprehension(ab, keep, f);
        head + Comprehension(a[1..] + b, keep, f);
        head + (Comprehension(a[1..], keep, f) + Comprehension(b, keep, f));
        (head + Comprehension(a[1..], keep, f)) + Comprehension(b, keep, f);
        Comprehension(a, keep, f) + Comprehension(b, keep, f);
      }
    }
  }

  lemma ComprehensionSingle<T, U>(x: T, keep: T -> bool, f: T -> U)
    ensures Comprehension([x], keep, f) == if keep(x) then [f(x)] else []
  {
    assert [x][1..] == [];
  }

  /** The number of elements of `xs` that `keep` accepts. */
  function KeptCount<T>(xs: seq<T>, keep: T -> bool): (n: nat)
    ensures n <= |xs|
  {
    if xs == [] then 0 else (if keep(xs[0]) then 1 else 0) + KeptCount(xs[1..], keep)
  }

  /** One result per kept element: nothing kept is dropped, and the result
      is empty only when nothing is kept. */
  lemma {:induction false} ComprehensionCount<T, U>(xs: seq<T>, keep: T -> bool, f: T -> U)
    ensures |Comprehension(xs, keep, f)| == KeptCount(xs, keep)
    ensures (forall k :: 0 <= k < |xs| ==> keep(xs[k])) ==> |Comprehension(xs, keep, f)| == |xs|
    ensures Comprehension(xs, keep, f) == [] <==> forall k :: 0 <= k < |xs| ==> !keep(xs[k])
  {
    if xs != [] {
      ComprehensionCount(xs[1..], keep, f);
      assert forall k :: 0 <= k < |xs| - 1 ==> xs[1..][k] == xs[k + 1];
    }
  }

  /** Each element of the result is `f` of a kept element, and what follows
      it is the comprehension over what follows that element. */
  lemma {:induction false} ComprehensionOrigin<T, U>(xs: seq<T>, keep: T -> bool, f: T -> U, k: nat)
    requires k < |Comprehension(xs, keep, f)|
    ensures exists j :: 0 <= j < |xs| && keep(xs[j])
                        && Comprehension(xs, keep, f)[k] == f(xs[j])
                        && Comprehension(xs, keep, f)[k + 1..] == Comprehension(xs[j + 1..], keep, f)
  {
    var r := Comprehension(xs, keep, f);
    var rest := Comprehension(xs[1..], keep, f);
    if keep(xs[0]) && k == 0 {
      assert r[1..] == rest;
      assert xs[0 + 1..] == xs[1..];
    } else {
      var k' := if keep(xs[0]) then k - 1 else k;
      assert r[k] == rest[k'] && r[k + 1..] == rest[k' + 1..];
      ComprehensionOrigin(xs[1..], keep, f, k');
      var j :| 0 <= j < |xs| - 1 && keep(xs[1..][j])
               && rest[k'] == f(xs[1..][j])
               && rest[k' + 1..] == Comprehension(xs[1..][j + 1..], keep, f);
      assert xs[1..][j + 1..] == xs[j + 2..];
      assert xs[1..][j] == xs[j + 1];
    }
  }

  predicate OccursAt(s: string, w: string, i: int) {
    0 <= i <= |s| - |w| && s[i..i + |w|] == w
  }

  /** Python's `w in s` for strings: `w` occurs in `s` at some position. */
  function Contains(s: string, w: string): (r: bool)
    ensures r <==> exists i :: OccursAt(s, w, i)
    decreases |s|
  {
    if |w| > |s| then false
    else if s[..|w|] == w then assert OccursAt(s, w, 0); true
    else
      var r := Contains(s[1..], w);
      assert r ==> exists i :: OccursAt(s, w, i) by {
        if r {
          var j :| OccursAt(s[1..], w, j);
          assert s[j + 1..j + 1 + |w|] == s[1..][j..j + |w|];
          assert OccursAt(s, w, j + 1);
        }
      }
      assert (exists i :: OccursAt(s, w, i)) ==> r by {
        if exists i :: OccursAt(s, w, i) {
          var i :| OccursAt(s, w, i);
          assert i != 0;
          assert s[1..][i - 1..i - 1 + |w|] == s[i..i + |w|];
          assert OccursAt(s[1..], w, i - 1);
        }
      }
      r
  }

  /** The KELVIN SIGN, whose lower case is the ASCII letter `k`. */
  const Kelvin: char := '\U{212A}'

  /** Python's `c.lower()` as far as it can produce an ASCII letter: `A`-`Z`
      and the KELVIN SIGN (U+212A, lowered to `k`) are the only code points
      whose lower case is a single ASCII letter; every other code point is
      kept. */
  function LowerChar(c: char): (r: char)
    ensures !('A' <= r <= 'Z')
    ensures !('A' <= c <= 'Z') && c != Kelvin ==> r == c
  {
    if 'A' <= c <= 'Z' then (c as int + 32) as char
    else if c == Kelvin then 'k'
    else c
  }

  function Lower(s: string): (r: string)
    ensures |r| == |s| && forall i :: 0 <= i < |s| ==> r[i] == LowerChar(s[i])
  {
    seq(|s|, i requires 0 <= i < |s| => LowerChar(s[i]))
  }

  /** Python's `c.upper()` on ASCII letters; other code points are kept. */
  function UpperChar(c: char): (r: char)
  {
    if 'a' <= c <= 'z' then (c as int - 32) as char else c
  }

  function Upper(s: string): (r: string)
    ensures |r| == |s| && forall i :: 0 <= i < |s| ==> r[i] == UpperChar(s[i])
  {
    seq(|s|, i requires 0 <= i < |s| => UpperChar(s[i]))
  }

  /** `c` and `d` are equal, or the same ASCII letter in the other case. */
  predicate SameLetterIgnoringCase(c: char, d: char) {
    c == d || ('a' <= c <= 'z' && d == UpperChar(c)) || ('a' <= d <= 'z' && c == UpperChar(d))
  }

  /** Lowering forgets every ASCII case change: two strings that differ only
      in the case of ASCII letters, position by position, lower alike. */
  lemma LowerIgnoresAsciiCase(s: string, t: string)
    requires |s| == |t| && forall i :: 0 <= i < |s| ==> SameLetterIgnoringCase(s[i], t[i])
    ensures Lower(s) == Lower(t)
  {
    forall i | 0 <= i < |s| ensures Lower(s)[i] == Lower(t)[i] {
      var c, d := s[i], t[i];
      if 'a' <= c <= 'z' && d == UpperChar(c) {
        assert d as int == c as int - 32;
      } else if 'a' <= d <= 'z' && c == UpperChar(d) {
        assert c as int == d as int - 32;
      }
    }
  }

  /** In particular upper-casing the whole string changes nothing after lowering. */
  lemma LowerUpper(s: string)
    ensures Lower(Upper(s)) == Lower(s)
  {
    LowerIgnoresAsciiCase(Upper(s), s);
  }
}
