/**
 * String operations that the frontend (TypeScript) and the backend (Python) use on
 * names, questions and messages: case folding, prefix/suffix/substring tests, joining,
 * decimal rendering of counters and JavaScript's `String.prototype.trim`.
 */
module Strings {

  // ----- case folding -----

  /** Lower-cases an ASCII capital letter; every other character is left as it is. */
  function LowerChar(c: char): char {
    if 'A' <= c <= 'Z' then (c as int + 32) as char else c
  }

  /**
   * Python's `str.lower()`, restricted to ASCII letters.  Among non-ASCII characters only
   * U+0130 and U+212A lower to ASCII letters ("i" followed by U+0307, and "k"), and neither
   * can complete any of the suffixes or keywords the backend looks for, so its decisions are
   * the same under this restriction.
   */
  function Lower(s: string): (r: string)
    ensures |r| == |s|
    ensures forall i :: 0 <= i < |s| ==> r[i] == LowerChar(s[i])
  {
    seq(|s|, i requires 0 <= i < |s| => LowerChar(s[i]))
  }

  // ----- prefixes, suffixes, substrings -----

  predicate StartsWith(s: string, prefix: string) {
    |prefix| <= |s| && s[..|prefix|] == prefix
  }

  predicate EndsWith(s: string, suffix: string) {
    |suffix| <= |s| && s[|s| - |suffix|..] == suffix
  }

  /** `sub in s` in Python, `s.includes(sub)` in JavaScript. */
  predicate Contains(s: string, sub: string)
    decreases |s|
  {
    StartsWith(s, sub) || (|s| > 0 && Contains(s[1..], sub))
  }

  /** A substring found at offset k is contained. */
  lemma {:induction false} ContainsAt(s: string, sub: string, k: nat)
    requires k + |sub| <= |s| && s[k..k + |sub|] == sub
    ensures Contains(s, sub)
  {
    if k > 0 {
      assert s[1..][k - 1..k - 1 + |sub|] == s[k..k + |sub|];
      ContainsAt(s[1..], sub, k - 1);
    } else {
      assert s[..|sub|] == sub;
    }
  }

  /** Whatever `s` contains, a longer string that ends with `s` contains too. */
  lemma {:induction false} ContainsExtendLeft(a: string, s: string, sub: string)
    requires Contains(s, sub)
    ensures Contains(a + s, sub)
    decreases |a|
  {
    if a != [] {
      assert (a + s)[1..] == a[1..] + s;
      ContainsExtendLeft(a[1..], s, sub);
    } else {
      assert a + s == s;
    }
  }

  /** Whatever `s` contains, a longer string that starts with `s` contains too. */
  lemma {:induction false} ContainsExtendRight(s: string, b: string, sub: string)
    requires Contains(s, sub)
    ensures Contains(s + b, sub)
    decreases |s|
  {
    if StartsWith(s, sub) {
      assert (s + b)[..|sub|] == s[..|sub|];
    } else {
      assert (s + b)[1..] == s[1..] + b;
      ContainsExtendRight(s[1..], b, sub);
    }
  }

  /** A string in which the first character of `sub` never occurs does not contain `sub`. */
  lemma {:induction false} NotContainsWithoutFirst(s: string, sub: string)
    requires |sub| > 0 && forall i :: 0 <= i < |s| ==> s[i] != sub[0]
    ensures !Contains(s, sub)
    decreases |s|
  {
    if |s| > 0 {
      if |sub| <= |s| {
        assert s[..|sub|][0] == s[0];
      }
      NotContainsWithoutFirst(s[1..], sub);
    }
  }

  /** A string contains every piece it is built around. */
  lemma ContainsMiddle(a: string, sub: string, b: string)
    ensures Contains(a + sub + b, sub)
  {
    var s := a + sub + b;
    assert s[|a|..|a| + |sub|] == sub;
    ContainsAt(s, sub, |a|);
  }

  // ----- joining -----

  /** `parts.join(sep)` in JavaScript, `sep.join(parts)` in Python. */
  function Join(parts: seq<string>, sep: string): string
    decreases |parts|
  {
    if |parts| == 0 then ""
    else if |parts| == 1 then parts[0]
    else parts[0] + sep + Join(parts[1..], sep)
  }

  /** Every part is visible in the joined string. */
  lemma {:induction false} JoinContainsPart(parts: seq<string>, sep: string, i: nat)
    requires i < |parts|
    ensures Contains(Join(parts, sep), parts[i])
    decreases |parts|
  {
    var joined := Join(parts, sep);
    if |parts| == 1 {
      assert joined[0..|parts[0]|] == parts[0];
      ContainsAt(joined, parts[0], 0);
    } else {
      var rest := Join(parts[1..], sep);
      assert joined == (parts[0] + sep) + rest;
      if i == 0 {
        assert joined[0..|parts[0]|] == parts[0];
        ContainsAt(joined, parts[0], 0);
      } else {
        JoinContainsPart(parts[1..], sep, i - 1);
        ContainsExtendLeft(parts[0] + sep, rest, parts[i]);
      }
    }
  }

  // ----- decimal rendering -----

  function Digit(d: nat): char
    requires d < 10
  {
    (48 + d) as char
  }

  /** `n.toString()` in JavaScript for a non-negative integer. */
  function Decimal(n: nat): (r: string)
    ensures |r| >= 1
    ensures n >= 10 ==> |r| >= 2
    decreases n
  {
    if n < 10 then [Digit(n)] else Decimal(n / 10) + [Digit(n % 10)]
  }

  /** Different numbers render differently, so generated names such as `file_<n>` never collide. */
  lemma {:induction false} DecimalInjective(a: nat, b: nat)
    requires Decimal(a) == Decimal(b)
    ensures a == b
    decreases a
  {
    if a >= 10 && b >= 10 {
      var da, db := Decimal(a), Decimal(b);
      assert da[|da| - 1] == Digit(a % 10) && db[|db| - 1] == Digit(b % 10);
      assert da[..|da| - 1] == Decimal(a / 10);
      assert db[..|db| - 1] == Decimal(b / 10);
      DecimalInjective(a / 10, b / 10);
    }
  }

  // ----- whitespace and trim -----

  /**
   * The characters `String.prototype.trim` removes: ECMAScript's WhiteSpace (tab, vertical
   * tab, form feed, U+FEFF and the space separators of category Zs) and LineTerminator.
   */
  predicate IsJsSpace(c: char) {
    c == '\t' || c == '\U{000B}' || c == '\U{000C}' || c == ' ' || c == '\U{00A0}' || c == '\U{FEFF}'
    || c == '\U{1680}' || ('\U{2000}' <= c <= '\U{200A}') || c == '\U{202F}' || c == '\U{205F}'
    || c == '\U{3000}' || c == '\n' || c == '\r' || c == '\U{2028}' || c == '\U{2029}'
  }

  function TrimStart(s: string): (r: string)
    ensures r == [] || !IsJsSpace(r[0])
    decreases |s|
  {
    if |s| > 0 && IsJsSpace(s[0]) then TrimStart(s[1..]) else s
  }

  function TrimEnd(s: string): string
    decreases |s|
  {
    if |s| > 0 && IsJsSpace(s[|s| - 1]) then TrimEnd(s[..|s| - 1]) else s
  }

  /** `s.trim()` */
  function Trim(s: string): string {
    TrimEnd(TrimStart(s))
  }

  predicate Blank(s: string) {
    forall i :: 0 <= i < |s| ==> IsJsSpace(s[i])
  }

  lemma {:induction false} TrimStartEmptyIffBlank(s: string)
    ensures TrimStart(s) == "" <==> Blank(s)
    decreases |s|
  {
    if |s| > 0 {
      if IsJsSpace(s[0]) {
        TrimStartEmptyIffBlank(s[1..]);
        assert Blank(s) <==> Blank(s[1..]) by {
          if Blank(s[1..]) {
            forall i | 0 <= i < |s| ensures IsJsSpace(s[i]) {
              if i > 0 { assert s[i] == s[1..][i - 1]; }
            }
          }
        }
      } else {
        assert !Blank(s);
      }
    }
  }

  lemma {:induction false} TrimEndKeepsNonBlank(s: string)
    requires !Blank(s)
    ensures TrimEnd(s) != ""
    decreases |s|
  {
    if IsJsSpace(s[|s| - 1]) {
      var t := s[..|s| - 1];
      assert !Blank(t) by {
        var i :| 0 <= i < |s| && !IsJsSpace(s[i]);
        assert i < |s| - 1 && t[i] == s[i];
      }
      TrimEndKeepsNonBlank(t);
    }
  }

  /** JavaScript's `!s.trim()`: trimming leaves nothing exactly when every character is whitespace. */
  lemma TrimEmptyIffBlank(s: string)
    ensures Trim(s) == "" <==> Blank(s)
  {
    TrimStartEmptyIffBlank(s);
    if !Blank(s) {
      var t := TrimStart(s);
      assert !Blank(t);
      TrimEndKeepsNonBlank(t);
    }
  }
}
