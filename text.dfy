/** The JavaScript string operations the core relies on: `trim`, `startsWith`, `split`,
    `join`, decimal digits, and number-to-string conversion for messages. */
module Text {

  /** ECMAScript's WhiteSpace and LineTerminator code points: what `String.prototype.trim`
      strips from both ends. */
  predicate IsWhitespace(c: char) {
    || c == '\t' || c == '\n' || c == '\U{000B}' || c == '\U{000C}' || c == '\r' || c == ' '
    || c == '\U{00A0}' || c == '\U{1680}' || ('\U{2000}' <= c <= '\U{200A}')
    || c == '\U{2028}' || c == '\U{2029}' || c == '\U{202F}' || c == '\U{205F}'
    || c == '\U{3000}' || c == '\U{FEFF}'
  }

  /** Every character is whitespace (the empty string included). */
  predicate IsBlank(s: string) {
    forall i :: 0 <= i < |s| ==> IsWhitespace(s[i])
  }

  function TrimStart(s: string): (r: string)
    ensures |r| <= |s|
    ensures r == s[|s| - |r|..]
    ensures r == [] <==> IsBlank(s)
    ensures r != [] ==> !IsWhitespace(r[0])
    ensures IsBlank(s[..|s| - |r|])
  {
    if s != [] && IsWhitespace(s[0]) then
      var r := TrimStart(s[1..]);
      assert s[1..][..|s[1..]| - |r|] == s[1..|s| - |r|];
      r
    else s
  }

  function TrimEnd(s: string): (r: string)
    ensures |r| <= |s|
    ensures r == s[..|r|]
    ensures r == [] <==> IsBlank(s)
    ensures r != [] ==> !IsWhitespace(r[|r| - 1])
    ensures IsBlank(s[|r|..])
  {
    if s != [] && IsWhitespace(s[|s| - 1]) then
      var init := s[..|s| - 1];
      var r := TrimEnd(init);
      assert init[..|r|] == s[..|r|];
      assert s[|r|..] == init[|r|..] + [s[|s| - 1]];
      assert r == [] ==> s[|r|..] == s;
      assert IsBlank(s) ==> IsBlank(init) by {
        forall i | 0 <= i < |init| ensures IsBlank(s) ==> IsWhitespace(init[i]) {
          assert init[i] == s[i];
        }
      }
      r
    else s
  }

  /** The number of whitespace characters `trim` strips from the front of `s`. */
  function LeadingWhitespace(s: string): (k: nat)
    ensures k <= |s|
  {
    |s| - |TrimStart(s)|
  }

  /** `s.trim()`: `s` without its leading and trailing whitespace. The result is the piece of
      `s` after its leading whitespace, empty exactly when `s` is blank, and otherwise starts
      and ends with a character that is not whitespace. */
  function Trim(s: string): (r: string)
    ensures |r| <= |s|
    ensures r == [] <==> IsBlank(s)
    ensures r != [] ==> !IsWhitespace(r[0]) && !IsWhitespace(r[|r| - 1])
    ensures LeadingWhitespace(s) + |r| <= |s|
    ensures r == s[LeadingWhitespace(s)..LeadingWhitespace(s) + |r|]
  {
    var front := TrimStart(s);
    var r := TrimEnd(front);
    BlankAround(s[..|s| - |front|], front);
    r
  }

  lemma BlankAround(pre: string, s: string)
    requires IsBlank(pre)
    ensures IsBlank(pre + s) <==> IsBlank(s)
  {
    if IsBlank(pre + s) {
      forall i | 0 <= i < |s| ensures IsWhitespace(s[i]) {
        assert s[i] == (pre + s)[|pre| + i];
      }
    }
  }

  /** Whitespace around a string that has a non-whitespace character does not change its
      trimmed form. */
  lemma {:induction false} TrimPadded(pre: string, t: string, post: string)
    requires IsBlank(pre) && IsBlank(post)
    ensures Trim(pre + t + post) == Trim(t)
  {
    var whole := pre + t + post;
    assert whole == pre + (t + post);
    TrimStartBlankPrefix(pre, t + post);
    assert TrimStart(whole) == TrimStart(t + post);
    if IsBlank(t) {
      assert IsBlank(t + post) by {
        forall i | 0 <= i < |t + post| ensures IsWhitespace((t + post)[i]) {
          if i < |t| {
            assert (t + post)[i] == t[i];
          } else {
            assert (t + post)[i] == post[i - |t|];
          }
        }
      }
      assert TrimStart(t + post) == [] && TrimStart(t) == [];
    } else {
      TrimStartKeepsSuffix(t, post);
      TrimEndBlankSuffix(TrimStart(t), post);
    }
    assert Trim(whole) == TrimEnd(TrimStart(whole));
    assert Trim(t) == TrimEnd(TrimStart(t));
  }

  /** Trimming twice is trimming once. */
  lemma TrimIdempotent(s: string)
    ensures Trim(Trim(s)) == Trim(s)
  {
    var r := Trim(s);
    if r != [] {
      assert TrimStart(r) == r;
      assert TrimEnd(r) == r;
    }
  }

  lemma {:induction false} TrimStartBlankPrefix(pre: string, s: string)
    requires IsBlank(pre)
    ensures TrimStart(pre + s) == TrimStart(s)
  {
    if pre != [] {
      assert (pre + s)[1..] == pre[1..] + s;
      TrimStartBlankPrefix(pre[1..], s);
    } else {
      assert pre + s == s;
    }
  }

  lemma {:induction false} TrimStartKeepsSuffix(t: string, post: string)
    requires !IsBlank(t)
    ensures TrimStart(t + post) == TrimStart(t) + post
  {
    assert t != [];
    if IsWhitespace(t[0]) {
      assert (t + post)[1..] == t[1..] + post;
      TrimStartKeepsSuffix(t[1..], post);
    }
  }

  lemma {:induction false} TrimEndBlankSuffix(s: string, post: string)
    requires IsBlank(post)
    ensures TrimEnd(s + post) == TrimEnd(s)
  {
    if post != [] {
      var shorter := post[..|post| - 1];
      assert (s + post)[..|s + post| - 1] == s + shorter;
      TrimEndBlankSuffix(s, shorter);
    } else {
      assert s + post == s;
    }
  }

  /** `s.startsWith(prefix)`. */
  predicate StartsWith(s: string, prefix: string) {
    |prefix| <= |s| && s[..|prefix|] == prefix
  }

  /** `xs.join(sep)`. */
  function Join(xs: seq<string>, sep: string): string {
    if |xs| == 0 then "" else if |xs| == 1 then xs[0] else xs[0] + sep + Join(xs[1..], sep)
  }

  /** `s.split(sep)` for a one-character separator: the pieces between separators, in order;
      there is always at least one piece. */
  function Split(s: string, sep: char): (parts: seq<string>)
    ensures |parts| >= 1
  {
    if s == [] then [""]
    else if s[0] == sep then [""] + Split(s[1..], sep)
    else var rest := Split(s[1..], sep); [[s[0]] + rest[0]] + rest[1..]
  }

  lemma {:induction false} SplitWithoutSeparator(s: string, sep: char)
    requires sep !in s
    ensures Split(s, sep) == [s]
  {
    if s != [] {
      SplitWithoutSeparator(s[1..], sep);
      assert [s[0]] + s[1..] == s;
    }
  }

  /** A string with exactly one separator splits into the text before and after it. */
  lemma {:induction false} SplitAtOneSeparator(a: string, b: string, sep: char)
    requires sep !in a && sep !in b
    ensures Split(a + [sep] + b, sep) == [a, b]
  {
    if a == [] {
      assert a + [sep] + b == [sep] + b;
      assert ([sep] + b)[1..] == b;
      SplitWithoutSeparator(b, sep);
    } else {
      var s := a + [sep] + b;
      assert s[1..] == a[1..] + [sep] + b;
      SplitAtOneSeparator(a[1..], b, sep);
      assert [a[0]] + a[1..] == a;
    }
  }

  predicate IsDigit(c: char) {
    '0' <= c <= '9'
  }

  predicate AllDigits(s: string) {
    forall i :: 0 <= i < |s| ==> IsDigit(s[i])
  }

  function DigitValue(c: char): (d: nat)
    requires IsDigit(c)
    ensures d < 10
  {
    (c as int) - ('0' as int)
  }

  function DigitChar(d: nat): (c: char)
    requires d < 10
    ensures IsDigit(c) && DigitValue(c) == d
  {
    (('0' as int) + d) as char
  }

  /** The value of a string of decimal digits (the empty string reads as 0, as `Number('')`). */
  function DigitsValue(s: string): nat
    requires AllDigits(s)
  {
    if s == [] then 0 else DigitsValue(s[..|s| - 1]) * 10 + DigitValue(s[|s| - 1])
  }

  /** Decimal rendering of a natural number, without leading zeros. */
  function NatToString(n: nat): (s: string)
    ensures |s| >= 1 && AllDigits(s)
    ensures DigitsValue(s) == n
  {
    if n < 10 then [DigitChar(n)]
    else
      var s := NatToString(n / 10) + [DigitChar(n % 10)];
      assert s[..|s| - 1] == NatToString(n / 10);
      s
  }

  /** `${n}` for an integer `n`. */
  function IntToString(n: int): (s: string)
    ensures |s| >= 1
    ensures n >= 0 ==> AllDigits(s) && DigitsValue(s) == n
    ensures n < 0 ==> s[0] == '-' && AllDigits(s[1..]) && DigitsValue(s[1..]) == -n
  {
    if n >= 0 then NatToString(n) else "-" + NatToString(-n)
  }
}
