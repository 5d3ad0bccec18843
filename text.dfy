/** Character classes and the few `str` operations the lexers and the
    interpreters use: `trim`, `starts_with`, `ends_with`, `find` and `split`.
    Strings are sequences of Unicode scalar values, as Rust's `char`s are. */
module Text {

  /** `char::is_whitespace`, exact on U+0000..U+00FF (tab, line feed, vertical
      tab, form feed, carriage return, space, NEL and no-break space). */
  predicate IsWhitespace(c: char)
  {
    c == ' ' || ('\t' <= c <= '\r') || c == '\U{85}' || c == '\U{A0}'
  }

  /** `char::is_alphabetic`, exact on U+0000..U+00FF. */
  predicate IsAlphabetic(c: char)
  {
    ('A' <= c <= 'Z') || ('a' <= c <= 'z') || c == '\U{AA}' || c == '\U{B5}' || c == '\U{BA}'
    || ('\U{C0}' <= c <= '\U{D6}') || ('\U{D8}' <= c <= '\U{F6}') || ('\U{F8}' <= c <= '\U{FF}')
  }

  /** `char::is_digit(10)`: the ASCII digits only. */
  predicate IsDigit(c: char)
  {
    '0' <= c <= '9'
  }

  /** `char::is_numeric`, exact on U+0000..U+00FF (digits, superscripts, fractions). */
  predicate IsNumeric(c: char)
  {
    IsDigit(c) || c == '\U{B2}' || c == '\U{B3}' || c == '\U{B9}' || ('\U{BC}' <= c <= '\U{BE}')
  }

  /** `char::is_alphanumeric`. */
  predicate IsAlphanumeric(c: char)
  {
    IsAlphabetic(c) || IsNumeric(c)
  }

  predicate AllDigits(s: string)
  {
    forall k | 0 <= k < |s| :: IsDigit(s[k])
  }

  /** The number of whitespace characters at the start of `s`. */
  function LeadingWhitespace(s: string): (n: nat)
    ensures n <= |s|
  {
    if s != [] && IsWhitespace(s[0]) then 1 + LeadingWhitespace(s[1..]) else 0
  }

  /** The length of `s` without its trailing whitespace. */
  function TrailingStart(s: string): (n: nat)
    ensures n <= |s|
  {
    if s != [] && IsWhitespace(s[|s| - 1]) then TrailingStart(s[..|s| - 1]) else |s|
  }

  /** `str::trim_start`: drops the leading whitespace. */
  function TrimStart(s: string): string
  {
    s[LeadingWhitespace(s)..]
  }

  /** `str::trim_end`: drops the trailing whitespace. */
  function TrimEnd(s: string): string
  {
    s[..TrailingStart(s)]
  }

  /** `str::trim`: whitespace removed at both ends. */
  function Trim(s: string): string
  {
    TrimEnd(TrimStart(s))
  }

  /** `trim_start` removes exactly the leading whitespace. */
  lemma {:induction false} TrimStartSpec(s: string)
    ensures forall k | 0 <= k < LeadingWhitespace(s) :: IsWhitespace(s[k])
    ensures TrimStart(s) != [] ==> !IsWhitespace(TrimStart(s)[0])
    decreases |s|
  {
    if s != [] && IsWhitespace(s[0]) {
      TrimStartSpec(s[1..]);
      assert forall k | 1 <= k < LeadingWhitespace(s) :: s[k] == s[1..][k - 1];
      assert TrimStart(s) == TrimStart(s[1..]);
    }
  }

  /** `trim_end` removes exactly the trailing whitespace. */
  lemma {:induction false} TrimEndSpec(s: string)
    ensures forall k | TrailingStart(s) <= k < |s| :: IsWhitespace(s[k])
    ensures TrimEnd(s) != [] ==> !IsWhitespace(TrimEnd(s)[|TrimEnd(s)| - 1])
    decreases |s|
  {
    if s != [] && IsWhitespace(s[|s| - 1]) {
      var s' := s[..|s| - 1];
      TrimEndSpec(s');
      assert forall k | TrailingStart(s) <= k < |s'| :: s[k] == s'[k];
      assert TrimEnd(s) == TrimEnd(s');
    }
  }

  predicate StartsWith(s: string, p: string)
  {
    |p| <= |s| && s[..|p|] == p
  }

  predicate EndsWith(s: string, p: string)
  {
    |p| <= |s| && s[|s| - |p|..] == p
  }

  /** `str::find(c)`: the index of the first `c`, or `|s|` when there is none. */
  function FirstIndex(s: string, c: char): (r: nat)
    ensures r <= |s|
    ensures forall k | 0 <= k < r :: s[k] != c
    ensures r < |s| ==> s[r] == c
  {
    if s == [] then 0
    else if s[0] == c then 0
    else 1 + FirstIndex(s[1..], c)
  }

  lemma FirstIndexAt(x: string, rest: string, c: char)
    requires c !in x
    ensures FirstIndex(x + [c] + rest, c) == |x|
  {
    var s := x + [c] + rest;
    assert s[|x|] == c;
    assert forall k | 0 <= k < |x| :: s[k] == x[k];
  }

  lemma FirstIndexAbsent(x: string, c: char)
    requires c !in x
    ensures FirstIndex(x, c) == |x|
  {
    assert forall k | 0 <= k < |x| :: x[k] != c;
  }

  function CountOf(s: string, c: char): nat
  {
    if s == [] then 0 else (if s[0] == c then 1 else 0) + CountOf(s[1..], c)
  }

  /** `str::split(c)`: the pieces between the occurrences of `c`, in order. */
  function Split(s: string, c: char): (r: seq<string>)
    ensures |r| == CountOf(s, c) + 1
    ensures forall k | 0 <= k < |r| :: c !in r[k]
    decreases |s|
  {
    var k := FirstIndex(s, c);
    if k == |s| then
      assert CountOf(s, c) == 0 by { NotInCountZero(s, c); }
      [s]
    else
      assert CountOf(s, c) == 1 + CountOf(s[k + 1..], c) by { CountAfterFirst(s, c, k); }
      [s[..k]] + Split(s[k + 1..], c)
  }

  lemma {:induction false} NotInCountZero(s: string, c: char)
    requires c !in s
    ensures CountOf(s, c) == 0
  {
    if s != [] {
      NotInCountZero(s[1..], c);
    }
  }

  lemma {:induction false} CountAfterFirst(s: string, c: char, k: nat)
    requires k < |s| && s[k] == c && c !in s[..k]
    ensures CountOf(s, c) == 1 + CountOf(s[k + 1..], c)
  {
    if k > 0 {
      assert s[1..][..k - 1] == s[1..k];
      CountAfterFirst(s[1..], c, k - 1);
      assert s[1..][k..] == s[k + 1..];
    }
  }

  /** Splitting on a character that occurs exactly once gives the text before
      and the text after it. */
  lemma SplitOnce(s: string, c: char)
    requires CountOf(s, c) == 1
    ensures FirstIndex(s, c) < |s|
    ensures Split(s, c) == [s[..FirstIndex(s, c)], s[FirstIndex(s, c) + 1..]]
  {
    var k := FirstIndex(s, c);
    if k == |s| {
      NotInCountZero(s, c);
    } else {
      CountAfterFirst(s, c, k);
      var rest := s[k + 1..];
      assert |Split(rest, c)| == 1;
      assert c !in Split(rest, c)[0];
      assert FirstIndex(rest, c) == |rest|;
    }
  }

  /** Text after the first non-whitespace character is kept by `trim_start`. */
  lemma {:induction false} TrimStartAppend(x: string, y: string)
    requires TrimStart(x) != []
    ensures LeadingWhitespace(x + y) == LeadingWhitespace(x)
    ensures TrimStart(x + y) == TrimStart(x) + y
    decreases |x|
  {
    assert (x + y)[0] == x[0];
    if IsWhitespace(x[0]) {
      assert (x + y)[1..] == x[1..] + y;
      TrimStartAppend(x[1..], y);
    }
  }

  /** Text that trims to nothing is all leading whitespace. */
  lemma TrimBlank(s: string)
    requires Trim(s) == []
    ensures TrimStart(s) == []
  {
    TrimStartSpec(s);
    TrimEndSpec(TrimStart(s));
  }

  /** Leading text that is all whitespace is dropped by `trim_start`. */
  lemma {:induction false} TrimStartBlank(x: string, y: string)
    requires TrimStart(x) == []
    ensures TrimStart(x + y) == TrimStart(y)
    decreases |x|
  {
    if x == [] {
      assert x + y == y;
    } else {
      assert IsWhitespace(x[0]);
      assert (x + y)[0] == x[0] && (x + y)[1..] == x[1..] + y;
      TrimStartBlank(x[1..], y);
    }
  }

  /** Text before the last non-whitespace character is kept by `trim_end`. */
  lemma {:induction false} TrimEndAppend(x: string, y: string)
    requires x != [] && !IsWhitespace(x[|x| - 1])
    ensures TrailingStart(x + y) == |x| + TrailingStart(y)
    ensures TrimEnd(x + y) == x + TrimEnd(y)
    decreases |y|
  {
    if y == [] {
      assert x + y == x;
    } else {
      assert (x + y)[|x + y| - 1] == y[|y| - 1];
      if IsWhitespace(y[|y| - 1]) {
        assert (x + y)[..|x + y| - 1] == x + y[..|y| - 1];
        TrimEndAppend(x, y[..|y| - 1]);
        assert y[..|y| - 1][..TrailingStart(y)] == y[..TrailingStart(y)];
      }
    }
  }

  /** Trimming never introduces a character. */
  lemma NotInTrim(s: string, c: char)
    requires c !in s
    ensures c !in Trim(s)
  {
    var u := TrimStart(s);
    assert forall k | 0 <= k < |u| :: u[k] == s[LeadingWhitespace(s) + k];
    var t := TrimEnd(u);
    assert forall k | 0 <= k < |t| :: t[k] == u[k];
  }

  /** A trimmed text: no whitespace at either end. */
  predicate Trimmed(p: string)
  {
    p == [] || (!IsWhitespace(p[0]) && !IsWhitespace(p[|p| - 1]))
  }

  /** `trim` gives a trimmed text, and leaves a trimmed text as it is. */
  lemma TrimIsTrimmed(s: string)
    ensures Trimmed(Trim(s))
    ensures Trimmed(s) ==> Trim(s) == s
  {
    var u := TrimStart(s);
    TrimStartSpec(s);
    TrimEndSpec(u);
    if Trim(s) != [] {
      assert Trim(s)[0] == u[0];
    }
    if Trimmed(s) && s != [] {
      assert LeadingWhitespace(s) == 0;
      assert u == s;
      assert TrailingStart(s) == |s|;
    }
  }

  /** Splitting on the one `c` between `x` and `y` gives `x` and `y`. */
  lemma SplitAround(x: string, y: string, c: char)
    requires c !in x && c !in y
    ensures Split(x + [c] + y, c) == [x, y]
  {
    var s := x + [c] + y;
    FirstIndexAt(x, y, c);
    assert s[..|x|] == x && s[|x| + 1..] == y;
    FirstIndexAbsent(y, c);
  }

  lemma {:induction false} CountAppend(a: string, b: string, c: char)
    ensures CountOf(a + b, c) == CountOf(a, c) + CountOf(b, c)
    decreases |a|
  {
    if a == [] {
      assert a + b == b;
    } else {
      assert (a + b)[0] == a[0] && (a + b)[1..] == a[1..] + b;
      CountAppend(a[1..], b, c);
    }
  }

  lemma {:induction false} CountPositive(s: string, c: char)
    requires c in s
    ensures CountOf(s, c) > 0
    decreases |s|
  {
    if s[0] != c {
      assert c in s[1..];
      CountPositive(s[1..], c);
    }
  }
}
