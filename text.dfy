/** The few string operations of Python's `str` that the core relies on. */
module Text {

  /** Python's `str.isspace()` on one character: the Unicode code points with
      bidirectional class WS, B or S, or general category Zs. */
  predicate IsWhitespace(c: char)
  {
    var n := c as int;
    || 0x09 <= n <= 0x0D
    || 0x1C <= n <= 0x1F
    || n == 0x20
    || n == 0x85
    || n == 0xA0
    || n == 0x1680
    || 0x2000 <= n <= 0x200A
    || n == 0x2028
    || n == 0x2029
    || n == 0x202F
    || n == 0x205F
    || n == 0x3000
  }

  predicate AllWhitespace(s: string)
  {
    forall i :: 0 <= i < |s| ==> IsWhitespace(s[i])
  }

  /** Python's `s.rstrip()` with no argument: the longest prefix of `s` that
      leaves only whitespace behind and does not itself end in whitespace. */
  function RStrip(s: string): (r: string)
    ensures |r| <= |s| && r == s[..|r|]
    ensures AllWhitespace(s[|r|..])
    ensures r == "" || !IsWhitespace(r[|r| - 1])
  {
    if s == "" || !IsWhitespace(s[|s| - 1]) then s else RStrip(s[..|s| - 1])
  }

  /** The three properties of `RStrip` determine its result. */
  lemma RStripUnique(s: string, r: string)
    requires |r| <= |s| && r == s[..|r|]
    requires AllWhitespace(s[|r|..])
    requires r == "" || !IsWhitespace(r[|r| - 1])
    ensures RStrip(s) == r
  {
  }

  /** Stripping a concatenation: a whitespace-only tail is removed entirely
      and the strip goes on into `a`; otherwise only `b` is stripped. */
  lemma RStripConcat(a: string, b: string)
    ensures RStrip(a + b) == if AllWhitespace(b) then RStrip(a) else a + RStrip(b)
  {
    var s := a + b;
    if AllWhitespace(b) {
      var r := RStrip(a);
      assert s[..|r|] == r;
      assert s[|r|..] == a[|r|..] + b;
      RStripUnique(s, r);
    } else {
      var r := RStrip(b);
      assert s[..|a| + |r|] == a + r;
      assert s[|a| + |r|..] == b[|r|..];
      RStripUnique(s, a + r);
    }
  }

  /** Python's `sub in s` for strings. */
  predicate Contains(s: string, sub: string)
    ensures Contains(s, sub) ==> |sub| <= |s|
    ensures sub <= s || EndsWith(s, sub) ==> Contains(s, sub)
  {
    assert s[0..] == s;
    assert EndsWith(s, sub) ==> sub <= s[|s| - |sub|..];
    exists i :: 0 <= i <= |s| && sub <= s[i..]
  }

  predicate EndsWith(s: string, suffix: string)
  {
    |suffix| <= |s| && s[|s| - |suffix|..] == suffix
  }

  /** Number of occurrences of `c` in `s`. */
  function Occurrences(s: string, c: char): (n: nat)
    ensures n == 0 <==> c !in s
    ensures n <= |s|
  {
    if s == "" then 0 else Occurrences(s[..|s| - 1], c) + (if s[|s| - 1] == c then 1 else 0)
  }

  lemma {:induction false} OccurrencesConcat(a: string, b: string, c: char)
    ensures Occurrences(a + b, c) == Occurrences(a, c) + Occurrences(b, c)
  {
    if b != "" {
      assert (a + b)[..|a + b| - 1] == a + b[..|b| - 1];
      OccurrencesConcat(a, b[..|b| - 1], c);
    } else {
      assert a + b == a;
    }
  }
}
