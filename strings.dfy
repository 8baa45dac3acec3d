/** Python's `str` comparison (code-point lexicographic order), the
    `min`/`max` builtins over a list of strings, decimal formatting of a
    natural number, and `str.strip`. */
module Strings {

  /** `a <= b` on Python strings: compare code points left to right; a proper
      prefix is smaller. */
  predicate StrLe(a: string, b: string)
    decreases |a|
  {
    a == [] || (b != [] && (a[0] < b[0] || (a[0] == b[0] && StrLe(a[1..], b[1..]))))
  }

  /** `a < b` on Python strings. */
  predicate StrLt(a: string, b: string)
  {
    StrLe(a, b) && a != b
  }

  lemma {:induction false} StrLeReflexive(a: string)
    ensures StrLe(a, a)
  {
    if a != [] {
      StrLeReflexive(a[1..]);
    }
  }

  lemma {:induction false} StrLeAntisymmetric(a: string, b: string)
    requires StrLe(a, b) && StrLe(b, a)
    ensures a == b
  {
    if a != [] && b != [] {
      StrLeAntisymmetric(a[1..], b[1..]);
      assert a == [a[0]] + a[1..] && b == [b[0]] + b[1..];
    }
  }

  lemma {:induction false} StrLeTransitive(a: string, b: string, c: string)
    requires StrLe(a, b) && StrLe(b, c)
    ensures StrLe(a, c)
  {
    if a != [] && b != [] && c != [] && a[0] == b[0] && b[0] == c[0] {
      StrLeTransitive(a[1..], b[1..], c[1..]);
    }
  }

  lemma {:induction false} StrLeTotal(a: string, b: string)
    ensures StrLe(a, b) || StrLe(b, a)
  {
    if a != [] && b != [] && a[0] == b[0] {
      StrLeTotal(a[1..], b[1..]);
    }
  }

  /** Python's `min(xs)`: scan left to right, replacing the current value by
      an item only when the item is strictly smaller. */
  function MinOf(xs: seq<string>): (m: string)
    requires xs != []
    ensures m in xs
    ensures forall x :: x in xs ==> StrLe(m, x)
  {
    if |xs| == 1 then
      StrLeReflexive(xs[0]);
      xs[0]
    else
      var cur := MinOf(xs[..|xs| - 1]);
      var item := xs[|xs| - 1];
      assert xs == xs[..|xs| - 1] + [item];
      if StrLt(item, cur) then
        forall x | x in xs ensures StrLe(item, x) {
          if x in xs[..|xs| - 1] { StrLeTransitive(item, cur, x); } else { StrLeReflexive(item); }
        }
        item
      else
        StrLeTotal(item, cur);
        forall x | x in xs ensures StrLe(cur, x) {
          if x == item && x !in xs[..|xs| - 1] {
            if cur == item { StrLeReflexive(cur); }
          }
        }
        cur
  }

  /** Python's `max(xs)`: scan left to right, replacing the current value by
      an item only when the item is strictly greater. */
  function MaxOf(xs: seq<string>): (m: string)
    requires xs != []
    ensures m in xs
    ensures forall x :: x in xs ==> StrLe(x, m)
  {
    if |xs| == 1 then
      StrLeReflexive(xs[0]);
      xs[0]
    else
      var cur := MaxOf(xs[..|xs| - 1]);
      var item := xs[|xs| - 1];
      assert xs == xs[..|xs| - 1] + [item];
      if StrLt(cur, item) then
        forall x | x in xs ensures StrLe(x, item) {
          if x in xs[..|xs| - 1] { StrLeTransitive(x, cur, item); } else { StrLeReflexive(item); }
        }
        item
      else
        StrLeTotal(item, cur);
        forall x | x in xs ensures StrLe(x, cur) {
          if x == item && x !in xs[..|xs| - 1] {
            if cur == item { StrLeReflexive(cur); }
          }
        }
        cur
  }

  /** On the same non-empty list, `min` is at most `max`. */
  lemma MinAtMostMax(xs: seq<string>)
    requires xs != []
    ensures StrLe(MinOf(xs), MaxOf(xs))
  {
  }

  // ---- decimal numerals, as Python's f"{i}" writes a non-negative int ----

  function DigitChar(d: nat): (c: char)
    requires d < 10
    ensures '0' <= c <= '9'
  {
    ('0' as int + d) as char
  }

  function DigitValue(c: char): nat
    requires '0' <= c <= '9'
  {
    c as int - '0' as int
  }

  predicate IsDigits(s: string)
  {
    forall i :: 0 <= i < |s| ==> '0' <= s[i] <= '9'
  }

  /** `str(n)` for a non-negative int: decimal, no leading zeros. */
  function NatToString(n: nat): (s: string)
    ensures s != [] && IsDigits(s)
    ensures |s| > 1 ==> s[0] != '0'
  {
    if n < 10 then [DigitChar(n)] else NatToString(n / 10) + [DigitChar(n % 10)]
  }

  /** `int(s)` for a string of decimal digits. */
  function ParseDigits(s: string): nat
    requires IsDigits(s)
  {
    if s == [] then 0 else 10 * ParseDigits(s[..|s| - 1]) + DigitValue(s[|s| - 1])
  }

  /** Reading back a formatted number gives the number. */
  lemma {:induction false} ParseNatToString(n: nat)
    ensures ParseDigits(NatToString(n)) == n
  {
    if n >= 10 {
      ParseNatToString(n / 10);
      var s := NatToString(n);
      assert s[..|s| - 1] == NatToString(n / 10);
    }
  }

  /** Different numbers are formatted differently. */
  lemma NatToStringInjective(m: nat, n: nat)
    requires NatToString(m) == NatToString(n)
    ensures m == n
  {
    ParseNatToString(m);
    ParseNatToString(n);
  }

  // ---- str.strip() ----

  /** The ASCII characters Python's `str.isspace` accepts. */
  predicate IsSpace(c: char)
  {
    c == ' ' || c == '\t' || c == '\n' || c == '\r' || c == '\U{b}' || c == '\U{c}'
    || ('\U{1c}' <= c <= '\U{1f}')
  }

  /** `s.lstrip()`: what is dropped is whitespace, and what is kept does
      not start with whitespace. */
  function StripLeft(s: string): (r: string)
    ensures r == [] || !IsSpace(r[0])
    ensures |r| <= |s|
    ensures forall i :: 0 <= i < |s| - |r| ==> IsSpace(s[i])
  {
    if s != [] && IsSpace(s[0]) then StripLeft(s[1..]) else s
  }

  /** `s.lstrip()` keeps a suffix of `s`. */
  lemma {:induction false} StripLeftIsSuffix(s: string)
    ensures StripLeft(s) == s[|s| - |StripLeft(s)|..]
  {
    if s != [] && IsSpace(s[0]) {
      StripLeftIsSuffix(s[1..]);
    }
  }

  /** `s.rstrip()`: what is dropped is whitespace, and what is kept does
      not end with whitespace. */
  function StripRight(s: string): (r: string)
    ensures r == [] || !IsSpace(r[|r| - 1])
    ensures |r| <= |s|
    ensures forall i :: |r| <= i < |s| ==> IsSpace(s[i])
  {
    if s != [] && IsSpace(s[|s| - 1]) then StripRight(s[..|s| - 1]) else s
  }

  /** `s.rstrip()` keeps a prefix of `s`. */
  lemma {:induction false} StripRightIsPrefix(s: string)
    ensures StripRight(s) == s[..|StripRight(s)|]
  {
    if s != [] && IsSpace(s[|s| - 1]) {
      StripRightIsPrefix(s[..|s| - 1]);
    }
  }

  /** `s.strip()`: drop leading and trailing whitespace. */
  function Strip(s: string): (r: string)
    ensures r == [] || (!IsSpace(r[0]) && !IsSpace(r[|r| - 1]))
  {
    StripRightIsPrefix(StripLeft(s));
    StripRight(StripLeft(s))
  }

  /** The number of whitespace characters `s.lstrip()` drops. */
  function LeadingSpace(s: string): (n: nat)
    ensures n <= |s|
  {
    |s| - |StripLeft(s)|
  }

  /** Stripping only drops characters at the ends: the result is the slice
      of the text after its leading whitespace. */
  lemma StripIsSlice(s: string)
    ensures LeadingSpace(s) + |Strip(s)| <= |s|
    ensures Strip(s) == s[LeadingSpace(s) .. LeadingSpace(s) + |Strip(s)|]
  {
    var left := StripLeft(s);
    StripLeftIsSuffix(s);
    StripRightIsPrefix(left);
    assert left == s[LeadingSpace(s)..];
    DropThenTake(s, LeadingSpace(s), |Strip(s)|);
  }

  /** Taking `n` after dropping `o` is the slice from `o` to `o + n`. */
  lemma DropThenTake<T>(s: seq<T>, o: nat, n: nat)
    requires o + n <= |s|
    ensures s[o..][..n] == s[o..o + n]
  {
  }

  /** A prefix of a text that holds no `sep` (such as the text before the
      first `sep`), stripped, is the slice of the text after the prefix's
      leading whitespace, and holds no `sep`. */
  lemma StripPrefix(s: string, prefix: string, sep: char)
    requires |prefix| <= |s| && prefix == s[..|prefix|] && sep !in prefix
    ensures LeadingSpace(prefix) + |Strip(prefix)| <= |prefix|
    ensures Strip(prefix) == s[LeadingSpace(prefix) .. LeadingSpace(prefix) + |Strip(prefix)|]
    ensures sep !in Strip(prefix)
  {
    StripIsSlice(prefix);
    SliceOfPrefix(s, prefix, LeadingSpace(prefix), |Strip(prefix)|, sep);
  }

  /** A slice of a prefix without `sep` is the same slice of the whole text,
      and holds no `sep`. */
  lemma SliceOfPrefix(s: string, prefix: string, o: nat, n: nat, sep: char)
    requires |prefix| <= |s| && prefix == s[..|prefix|] && o + n <= |prefix| && sep !in prefix
    ensures prefix[o..o + n] == s[o..o + n]
    ensures sep !in prefix[o..o + n]
  {
    var piece := prefix[o..o + n];
    forall i | 0 <= i < n ensures piece[i] != sep {
      assert piece[i] == prefix[o + i];
    }
  }

  /** `s.split(sep)[0]`: everything before the first `sep` (all of `s` when
      there is none). */
  function BeforeFirst(s: string, sep: char): (r: string)
    ensures sep !in r
    ensures |r| <= |s| && r == s[..|r|]
    ensures |r| < |s| ==> s[|r|] == sep
  {
    if s == [] then []
    else if s[0] == sep then []
    else
      var rest := BeforeFirst(s[1..], sep);
      assert s[..|rest| + 1] == [s[0]] + s[1..][..|rest|];
      [s[0]] + rest
  }
}
