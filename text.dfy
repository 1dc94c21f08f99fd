/** The Python `str` operations the pipeline is built from. Whitespace is the
    set Python's `str.isspace` accepts; case mapping, letters and digits are
    the ASCII ones (non-ASCII case mapping and Unicode digits are outside the
    model). */
module Text {
  import opened Wrappers

  // ---------------------------------------------------------------- characters

  /** `c.isspace()` in Python. */
  predicate IsSpace(c: char) {
    var n := c as int;
    n == 0x20 || 0x09 <= n <= 0x0D || 0x1C <= n <= 0x1F || n == 0x85 || n == 0xA0
    || n == 0x1680 || 0x2000 <= n <= 0x200A || n == 0x2028 || n == 0x2029
    || n == 0x202F || n == 0x205F || n == 0x3000
  }

  predicate IsDigit(c: char) { '0' <= c <= '9' }
  predicate IsUpperLetter(c: char) { 'A' <= c <= 'Z' }
  predicate IsLowerLetter(c: char) { 'a' <= c <= 'z' }
  predicate IsLetter(c: char) { IsUpperLetter(c) || IsLowerLetter(c) }

  function ToUpperChar(c: char): char {
    if IsLowerLetter(c) then (c as int - 32) as char else c
  }

  function ToLowerChar(c: char): char {
    if IsUpperLetter(c) then (c as int + 32) as char else c
  }

  function DigitChar(d: nat): char
    requires d < 10
  {
    ('0' as int + d) as char
  }

  function DigitValue(c: char): nat
    requires IsDigit(c)
  {
    c as int - '0' as int
  }

  predicate AllSpace(s: string) { forall i :: 0 <= i < |s| ==> IsSpace(s[i]) }
  predicate AllDigits(s: string) { forall i :: 0 <= i < |s| ==> IsDigit(s[i]) }
  predicate NoSpace(s: string) { forall i :: 0 <= i < |s| ==> !IsSpace(s[i]) }

  // ---------------------------------------------------------------- case mapping

  /** `s.upper()` (ASCII letters only). */
  function Upper(s: string): string {
    seq(|s|, i requires 0 <= i < |s| => ToUpperChar(s[i]))
  }

  /** `s.lower()` (ASCII letters only). */
  function Lower(s: string): string {
    seq(|s|, i requires 0 <= i < |s| => ToLowerChar(s[i]))
  }

  lemma UpperIdempotent(s: string)
    ensures Upper(Upper(s)) == Upper(s)
  {
  }

  lemma CaseKeepsSpace(c: char)
    ensures IsSpace(ToUpperChar(c)) == IsSpace(c)
    ensures IsSpace(ToLowerChar(c)) == IsSpace(c)
  {
  }

  lemma LowerConcat(a: string, b: string)
    ensures Lower(a + b) == Lower(a) + Lower(b)
  {
  }

  /** Lower-casing a string without capital letters changes nothing. */
  lemma LowerNoUpper(s: string)
    requires forall i :: 0 <= i < |s| ==> !IsUpperLetter(s[i])
    ensures Lower(s) == s
  {
  }

  /** `s.title()`: a letter is upper-cased when the character before it is
      not a letter and lower-cased otherwise; other characters are kept. */
  function Title(s: string): string {
    TitleAfter(s, false)
  }

  function TitleAfter(s: string, afterLetter: bool): string
    decreases |s|
  {
    if s == [] then []
    else
      var c := s[0];
      var t := if !IsLetter(c) then c else if afterLetter then ToLowerChar(c) else ToUpperChar(c);
      [t] + TitleAfter(s[1..], IsLetter(c))
  }

  /** Reference definition of `title()`, one position at a time. */
  function TitleAt(s: string, i: nat): char
    requires i < |s|
  {
    if !IsLetter(s[i]) then s[i]
    else if i > 0 && IsLetter(s[i - 1]) then ToLowerChar(s[i])
    else ToUpperChar(s[i])
  }

  lemma {:induction false} TitleAfterAt(s: string, afterLetter: bool, i: nat)
    requires i < |s|
    ensures |TitleAfter(s, afterLetter)| == |s|
    ensures TitleAfter(s, afterLetter)[i] ==
      if !IsLetter(s[i]) then s[i]
      else if (if i == 0 then afterLetter else IsLetter(s[i - 1])) then ToLowerChar(s[i])
      else ToUpperChar(s[i])
    decreases |s|
  {
    if i == 0 {
      TitleLength(s[1..], IsLetter(s[0]));
    } else {
      TitleAfterAt(s[1..], IsLetter(s[0]), i - 1);
    }
  }

  lemma {:induction false} TitleLength(s: string, afterLetter: bool)
    ensures |TitleAfter(s, afterLetter)| == |s|
    decreases |s|
  {
    if s != [] {
      TitleLength(s[1..], IsLetter(s[0]));
    }
  }

  /** `title()` keeps the length and agrees with the position-wise definition. */
  lemma TitleIsPositionwise(s: string)
    ensures |Title(s)| == |s|
    ensures forall i :: 0 <= i < |s| ==> Title(s)[i] == TitleAt(s, i)
  {
    TitleLength(s, false);
    forall i | 0 <= i < |s|
      ensures Title(s)[i] == TitleAt(s, i)
    {
      TitleAfterAt(s, false, i);
    }
  }

  // ---------------------------------------------------------------- strip and split

  function StripLeft(s: string): string
    decreases |s|
  {
    if s != [] && IsSpace(s[0]) then StripLeft(s[1..]) else s
  }

  function StripRight(s: string): string
    decreases |s|
  {
    if s != [] && IsSpace(s[|s| - 1]) then StripRight(s[..|s| - 1]) else s
  }

  /** `s.strip()`. */
  function Strip(s: string): string {
    StripRight(StripLeft(s))
  }

  /** How many leading whitespace characters `StripLeft` removes. */
  function LeadingSpace(s: string): (n: nat)
    ensures n <= |s|
    decreases |s|
  {
    if s != [] && IsSpace(s[0]) then 1 + LeadingSpace(s[1..]) else 0
  }

  /** Where the trailing whitespace starts. */
  function TrailingStart(s: string): (n: nat)
    ensures n <= |s|
    decreases |s|
  {
    if s != [] && IsSpace(s[|s| - 1]) then TrailingStart(s[..|s| - 1]) else |s|
  }

  lemma {:induction false} StripLeftIsSuffix(s: string)
    ensures StripLeft(s) == s[LeadingSpace(s)..]
    ensures AllSpace(s[..LeadingSpace(s)])
    ensures StripLeft(s) == [] || !IsSpace(StripLeft(s)[0])
    decreases |s|
  {
    if s != [] && IsSpace(s[0]) {
      StripLeftIsSuffix(s[1..]);
      assert s[1..][LeadingSpace(s[1..])..] == s[LeadingSpace(s)..];
      assert forall i :: 0 < i < LeadingSpace(s) ==> s[..LeadingSpace(s)][i] == s[1..][..LeadingSpace(s[1..])][i - 1];
    }
  }

  lemma {:induction false} StripRightIsPrefix(s: string)
    ensures StripRight(s) == s[..TrailingStart(s)]
    ensures AllSpace(s[TrailingStart(s)..])
    ensures StripRight(s) == [] || !IsSpace(StripRight(s)[|StripRight(s)| - 1])
    decreases |s|
  {
    if s != [] && IsSpace(s[|s| - 1]) {
      var p := s[..|s| - 1];
      StripRightIsPrefix(p);
      assert p[..TrailingStart(p)] == s[..TrailingStart(s)];
      assert forall i :: TrailingStart(s) <= i < |s| - 1 ==> s[i] == p[i];
    }
  }

  /** `strip()` removes exactly the whitespace at both ends: the result is the
      slice of `s` between a whitespace-only prefix and a whitespace-only
      suffix, and it neither starts nor ends with whitespace. */
  lemma {:induction false} StripIsSlice(s: string)
    ensures var i, j := LeadingSpace(s), LeadingSpace(s) + TrailingStart(s[LeadingSpace(s)..]);
      && i <= j <= |s|
      && Strip(s) == s[i..j]
      && AllSpace(s[..i]) && AllSpace(s[j..])
      && (Strip(s) == [] || (!IsSpace(Strip(s)[0]) && !IsSpace(Strip(s)[|Strip(s)| - 1])))
  {
    StripSlice(s);
    StripEnds(s);
  }

  lemma {:induction false} StripSlice(s: string)
    ensures LeadingSpace(s) + TrailingStart(s[LeadingSpace(s)..]) <= |s|
    ensures Strip(s) == s[LeadingSpace(s)..LeadingSpace(s) + TrailingStart(s[LeadingSpace(s)..])]
    ensures AllSpace(s[..LeadingSpace(s)])
    ensures AllSpace(s[LeadingSpace(s) + TrailingStart(s[LeadingSpace(s)..])..])
  {
    StripLeftIsSuffix(s);
    var i := LeadingSpace(s);
    var t := s[i..];
    var m := TrailingStart(t);
    StripRightIsPrefix(t);
    SliceOfSuffix(s, i, m);
    assert Strip(s) == StripRight(t);
    assert Strip(s) == s[i..i + m];
    assert t[m..] == s[i + m..];
    assert AllSpace(s[i + m..]);
  }

  lemma {:induction false} StripEnds(s: string)
    ensures Strip(s) == [] || (!IsSpace(Strip(s)[0]) && !IsSpace(Strip(s)[|Strip(s)| - 1]))
  {
    StripLeftIsSuffix(s);
    var l := StripLeft(s);
    StripRightIsPrefix(l);
    if Strip(s) != [] {
      assert Strip(s)[0] == l[0];
    }
  }

  /** Cutting a suffix of `s` at `m` cuts `s` at `i + m`. */
  lemma SliceOfSuffix(s: string, i: nat, m: nat)
    requires i + m <= |s|
    ensures s[i..][..m] == s[i..i + m] && s[i..][m..] == s[i + m..]
    ensures m > 0 ==> s[i..][..m][0] == s[i..][0]
  {
  }

  /** Both parts all digits, so is the whole. */
  lemma AllDigitsConcat(a: string, b: string)
    requires AllDigits(a) && AllDigits(b)
    ensures AllDigits(a + b)
  {
    assert forall i :: 0 <= i < |a + b| ==> (a + b)[i] == if i < |a| then a[i] else b[i - |a|];
  }

  lemma {:induction false} StripLeftNoop(s: string)
    requires s == [] || !IsSpace(s[0])
    ensures StripLeft(s) == s
  {
  }

  lemma {:induction false} StripRightNoop(s: string)
    requires s == [] || !IsSpace(s[|s| - 1])
    ensures StripRight(s) == s
  {
  }

  /** A string that already has no whitespace at its ends is its own strip. */
  lemma StripNoop(s: string)
    requires s == [] || (!IsSpace(s[0]) && !IsSpace(s[|s| - 1]))
    ensures Strip(s) == s
  {
    StripLeftNoop(s);
    StripRightNoop(s);
  }

  lemma {:induction false} StripLeftSpaces(pre: string, s: string)
    requires AllSpace(pre) && (s == [] || !IsSpace(s[0]))
    ensures StripLeft(pre + s) == s
    decreases |pre|
  {
    if pre == [] {
      assert pre + s == s;
      StripLeftNoop(s);
    } else {
      assert (pre + s)[1..] == pre[1..] + s;
      StripLeftSpaces(pre[1..], s);
    }
  }

  lemma {:induction false} StripRightSpaces(s: string, post: string)
    requires AllSpace(post) && (s == [] || !IsSpace(s[|s| - 1]))
    ensures StripRight(s + post) == s
    decreases |post|
  {
    if post == [] {
      assert s + post == s;
      StripRightNoop(s);
    } else {
      var p := post[..|post| - 1];
      assert (s + post)[..|s + post| - 1] == s + p;
      StripRightSpaces(s, p);
    }
  }

  /** `strip()` removes exactly the whitespace around a text that has none
      at its own ends. */
  lemma StripSurrounded(pre: string, s: string, post: string)
    requires AllSpace(pre) && AllSpace(post)
    requires s != [] && !IsSpace(s[0]) && !IsSpace(s[|s| - 1])
    ensures Strip(pre + s + post) == s
  {
    assert pre + s + post == pre + (s + post);
    StripLeftSpaces(pre, s + post);
    StripRightSpaces(s, post);
  }

  lemma StripIdempotent(s: string)
    ensures Strip(Strip(s)) == Strip(s)
  {
    StripIsSlice(s);
    StripNoop(Strip(s));
  }

  /** `s.strip().upper()` is a normal form: normalising again changes nothing. */
  lemma UpperStripIdempotent(s: string)
    ensures Upper(Strip(Upper(Strip(s)))) == Upper(Strip(s))
  {
    var t := Strip(s);
    StripIsSlice(s);
    var u := Upper(t);
    if u != [] {
      CaseKeepsSpace(t[0]);
      CaseKeepsSpace(t[|t| - 1]);
    }
    StripNoop(u);
    UpperIdempotent(t);
  }

  /** The same for `s.strip().lower()`. */
  lemma LowerStripIdempotent(s: string)
    ensures Lower(Strip(Lower(Strip(s)))) == Lower(Strip(s))
  {
    var t := Strip(s);
    StripIsSlice(s);
    var u := Lower(t);
    if u != [] {
      CaseKeepsSpace(t[0]);
      CaseKeepsSpace(t[|t| - 1]);
    }
    StripNoop(u);
    assert Lower(u) == u;
  }

  /** Index of the first whitespace character at or after `i`, or `|s|`. */
  function WordEnd(s: string, i: nat): (k: nat)
    requires i <= |s|
    ensures i <= k <= |s|
    ensures forall j :: i <= j < k ==> !IsSpace(s[j])
    ensures k < |s| ==> IsSpace(s[k])
    decreases |s| - i
  {
    if i == |s| || IsSpace(s[i]) then i else WordEnd(s, i + 1)
  }

  /** `s.split()` with no separator: the maximal runs of non-whitespace. */
  function Split(s: string): (words: seq<string>)
    ensures forall w :: w in words ==> w != [] && NoSpace(w)
    decreases |s|
  {
    if s == [] then []
    else if IsSpace(s[0]) then Split(s[1..])
    else
      var k := WordEnd(s, 0);
      assert NoSpace(s[..k]);
      [s[..k]] + Split(s[k..])
  }

  /** `split()` finds no word exactly when the string is all whitespace. */
  lemma {:induction false} SplitEmptyIffAllSpace(s: string)
    ensures Split(s) == [] <==> AllSpace(s)
    decreases |s|
  {
    if s != [] {
      SplitEmptyIffAllSpace(s[1..]);
      if IsSpace(s[0]) {
        assert AllSpace(s) <==> AllSpace(s[1..]) by {
          assert forall i :: 0 < i < |s| ==> s[i] == s[1..][i - 1];
        }
      }
    }
  }

  // ---------------------------------------------------------------- numbers

  /** `str(n)` for a natural number. */
  function Decimal(n: nat): (r: string)
    ensures |r| >= 1 && AllDigits(r)
    decreases n
  {
    if n < 10 then [DigitChar(n)] else Decimal(n / 10) + [DigitChar(n % 10)]
  }

  /** `str(i)` for any integer. */
  function IntToString(i: int): string {
    if i < 0 then "-" + Decimal(-i) else Decimal(i)
  }

  /** End of the run of digits starting at `j` (a greedy `\d+`). */
  function DigitRunEnd(s: string, j: nat): (k: nat)
    requires j <= |s|
    ensures j <= k <= |s| && AllDigits(s[j..k])
    ensures k < |s| ==> !IsDigit(s[k])
    decreases |s| - j
  {
    if j < |s| && IsDigit(s[j]) then
      var k := DigitRunEnd(s, j + 1);
      assert s[j..k] == [s[j]] + s[j + 1..k];
      k
    else j
  }

  /** The digit run from inside `x` ends where `x` does when what follows
      `x` does not start with a digit. */
  lemma {:induction false} DigitRunEndOf(x: string, y: string, j: nat)
    requires j <= |x| && AllDigits(x) && (y == [] || !IsDigit(y[0]))
    ensures DigitRunEnd(x + y, j) == |x|
    decreases |x| - j
  {
    if j < |x| {
      DigitRunEndOf(x, y, j + 1);
    } else if y != [] {
      assert (x + y)[j] == y[0];
    }
  }

  /** The value of a string of decimal digits. */
  function DigitsValue(s: string): nat
    requires AllDigits(s)
    decreases |s|
  {
    if s == [] then 0 else 10 * DigitsValue(s[..|s| - 1]) + DigitValue(s[|s| - 1])
  }

  lemma {:induction false} DecimalRoundTrip(n: nat)
    ensures DigitsValue(Decimal(n)) == n
    decreases n
  {
    if n >= 10 {
      DecimalRoundTrip(n / 10);
      var d := Decimal(n);
      assert d[..|d| - 1] == Decimal(n / 10);
    }
  }

  function Zeros(k: nat): (r: string)
    ensures |r| == k && AllDigits(r)
  {
    seq(k, _ => '0')
  }

  /** Leading zeros do not change the value of a digit string. */
  lemma {:induction false} LeadingZerosValue(k: nat, s: string)
    requires AllDigits(s)
    ensures AllDigits(Zeros(k) + s)
    ensures DigitsValue(Zeros(k) + s) == DigitsValue(s)
    decreases |s|
  {
    assert AllDigits(Zeros(k) + s) by {
      assert forall i :: 0 <= i < |Zeros(k) + s| ==> (Zeros(k) + s)[i] == if i < k then '0' else s[i - k];
    }
    if s == [] {
      assert Zeros(k) + s == Zeros(k);
      ZerosValue(k);
    } else {
      var p := s[..|s| - 1];
      LeadingZerosValue(k, p);
      assert (Zeros(k) + s)[..|Zeros(k) + s| - 1] == Zeros(k) + p;
    }
  }

  lemma {:induction false} ZerosValue(k: nat)
    ensures DigitsValue(Zeros(k)) == 0
    decreases k
  {
    if k > 0 {
      ZerosValue(k - 1);
      assert Zeros(k)[..k - 1] == Zeros(k - 1);
    }
  }

  /** `f"{n:0{width}d}"` for a natural number: zero-padded to `width`, never cut. */
  function Pad(n: nat, width: nat): (r: string)
    ensures AllDigits(r)
  {
    var d := Decimal(n);
    if |d| >= width then d else Zeros(width - |d|) + d
  }

  lemma PadValue(n: nat, width: nat)
    ensures DigitsValue(Pad(n, width)) == n
    ensures |Pad(n, width)| == if |Decimal(n)| >= width then |Decimal(n)| else width
  {
    DecimalRoundTrip(n);
    var d := Decimal(n);
    if |d| < width {
      LeadingZerosValue(width - |d|, d);
    }
  }

  /** A decimal digit string of at most `width` digits pads to exactly `width`. */
  lemma {:induction false} DecimalLength(n: nat, width: nat)
    requires width >= 1 && n < Power10(width)
    ensures |Decimal(n)| <= width
    decreases width
  {
    if n >= 10 {
      assert Power10(1) == 10;
      assert width >= 2;
      assert n / 10 < Power10(width - 1);
      DecimalLength(n / 10, width - 1);
    }
  }

  function Power10(k: nat): (r: nat)
    ensures r >= 1
  {
    if k == 0 then 1 else 10 * Power10(k - 1)
  }

  /** The digits of a Python integer literal after the sign: digits with single
      underscores between them. */
  predicate DigitBody(s: string) {
    && |s| >= 1 && IsDigit(s[0]) && IsDigit(s[|s| - 1])
    && (forall i :: 0 <= i < |s| ==> IsDigit(s[i]) || s[i] == '_')
    && (forall i :: 0 <= i < |s| - 1 ==> !(s[i] == '_' && s[i + 1] == '_'))
  }

  function RemoveChar(s: string, c: char): (r: string)
    ensures c !in r
    ensures |r| <= |s|
    ensures forall x :: x in r ==> x in s
    decreases |s|
  {
    if s == [] then []
    else if s[0] == c then RemoveChar(s[1..], c)
    else [s[0]] + RemoveChar(s[1..], c)
  }

  lemma {:induction false} RemoveCharKeepsDigits(s: string)
    requires forall i :: 0 <= i < |s| ==> IsDigit(s[i]) || s[i] == '_'
    ensures AllDigits(RemoveChar(s, '_'))
    decreases |s|
  {
    if s != [] {
      RemoveCharKeepsDigits(s[1..]);
    }
  }

  lemma {:induction false} RemoveCharAbsent(s: string, c: char)
    requires c !in s
    ensures RemoveChar(s, c) == s
    decreases |s|
  {
    if s != [] {
      RemoveCharAbsent(s[1..], c);
    }
  }

  /** `int(s)` for a Python `str` in base 10: surrounding whitespace, an
      optional sign, digits with single underscores between them; `None`
      stands for the `ValueError` raised on anything else. */
  function PyInt(s: string): (r: Option<int>)
    ensures r.Some? && '-' !in s ==> r.value >= 0
  {
    var t := Strip(s);
    var negative := |t| > 0 && t[0] == '-';
    var body := if |t| > 0 && (t[0] == '+' || t[0] == '-') then t[1..] else t;
    if DigitBody(body) then
      RemoveCharKeepsDigits(body);
      var v := DigitsValue(RemoveChar(body, '_'));
      StripIsSlice(s);
      assert negative ==> '-' in s;
      var value := if negative then -(v as int) else v as int;
      Some(value)
    else None
  }

  /** `int()` reads back what `Pad` writes. */
  lemma PyIntOfPad(n: nat, width: nat)
    ensures PyInt(Pad(n, width)) == Some(n)
  {
    var p := Pad(n, width);
    PadValue(n, width);
    assert p != [] && !IsSpace(p[0]) && !IsSpace(p[|p| - 1]);
    StripNoop(p);
    assert '_' !in p;
    RemoveCharAbsent(p, '_');
  }

  // ---------------------------------------------------------------- searching

  predicate StartsWith(s: string, prefix: string) {
    |prefix| <= |s| && s[..|prefix|] == prefix
  }

  predicate EndsWith(s: string, suffix: string) {
    |suffix| <= |s| && s[|s| - |suffix|..] == suffix
  }

  /** `sub` occurs in `s` at index `i`. */
  predicate OccursAt(s: string, sub: string, i: nat) {
    i + |sub| <= |s| && s[i..i + |sub|] == sub
  }

  /** `s.find(sub, start)`: the least index at or after `start` where `sub`
      occurs, or -1. */
  function Find(s: string, sub: string, start: nat): (r: int)
    ensures r == -1 || (start <= r && OccursAt(s, sub, r))
    decreases |s| - start
  {
    if start + |sub| > |s| then -1
    else if s[start..start + |sub|] == sub then start
    else Find(s, sub, start + 1)
  }

  /** `find` gives the first occurrence: none lies between `start` and the
      index found, and none at all after `start` when it gives -1. */
  lemma {:induction false} FindIsLeast(s: string, sub: string, start: nat, i: nat)
    requires start <= i && (Find(s, sub, start) == -1 || i < Find(s, sub, start))
    ensures !OccursAt(s, sub, i)
    decreases |s| - start
  {
    if start + |sub| <= |s| && s[start..start + |sub|] != sub && start < i {
      FindIsLeast(s, sub, start + 1, i);
    }
  }

  /** A string starts with `a + b` exactly when it starts with `a` and what
      follows `a` starts with `b`. */
  lemma StartsWithConcat(s: string, a: string, b: string)
    ensures StartsWith(s, a + b) <==> StartsWith(s, a) && StartsWith(s[|a|..], b)
  {
    if StartsWith(s, a) && |a + b| <= |s| {
      assert s[..|a + b|] == s[..|a|] + s[|a|..][..|b|];
    }
    if StartsWith(s, a + b) {
      assert s[..|a|] == (a + b)[..|a|];
      assert s[|a|..][..|b|] == (a + b)[|a|..];
    }
  }

  /** An occurrence inside a slice is an occurrence in the whole string. */
  lemma OccursInSlice(s: string, sub: string, a: nat, b: nat, i: nat)
    requires a <= b <= |s| && OccursAt(s[a..b], sub, i)
    ensures OccursAt(s, sub, a + i) && a + i + |sub| <= b
  {
    var w := s[a..b];
    var v := w[i..i + |sub|];
    assert forall k :: 0 <= k < |sub| ==> v[k] == s[a + i + k];
    assert v == s[a + i..a + i + |sub|];
  }

  /** `s.replace(old, new)`: every non-overlapping occurrence, left to right. */
  function ReplaceAll(s: string, pattern: string, replacement: string): string
    requires pattern != []
    decreases |s|
  {
    if s == [] then []
    else if StartsWith(s, pattern) then replacement + ReplaceAll(s[|pattern|..], pattern, replacement)
    else [s[0]] + ReplaceAll(s[1..], pattern, replacement)
  }

  /** Replacing a string that cannot occur changes nothing. */
  lemma {:induction false} ReplaceAbsent(s: string, pattern: string, replacement: string)
    requires pattern != []
    requires forall i :: 0 <= i < |s| ==> !StartsWith(s[i..], pattern)
    ensures ReplaceAll(s, pattern, replacement) == s
    decreases |s|
  {
    if s != [] {
      assert s[0..] == s;
      assert forall i :: 0 <= i < |s| - 1 ==> s[1..][i..] == s[i + 1..];
      ReplaceAbsent(s[1..], pattern, replacement);
    }
  }

  /** `s.split(sep)[-1]` for a one-character separator: what follows the last
      `sep`, or all of `s` when there is none. */
  function AfterLast(s: string, sep: char): (r: string)
    ensures sep !in r
    ensures EndsWith(s, r)
    decreases |s|
  {
    if s == [] then []
    else if s[|s| - 1] == sep then []
    else
      var r := AfterLast(s[..|s| - 1], sep);
      assert s[..|s| - 1][|s| - 1 - |r|..] == r;
      r + [s[|s| - 1]]
  }

  /** `sep.join(parts)`. */
  function Join(parts: seq<string>, sep: string): string
    decreases |parts|
  {
    if parts == [] then ""
    else if |parts| == 1 then parts[0]
    else parts[0] + sep + Join(parts[1..], sep)
  }
}
