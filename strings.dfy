/** The JavaScript string operations the application relies on, on `seq<char>`:
    decimal rendering of integers, `padStart`, `split`/`join`, `trim`,
    ASCII case mapping, `includes`, `startsWith` and `substr`. */
module Strings {

  // ---------------------------------------------------------------------------
  // Decimal digits
  // ---------------------------------------------------------------------------

  predicate IsDigit(c: char) { '0' <= c <= '9' }

  predicate AllDigits(s: string) { forall i :: 0 <= i < |s| ==> IsDigit(s[i]) }

  function DigitChar(d: nat): (c: char)
    requires d < 10
    ensures IsDigit(c)
  {
    (48 + d) as char
  }

  function DigitValue(c: char): (d: nat)
    requires IsDigit(c)
    ensures d < 10 && DigitChar(d) == c
  {
    c as int - 48
  }

  /** `n.toString()` for a non-negative integer: base 10, no leading zeros. */
  function Decimal(n: nat): (r: string)
    ensures |r| >= 1 && AllDigits(r)
    ensures r[0] == '0' ==> n == 0
    decreases n
  {
    if n < 10 then [DigitChar(n)] else Decimal(n / 10) + [DigitChar(n % 10)]
  }

  /** The value of a string of decimal digits (the empty string reads as 0). */
  function ParseDecimal(s: string): nat
    requires AllDigits(s)
    decreases |s|
  {
    if s == [] then 0 else ParseDecimal(s[..|s| - 1]) * 10 + DigitValue(s[|s| - 1])
  }

  lemma {:induction false} ParseDecimalOfDecimal(n: nat)
    ensures ParseDecimal(Decimal(n)) == n
    decreases n
  {
    if n >= 10 {
      var d := Decimal(n);
      assert d[..|d| - 1] == Decimal(n / 10);
      ParseDecimalOfDecimal(n / 10);
    }
  }

  /** Rendering is injective: different numbers never share a decimal string. */
  lemma DecimalInjective(a: nat, b: nat)
    requires Decimal(a) == Decimal(b)
    ensures a == b
  {
    ParseDecimalOfDecimal(a);
    ParseDecimalOfDecimal(b);
  }

  function Pow10(k: nat): (p: nat)
    ensures p >= 1
  {
    if k == 0 then 1 else 10 * Pow10(k - 1)
  }

  /** A number in [10^(k-1), 10^k) has exactly k decimal digits. */
  lemma {:induction false} DecimalLength(n: nat, k: nat)
    requires k >= 1 && Pow10(k - 1) <= n < Pow10(k)
    ensures |Decimal(n)| == k
    decreases k
  {
    if k > 1 {
      assert Pow10(k - 1) == 10 * Pow10(k - 2);
      DecimalLength(n / 10, k - 1);
    }
  }

  /** A number below 10^k has at most k decimal digits. */
  lemma {:induction false} DecimalAtMost(n: nat, k: nat)
    requires k >= 1 && n < Pow10(k)
    ensures |Decimal(n)| <= k
    decreases k
  {
    if n >= 10 {
      assert k > 1;
      DecimalAtMost(n / 10, k - 1);
    }
  }

  lemma FiveDigits(n: nat)
    requires 10000 <= n <= 99999
    ensures |Decimal(n)| == 5
  {
    assert Pow10(4) == 10000 && Pow10(5) == 100000;
    DecimalLength(n, 5);
  }

  lemma DigitsExclude(s: string, c: char)
    requires AllDigits(s) && !IsDigit(c)
    ensures c !in s
  {
    forall i | 0 <= i < |s| ensures s[i] != c {
      assert IsDigit(s[i]);
    }
  }

  predicate AllChar(s: string, c: char) { forall i :: 0 <= i < |s| ==> s[i] == c }

  /** Leading zeros do not change the value of a digit string. */
  lemma {:induction false} ParseDecimalLeadingZeros(z: string, s: string)
    requires AllChar(z, '0') && AllDigits(s)
    ensures AllDigits(z + s) && ParseDecimal(z + s) == ParseDecimal(s)
    decreases |s|
  {
    var zs := z + s;
    assert AllDigits(zs) by {
      forall i | 0 <= i < |zs| ensures IsDigit(zs[i]) {
        if i < |z| { assert zs[i] == z[i]; } else { assert zs[i] == s[i - |z|]; }
      }
    }
    if s == [] {
      assert zs == z;
      ParseDecimalOfZeros(z);
    } else {
      assert zs[..|zs| - 1] == z + s[..|s| - 1];
      ParseDecimalLeadingZeros(z, s[..|s| - 1]);
    }
  }

  lemma {:induction false} ParseDecimalOfZeros(z: string)
    requires AllChar(z, '0')
    ensures AllDigits(z) && ParseDecimal(z) == 0
    decreases |z|
  {
    if z != [] {
      ParseDecimalOfZeros(z[..|z| - 1]);
    }
  }

  // ---------------------------------------------------------------------------
  // padStart, substr, startsWith, includes
  // ---------------------------------------------------------------------------

  /** `s.padStart(width, fill)` for a one-character `fill`. */
  function PadStart(s: string, width: nat, fill: char): (r: string)
    ensures |r| == if |s| >= width then |s| else width
    ensures r[|r| - |s|..] == s
    ensures AllChar(r[..|r| - |s|], fill)
  {
    if |s| >= width then s else seq(width - |s|, _ => fill) + s
  }

  function Min(a: int, b: int): int { if a <= b then a else b }

  /** `s.substr(start, length)` for non-negative arguments. */
  function Substr(s: string, start: nat, length: nat): (r: string)
    ensures |r| <= length
    ensures start <= |s| ==> r == s[start..Min(start + length, |s|)]
    ensures start >= |s| ==> r == []
  {
    if start >= |s| then [] else s[start..Min(start + length, |s|)]
  }

  predicate StartsWith(s: string, prefix: string) {
    |prefix| <= |s| && s[..|prefix|] == prefix
  }

  /** `hay.includes(needle)`. */
  predicate Includes(hay: string, needle: string) {
    exists i | 0 <= i <= |hay| - |needle| :: OccursAt(hay, needle, i)
  }

  /** `needle` stands in `hay` at index `i`. */
  predicate OccursAt(hay: string, needle: string, i: int) {
    0 <= i <= |hay| - |needle| && hay[i..i + |needle|] == needle
  }

  lemma IncludesEmpty(hay: string)
    ensures Includes(hay, "")
  {
    assert OccursAt(hay, "", 0);
  }

  // ---------------------------------------------------------------------------
  // split and join on a one-character separator
  // ---------------------------------------------------------------------------

  /** `s.split(c)[0]`: the text before the first `c`, or all of `s`. */
  function BeforeFirst(s: string, c: char): (r: string)
    ensures |r| <= |s| && r == s[..|r|]
    ensures c !in r
    ensures |r| < |s| ==> s[|r|] == c
    decreases |s|
  {
    if s == [] then []
    else if s[0] == c then []
    else [s[0]] + BeforeFirst(s[1..], c)
  }

  /** `s.split(c)`: the maximal `c`-free pieces between occurrences of `c`. */
  function Split(s: string, c: char): (parts: seq<string>)
    ensures |parts| >= 1
    ensures forall i :: 0 <= i < |parts| ==> c !in parts[i]
    decreases |s|
  {
    var head := BeforeFirst(s, c);
    if |head| == |s| then [s] else [head] + Split(s[|head| + 1..], c)
  }

  /** `parts.join(c)`. */
  function Join(parts: seq<string>, c: char): string
    requires |parts| >= 1
    decreases |parts|
  {
    if |parts| == 1 then parts[0] else parts[0] + [c] + Join(parts[1..], c)
  }

  lemma BeforeFirstOfFree(s: string, c: char)
    requires c !in s
    ensures BeforeFirst(s, c) == s
  {
  }

  /** The first part of a split is the text before the first separator, and
      a text without the separator splits into itself alone. */
  lemma SplitShape(s: string, c: char)
    ensures Split(s, c)[0] == BeforeFirst(s, c)
    ensures c !in s ==> Split(s, c) == [s]
  {
    if c !in s {
      BeforeFirstOfFree(s, c);
    }
  }

  lemma {:induction false} BeforeFirstOfJoined(a: string, b: string, c: char)
    requires c !in a
    ensures BeforeFirst(a + [c] + b, c) == a
    decreases |a|
  {
    if a != [] {
      assert (a + [c] + b)[1..] == a[1..] + [c] + b;
      BeforeFirstOfJoined(a[1..], b, c);
    }
  }

  /** Splitting and joining again gives back the original string. */
  lemma {:induction false} JoinSplit(s: string, c: char)
    ensures Join(Split(s, c), c) == s
    decreases |s|
  {
    if c in s {
      var rest := BeforeFirstSplits(s, c);
      SplitAt(s, c, BeforeFirst(s, c), rest);
      JoinSplit(rest, c);
    } else {
      BeforeFirstOfFree(s, c);
    }
  }

  /** Joining `c`-free pieces and splitting again gives back the pieces. */
  lemma {:induction false} SplitJoin(parts: seq<string>, c: char)
    requires |parts| >= 1
    requires forall i :: 0 <= i < |parts| ==> c !in parts[i]
    ensures Split(Join(parts, c), c) == parts
    decreases |parts|
  {
    if |parts| == 1 {
      BeforeFirstOfFree(parts[0], c);
    } else {
      var rest := Join(parts[1..], c);
      SplitAt(parts[0] + [c] + rest, c, parts[0], rest);
      SplitJoin(parts[1..], c);
      assert parts == [parts[0]] + parts[1..];
    }
  }

  /** One step of `split`: a `c`-free head, the separator, then the rest. */
  lemma SplitAt(s: string, c: char, head: string, rest: string)
    requires c !in head && s == head + [c] + rest
    ensures Split(s, c) == [head] + Split(rest, c)
  {
    BeforeFirstOfJoined(head, rest, c);
    assert s[|head| + 1..] == rest;
  }

  /** Splitting distributes over a separator occurrence. */
  lemma {:induction false} SplitAppend(a: string, b: string, c: char)
    ensures Split(a + [c] + b, c) == Split(a, c) + Split(b, c)
    decreases |a|
  {
    if c !in a {
      SplitAppendFree(a, b, c);
      BeforeFirstOfFree(a, c);
    } else {
      var head := BeforeFirst(a, c);
      var a' := SplitAppendStep(a, b, c, head);
      SplitAppend(a', b, c);
      ConcatAssociative([head], Split(a', c), Split(b, c));
    }
  }

  lemma SplitAppendFree(a: string, b: string, c: char)
    requires c !in a
    ensures Split(a + [c] + b, c) == [a] + Split(b, c)
  {
    SplitAt(a + [c] + b, c, a, b);
  }

  /** When `a` contains `c`, its first piece comes off both `a` and `a + [c] + b`,
      leaving `a'` behind. */
  lemma SplitAppendStep(a: string, b: string, c: char, head: string) returns (a': string)
    requires c in a && head == BeforeFirst(a, c)
    ensures |a'| < |a|
    ensures Split(a + [c] + b, c) == [head] + Split(a' + [c] + b, c)
    ensures Split(a, c) == [head] + Split(a', c)
  {
    a' := BeforeFirstSplits(a, c);
    SplitAt(a, c, head, a');
    ConcatRegroup(head, [c], a', [c], b);
    SplitAt(a + [c] + b, c, head, a' + [c] + b);
  }

  /** A string containing `c` is its first piece, `c`, and what follows. */
  lemma BeforeFirstSplits(a: string, c: char) returns (a': string)
    requires c in a
    ensures |BeforeFirst(a, c)| < |a|
    ensures a' == a[|BeforeFirst(a, c)| + 1..]
    ensures a == BeforeFirst(a, c) + [c] + a'
  {
    assert a[..|a|] == a;
    var head := BeforeFirst(a, c);
    a' := a[|head| + 1..];
    assert a == a[..|head|] + [a[|head|]] + a[|head| + 1..];
  }

  lemma ConcatRegroup<T>(x: seq<T>, y: seq<T>, z: seq<T>, w: seq<T>, v: seq<T>)
    ensures x + y + z + w + v == x + y + (z + w + v)
  {
  }

  lemma ConcatAssociative<T>(x: seq<T>, y: seq<T>, z: seq<T>)
    ensures x + (y + z) == (x + y) + z
  {
  }

  // ---------------------------------------------------------------------------
  // Whitespace and trim
  // ---------------------------------------------------------------------------

  /** The characters JavaScript's `trim` removes and its regex class `\s` matches:
      the ECMAScript WhiteSpace and LineTerminator code points. */
  predicate IsJsSpace(ch: char) {
    ch == ' ' || ch == '\t' || ch == '\n' || ch == '\r' || ch == '\U{000B}' || ch == '\U{000C}'
    || ch == '\U{00A0}' || ch == '\U{1680}' || ('\U{2000}' <= ch <= '\U{200A}')
    || ch == '\U{2028}' || ch == '\U{2029}' || ch == '\U{202F}' || ch == '\U{205F}'
    || ch == '\U{3000}' || ch == '\U{FEFF}'
  }

  predicate AllSpace(s: string) { forall i :: 0 <= i < |s| ==> IsJsSpace(s[i]) }

  /** `s.trimStart()`. */
  function TrimStart(s: string): (r: string)
    ensures |r| <= |s| && r == s[|s| - |r|..]
    ensures AllSpace(s[..|s| - |r|])
    ensures r != [] ==> !IsJsSpace(r[0])
    decreases |s|
  {
    if s != [] && IsJsSpace(s[0]) then
      var r := TrimStart(s[1..]);
      assert s[1..][|s| - 1 - |r|..] == s[|s| - |r|..];
      assert s[..|s| - |r|] == [s[0]] + s[1..][..|s| - 1 - |r|];
      r
    else s
  }

  /** `s.trimEnd()`. */
  function TrimEnd(s: string): (r: string)
    ensures |r| <= |s| && r == s[..|r|]
    ensures AllSpace(s[|r|..])
    ensures r != [] ==> !IsJsSpace(r[|r| - 1])
    decreases |s|
  {
    if s != [] && IsJsSpace(s[|s| - 1]) then
      var r := TrimEnd(s[..|s| - 1]);
      assert s[..|s| - 1][..|r|] == s[..|r|];
      assert s[|r|..] == s[..|s| - 1][|r|..] + [s[|s| - 1]];
      r
    else s
  }

  /** `s.trim()`: empty exactly when `s` is all whitespace, and otherwise
      a slice of `s` that starts and ends with a non-space character. */
  function Trim(s: string): (r: string)
    ensures r == [] <==> AllSpace(s)
    ensures r != [] ==> !IsJsSpace(r[0]) && !IsJsSpace(r[|r| - 1])
    ensures Includes(s, r)
  {
    var t := TrimStart(s);
    var u := TrimEnd(t);
    TrimParts(s, t, u);
    u
  }

  lemma TrimParts(s: string, t: string, u: string)
    requires t == TrimStart(s) && u == TrimEnd(t)
    ensures u == [] <==> AllSpace(s)
    ensures u != [] ==> !IsJsSpace(u[0]) && !IsJsSpace(u[|u| - 1])
    ensures Includes(s, u)
  {
    TrimEmpty(s, t, u);
    TrimIncludes(s, t, u);
    if u != [] {
      assert u[0] == t[0];
    }
  }

  /** A prefix of a suffix of `s` stands in `s`. */
  lemma TrimIncludes(s: string, t: string, u: string)
    requires |t| <= |s| && t == s[|s| - |t|..]
    requires |u| <= |t| && u == t[..|u|]
    ensures Includes(s, u)
  {
    var i := |s| - |t|;
    assert s[i..i + |u|] == u;
    assert OccursAt(s, u, i);
  }

  lemma TrimEmpty(s: string, t: string, u: string)
    requires t == TrimStart(s) && u == TrimEnd(t)
    ensures u == [] <==> AllSpace(s)
  {
    var i := |s| - |t|;
    if t == [] {
      assert s == s[..i];
      assert AllSpace(s);
    } else {
      TrimEndKeepsFirst(t);
      assert s[i] == t[0];
      assert !AllSpace(s);
    }
  }

  lemma TrimEndKeepsFirst(t: string)
    requires t != [] && !IsJsSpace(t[0])
    ensures TrimEnd(t) != []
  {
    var r := TrimEnd(t);
    if |r| < |t| {
      assert IsJsSpace(t[|r|..][0]);
    }
  }

  lemma AllSpaceConcat(a: string, b: string)
    requires AllSpace(a) && AllSpace(b)
    ensures AllSpace(a + b)
  {
    var ab := a + b;
    forall k | 0 <= k < |ab| ensures IsJsSpace(ab[k]) {
      if k < |a| { assert ab[k] == a[k]; } else { assert ab[k] == b[k - |a|]; }
    }
  }

  lemma TrimIdempotent(s: string)
    ensures Trim(Trim(s)) == Trim(s)
  {
    var r := Trim(s);
    if r != [] {
      assert TrimStart(r) == r;
      assert TrimEnd(r) == r;
    }
  }

  // ---------------------------------------------------------------------------
  // ASCII case mapping (`toLowerCase` / `toUpperCase` restricted to A-Z, a-z)
  // ---------------------------------------------------------------------------

  function LowerChar(ch: char): char {
    if 'A' <= ch <= 'Z' then (ch as int + 32) as char else ch
  }

  function UpperChar(ch: char): char {
    if 'a' <= ch <= 'z' then (ch as int - 32) as char else ch
  }

  function ToLower(s: string): (r: string)
    ensures |r| == |s| && forall i :: 0 <= i < |s| ==> r[i] == LowerChar(s[i])
  {
    seq(|s|, i requires 0 <= i < |s| => LowerChar(s[i]))
  }

  function ToUpper(s: string): (r: string)
    ensures |r| == |s| && forall i :: 0 <= i < |s| ==> r[i] == UpperChar(s[i])
  {
    seq(|s|, i requires 0 <= i < |s| => UpperChar(s[i]))
  }

  lemma ToLowerIdempotent(s: string)
    ensures ToLower(ToLower(s)) == ToLower(s)
  {
  }
}
