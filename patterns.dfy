/** The two input patterns the form and the user schema test:
    `^[0-9]{10}$` (also written `^\d{10}$`) and `^[^\s@]+@[^\s@]+\.[^\s@]+$`. */
module Patterns {
  import opened Strings

  /** `/^[0-9]{10}$/.test(s)`; JavaScript's `\d` is the same class. */
  predicate IsTenDigitMobile(s: string) { |s| == 10 && AllDigits(s) }

  /** A character the class `[^\s@]` accepts. */
  predicate IsEmailChar(ch: char) { !IsJsSpace(ch) && ch != '@' }

  /** `/^[^\s@]+@[^\s@]+\.[^\s@]+$/.test(s)`, read off the regular expression:
      an `@` at `i` and a `.` at `j`, each of the three runs around them
      non-empty, and every other character in `[^\s@]`. */
  predicate MatchesEmailPattern(s: string) {
    exists i, j | 0 < i && i + 1 < j && j + 1 < |s| ::
      s[i] == '@' && s[j] == '.' && EmailCharsExcept(s, i)
  }

  predicate EmailCharsExcept(s: string, i: int) {
    forall k | 0 <= k < |s| && k != i :: IsEmailChar(s[k])
  }

  /** An independent reading: split at the first `@`; the part before it is
      non-empty, the part after it holds no further `@`, whitespace appears
      nowhere, and the domain has a `.` that is neither its first nor its last
      character. */
  predicate IsEmailAddress(s: string) {
    var local := BeforeFirst(s, '@');
    |local| < |s| && local != []
    && NoSpace(s) && '@' !in s[|local| + 1..] && HasInnerDot(s[|local| + 1..])
  }

  predicate NoSpace(s: string) { forall k | 0 <= k < |s| :: !IsJsSpace(s[k]) }

  predicate HasInnerDot(d: string) { exists j | 1 <= j < |d| - 1 :: d[j] == '.' }

  /** The two readings of the email pattern agree. */
  lemma EmailPatternIsEmailAddress(s: string)
    ensures MatchesEmailPattern(s) <==> IsEmailAddress(s)
  {
    if MatchesEmailPattern(s) {
      var i, j :| 0 < i && i + 1 < j && j + 1 < |s| && s[i] == '@' && s[j] == '.' && EmailCharsExcept(s, i);
      FirstAt(s, i);
      var local := BeforeFirst(s, '@');
      assert |local| == i;
      var d := s[i + 1..];
      assert d[j - (i + 1)] == '.';
      assert HasInnerDot(d);
      forall k | 0 <= k < |d| ensures d[k] != '@' {
        assert d[k] == s[i + 1 + k];
      }
      forall k | 0 <= k < |s| ensures !IsJsSpace(s[k]) {
        if k != i { assert IsEmailChar(s[k]); }
      }
    }
    if IsEmailAddress(s) {
      var local := BeforeFirst(s, '@');
      var i := |local|;
      var d := s[i + 1..];
      var jd :| 1 <= jd < |d| - 1 && d[jd] == '.';
      var j := i + 1 + jd;
      assert s[j] == d[jd];
      forall k | 0 <= k < |s| && k != i ensures IsEmailChar(s[k]) {
        if k < i {
          assert s[k] == local[k];
        } else {
          assert s[k] == d[k - (i + 1)];
        }
      }
      assert EmailCharsExcept(s, i);
    }
  }

  /** When the character at `i` is the only `@` of `s`, it is the first one. */
  lemma FirstAt(s: string, i: int)
    requires 0 <= i < |s| && s[i] == '@' && EmailCharsExcept(s, i)
    ensures BeforeFirst(s, '@') == s[..i]
  {
    var a := s[..i];
    forall k | 0 <= k < |a| ensures a[k] != '@' {
      assert IsEmailChar(s[k]);
    }
    assert s == a + ['@'] + s[i + 1..];
    BeforeFirstOfJoined(a, s[i + 1..], '@');
  }

  /** Lower-casing keeps an address valid, so an address the form accepts still
      passes the schema, which lower-cases before it validates. */
  lemma LowerCaseKeepsEmailPattern(s: string)
    requires MatchesEmailPattern(s)
    ensures MatchesEmailPattern(ToLower(s))
  {
    var i, j :| 0 < i && i + 1 < j && j + 1 < |s| && s[i] == '@' && s[j] == '.' && EmailCharsExcept(s, i);
    var t := ToLower(s);
    assert t[i] == '@' && t[j] == '.';
    forall k | 0 <= k < |t| && k != i ensures IsEmailChar(t[k]) {
      assert IsEmailChar(s[k]);
    }
    assert EmailCharsExcept(t, i);
  }
}
