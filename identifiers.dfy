/** Identifier formats: registration numbers `MOH<year><5 digits>` and the
    time-stamped ids `USER_<ms>_<base36>` and `CERT_<ms>_<base36>`.
    The clock (`new Date()`, `Date.now()`) and `Math.random()` are parameters. */
module Identifiers {
  import opened Strings
  import opened Wrappers

  const RegistrationPrefix := "MOH"
  const UserIdPrefix := "USER_"
  const CertificateIdPrefix := "CERT_"

  // ---------------------------------------------------------------------------
  // Registration numbers
  // ---------------------------------------------------------------------------

  /** The shape every generator below produces: the prefix, then only digits,
      the last five of them being the random part. */
  predicate IsRegistrationNumber(s: string) {
    StartsWith(s, RegistrationPrefix) && |s| >= |RegistrationPrefix| + 1 + 5
    && AllDigits(s[|RegistrationPrefix|..])
  }

  /** Reads a registration number back as (year, random part). */
  function ParseRegistrationNumber(s: string): Option<(nat, nat)> {
    if !IsRegistrationNumber(s) then None
    else
      var digits := s[|RegistrationPrefix|..];
      Some((ParseDecimal(digits[..|digits| - 5]), ParseDecimal(digits[|digits| - 5..])))
  }

  /** The JSON-file and MongoDB stores' generator: `Math.floor(Math.random() * 100000)`
      (a value in [0, 99999]) zero-padded to five digits after the year. */
  function PaddedRegistrationNumber(year: nat, random: nat): (r: string)
    requires random < 100000
    ensures IsRegistrationNumber(r)
    ensures |r| == |RegistrationPrefix| + |Decimal(year)| + 5
    ensures r[..|RegistrationPrefix|] == RegistrationPrefix
    ensures r[|RegistrationPrefix|..|r| - 5] == Decimal(year)
    ensures ParseRegistrationNumber(r) == Some((year, random))
  {
    assert Pow10(5) == 100000;
    DecimalAtMost(random, 5);
    var pad := PadStart(Decimal(random), 5, '0');
    var r := RegistrationPrefix + Decimal(year) + pad;
    assert pad == pad[..5 - |Decimal(random)|] + Decimal(random);
    ParseDecimalLeadingZeros(pad[..5 - |Decimal(random)|], Decimal(random));
    RegistrationParts(Decimal(year), pad);
    ParseDecimalOfDecimal(year);
    ParseDecimalOfDecimal(random);
    r
  }

  /** The User model hook's and the register route's generator:
      `Math.floor(10000 + Math.random() * 90000)`, a five-digit number with no padding. */
  function RegistrationNumber(year: nat, n: nat): (r: string)
    requires 10000 <= n <= 99999
    ensures IsRegistrationNumber(r)
    ensures |r| == |RegistrationPrefix| + |Decimal(year)| + 5
    ensures r[|RegistrationPrefix|..|r| - 5] == Decimal(year)
    ensures ParseRegistrationNumber(r) == Some((year, n))
  {
    FiveDigits(n);
    RegistrationParts(Decimal(year), Decimal(n));
    ParseDecimalOfDecimal(year);
    ParseDecimalOfDecimal(n);
    RegistrationPrefix + Decimal(year) + Decimal(n)
  }

  lemma RegistrationParts(y: string, five: string)
    requires AllDigits(y) && |y| >= 1 && AllDigits(five) && |five| == 5
    ensures var r := RegistrationPrefix + y + five;
      && IsRegistrationNumber(r)
      && r[|RegistrationPrefix|..] == y + five
      && (y + five)[..|y + five| - 5] == y
      && (y + five)[|y + five| - 5..] == five
      && r[|RegistrationPrefix|..|r| - 5] == y
  {
    var r := RegistrationPrefix + y + five;
    assert r[|RegistrationPrefix|..] == y + five;
    assert r[..|RegistrationPrefix|] == RegistrationPrefix;
    var yf := y + five;
    assert AllDigits(yf) by {
      forall i | 0 <= i < |yf| ensures IsDigit(yf[i]) {
        if i < |y| { assert yf[i] == y[i]; } else { assert yf[i] == five[i - |y|]; }
      }
    }
  }

  /** For a five-digit random part both generators agree. */
  lemma GeneratorsAgree(year: nat, n: nat)
    requires 10000 <= n <= 99999
    ensures PaddedRegistrationNumber(year, n) == RegistrationNumber(year, n)
  {
    FiveDigits(n);
  }

  /** Different (year, random) pairs give different registration numbers. */
  lemma PaddedRegistrationInjective(y1: nat, r1: nat, y2: nat, r2: nat)
    requires r1 < 100000 && r2 < 100000
    requires PaddedRegistrationNumber(y1, r1) == PaddedRegistrationNumber(y2, r2)
    ensures y1 == y2 && r1 == r2
  {
  }

  /** With a four-digit year the number is exactly twelve characters long. */
  lemma RegistrationNumberLength(year: nat, n: nat)
    requires 1000 <= year <= 9999 && 10000 <= n <= 99999
    ensures |RegistrationNumber(year, n)| == 12
  {
    assert Pow10(3) == 1000 && Pow10(4) == 10000;
    DecimalLength(year, 4);
  }

  // ---------------------------------------------------------------------------
  // Time-stamped ids
  // ---------------------------------------------------------------------------

  predicate IsBase36Char(c: char) { IsDigit(c) || 'a' <= c <= 'z' }

  /** What `Math.random().toString(36)` produces: `"0"`, or `"0."` followed by
      base-36 digits. */
  predicate IsRandomBase36Text(t: string) {
    t == "0" || (|t| >= 2 && t[..2] == "0." && forall i :: 2 <= i < |t| ==> IsBase36Char(t[i]))
  }

  /** `.substr(2, 9)` of the random text: at most nine base-36 characters. */
  function RandomSuffix(t: string): (r: string)
    ensures |r| <= 9
    ensures IsRandomBase36Text(t) ==> forall i :: 0 <= i < |r| ==> IsBase36Char(r[i])
    ensures |t| >= 11 ==> |r| == 9
  {
    var r := Substr(t, 2, 9);
    assert |t| >= 2 ==> forall i :: 0 <= i < |r| ==> r[i] == t[2 + i];
    r
  }

  /** `${prefix}${now}_${randomSuffix}`. */
  function StampedId(prefix: string, now: nat, randomText: string): string {
    prefix + Decimal(now) + "_" + RandomSuffix(randomText)
  }

  /** Reads a stamped id back as (timestamp, random suffix). */
  function ParseStampedId(prefix: string, s: string): Option<(nat, string)> {
    if !StartsWith(s, prefix) then None
    else
      var rest := s[|prefix|..];
      var digits := BeforeFirst(rest, '_');
      if |digits| == |rest| || digits == [] || !AllDigits(digits) then None
      else Some((ParseDecimal(digits), rest[|digits| + 1..]))
  }

  lemma {:induction false} StampedIdRoundTrip(prefix: string, now: nat, randomText: string)
    ensures ParseStampedId(prefix, StampedId(prefix, now, randomText))
         == Some((now, RandomSuffix(randomText)))
  {
    var d := Decimal(now);
    var sfx := RandomSuffix(randomText);
    var s := StampedId(prefix, now, randomText);
    assert s == prefix + (d + "_" + sfx);
    assert StartsWith(s, prefix);
    var rest := s[|prefix|..];
    assert rest == d + ['_'] + sfx;
    DigitsExclude(d, '_');
    BeforeFirstOfJoined(d, sfx, '_');
    assert rest[|d| + 1..] == sfx;
    ParseDecimalOfDecimal(now);
  }

  /** Two stamped ids with the same prefix are equal only when both the
      timestamp and the random suffix are. */
  lemma StampedIdInjective(prefix: string, n1: nat, t1: string, n2: nat, t2: string)
    requires StampedId(prefix, n1, t1) == StampedId(prefix, n2, t2)
    ensures n1 == n2 && RandomSuffix(t1) == RandomSuffix(t2)
  {
    StampedIdRoundTrip(prefix, n1, t1);
    StampedIdRoundTrip(prefix, n2, t2);
  }

  /** `generateUserId` in the JSON-file and MongoDB stores. */
  function GenerateUserId(now: nat, randomText: string): (r: string)
    ensures StartsWith(r, UserIdPrefix)
    ensures ParseStampedId(UserIdPrefix, r) == Some((now, RandomSuffix(randomText)))
  {
    StampedIdRoundTrip(UserIdPrefix, now, randomText);
    StampedId(UserIdPrefix, now, randomText)
  }

  /** The certificate id minted by the certificate-generation route. */
  function GenerateCertificateId(now: nat, randomText: string): (r: string)
    ensures StartsWith(r, CertificateIdPrefix)
    ensures ParseStampedId(CertificateIdPrefix, r) == Some((now, RandomSuffix(randomText)))
  {
    StampedIdRoundTrip(CertificateIdPrefix, now, randomText);
    StampedId(CertificateIdPrefix, now, randomText)
  }

  /** Certificates minted at different milliseconds have different ids. */
  lemma CertificateIdsDistinct(n1: nat, t1: string, n2: nat, t2: string)
    requires n1 != n2 || RandomSuffix(t1) != RandomSuffix(t2)
    ensures GenerateCertificateId(n1, t1) != GenerateCertificateId(n2, t2)
  {
    if GenerateCertificateId(n1, t1) == GenerateCertificateId(n2, t2) {
      StampedIdInjective(CertificateIdPrefix, n1, t1, n2, t2);
    }
  }

  /** A user id is never mistaken for a certificate id. */
  lemma UserIdIsNotCertificateId(now: nat, t: string, now': nat, t': string)
    ensures GenerateUserId(now, t) != GenerateCertificateId(now', t')
  {
    var u := GenerateUserId(now, t);
    var c := GenerateCertificateId(now', t');
    assert u[0] == 'U' && c[0] == 'C';
  }
}
