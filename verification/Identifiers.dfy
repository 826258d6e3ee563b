// Credential and verification identifiers, and the evaluation clock that the
// verifier reads back out of a verification identifier.
module Identifiers {
  import opened Text
  import opened Decimal

  const MINUTE: int := 60_000_000_000

  // 2026-04-20T09:05:00Z. Times are nanoseconds since 0001-01-01T00:00:00Z, the
  // zero value of a timestamp: 739725 days, then 32700 seconds.
  const BASE_TIME: int := (739_725 * 86_400 + 32_700) * 1_000_000_000

  const DEFAULT_TEMPLATE_STEM := "hdip_passport_basic"

  function Underscored(c: char): char {
    if c == '-' || c == '.' then '_' else c
  }

  function Sanitize(s: string): string {
    if s == "" then "" else [Underscored(s[0])] + Sanitize(s[1..])
  }

  function TemplateStem(templateId: string): string {
    var stem := Sanitize(Trim(templateId));
    if stem == "" then DEFAULT_TEMPLATE_STEM else stem
  }

  function FormatCredentialId(templateId: string, sequence: nat): string {
    "cred_" + TemplateStem(templateId) + "_" + Pad3(sequence)
  }

  // The text of an identifier: prefix, stem, and at least three digits of the number,
  // padded with zeros only below one hundred. The stem is the trimmed template with
  // '_' for each '-' and '.', or the default one for a blank template.
  lemma CredentialIdText(templateId: string, sequence: nat) returns (stem: string, digits: string)
    ensures FormatCredentialId(templateId, sequence) == "cred_" + stem + "_" + digits
    ensures if Trim(templateId) == "" then stem == "hdip_passport_basic" else
      |stem| == |Trim(templateId)| &&
      forall i :: 0 <= i < |stem| ==>
        stem[i] == if Trim(templateId)[i] == '-' || Trim(templateId)[i] == '.' then '_' else Trim(templateId)[i]
    ensures AllDigits(digits) && Value(digits) == sequence && |digits| >= 3
    ensures |digits| > 3 ==> digits[0] != '0'
  {
    stem, digits := TemplateStem(templateId), Pad3(sequence);
    SanitizeText(Trim(templateId));
    ValueOfPad3(sequence);
    PadWidth(sequence);
  }

  lemma {:induction false} SanitizeText(s: string)
    ensures |Sanitize(s)| == |s|
    ensures forall i :: 0 <= i < |s| ==> Sanitize(s)[i] == if s[i] == '-' || s[i] == '.' then '_' else s[i]
  {
    if s != "" {
      SanitizeText(s[1..]);
      forall i | 0 <= i < |s| ensures Sanitize(s)[i] == if s[i] == '-' || s[i] == '.' then '_' else s[i] {
        assert i > 0 ==> Sanitize(s)[i] == Sanitize(s[1..])[i - 1] && s[1..][i - 1] == s[i];
      }
    }
  }

  function FormatVerificationId(sequence: nat): string {
    "verification_hdip" + "_" + Pad3(sequence)
  }

  lemma DigitsHaveNoUnderscore(s: string)
    requires AllDigits(s)
    ensures '_' !in s
  {
    assert !IsDigit('_');
  }

  lemma CredentialIdTail(templateId: string, sequence: nat)
    ensures LastSegment(FormatCredentialId(templateId, sequence), '_') == Pad3(sequence)
  {
    var prefix := "cred_" + TemplateStem(templateId);
    DigitsHaveNoUnderscore(Pad3(sequence));
    LastSegmentAfter(prefix, '_', Pad3(sequence));
    assert FormatCredentialId(templateId, sequence) == prefix + ['_'] + Pad3(sequence);
  }

  lemma VerificationIdTail(sequence: nat)
    ensures LastSegment(FormatVerificationId(sequence), '_') == Pad3(sequence)
  {
    DigitsHaveNoUnderscore(Pad3(sequence));
    LastSegmentAfter("verification_hdip", '_', Pad3(sequence));
    assert FormatVerificationId(sequence) == "verification_hdip" + ['_'] + Pad3(sequence);
  }

  // Two identifiers minted from different sequence numbers differ, whatever
  // their templates are: the collapsing of '-', '.' and '_' does no harm.
  lemma CredentialIdsDistinct(t1: string, n1: nat, t2: string, n2: nat)
    requires FormatCredentialId(t1, n1) == FormatCredentialId(t2, n2)
    ensures n1 == n2
  {
    CredentialIdTail(t1, n1);
    CredentialIdTail(t2, n2);
    ValueOfPad3(n1);
    ValueOfPad3(n2);
  }

  lemma VerificationIdsDistinct(n1: nat, n2: nat)
    requires FormatVerificationId(n1) == FormatVerificationId(n2)
    ensures n1 == n2
  {
    VerificationIdTail(n1);
    VerificationIdTail(n2);
    ValueOfPad3(n1);
    ValueOfPad3(n2);
  }

  // Every identifier survives the trimming that the store applies to keys.
  lemma IdentifiersAreTight(templateId: string, sequence: nat)
    ensures Trim(FormatCredentialId(templateId, sequence)) == FormatCredentialId(templateId, sequence)
    ensures Trim(FormatVerificationId(sequence)) == FormatVerificationId(sequence)
  {
    var tail := Pad3(sequence);
    var c, v := FormatCredentialId(templateId, sequence), FormatVerificationId(sequence);
    assert c[0] == 'c' && v[0] == 'v';
    assert c[|c| - 1] == tail[|tail| - 1] && v[|v| - 1] == tail[|tail| - 1];
    assert IsDigit(tail[|tail| - 1]);
    TightIsFixed(c);
    TightIsFixed(v);
  }

  // The evaluation time of a verification: a fixed base plus one minute for each
  // earlier verification, in int64 nanosecond arithmetic.
  function EvaluatedAt(verificationId: string): int {
    match Atoi(LastSegment(verificationId, '_'))
    case None => BASE_TIME
    case Some(sequence) =>
      if sequence <= 0 then BASE_TIME
      else BASE_TIME + WrapInt64((sequence - 1) * MINUTE)
  }

  lemma EvaluatedAtOfPrinted(n: nat)
    requires 1 <= n <= MAX_INT64
    ensures EvaluatedAt(FormatVerificationId(n)) == BASE_TIME + WrapInt64((n - 1) * MINUTE)
  {
    VerificationIdTail(n);
    AtoiOfPad3(n);
  }

  const LAST_EXACT_SEQUENCE: nat := 153_722_868

  // The clock is base + (n - 1) minutes for exactly the first 153722868
  // verifications; from the next one on the duration wraps around.
  lemma ClockExact(n: nat)
    requires 1 <= n <= MAX_INT64
    ensures EvaluatedAt(FormatVerificationId(n)) == BASE_TIME + (n - 1) * MINUTE
            <==> n <= LAST_EXACT_SEQUENCE
  {
    EvaluatedAtOfPrinted(n);
  }

  lemma ClockIncreasing(m: nat, n: nat)
    requires 1 <= m < n <= LAST_EXACT_SEQUENCE
    ensures EvaluatedAt(FormatVerificationId(m)) < EvaluatedAt(FormatVerificationId(n))
  {
    ClockExact(m);
    ClockExact(n);
  }

  // The first verification past the range is evaluated before the base time.
  lemma ClockWrapsBackwards()
    ensures EvaluatedAt(FormatVerificationId(LAST_EXACT_SEQUENCE + 1)) < BASE_TIME
  {
    EvaluatedAtOfPrinted(LAST_EXACT_SEQUENCE + 1);
  }

  ghost predicate IncreasingUpTo(last: nat) {
    forall m: nat, n: nat :: 1 <= m < n <= last ==>
      EvaluatedAt(FormatVerificationId(m)) < EvaluatedAt(FormatVerificationId(n))
  }

  // How far the clock increases: exactly as far as it is exact.
  lemma ClockIncreasingExactly(last: nat)
    ensures IncreasingUpTo(last) <==> last <= LAST_EXACT_SEQUENCE
  {
    if last <= LAST_EXACT_SEQUENCE {
      forall m: nat, n: nat | 1 <= m < n <= last
        ensures EvaluatedAt(FormatVerificationId(m)) < EvaluatedAt(FormatVerificationId(n))
      {
        ClockIncreasing(m, n);
      }
    } else {
      ClockWrapsBackwards();
      ClockExact(1);
      assert 1 < LAST_EXACT_SEQUENCE + 1 <= last;
    }
  }
}
