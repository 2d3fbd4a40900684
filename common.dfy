/**
 * Definitions shared by every service: the clock reading and the two notions of
 * "blank" text that the services use (Bean Validation's @NotBlank at the HTTP
 * boundary, java.lang.String.isBlank inside the payment service).
 */
module Common {
  import opened Wrappers

  /** An opaque reading of LocalDateTime.now(), passed in by the caller. */
  type Time = int

  /**
   * java.lang.Character.isWhitespace: the space, line and paragraph separators
   * other than the no-break spaces, plus U+0009..U+000D and U+001C..U+001F.
   */
  predicate IsWhitespace(c: char) {
    || c == ' '
    || ('\t' <= c <= '\r')
    || ('\U{1C}' <= c <= '\U{1F}')
    || c == '\U{1680}'
    || ('\U{2000}' <= c <= '\U{2006}')
    || ('\U{2008}' <= c <= '\U{200A}')
    || c == '\U{2028}' || c == '\U{2029}' || c == '\U{205F}' || c == '\U{3000}'
  }

  /** The decimal text of a non-negative number, as `%d` writes it. */
  function DigitsText(n: nat): string
    decreases n
  {
    var d := ['0', '1', '2', '3', '4', '5', '6', '7', '8', '9'][n % 10];
    if n < 10 then [d] else DigitsText(n / 10) + [d]
  }

  /** The decimal text of any number, with a leading minus sign when negative. */
  function DecimalText(n: int): string {
    if n < 0 then "-" + DigitsText(-n) else DigitsText(n)
  }

  /** java.lang.String.isBlank: empty, or whitespace only. */
  predicate IsBlank(s: string)
    ensures s == [] ==> IsBlank(s)
  {
    forall i :: 0 <= i < |s| ==> IsWhitespace(s[i])
  }

  /**
   * Jakarta @NotBlank as Hibernate Validator checks it: not null, and
   * `trim()` leaves something, i.e. some character lies above U+0020.
   */
  predicate NotBlank(s: Option<string>)
    ensures NotBlank(s) ==> s.Some? && |s.value| > 0
  {
    s.Some? && exists i :: 0 <= i < |s.value| && s.value[i] > ' '
  }

  /**
   * The two notions of blank disagree in both directions, so a value accepted
   * at the order service's HTTP boundary can still be refused by the payment
   * service's own check, and the other way round.
   */
  lemma BlankRulesDiffer()
    ensures NotBlank(Some("\U{3000}")) && IsBlank("\U{3000}")
    ensures !NotBlank(Some("\U{1}")) && !IsBlank("\U{1}")
  {
    assert "\U{3000}"[0] > ' ';
    assert !IsWhitespace("\U{1}"[0]);
  }
}
