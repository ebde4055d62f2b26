/** The Bean Validation constraints the entities declare. Hibernate checks them when it inserts or
    updates an entity, and a violation raises a ConstraintViolationException. The global handler
    does not handle that exception, so the client sees a server error. */
module Validation {
  import opened Domain

  /** The failure an entity that breaks one of its constraints raises on save. */
  const ConstraintViolation := RuntimeFailure("ConstraintViolationException")

  /** @NotBlank: something is left once the leading and trailing characters up to U+0020 are
      trimmed, that is, some character is above U+0020. */
  function NotBlank(s: string): (r: bool)
    ensures r ==> 0 < |s|
    ensures 0 < |s| && (s[0] > ' ' || s[|s| - 1] > ' ') ==> r
  {
    exists i :: 0 <= i < |s| && s[i] > ' '
  }

  /** @NotBlank together with @Size(min = n). */
  function Filled(s: string, n: nat): (r: bool)
    ensures r ==> 0 < |s| && n <= |s|
  {
    NotBlank(s) && n <= |s|
  }

  /** Product: a name of at least 3 characters and a description of at least 6, neither blank. */
  function ValidProductText(productName: string, description: string): (r: bool)
    ensures r ==> 3 <= |productName| && 6 <= |description|
    ensures r ==> NotBlank(productName) && NotBlank(description)
  {
    Filled(productName, 3) && Filled(description, 6)
  }

  /** Address: each of the six text fields has at least 5 characters and is not blank. */
  function ValidAddressText(input: AddressInput): (r: bool)
    ensures r ==> && 5 <= |input.street| && 5 <= |input.buildingName| && 5 <= |input.city|
                  && 5 <= |input.state| && 5 <= |input.country| && 5 <= |input.zipCode|
  {
    && Filled(input.street, 5) && Filled(input.buildingName, 5) && Filled(input.city, 5)
    && Filled(input.state, 5) && Filled(input.country, 5) && Filled(input.zipCode, 5)
  }

  /** Payment: a payment method of at least 4 characters, not blank. */
  function ValidPaymentMethod(paymentMethod: string): (r: bool)
    ensures |paymentMethod| < 4 ==> !r
    ensures 4 <= |paymentMethod| && paymentMethod[0] > ' ' ==> r
  {
    Filled(paymentMethod, 4)
  }

  /** A blank string is refused whatever its length, and a filled string of the required length
      is accepted; so "COD" and four spaces are refused as payment methods and "CARD" is accepted. */
  lemma {:induction false} FilledCases(s: string, n: nat)
    ensures (forall i :: 0 <= i < |s| ==> s[i] <= ' ') ==> !Filled(s, n)
    ensures |s| < n ==> !Filled(s, n)
    ensures n <= |s| && |s| > 0 && s[0] > ' ' ==> Filled(s, n)
    ensures !ValidPaymentMethod("COD") && !ValidPaymentMethod("    ") && ValidPaymentMethod("CARD")
  {
    if n <= |s| && |s| > 0 && s[0] > ' ' {
      assert 0 <= 0 < |s| && s[0] > ' ';
    }
    assert "CARD"[0] > ' ';
  }
}
