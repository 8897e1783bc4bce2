/** The two input validators used before a registration, a login and a booking. */
module Validate {
  import opened Text

  /** The pattern `^[^\s@]+@[^\s@]+\.[^\s@]+$` of `validateEmail`: no white space,
      exactly one `@` with something before it, and a `.` after the `@` with
      something on both of its sides. */
  predicate IsEmail(s: string)
  {
    && (forall k :: 0 <= k < |s| ==> !IsSpace(s[k]))
    && exists i :: 0 < i < |s| && AtSign(s, i) && exists j :: i < j < |s| && DotAfter(s, i, j)
  }

  /** `s[i]` is the only `@` of `s`, and is not its first character. */
  predicate AtSign(s: string, i: int)
  {
    0 < i < |s| && s[i] == '@' && forall k :: 0 <= k < |s| && k != i ==> s[k] != '@'
  }

  /** `s[j]` is a `.` with at least one character between it and the `@` at `i`,
      and at least one after it. */
  predicate DotAfter(s: string, i: int, j: int)
  {
    0 <= i && i + 1 < j < |s| - 1 && s[j] == '.'
  }

  /** The pattern `^\d{10}$` of the mobile-number check: exactly ten ASCII digits. */
  predicate IsTenDigits(s: string)
  {
    |s| == 10 && AllDigits(s)
  }

  /** An address passes the email pattern; one without a dot after its `@`, one with
      nothing before the `@`, and one with two `@`s do not. */
  lemma EmailExamples()
    ensures IsEmail("ab@cd.in")
    ensures !IsEmail("ab@cd") && !IsEmail("@cd.in") && !IsEmail("a@b@c.in")
  {
    var s := "ab@cd.in";
    assert AtSign(s, 2) && DotAfter(s, 2, 5);
    var t := "a@b@c.in";
    assert t[1] == '@' && t[3] == '@';
  }

  /** Ten digits make a mobile number; nine digits, or a letter among ten, do not. */
  lemma MobileExamples()
    ensures IsTenDigits("9876543210")
    ensures !IsTenDigits("987654321") && !IsTenDigits("98765x3210")
  {
    assert !IsDigit("98765x3210"[5]);
  }
}
