/** The client-side checks of static/js/form-validation.js, which run in the
    browser on the registration form before the server-side validators of
    accounts/validators.py and accounts/password_validators.py see the data. */
module FormValidation {
  import opened Wrappers
  import opened Seqs
  import opened Text
  import opened AccountValidators
  import opened PasswordValidators

  // ------------------------------------------------------------- formatCPF

  /** The CPF text field, whose value `formatCPF` rewrites in place. */
  class CpfInput {
    var value: string

    constructor(initial: string)
      ensures value == initial
    {
      value := initial;
    }
  }

  const MaxCpfDigits: nat := 11

  /** The number of separators `XXX.XXX.XXX-XX` puts among `n` digits. */
  function Separators(n: nat): nat {
    if n == 0 then 0 else (n - 1) / 3
  }

  /** The mask `formatCPF` applies to at most eleven digits: nothing for up
      to three, then `.` after the third and the sixth digit and `-` after
      the ninth, each only once a digit follows it. */
  function PartialMask(d: string): (r: string)
    requires |d| <= MaxCpfDigits
    ensures |r| == |d| + Separators(|d|)
    ensures |d| > 3 ==> r[3] == '.'
    ensures |d| > 6 ==> r[7] == '.'
    ensures |d| > 9 ==> r[11] == '-'
  {
    if |d| > 9 then d[..3] + "." + d[3..6] + "." + d[6..9] + "-" + d[9..]
    else if |d| > 6 then d[..3] + "." + d[3..6] + "." + d[6..]
    else if |d| > 3 then d[..3] + "." + d[3..]
    else d
  }

  /** The value `formatCPF` leaves in the field: the first eleven digits of
      what was typed, masked. */
  function FormattedCpf(typed: string): (r: string)
    ensures |r| <= MaxCpfDigits + 3
  {
    var digits := Digits(typed);
    PartialMask(if |digits| > MaxCpfDigits then digits[..MaxCpfDigits] else digits)
  }

  /** `formatCPF(input)`. */
  method FormatCpf(input: CpfInput)
    modifies input
    ensures input.value == FormattedCpf(old(input.value))
  {
    var value := Digits(input.value);
    if |value| > MaxCpfDigits {
      value := value[..MaxCpfDigits];
    }
    if |value| > 9 {
      value := value[..3] + "." + value[3..6] + "." + value[6..9] + "-" + value[9..];
    } else if |value| > 6 {
      value := value[..3] + "." + value[3..6] + "." + value[6..];
    } else if |value| > 3 {
      value := value[..3] + "." + value[3..];
    }
    input.value := value;
  }

  /** The mask adds only separators: its digits are the digits masked. */
  lemma PartialMaskDigits(d: string)
    requires |d| <= MaxCpfDigits && AllIn(IsDigit, d)
    ensures Digits(PartialMask(d)) == d
  {
    if |d| > 9 {
      ThreeSeparators(d);
    } else if |d| > 6 {
      TwoSeparators(d);
    } else if |d| > 3 {
      OneSeparator(d);
    }
  }

  lemma ThreeSeparators(d: string)
    requires 9 < |d| && AllIn(IsDigit, d)
    ensures Digits(d[..3] + "." + d[3..6] + "." + d[6..9] + "-" + d[9..]) == d
  {
    SeparatedDigits(d[..3], d[3..6], d[6..9], d[9..]);
    assert d[..3] + d[3..6] + d[6..9] + d[9..] == d;
  }

  lemma TwoSeparators(d: string)
    requires 6 < |d| && AllIn(IsDigit, d)
    ensures Digits(d[..3] + "." + d[3..6] + "." + d[6..]) == d
  {
    var a, b, c := d[..3], d[3..6], d[6..];
    DigitsSep(a, '.', b);
    DigitsSep(a + "." + b, '.', c);
    assert a + b + c == d;
  }

  lemma OneSeparator(d: string)
    requires 3 < |d| && AllIn(IsDigit, d)
    ensures Digits(d[..3] + "." + d[3..]) == d
  {
    DigitsSep(d[..3], '.', d[3..]);
    assert d[..3] + d[3..] == d;
  }

  /** Formatting keeps exactly the first eleven digits typed, in order. */
  lemma FormattedCpfDigits(typed: string)
    ensures var digits := Digits(typed);
      Digits(FormattedCpf(typed)) == if |digits| > MaxCpfDigits then digits[..MaxCpfDigits] else digits
  {
    var digits := Digits(typed);
    PartialMaskDigits(if |digits| > MaxCpfDigits then digits[..MaxCpfDigits] else digits);
  }

  /** Formatting an already formatted value changes nothing, so the handler
      can run on every keystroke. */
  lemma FormattedCpfIdempotent(typed: string)
    ensures FormattedCpf(FormattedCpf(typed)) == FormattedCpf(typed)
  {
    FormattedCpfDigits(typed);
  }

  /** A complete CPF is shown as `XXX.XXX.XXX-XX`, and formatting does not
      change what the server-side validator decides about it. */
  lemma FormattedCpfComplete(typed: string)
    requires |Digits(typed)| == MaxCpfDigits
    ensures FormattedCpf(typed) == CpfMask(Digits(typed))
    ensures ValidateCpf(FormattedCpf(typed)).Success? == ValidateCpf(typed).Success?
  {
    FormattedCpfDigits(typed);
  }

  // ----------------------------------------------------------- validateCPF

  /** Appending a digit adds it with the next weight. */
  lemma {:induction false} WeightedSumSnoc(s: string, c: char, weight: int)
    ensures WeightedSum(s + [c], weight) == WeightedSum(s, weight) + CharValue(c) * (weight - |s|)
  {
    if s == [] {
      assert s + [c] == [c];
    } else {
      assert (s + [c])[1..] == s[1..] + [c];
      WeightedSumSnoc(s[1..], c, weight - 1);
    }
  }

  /** JavaScript's `%`, whose result takes the sign of the dividend. */
  function JsRemainder(a: int, b: int): (r: int)
    requires b > 0
    ensures a >= 0 ==> r == a % b
    ensures -b < r < b
  {
    if a >= 0 then a % b else -((-a) % b)
  }

  /** One check-digit block of `validateCPF`: the loop that sums the first
      `count` digits with weights `firstWeight` down, then the remainder
      rule. */
  method CheckDigitJs(cpf: string, count: nat, firstWeight: int) returns (digit: int)
    requires count <= |cpf| && count <= firstWeight && AllIn(IsDigit, cpf)
    ensures digit == CalculateDigit(cpf[..count], firstWeight)
  {
    var sum := 0;
    var i := 0;
    while i < count
      invariant 0 <= i <= count
      invariant sum == WeightedSum(cpf[..i], firstWeight)
    {
      WeightedSumSnoc(cpf[..i], cpf[i], firstWeight);
      assert cpf[..i + 1] == cpf[..i] + [cpf[i]];
      sum := sum + CharValue(cpf[i]) * (firstWeight - i);
      i := i + 1;
    }
    WeightedSumNonNegative(cpf[..count], firstWeight);
    var remainder := JsRemainder(sum, 11);
    digit := if remainder < 2 then 0 else 11 - remainder;
  }

  /** `validateCPF(cpf)`: the same rule as the server's `validate_cpf`, on
      ASCII input (see `Text.IsDigit`). */
  method ValidateCpfJs(typed: string) returns (ok: bool)
    ensures ok <==> ValidateCpf(typed).Success?
  {
    var cpf := Digits(typed);
    if |cpf| != 11 {
      return false;
    }
    if cpf == Repeat(cpf[0], 11) {  // /^(\d)\1{10}$/
      return false;
    }
    var digit1 := CheckDigitJs(cpf, 9, 10);
    if CharValue(cpf[9]) != digit1 {
      return false;
    }
    var digit2 := CheckDigitJs(cpf, 10, 11);
    ok := CharValue(cpf[10]) == digit2;
  }

  // --------------------------------------------------- validateEmailDomain

  /** `validateEmailDomain(email)`: the server's rule, on the client. */
  function ValidateEmailDomainJs(email: string): (ok: bool)
    ensures ok <==> ValidateAllowedEmailDomains(email).Success?
  {
    exists domain :: domain in AllowedDomains && EndsWith(Lower(email), domain)
  }

  // ----------------------------------------------- validateEmailCharacters

  /** `validateEmailCharacters(email)`. Unlike the server it demands an `@`,
      and its `$` does not let a final newline through. */
  function ValidateEmailCharactersJs(email: string): (ok: bool)
    ensures ok ==> '@' in email && ValidateEmailCharacters(email).Success?
    ensures ok <==> '@' in email && ValidateEmailCharacters(email).Success? && !EndsWith(BeforeFirstAt(email), "\n")
  {
    var local := BeforeFirstAt(email);
    assert EndsWith(local, "\n") ==> local[|local| - 1] == '\n';
    '@' in email && JsFullMatch(IsEmailLocalChar, local)
  }

  /** Without an `@` the server accepts what the client refuses: a bare
      `username`, say. */
  lemma EmailCharactersWithoutAt(local: string)
    requires local != [] && AllIn(IsEmailLocalChar, local)
    ensures ValidateEmailCharacters(local).Success?
    ensures !ValidateEmailCharactersJs(local)
  {
    BeforeFirstAtNoAt(local);
  }

  /** A local part ending in a newline: the server's `$` lets the newline
      through and the client's does not, as for `a\n@x`. */
  lemma EmailCharactersTrailingNewline(local: string, domain: string)
    requires local != [] && AllIn(IsEmailLocalChar, local)
    ensures ValidateEmailCharacters(local + "\n@" + domain).Success?
    ensures !ValidateEmailCharactersJs(local + "\n@" + domain)
  {
    var withNewline := local + "\n";
    assert '@' !in withNewline by {
      assert forall i :: 0 <= i < |local| ==> withNewline[i] == local[i];
    }
    assert local + "\n@" + domain == withNewline + "@" + domain;
    BeforeFirstAtOf(withNewline, domain);
    assert withNewline[..|withNewline| - 1] == local;
  }

  // ------------------------------------------------------ validateUsername

  /** `validateUsername(username)`: the rule the server states, applied with
      an anchor that admits nothing after the last letter or digit. */
  function ValidateUsernameJs(username: string): (ok: bool)
    ensures ok <==> ValidateUsernameFormatCorrected(username).Success?
    ensures ok ==> ValidateUsernameFormat(username).Success?
  {
    |username| >= MinUsernameLength && JsFullMatch(IsAlnum, username) && Any(IsLetter, username)
  }

  // ------------------------------------------------------ validatePassword

  /** `validatePassword(password)`: the first three rules of
      `CustomPasswordValidator.validate`; its symbol rule is not checked in
      the browser. */
  function ValidatePasswordJs(password: string): (ok: bool)
    ensures !ok <==> ValidatePassword(password) in {Fail(PasswordTooShort), Fail(PasswordNoLetter), Fail(PasswordNoNumber)}
    ensures ValidatePassword(password).Pass? <==> ok && Any(IsPasswordSymbol, password)
  {
    if |password| < MinPasswordLength then false
    else if !Any(IsLetter, password) then false
    else Any(IsDigit, password)
  }

  /** A password the browser lets through can still be refused by
      `CustomPasswordValidator.validate`, for want of a symbol. */
  lemma PasswordClientLaxer()
    ensures ValidatePasswordJs("abcdefg1")
    ensures ValidatePassword("abcdefg1") == Fail(PasswordNoSymbol)
  {
    NoSymbolExample();
  }
}
