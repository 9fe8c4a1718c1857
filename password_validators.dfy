/** `CustomPasswordValidator.validate` of accounts/password_validators.py.
    Whether the site's settings install it is not part of this model. */
module PasswordValidators {
  import opened Wrappers
  import opened Text

  const MinPasswordLength: nat := 8

  /** The class `[!@#$%^&*(),.?":{}|<>_\-+=\[\]\\;/`~]`. */
  predicate IsPasswordSymbol(c: char) {
    c in {'!', '@', '#', '$', '%', '^', '&', '*', '(', ')', ',', '.', '?', '"', ':', '{', '}',
          '|', '<', '>', '_', '-', '+', '=', '[', ']', '\\', ';', '/', '`', '~'}
  }

  /** Letters, digits and whitespace are never symbols, so the symbol rule
      asks for something the other rules do not provide. */
  lemma SymbolsAreOtherCharacters(c: char)
    requires IsPasswordSymbol(c)
    ensures !IsLetter(c) && !IsDigit(c) && !IsPySpace(c)
  {
  }

  datatype PasswordError =
    | PasswordTooShort
    | PasswordNoLetter
    | PasswordNoNumber
    | PasswordNoSymbol
  {
    /** The `code` of the raised `ValidationError`. */
    function Code(): string {
      match this
      case PasswordTooShort => "password_too_short"
      case PasswordNoLetter => "password_no_letter"
      case PasswordNoNumber => "password_no_number"
      case PasswordNoSymbol => "password_no_symbol"
    }
  }

  /** `CustomPasswordValidator.validate`: length, then a letter, then a
      digit, then a symbol; the first rule broken is the one reported. */
  function ValidatePassword(password: string): (r: Outcome<PasswordError>)
    ensures r == Fail(PasswordTooShort) <==> |password| < MinPasswordLength
    ensures r == Fail(PasswordNoLetter) <==> |password| >= MinPasswordLength && !Any(IsLetter, password)
    ensures r == Fail(PasswordNoNumber) <==>
      |password| >= MinPasswordLength && Any(IsLetter, password) && !Any(IsDigit, password)
    ensures r.Pass? <==>
      |password| >= MinPasswordLength && Any(IsLetter, password) && Any(IsDigit, password)
      && Any(IsPasswordSymbol, password)
  {
    if |password| < MinPasswordLength then Fail(PasswordTooShort)
    else if !Any(IsLetter, password) then Fail(PasswordNoLetter)
    else if !Any(IsDigit, password) then Fail(PasswordNoNumber)
    else if !Any(IsPasswordSymbol, password) then Fail(PasswordNoSymbol)
    else Pass
  }

  /** A password of at least eight characters that has a letter, a digit and
      a symbol somewhere is accepted, in any order and with anything else
      around them. */
  lemma AcceptedWithAllKinds(password: string, i: nat, j: nat, k: nat)
    requires |password| >= MinPasswordLength
    requires i < |password| && j < |password| && k < |password|
    requires IsLetter(password[i]) && IsDigit(password[j]) && IsPasswordSymbol(password[k])
    ensures ValidatePassword(password).Pass?
  {
  }

  /** Adding characters after an accepted password keeps it accepted. */
  lemma AcceptedExtendsRight(password: string, extra: string)
    requires ValidatePassword(password).Pass?
    ensures ValidatePassword(password + extra).Pass?
  {
    var i :| 0 <= i < |password| && IsLetter(password[i]);
    var j :| 0 <= j < |password| && IsDigit(password[j]);
    var k :| 0 <= k < |password| && IsPasswordSymbol(password[k]);
    var longer := password + extra;
    assert longer[i] == password[i] && longer[j] == password[j] && longer[k] == password[k];
    AcceptedWithAllKinds(longer, i, j, k);
  }

  /** Adding characters before an accepted password keeps it accepted. */
  lemma AcceptedExtendsLeft(password: string, extra: string)
    requires ValidatePassword(password).Pass?
    ensures ValidatePassword(extra + password).Pass?
  {
    var i :| 0 <= i < |password| && IsLetter(password[i]);
    var j :| 0 <= j < |password| && IsDigit(password[j]);
    var k :| 0 <= k < |password| && IsPasswordSymbol(password[k]);
    var longer := extra + password;
    var n := |extra|;
    assert longer[n + i] == password[i] && longer[n + j] == password[j] && longer[n + k] == password[k];
    AcceptedWithAllKinds(longer, n + i, n + j, n + k);
  }

  /** One example input per rule, and one that passes them all. */
  lemma TooShortExample()
    ensures ValidatePassword("Abc1!") == Fail(PasswordTooShort)
  {
  }

  lemma NoLetterExample()
    ensures ValidatePassword("12345678!") == Fail(PasswordNoLetter)
  {
    var p := "12345678!";
    assert forall i :: 0 <= i < |p| ==> !IsLetter(p[i]);
  }

  lemma NoNumberExample()
    ensures ValidatePassword("abcdefgh!") == Fail(PasswordNoNumber)
  {
    var p := "abcdefgh!";
    assert IsLetter(p[0]);
    assert forall i :: 0 <= i < |p| ==> !IsDigit(p[i]);
  }

  lemma NoSymbolExample()
    ensures ValidatePassword("abcdefg1") == Fail(PasswordNoSymbol)
  {
    var p := "abcdefg1";
    assert IsLetter(p[0]) && IsDigit(p[7]);
    assert forall i :: 0 <= i < |p| ==> !IsPasswordSymbol(p[i]);
  }

  lemma AcceptedExample()
    ensures ValidatePassword("abcdef1!") == Pass
  {
    var p := "abcdef1!";
    AcceptedWithAllKinds(p, 0, 6, 7);
  }
}
