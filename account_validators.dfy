/** The account validators of accounts/validators.py. Each raises
    `ValidationError` on bad input and returns its argument otherwise; here
    each returns `Failure(error)` or `Success(argument)`. */
module AccountValidators {
  import opened Wrappers
  import opened Seqs
  import opened Text

  // ---------------------------------------------------------------- CPF

  datatype CpfError =
    | CpfWrongLength   // 'CPF deve conter 11 dígitos.'
    | CpfInvalid       // 'CPF inválido.'

  /** `int(d)` in Python and `parseInt(d)` in JavaScript, for a decimal
      digit character `d`. */
  function CharValue(c: char): int {
    c as int - '0' as int
  }

  /** `sum(int(d) * w for d, w in zip(digits, range(weight, 1, -1)))`: the
      first digit weighs `weight`, each next one one less. */
  function WeightedSum(digits: string, weight: int): int {
    if digits == [] then 0
    else CharValue(digits[0]) * weight + WeightedSum(digits[1..], weight - 1)
  }

  /** With weights that stay positive the sum is never negative. */
  lemma {:induction false} WeightedSumNonNegative(digits: string, weight: int)
    requires AllIn(IsDigit, digits) && weight >= |digits|
    ensures WeightedSum(digits, weight) >= 0
  {
    if digits != [] {
      WeightedSumNonNegative(digits[1..], weight - 1);
    }
  }

  /** `(10 * s) % 11` depends only on `s % 11`. */
  lemma TimesTenMod11(s: int)
    ensures (10 * s) % 11 == (10 * (s % 11)) % 11
  {
    var q := s / 11;
    var r := s % 11;
    assert s == 11 * q + r;
    assert 10 * s == 11 * (10 * q) + 10 * r;
  }

  /** `calculate_digit`: the mod-11 check digit of the Receita Federal, which
      is always a single decimal digit and agrees with the other common
      statement of the rule, `10 * sum mod 11 mod 10`. */
  function CalculateDigit(partial: string, firstWeight: int): (d: nat)
    requires AllIn(IsDigit, partial)
    ensures d <= 9
    ensures d == (10 * WeightedSum(partial, firstWeight)) % 11 % 10
  {
    var total := WeightedSum(partial, firstWeight);
    var remainder := total % 11;
    TimesTenMod11(total);
    CheckDigitTable(remainder);
    if remainder < 2 then 0 else 11 - remainder
  }

  /** The two statements of the rule agree on every remainder. */
  lemma CheckDigitTable(r: int)
    requires 0 <= r < 11
    ensures (10 * r) % 11 % 10 == if r < 2 then 0 else 11 - r
  {
    if r > 0 {
      assert 10 * r == 11 * (r - 1) + (11 - r);
    }
  }

  /** The Receita Federal rule for an eleven-digit CPF: not a single digit
      repeated, and each check digit is `10 * weighted sum mod 11 mod 10`
      of the digits before it, with weights 10..2 and then 11..2. */
  predicate IsCpfNumber(d: string) {
    && |d| == 11 && AllIn(IsDigit, d)
    && (exists i :: 0 < i < 11 && d[i] != d[0])
    && CharValue(d[9]) == (10 * WeightedSum(d[..9], 10)) % 11 % 10
    && CharValue(d[10]) == (10 * WeightedSum(d[..10], 11)) % 11 % 10
  }

  /** `validate_cpf`: punctuation is ignored; fewer or more than eleven
      digits is `CpfWrongLength`; otherwise the input is accepted, unchanged,
      exactly when its digits form a valid CPF number. */
  function ValidateCpf(cpf: string): (r: Result<string, CpfError>)
    ensures r.Success? ==> r.value == cpf
    ensures r == Failure(CpfWrongLength) <==> |Digits(cpf)| != 11
    ensures r.Success? <==> IsCpfNumber(Digits(cpf))
  {
    var numbers := Digits(cpf);
    if |numbers| != 11 then Failure(CpfWrongLength)
    else if numbers == Repeat(numbers[0], 11) then Failure(CpfInvalid)
    else if CharValue(numbers[9]) != CalculateDigit(numbers[..9], 10) then Failure(CpfInvalid)
    else if CharValue(numbers[10]) != CalculateDigit(numbers[..10], 11) then Failure(CpfInvalid)
    else
      assert numbers != Repeat(numbers[0], 11);
      assert exists i :: 0 < i < 11 && numbers[i] != numbers[0];
      Success(cpf)
  }

  /** The decimal digit character of value `n`. */
  function DigitChar(n: nat): (c: char)
    requires n <= 9
    ensures IsDigit(c) && CharValue(c) == n
  {
    ('0' as int + n) as char
  }

  /** The eleven-digit CPF whose first nine digits are `base`. */
  function WithCheckDigits(base: string): (d: string)
    requires |base| == 9 && AllIn(IsDigit, base)
    ensures |d| == 11 && AllIn(IsDigit, d) && d[..9] == base
  {
    var first := base + [DigitChar(CalculateDigit(base, 10))];
    first + [DigitChar(CalculateDigit(first, 11))]
  }

  /** The check digits are determined by the base: a number is a valid CPF
      iff it is its base completed with the computed check digits and is
      not one digit repeated. */
  lemma CheckDigitsDetermined(d: string)
    requires |d| == 11 && AllIn(IsDigit, d)
    ensures IsCpfNumber(d) <==> d == WithCheckDigits(d[..9]) && exists i :: 0 < i < 11 && d[i] != d[0]
  {
    var w := WithCheckDigits(d[..9]);
    assert d[..10] == d[..9] + [d[9]];
    if d == w {
      assert d[..10] == w[..10] == d[..9] + [DigitChar(CalculateDigit(d[..9], 10))];
    }
    if IsCpfNumber(d) {
      assert d[9] == DigitChar(CharValue(d[9]));
      assert d[10] == DigitChar(CharValue(d[10]));
      assert d == d[..10] + [d[10]];
    }
  }

  /** One step of the weighted sum. */
  lemma WeightedSumCons(c: char, s: string, weight: int)
    ensures WeightedSum([c] + s, weight) == CharValue(c) * weight + WeightedSum(s, weight - 1)
  {
    assert ([c] + s)[1..] == s;
  }

  /** The printed form `XXX.XXX.XXX-XX` of eleven digits. */
  function CpfMask(d: string): (r: string)
    requires |d| == 11
    ensures |r| == 14 && r[3] == '.' && r[7] == '.' && r[11] == '-'
  {
    d[..3] + "." + d[3..6] + "." + d[6..9] + "-" + d[9..]
  }

  /** Digits separated by `.`, `.` and `-` keep only the digits. */
  lemma SeparatedDigits(a: string, b: string, c: string, e: string)
    requires AllIn(IsDigit, a) && AllIn(IsDigit, b) && AllIn(IsDigit, c) && AllIn(IsDigit, e)
    ensures Digits(a + "." + b + "." + c + "-" + e) == a + b + c + e
  {
    var ab := a + "." + b;
    DigitsSep(a, '.', b);
    var abc := ab + "." + c;
    DigitsSep(ab, '.', c);
    DigitsSep(abc, '-', e);
  }

  /** The printed form carries exactly its eleven digits. */
  lemma CpfMaskDigits(d: string)
    requires |d| == 11 && AllIn(IsDigit, d)
    ensures Digits(CpfMask(d)) == d
  {
    SeparatedDigits(d[..3], d[3..6], d[6..9], d[9..]);
    assert d[..3] + d[3..6] + d[6..9] + d[9..] == d;
  }

  /** The weighted sum of two pieces: the second continues the weights. */
  lemma {:induction false} WeightedSumConcat(a: string, b: string, weight: int)
    ensures WeightedSum(a + b, weight) == WeightedSum(a, weight) + WeightedSum(b, weight - |a|)
  {
    if a == [] {
      assert a + b == b;
    } else {
      assert (a + b)[1..] == a[1..] + b;
      WeightedSumConcat(a[1..], b, weight - 1);
    }
  }

  /** The weighted sum of three digits. */
  lemma WeightedSum3(x: char, y: char, z: char, weight: int)
    ensures WeightedSum([x, y, z], weight) == CharValue(x) * weight + CharValue(y) * (weight - 1) + CharValue(z) * (weight - 2)
  {
    WeightedSumCons(z, [], weight - 2);
    WeightedSumCons(y, [z], weight - 1);
    WeightedSumCons(x, [y, z], weight);
    assert [y] + [z] == [y, z] && [x] + [y, z] == [x, y, z];
  }

  /** The weighted sum of nine digits, three at a time. */
  lemma WeightedSum9(a: string, b: string, c: string, weight: int)
    requires |a| == 3 && |b| == 3 && |c| == 3
    ensures WeightedSum(a + b + c, weight) == WeightedSum(a, weight) + WeightedSum(b, weight - 3) + WeightedSum(c, weight - 6)
  {
    WeightedSumConcat(a + b, c, weight);
    WeightedSumConcat(a, b, weight);
  }

  lemma ValidCpfFirstSum()
    ensures WeightedSum("111444777", 10) == 162
  {
    assert "111444777" == "111" + "444" + "777";
    WeightedSum9("111", "444", "777", 10);
    WeightedSum3('1', '1', '1', 10);
    WeightedSum3('4', '4', '4', 7);
    WeightedSum3('7', '7', '7', 4);
  }

  lemma ValidCpfSecondSum()
    ensures WeightedSum("1114447773", 11) == 204
  {
    assert "1114447773" == "111444777" + "3";
    WeightedSumConcat("111444777", "3", 11);
    assert "111444777" == "111" + "444" + "777";
    WeightedSum9("111", "444", "777", 11);
    WeightedSum3('1', '1', '1', 11);
    WeightedSum3('4', '4', '4', 8);
    WeightedSum3('7', '7', '7', 5);
    WeightedSumCons('3', "", 2);
  }

  lemma ValidCpfFirstDigit()
    ensures var d := "11144477735";
      CharValue(d[9]) == (10 * WeightedSum(d[..9], 10)) % 11 % 10
  {
    assert "11144477735"[..9] == "111444777";
    ValidCpfFirstSum();
    assert (10 * 162) % 11 % 10 == 3;
  }

  lemma ValidCpfSecondDigit()
    ensures var d := "11144477735";
      CharValue(d[10]) == (10 * WeightedSum(d[..10], 11)) % 11 % 10
  {
    assert "11144477735"[..10] == "1114447773";
    ValidCpfSecondSum();
    assert (10 * 204) % 11 % 10 == 5;
  }

  lemma ValidCpfDigits()
    ensures IsCpfNumber("11144477735")
  {
    var d := "11144477735";
    assert AllIn(IsDigit, d);
    assert d[3] != d[0];
    ValidCpfFirstDigit();
    ValidCpfSecondDigit();
  }

  lemma ValidCpfFormatted()
    ensures Digits("111.444.777-35") == "11144477735"
  {
    assert "111.444.777-35" == CpfMask("11144477735");
    CpfMaskDigits("11144477735");
  }

  /** The test CPF `111.444.777-35` is valid. */
  lemma ValidCpfExample()
    ensures ValidateCpf("111.444.777-35") == Success("111.444.777-35")
  {
    ValidCpfFormatted();
    ValidCpfDigits();
  }

  lemma WrongSecondDigitFirstSum()
    ensures WeightedSum("123456789", 10) == 210
  {
    assert "123456789" == "123" + "456" + "789";
    WeightedSum9("123", "456", "789", 10);
    WeightedSum3('1', '2', '3', 10);
    WeightedSum3('4', '5', '6', 7);
    WeightedSum3('7', '8', '9', 4);
  }

  lemma WrongSecondDigitSecondSum()
    ensures WeightedSum("1234567890", 11) == 255
  {
    assert "1234567890" == "123456789" + "0";
    WeightedSumConcat("123456789", "0", 11);
    assert "123456789" == "123" + "456" + "789";
    WeightedSum9("123", "456", "789", 11);
    WeightedSum3('1', '2', '3', 11);
    WeightedSum3('4', '5', '6', 8);
    WeightedSum3('7', '8', '9', 5);
    WeightedSumCons('0', "", 2);
  }

  /** `123.456.789-00` passes the first check digit but not the second. */
  lemma WrongSecondDigitExample()
    ensures ValidateCpf("123.456.789-00") == Failure(CpfInvalid)
  {
    WrongSecondDigitFormatted();
    WrongSecondDigitDigits();
  }

  lemma WrongSecondDigitDigits()
    ensures var d := "12345678900";
      && CharValue(d[9]) == (10 * WeightedSum(d[..9], 10)) % 11 % 10
      && CharValue(d[10]) != (10 * WeightedSum(d[..10], 11)) % 11 % 10
  {
    WrongSecondDigitFirst();
    WrongSecondDigitSecond();
  }

  lemma WrongSecondDigitFirst()
    ensures var d := "12345678900";
      CharValue(d[9]) == (10 * WeightedSum(d[..9], 10)) % 11 % 10
  {
    assert "12345678900"[..9] == "123456789";
    WrongSecondDigitFirstSum();
    assert (10 * 210) % 11 % 10 == 0;
  }

  lemma WrongSecondDigitSecond()
    ensures var d := "12345678900";
      CharValue(d[10]) != (10 * WeightedSum(d[..10], 11)) % 11 % 10
  {
    assert "12345678900"[..10] == "1234567890";
    WrongSecondDigitSecondSum();
    assert (10 * 255) % 11 % 10 == 9;
  }

  /** A run of ones weighs the sum of its weights. */
  lemma {:induction false} OnesSum(k: nat)
    ensures WeightedSum(Repeat('1', k), k + 1) == k * (k + 3) / 2
  {
    if k > 0 {
      OnesSum(k - 1);
      assert Repeat('1', k) == ['1'] + Repeat('1', k - 1);
      WeightedSumCons('1', Repeat('1', k - 1), k + 1);
    }
  }

  /** Eleven copies of one digit are refused, whatever their check digits. */
  lemma RepeatedDigitsRejected(cpf: string, c: char)
    requires Digits(cpf) == Repeat(c, 11)
    ensures ValidateCpf(cpf) == Failure(CpfInvalid)
  {
    assert Digits(cpf)[0] == c;
  }

  /** `111.111.111-11` is refused by the repeated-digit rule ... */
  lemma RepeatedDigitExample()
    ensures ValidateCpf("111.111.111-11") == Failure(CpfInvalid)
  {
    RepeatedDigitFormatted();
    RepeatedDigitsRejected("111.111.111-11", '1');
  }

  /** ... and by that rule alone: its check digits are right. */
  lemma RepeatedDigitDigits()
    ensures var d := "11111111111";
      d == Repeat('1', 11) && CharValue(d[9]) == CalculateDigit(d[..9], 10) && CharValue(d[10]) == CalculateDigit(d[..10], 11)
  {
    var d := "11111111111";
    assert d == Repeat('1', 11);
    assert d[..9] == Repeat('1', 9) && d[..10] == Repeat('1', 10);
    OnesSum(9);
    OnesSum(10);
  }

  lemma RepeatedDigitFormatted()
    ensures Digits("111.111.111-11") == Repeat('1', 11)
  {
    assert "111.111.111-11" == CpfMask("11111111111");
    CpfMaskDigits("11111111111");
    assert "11111111111" == Repeat('1', 11);
  }

  lemma WrongSecondDigitFormatted()
    ensures Digits("123.456.789-00") == "12345678900"
  {
    assert "123.456.789-00" == CpfMask("12345678900");
    CpfMaskDigits("12345678900");
  }

  /** Eleven digits are needed: the nine of `123.456.789` are too few. */
  lemma WrongLengthExample()
    ensures ValidateCpf("123.456.789") == Failure(CpfWrongLength)
  {
    WrongLengthDigits("123.456.789", "123456789");
  }

  lemma WrongLengthDigits(printed: string, d: string)
    requires |d| == 9 && AllIn(IsDigit, d) && printed == d[..3] + "." + d[3..6] + "." + d[6..]
    ensures |Digits(printed)| == 9
  {
    var ab := d[..3] + "." + d[3..6];
    DigitsSep(d[..3], '.', d[3..6]);
    DigitsSep(ab, '.', d[6..]);
  }

  // ---------------------------------------------------------- e-mail domain

  datatype EmailDomainError = DomainNotAllowed

  const AllowedDomains: seq<string> := ["@gmail.com", "@outlook.com", "@hotmail.com"]

  /** The lower-cased address ends with one of the allowed domains. */
  predicate HasAllowedDomain(email: string) {
    exists i :: 0 <= i < |AllowedDomains| && EndsWith(Lower(email), AllowedDomains[i])
  }

  /** `validate_allowed_email_domains`. */
  function ValidateAllowedEmailDomains(email: string): (r: Result<string, EmailDomainError>)
    ensures r.Success? ==> r.value == email
    ensures r.Success? <==> EndsWith(Lower(email), "@gmail.com") || EndsWith(Lower(email), "@outlook.com")
                            || EndsWith(Lower(email), "@hotmail.com")
  {
    assert AllowedDomains[0] == "@gmail.com" && AllowedDomains[1] == "@outlook.com" && AllowedDomains[2] == "@hotmail.com";
    if HasAllowedDomain(email) then Success(email) else Failure(DomainNotAllowed)
  }

  /** The test is case-insensitive: an address and its lower-cased form are
      judged alike. */
  lemma AllowedDomainsIgnoreCase(email: string)
    ensures ValidateAllowedEmailDomains(Lower(email)).Success? == ValidateAllowedEmailDomains(email).Success?
  {
    assert Lower(Lower(email)) == Lower(email);
  }

  /** An accepted address has an `@`, followed by exactly the allowed domain. */
  lemma AllowedDomainHasAt(email: string)
    requires ValidateAllowedEmailDomains(email).Success?
    ensures '@' in email
  {
    var i :| 0 <= i < |AllowedDomains| && EndsWith(Lower(email), AllowedDomains[i]);
    var k := |email| - |AllowedDomains[i]|;
    assert Lower(email)[k] == '@';
  }

  /** Each allowed domain is already in lower case, so any address written
      as a local part followed by one of them is accepted. */
  lemma AllowedDomainAccepted(local: string, k: nat)
    requires k < |AllowedDomains|
    ensures ValidateAllowedEmailDomains(local + AllowedDomains[k]).Success?
  {
    var domain := AllowedDomains[k];
    assert Lower(domain) == domain by {
      assert AllowedDomains[0] == "@gmail.com" && AllowedDomains[1] == "@outlook.com" && AllowedDomains[2] == "@hotmail.com";
    }
    LowerConcat(local, domain);
    assert Lower(local + domain)[|local + domain| - |domain|..] == domain;
  }

  /** Every allowed domain ends in `m`, so an address that does not end in
      `m` or `M` (`user@outlook.com.br`, say) is refused. */
  lemma NotEndingInMRejected(email: string)
    requires email != [] && LowerChar(email[|email| - 1]) != 'm'
    ensures ValidateAllowedEmailDomains(email) == Failure(DomainNotAllowed)
  {
    forall k | 0 <= k < |AllowedDomains|
      ensures !EndsWith(Lower(email), AllowedDomains[k])
    {
      var domain := AllowedDomains[k];
      assert domain[|domain| - 1] == 'm';
      assert Lower(email)[|email| - 1] != 'm';
    }
  }

  /** Two suffixes of one string agree where they overlap. */
  lemma SuffixOfSuffix(s: string, a: string, b: string)
    requires EndsWith(s, a) && |a| <= |b|
    ensures EndsWith(s, b) ==> b[|b| - |a|..] == a
  {
    assert s[|s| - |a|..] == a;
  }

  /** A string ends with what was appended to it. */
  lemma EndsWithConcat(a: string, b: string)
    ensures EndsWith(a + b, b)
  {
    assert (a + b)[|a|..] == b;
  }

  lemma YahooIsLowerCase()
    ensures Lower("@yahoo.com") == "@yahoo.com"
  {
  }

  /** An address ending in `@yahoo.com` ends in none of the allowed domains. */
  lemma YahooIsNoAllowedDomain(s: string)
    requires EndsWith(s, "@yahoo.com")
    ensures !EndsWith(s, "@gmail.com") && !EndsWith(s, "@outlook.com") && !EndsWith(s, "@hotmail.com")
  {
    var other := "@yahoo.com";
    SuffixOfSuffix(s, other, "@gmail.com");
    assert "@gmail.com"[1] != other[1];
    SuffixOfSuffix(s, other, "@outlook.com");
    assert "@outlook.com"[2..][0] != other[0];
    SuffixOfSuffix(s, other, "@hotmail.com");
    assert "@hotmail.com"[2..][0] != other[0];
  }

  /** Any other provider is refused: `user@yahoo.com`, say. */
  lemma OtherProviderRejected(local: string)
    ensures ValidateAllowedEmailDomains(local + "@yahoo.com") == Failure(DomainNotAllowed)
  {
    var other := "@yahoo.com";
    LowerConcat(local, other);
    YahooIsLowerCase();
    EndsWithConcat(Lower(local), other);
    YahooIsNoAllowedDomain(Lower(local + other));
  }

  // ---------------------------------------------------------------- username

  datatype UsernameError =
    | UsernameTooShort         // fewer than 8 characters
    | UsernameNotAlphanumeric  // a character outside [a-zA-Z0-9]
    | UsernameNoLetter         // digits only

  const MinUsernameLength: nat := 8

  /** `validate_username_format`: the checks run in the order length,
      alphabet, letter, and the first that fails decides the error. */
  function ValidateUsernameFormat(username: string): (r: Result<string, UsernameError>)
    ensures r.Success? ==> r.value == username
    ensures r == Failure(UsernameTooShort) <==> |username| < MinUsernameLength
    ensures r == Failure(UsernameNotAlphanumeric) <==> |username| >= MinUsernameLength && !PyFullMatch(IsAlnum, username)
    ensures r.Success? <==> |username| >= MinUsernameLength && PyFullMatch(IsAlnum, username) && Any(IsLetter, username)
  {
    if |username| < MinUsernameLength then Failure(UsernameTooShort)
    else if !PyFullMatch(IsAlnum, username) then Failure(UsernameNotAlphanumeric)
    else if !Any(IsLetter, username) then Failure(UsernameNoLetter)
    else Success(username)
  }

  lemma UsernameExamples()
    ensures ValidateUsernameFormat("username123").Success?
    ensures ValidateUsernameFormat("user123") == Failure(UsernameTooShort)
    ensures ValidateUsernameFormat("user@name123") == Failure(UsernameNotAlphanumeric)
    ensures ValidateUsernameFormat("12345678") == Failure(UsernameNoLetter)
  {
    assert "username123"[0] == 'u';
    assert "user@name123"[4] == '@';
    assert "user@name123"[|"user@name123"| - 1] != '\n';
    var d := "12345678";
    assert forall i :: 0 <= i < |d| ==> IsDigit(d[i]);
  }

  /** As written, the pattern `^[a-zA-Z0-9]+$` lets one trailing newline
      through, since Python's `$` also matches just before it. */
  lemma UsernameTrailingNewlineAccepted()
    ensures ValidateUsernameFormat("abcdefg1\n").Success?
  {
    var u := "abcdefg1\n";
    assert u[..|u| - 1] == "abcdefg1";
    assert IsLetter(u[0]);
  }

  /** `validate_username_format` with the pattern anchored at the very end
      (`re.fullmatch`, or `\Z` for `$`): same errors, same order. */
  function ValidateUsernameFormatCorrected(username: string): (r: Result<string, UsernameError>)
    ensures r.Success? ==> r.value == username
    ensures r == Failure(UsernameTooShort) <==> |username| < MinUsernameLength
    ensures r.Success? <==> ValidateUsernameFormat(username).Success? && username[|username| - 1] != '\n'
    ensures r.Success? ==> AllIn(IsAlnum, username) && Any(IsLetter, username)
  {
    if |username| < MinUsernameLength then Failure(UsernameTooShort)
    else if !AllIn(IsAlnum, username) then Failure(UsernameNotAlphanumeric)
    else if !Any(IsLetter, username) then Failure(UsernameNoLetter)
    else Success(username)
  }

  // ---------------------------------------------------- e-mail characters

  datatype EmailCharactersError = EmailBadCharacters

  /** The class `[a-zA-Z0-9._-]`. */
  predicate IsEmailLocalChar(c: char) {
    IsAlnum(c) || c == '.' || c == '_' || c == '-'
  }

  /** `validate_email_characters`: the part before the first `@` (the whole
      address when there is none) must be non-empty and drawn from
      `[a-zA-Z0-9._-]`. */
  function ValidateEmailCharacters(email: string): (r: Result<string, EmailCharactersError>)
    ensures r.Success? ==> r.value == email
    ensures r.Success? <==> PyFullMatch(IsEmailLocalChar, BeforeFirstAt(email))
    ensures r.Success? ==> email != "" && email[0] != '@'
  {
    var localPart := BeforeFirstAt(email);
    if PyFullMatch(IsEmailLocalChar, localPart) then Success(email) else Failure(EmailBadCharacters)
  }

  /** A non-empty local part drawn from the class, followed by `@` and any
      domain, is accepted. */
  lemma EmailCharactersAccepted(local: string, domain: string)
    requires local != [] && AllIn(IsEmailLocalChar, local)
    ensures ValidateEmailCharacters(local + "@" + domain).Success?
  {
    BeforeFirstAtOf(local, domain);
  }

  /** A character outside the class in the local part (other than a final
      newline) is refused: `user#name@gmail.com`, say. */
  lemma EmailCharactersRejected(local: string, domain: string, i: nat)
    requires '@' !in local && i < |local| && !IsEmailLocalChar(local[i]) && local[i] != '\n'
    ensures ValidateEmailCharacters(local + "@" + domain).Failure?
  {
    BeforeFirstAtOf(local, domain);
    if i < |local| - 1 {
      assert local[..|local| - 1][i] == local[i];
    }
  }
}
