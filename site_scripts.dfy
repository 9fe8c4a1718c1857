/** The two computations of static/js/main.js that are not DOM wiring:
    `validateEmail` and the word count behind `estimateReadingTime`. */
module SiteScripts {
  import opened Text

  // ---------------------------------------------------------- validateEmail

  /** The class `[^\s@]`. */
  predicate IsAddressChar(c: char) {
    !IsJsSpace(c) && c != '@'
  }

  /** One `[^\s@]+` run. */
  predicate IsRun(s: string) {
    |s| > 0 && AllIn(IsAddressChar, s)
  }

  /** `/^[^\s@]+@[^\s@]+\.[^\s@]+$/` matches `email` with its `@` at `at`
      and the escaped `.` at `dot`. */
  predicate MatchesAt(email: string, at: int, dot: int) {
    && 0 <= at < dot < |email|
    && IsRun(email[..at]) && email[at] == '@'
    && IsRun(email[at + 1..dot]) && email[dot] == '.'
    && IsRun(email[dot + 1..])
  }

  /** `validateEmail(email)`: the pattern matches at some split. */
  predicate ValidateEmail(email: string) {
    exists at, dot | 0 <= at < dot < |email| :: MatchesAt(email, at, dot)
  }

  /** The pattern in plain terms: no whitespace, a single `@` that is not
      first, and after it a `.` that is neither the first character of the
      domain nor the last of the address. */
  predicate WellFormedEmail(email: string) {
    && AllIn((c: char) => !IsJsSpace(c), email)
    && (exists at :: 0 < at < |email| - 2 && email[at] == '@'
         && '@' !in email[..at] && '@' !in email[at + 1..] && '.' in email[at + 2..|email| - 1])
  }

  lemma MatchIsWellFormed(email: string, at: int, dot: int)
    requires MatchesAt(email, at, dot)
    ensures WellFormedEmail(email)
  {
    var local, host, tld := email[..at], email[at + 1..dot], email[dot + 1..];
    assert email == local + ['@'] + host + ['.'] + tld;
    forall k | 0 <= k < |email|
      ensures !IsJsSpace(email[k])
    {
      if k < at {
        assert email[k] == local[k];
      } else if at < k < dot {
        assert email[k] == host[k - at - 1];
      } else if dot < k {
        assert email[k] == tld[k - dot - 1];
      }
    }
    assert '@' !in email[at + 1..] by {
      assert email[at + 1..] == host + ['.'] + tld;
    }
    assert email[at + 2..|email| - 1][dot - at - 2] == '.';
  }

  lemma WellFormedMatches(email: string, at: int)
    requires AllIn((c: char) => !IsJsSpace(c), email)
    requires 0 < at < |email| - 2 && email[at] == '@'
    requires '@' !in email[..at] && '@' !in email[at + 1..] && '.' in email[at + 2..|email| - 1]
    ensures ValidateEmail(email)
  {
    var domain := email[at + 2..|email| - 1];
    var k :| 0 <= k < |domain| && domain[k] == '.';
    var dot := at + 2 + k;
    assert email[dot] == '.';
    var local, host, tld := email[..at], email[at + 1..dot], email[dot + 1..];
    forall m | 0 <= m < |local|
      ensures IsAddressChar(local[m])
    {
      assert local[m] == email[m];
    }
    forall m | 0 <= m < |host|
      ensures IsAddressChar(host[m])
    {
      assert host[m] == email[at + 1 + m] == email[at + 1..][m];
    }
    forall m | 0 <= m < |tld|
      ensures IsAddressChar(tld[m])
    {
      assert tld[m] == email[dot + 1 + m] == email[at + 1..][dot - at + m];
    }
    assert MatchesAt(email, at, dot);
  }

  /** `validateEmail` accepts exactly the well-formed addresses. */
  lemma ValidateEmailIff(email: string)
    ensures ValidateEmail(email) <==> WellFormedEmail(email)
  {
    if ValidateEmail(email) {
      var at, dot :| MatchesAt(email, at, dot);
      MatchIsWellFormed(email, at, dot);
    }
    if WellFormedEmail(email) {
      var at :| 0 < at < |email| - 2 && email[at] == '@'
        && '@' !in email[..at] && '@' !in email[at + 1..] && '.' in email[at + 2..|email| - 1];
      WellFormedMatches(email, at);
    }
  }

  /** A local part, `@`, a host, `.` and a final label, none empty and none
      holding whitespace or `@`, make an accepted address. */
  lemma ValidateEmailAccepts(local: string, host: string, tld: string)
    requires IsRun(local) && IsRun(host) && IsRun(tld)
    ensures ValidateEmail(local + "@" + host + "." + tld)
  {
    var email := local + "@" + host + "." + tld;
    var at, dot := |local|, |local| + 1 + |host|;
    assert email[..at] == local && email[at + 1..dot] == host && email[dot + 1..] == tld;
    assert MatchesAt(email, at, dot);
  }

  /** An address with whitespace anywhere is refused. */
  lemma ValidateEmailRejectsSpace(email: string, k: nat)
    requires k < |email| && IsJsSpace(email[k])
    ensures !ValidateEmail(email)
  {
    ValidateEmailIff(email);
  }

  /** An address with two `@` is refused. */
  lemma ValidateEmailRejectsTwoAts(email: string, k1: nat, k2: nat)
    requires k1 < k2 < |email| && email[k1] == '@' && email[k2] == '@'
    ensures !ValidateEmail(email)
  {
    ValidateEmailIff(email);
    forall at | 0 < at < |email| - 2 && email[at] == '@'
      ensures '@' in email[..at] || '@' in email[at + 1..]
    {
      if at == k1 {
        assert email[at + 1..][k2 - at - 1] == '@';
      } else if at < k1 {
        assert email[at + 1..][k1 - at - 1] == '@';
      } else {
        assert email[..at][k1] == '@';
      }
    }
  }

  // ------------------------------------------------------ estimateReadingTime

  /** Average reading speed assumed, in words per minute. */
  const WordsPerMinute: nat := 200

  /** Whitespace runs that begin in `s`, given whether the character before
      `s` was whitespace. */
  function SpaceRuns(s: string, afterSpace: bool): nat {
    if s == [] then 0
    else (if IsJsSpace(s[0]) && !afterSpace then 1 else 0) + SpaceRuns(s[1..], IsJsSpace(s[0]))
  }

  /** Words (maximal non-whitespace runs) that begin in `s`, given whether
      the character before `s` was whitespace. */
  function WordStarts(s: string, afterSpace: bool): nat {
    if s == [] then 0
    else (if !IsJsSpace(s[0]) && afterSpace then 1 else 0) + WordStarts(s[1..], IsJsSpace(s[0]))
  }

  /** `text.trim().split(/\s+/).length`: a string with no whitespace splits
      into one piece (the empty string too), and every whitespace run adds
      one more. */
  function WordCount(text: string): (n: nat)
    ensures n >= 1
  {
    1 + SpaceRuns(Trim(IsJsSpace, text), false)
  }

  /** Whether the last character read (or the one before `s`, when `s` is
      empty) is whitespace. */
  function EndsInSpace(s: string, afterSpace: bool): bool {
    if s == [] then afterSpace else IsJsSpace(s[|s| - 1])
  }

  /** Words and whitespace runs alternate, so their counts differ only by
      how the text begins and ends. */
  lemma {:induction false} WordsAndRuns(s: string, afterSpace: bool)
    ensures WordStarts(s, afterSpace) + (if afterSpace then 0 else 1)
         == SpaceRuns(s, afterSpace) + (if EndsInSpace(s, afterSpace) then 0 else 1)
  {
    if s != [] {
      WordsAndRuns(s[1..], IsJsSpace(s[0]));
      if |s| > 1 {
        assert s[1..][|s[1..]| - 1] == s[|s| - 1];
      }
    }
  }

  /** On text with something besides whitespace, the count is exactly the
      number of words. */
  lemma WordCountCountsWords(text: string)
    requires Any((c: char) => !IsJsSpace(c), text)
    ensures WordCount(text) == WordStarts(text, true)
  {
    TrimEmptyIff(IsJsSpace, text);
    var k :| 0 <= k < |text| && !IsJsSpace(text[k]);
    assert !AllIn(IsJsSpace, text);
    TrimmedSplit(Trim(IsJsSpace, text));
    TrimmedWords(text);
  }

  /** Text that begins and ends with non-whitespace splits into one piece
      per word. */
  lemma TrimmedSplit(t: string)
    requires t != [] && !IsJsSpace(t[0]) && !IsJsSpace(t[|t| - 1])
    ensures 1 + SpaceRuns(t, false) == WordStarts(t, true)
  {
    WordsAndRuns(t, false);
    assert WordStarts(t, true) == 1 + WordStarts(t[1..], false);
    assert WordStarts(t, false) == WordStarts(t[1..], false);
  }

  /** Trimming removes no word. */
  lemma TrimmedWords(text: string)
    ensures WordStarts(Trim(IsJsSpace, text), true) == WordStarts(text, true)
  {
    TrimStartWords(text);
    TrimEndWords(TrimStart(IsJsSpace, text));
  }

  lemma TrimStartWords(text: string)
    ensures WordStarts(TrimStart(IsJsSpace, text), true) == WordStarts(text, true)
  {
    var start := TrimStart(IsJsSpace, text);
    var spaces := text[..|text| - |start|];
    assert text == spaces + start;
    LeadingSpaceNoWords(spaces, start);
  }

  lemma TrimEndWords(s: string)
    ensures WordStarts(TrimEnd(IsJsSpace, s), true) == WordStarts(s, true)
  {
    var t := TrimEnd(IsJsSpace, s);
    var spaces := s[|t|..];
    assert s == t + spaces;
    TrailingSpaceNoWords(t, spaces);
  }

  /** Leading whitespace starts no word and leaves the reader after a space. */
  lemma {:induction false} LeadingSpaceNoWords(spaces: string, rest: string)
    requires AllIn(IsJsSpace, spaces)
    ensures WordStarts(spaces + rest, true) == WordStarts(rest, true)
  {
    if spaces != [] {
      assert (spaces + rest)[0] == spaces[0];
      assert (spaces + rest)[1..] == spaces[1..] + rest;
      LeadingSpaceNoWords(spaces[1..], rest);
    } else {
      assert spaces + rest == rest;
    }
  }

  /** Trailing whitespace starts no word. */
  lemma {:induction false} TrailingSpaceNoWords(s: string, spaces: string)
    requires AllIn(IsJsSpace, spaces)
    ensures WordStarts(s + spaces, true) == WordStarts(s, true)
  {
    WordStartsConcat(s, spaces, true);
    NoWordsInSpaces(spaces, EndsInSpace(s, true));
  }

  lemma {:induction false} NoWordsInSpaces(spaces: string, afterSpace: bool)
    requires AllIn(IsJsSpace, spaces)
    ensures WordStarts(spaces, afterSpace) == 0
  {
    if spaces != [] {
      NoWordsInSpaces(spaces[1..], true);
    }
  }

  /** Counting words over two pieces, carrying the state across. */
  lemma {:induction false} WordStartsConcat(a: string, b: string, afterSpace: bool)
    ensures WordStarts(a + b, afterSpace) == WordStarts(a, afterSpace) + WordStarts(b, EndsInSpace(a, afterSpace))
  {
    if a == [] {
      assert a + b == b;
    } else {
      assert (a + b)[1..] == a[1..] + b;
      WordStartsConcat(a[1..], b, IsJsSpace(a[0]));
      if |a| > 1 {
        assert a[1..][|a[1..]| - 1] == a[|a| - 1];
      }
    }
  }

  /** An empty or all-whitespace text counts as one word. */
  lemma BlankTextIsOneWord(text: string)
    requires AllIn(IsJsSpace, text)
    ensures WordCount(text) == 1
  {
    TrimEmptyIff(IsJsSpace, text);
  }

  /** `Math.ceil(wordCount / 200)`: the division of two integers is exact
      enough in floating point for the ceiling to be the integer one. */
  function ReadingTimeMinutes(wordCount: nat): (minutes: nat)
    ensures WordsPerMinute * (minutes - 1) < wordCount <= WordsPerMinute * minutes || (wordCount == 0 && minutes == 0)
  {
    (wordCount + WordsPerMinute - 1) / WordsPerMinute
  }

  /** The estimate shown for an article's text: at least one minute, and one
      more for every further 200 words. */
  function EstimateReadingTime(text: string): (minutes: nat)
    ensures minutes >= 1
    ensures WordsPerMinute * (minutes - 1) < WordCount(text) <= WordsPerMinute * minutes
  {
    ReadingTimeMinutes(WordCount(text))
  }

  /** A longer count never reads faster. */
  lemma ReadingTimeMonotone(m: nat, n: nat)
    requires m <= n
    ensures ReadingTimeMinutes(m) <= ReadingTimeMinutes(n)
  {
  }

  lemma ReadingTimeExamples()
    ensures ReadingTimeMinutes(1) == 1 && ReadingTimeMinutes(200) == 1
    ensures ReadingTimeMinutes(201) == 2 && ReadingTimeMinutes(400) == 2 && ReadingTimeMinutes(401) == 3
  {
  }
}
