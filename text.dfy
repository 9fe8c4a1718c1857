/** Character classes and string helpers shared by the Python and the
    JavaScript validators. Strings are sequences of Unicode scalar values, as
    Python `str` values are; only the ASCII ranges the source's regular
    expressions name are treated as letters and digits. */
module Text {
  import opened Seqs

  /** The regular-expression class `[0-9]` (`\d` restricted to ASCII). */
  predicate IsDigit(c: char) { '0' <= c <= '9' }

  /** The class `[a-zA-Z]`. */
  predicate IsLetter(c: char) { 'a' <= c <= 'z' || 'A' <= c <= 'Z' }

  /** The class `[a-zA-Z0-9]`. */
  predicate IsAlnum(c: char) { IsLetter(c) || IsDigit(c) }

  /** Every character of `s` is in the class `p`. */
  predicate AllIn(p: char -> bool, s: string) {
    forall i :: 0 <= i < |s| ==> p(s[i])
  }

  /** Some character of `s` is in the class `p` (an unanchored `re.search`). */
  predicate Any(p: char -> bool, s: string) {
    exists i :: 0 <= i < |s| && p(s[i])
  }

  /** The digits of `s` in order: `re.sub(r'[^\d]', '', s)` and
      `s.replace(/\D/g, '')`. */
  function Digits(s: string): (r: string)
    ensures |r| <= |s|
    ensures AllIn(IsDigit, r)
    ensures forall c :: c in r <==> c in s && IsDigit(c)
    ensures AllIn(IsDigit, s) ==> r == s
  {
    if AllIn(IsDigit, s) then FilterAll(IsDigit, s); Filter(IsDigit, s)
    else Filter(IsDigit, s)
  }

  /** Character by character: a digit is kept in front of the digits of
      the rest, anything else is dropped. With `Digits([]) == []` this
      fixes which digits are kept and in what order. */
  lemma DigitsCons(c: char, s: string)
    ensures Digits([]) == []
    ensures Digits([c] + s) == (if IsDigit(c) then [c] else []) + Digits(s)
  {
    assert ([c] + s)[1..] == s;
  }

  /** Removing non-digits distributes over concatenation. */
  lemma DigitsConcat(a: string, b: string)
    ensures Digits(a + b) == Digits(a) + Digits(b)
  {
    FilterConcat(IsDigit, a, b);
  }

  /** A non-digit separator contributes nothing to the digits. */
  lemma DigitsSep(a: string, sep: char, b: string)
    requires !IsDigit(sep)
    ensures Digits(a + [sep] + b) == Digits(a) + Digits(b)
  {
    FilterNone(IsDigit, [sep]);
    DigitsConcat(a, [sep]);
    DigitsConcat(a + [sep], b);
  }

  /** `n` copies of `c`: Python's `c * n`. */
  function Repeat(c: char, n: nat): (r: string)
    ensures |r| == n
    ensures forall i :: 0 <= i < n ==> r[i] == c
  {
    if n == 0 then [] else [c] + Repeat(c, n - 1)
  }

  /** ASCII lower-casing of one character; other characters are unchanged. */
  function LowerChar(c: char): char {
    if 'A' <= c <= 'Z' then (c as int + 32) as char else c
  }

  /** `s.lower()` / `s.toLowerCase()` over the ASCII range. */
  function Lower(s: string): (r: string)
    ensures |r| == |s|
    ensures forall i :: 0 <= i < |s| ==> r[i] == LowerChar(s[i])
  {
    seq(|s|, i requires 0 <= i < |s| => LowerChar(s[i]))
  }

  predicate StartsWith(s: string, prefix: string) {
    |prefix| <= |s| && s[..|prefix|] == prefix
  }

  predicate EndsWith(s: string, suffix: string) {
    |suffix| <= |s| && s[|s| - |suffix|..] == suffix
  }

  /** The text before the first `@`, or all of `s` when it has none:
      `s.split('@')[0]` in both languages. */
  function BeforeFirstAt(s: string): (r: string)
    ensures '@' !in r
    ensures StartsWith(s, r)
    ensures |r| < |s| ==> s[|r|] == '@'
  {
    if s == [] || s[0] == '@' then [] else [s[0]] + BeforeFirstAt(s[1..])
  }

  /** An address whose local part has no `@` splits at the `@` that follows it. */
  lemma BeforeFirstAtOf(local: string, rest: string)
    requires '@' !in local
    ensures BeforeFirstAt(local + "@" + rest) == local
  {
    var s := local + "@" + rest;
    var r := BeforeFirstAt(s);
    assert s[|local|] == '@';
  }

  /** Without an `@`, the part before it is everything. */
  lemma {:induction false} BeforeFirstAtNoAt(s: string)
    requires '@' !in s
    ensures BeforeFirstAt(s) == s
  {
    if s != [] {
      assert s[0] != '@';
      BeforeFirstAtNoAt(s[1..]);
      assert s == [s[0]] + s[1..];
    }
  }

  /** Lower-casing works character by character, so it distributes over
      concatenation. */
  lemma LowerConcat(a: string, b: string)
    ensures Lower(a + b) == Lower(a) + Lower(b)
  {
  }

  /** `re.match(r'^[..]+$', s)` for the class `p`: Python's `$` also matches
      just before a final newline, so one trailing `\n` is let through. */
  predicate PyFullMatch(p: char -> bool, s: string) {
    (|s| > 0 && AllIn(p, s)) || (|s| > 1 && s[|s| - 1] == '\n' && AllIn(p, s[..|s| - 1]))
  }

  /** `/^[..]+$/.test(s)` for the class `p`: JavaScript's `$` (without the
      `m` flag) matches only at the very end. */
  predicate JsFullMatch(p: char -> bool, s: string) {
    |s| > 0 && AllIn(p, s)
  }

  /** Python's `str.isspace()` for one character: the code points that
      `str.strip()` removes. */
  predicate IsPySpace(c: char) {
    var n := c as int;
    (0x09 <= n <= 0x0D) || (0x1C <= n <= 0x20) || n == 0x85 || n == 0xA0 || n == 0x1680
    || (0x2000 <= n <= 0x200A) || n == 0x2028 || n == 0x2029 || n == 0x202F
    || n == 0x205F || n == 0x3000
  }

  /** JavaScript's `\s` class, which is also what `String.prototype.trim`
      removes (WhiteSpace and LineTerminator of ECMAScript). */
  predicate IsJsSpace(c: char) {
    var n := c as int;
    (0x09 <= n <= 0x0D) || n == 0x20 || n == 0xA0 || n == 0x1680
    || (0x2000 <= n <= 0x200A) || n == 0x2028 || n == 0x2029 || n == 0x202F
    || n == 0x205F || n == 0x3000 || n == 0xFEFF
  }

  /** `s` with its leading characters of class `ws` removed. */
  function TrimStart(ws: char -> bool, s: string): (r: string)
    ensures |r| <= |s| && r == s[|s| - |r|..]
    ensures AllIn(ws, s[..|s| - |r|])
    ensures r != [] ==> !ws(r[0])
  {
    if s != [] && ws(s[0]) then
      var r := TrimStart(ws, s[1..]);
      assert s[1..][..|s| - 1 - |r|] == s[1..|s| - |r|];
      r
    else s
  }

  /** `s` with its trailing characters of class `ws` removed. */
  function TrimEnd(ws: char -> bool, s: string): (r: string)
    ensures |r| <= |s| && r == s[..|r|]
    ensures AllIn(ws, s[|r|..])
    ensures r != [] ==> !ws(r[|r| - 1])
  {
    if s != [] && ws(s[|s| - 1]) then
      var r := TrimEnd(ws, s[..|s| - 1]);
      assert s[..|s| - 1][..|r|] == s[..|r|];
      r
    else s
  }

  /** `s.strip()` / `s.trim()` for the whitespace class `ws`. */
  function Trim(ws: char -> bool, s: string): string {
    TrimEnd(ws, TrimStart(ws, s))
  }

  /** Trimming leaves nothing exactly when `s` is all whitespace, and
      otherwise leaves text that begins and ends with non-whitespace. */
  lemma TrimEmptyIff(ws: char -> bool, s: string)
    ensures Trim(ws, s) == [] <==> AllIn(ws, s)
    ensures Trim(ws, s) != [] ==> !ws(Trim(ws, s)[0]) && !ws(Trim(ws, s)[|Trim(ws, s)| - 1])
  {
    var u := TrimStart(ws, s);
    var i := |s| - |u|;
    var t := TrimEnd(ws, u);
    if u == [] {
      assert s[..i] == s;
    } else {
      assert u[0] == s[i];
      assert !ws(u[0]);
      if t == [] {
        assert false;
      }
      assert t[0] == u[0];
    }
  }
}
