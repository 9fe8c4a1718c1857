# Editorial selection, trending lifecycle and sign-up validation — a Dafny model

This project models the core of a Wagtail/Django news site.

- **Trending lifecycle** (`Articles`). An article page can be flagged as trending, optionally until an expiry instant. `is_currently_trending` reads the flag and the expiry lazily against the clock. The first save of a new, live page arms trending for three hours. `ArticlePage` is a class whose `Save` method updates the page object and the stored row in place.
- **Listing selection** (`Selection`). The three copies of `get_context` on the home page, the section page and the support section page pick the same tiers:
  - a hero: the newest featured article;
  - a trending list: the other currently trending articles, newest first;
  - a regular list: everything not shown yet, newest first.
  The selection is a `method` with the same loop the pages run. It is proved equal to a specification function, and the partition properties are proved about that function.
- **Page glue** (`Pages`):
  - the candidate queries of the three pages and the subscriber flag;
  - `SupportSectionPage.get_url_parts`;
  - `HomePage.clean`;
  - `get_image_url` and `get_thumbnail_url`.
- **Server-side validators** (`AccountValidators`, `PasswordValidators`):
  - the CPF check-digit rule;
  - the e-mail domain allow-list;
  - the username format and the e-mail local-part characters;
  - the custom password rules.
- **Browser-side validators** (`FormValidation`, `SiteScripts`):
  - `formatCPF` as a method on an input object whose `value` it rewrites;
  - `validateCPF` as a method with the two summing loops;
  - the JavaScript e-mail, username and password checks;
  - `validateEmail`;
  - the word count and reading time of `estimateReadingTime`.
  Each client check is related to its server counterpart by a lemma or postcondition over every input, with character classes read as ASCII. On ASCII input the two CPF checks agree exactly. Python's `\d` also keeps non-ASCII digits; see `## Left out`. Where the two sides differ, the difference is proved with a concrete input.

The clock is a parameter (`now`, whole seconds). Strings are `seq<char>`. Regular-expression classes are modelled over the ASCII ranges they name. Python's `$` also matches before one final newline, and JavaScript's `$` does not. The model keeps that difference (`Text.PyFullMatch`, `Text.JsFullMatch`).

Two consequences of `save` (content/models.py:741-756) are worth stating plainly:

- `save` arms trending whenever `self.pk is None and self.live` (content/models.py:746,752), whatever the trending fields already hold. A manual `trending_until` set before the first save of a live page is replaced by `now + 3h` (`Articles.FirstSaveWindow`).
- A page first saved as a draft and published by a later save is never armed, because it already has a key (`Articles.ArticlePage.Save`). The comment at content/models.py:745 nevertheless speaks of an article "being published".

## Model

| member | source | states |
|---|---|---|
| Articles.IsCurrentlyTrending | content/models.py:758-767 | never trending while the flag is off, whatever the expiry says; with the flag on, trending exactly when there is no expiry or the clock has not passed it (the expiry instant itself still counts) |
| Articles.ExpiryIsFinal | content/models.py:758-767 | an article that is not trending at some clock reading is not trending at any later one |
| Articles.TrendingClockExamples | content/test_premium_and_trending.py:201-262 | a trending article with no expiry still trends ten hours on; with an expiry five hours on it trends at 4h30 and has stopped at 5h01 |
| Articles.FirstSaveWindow | content/models.py:751-756 | after the first save of a live page it is trending at `t` exactly when `t <= now + 3h`; every other field, `isPremium` included, is kept; a draft is stored unchanged |
| Articles.ArticlePage.Save | content/models.py:741-756 | `update_fields` is passed on to the parent save. A plain save inserts or updates the whole object, and the first plain save of a new live page stores the armed first-save record. A page that already had a key is never re-armed: its fields stay as they were, and with `update_fields` only those columns of the stored row change. A missing key or row is an error. An empty `update_fields` writes nothing; a new page is still armed in memory as on a first save when live, and then fails on the arming write. `isPremium` and `live` never change |
| Articles.ArticlePage.WriteRow | content/models.py:749 | Django's parent save: no `update_fields` writes the whole object, assigning a key if there is none; an empty list writes nothing; otherwise the named columns of the stored row are overwritten, and a missing key or missing row is an error that changes nothing; the object's fields are never touched |
| Articles.OverwriteAllOrNothing | content/models.py:756 | updating every column stores the object's record under the stored key; updating no column changes nothing |
| Articles.OverwriteTrending | content/models.py:756 | `update_fields=['is_trending', 'trending_until']` changes exactly those two fields of the stored row |
| Articles.ManualTrendingWithoutExpiry | content/test_premium_and_trending.py:201-226 | a saved draft is not armed; once marked trending without expiry and saved with the trending columns, its row trends and still trends ten hours later |
| Articles.PartialSaveKeepsStoredPremium | content/models.py:741-749 | a premium flag set on a stored page is not written by a save naming only the trending columns: the row keeps the old value |
| Articles.PartialSaveOfNewPageRefused | content/models.py:749 | a save with `update_fields` of a page that was never saved is refused for lack of a key |
| Articles.PremiumSurvivesResaves | content/test_premium_and_trending.py:276-313 | a new live page auto-trends; marked premium and saved twice more, its row is premium and still carries the first save's three-hour window |
| Selection.SortByDateDesc | content/models.py:478 | the sorted list is a permutation of its input, ordered by publication date, newest first |
| Selection.InsertByDateSorted | content/models.py:478 | inserting into a newest-first list keeps it newest first |
| Selection.LatestFeatured | content/models.py:464 | no hero exactly when no candidate is featured; otherwise the hero is a featured candidate with no featured candidate newer than it |
| Selection.SelectListing | content/models.py:458-499 | the loop that collects trending articles, sorts them, builds `shown_ids` and excludes them computes exactly the specification `Select` |
| Selection.RemainingSplit | content/models.py:468 | excluding the hero's key leaves exactly the candidates that are not the hero, with distinct keys, and together with the hero they are all the candidates |
| Selection.ShownIsTrending | content/models.py:481-486 | among the remaining articles, excluding the keys in `shown_ids` excludes exactly the currently trending ones |
| Selection.SelectTiers | content/models.py:468-499 | an article is in the trending list iff it is a non-hero candidate that is currently trending, and in the regular list iff it is a non-hero candidate that is not |
| Selection.SelectCoverage | content/models.py:464-499 | hero, trending and regular together hold every candidate exactly once (multiset equality) |
| Selection.SelectPartition | content/models.py:458-499 | the two tier memberships, both lists newest first, and exact coverage; premium status plays no part, so premium articles are listed like any other |
| Selection.SelectDisjoint | content/models.py:481-486 | the hero's key appears in neither list, and no key is both trending and regular |
| Selection.DistinctIdsFilter | content/models.py:468 | an `exclude` of a table with distinct keys keeps the keys distinct |
| Selection.FilterHeroId | content/models.py:468 | only the hero's own row carries the hero's key |
| Pages.IsPremiumSubscriber | content/models.py:488-494 | the flag holds exactly for an authenticated user who has a profile whose subscriber flag is set; anonymous users and users without a profile are never subscribers |
| Pages.HomePageContext | content/models.py:458-500 | the home page lists `Select` over the live descendants of the page; everything listed is a live descendant; the subscriber flag is `IsPremiumSubscriber` |
| Pages.SectionPageContext | content/models.py:955-997 | the section page lists `Select` over the live articles whose section is the page's key; everything listed is such an article; the subscriber flag is `IsPremiumSubscriber` |
| Pages.SupportSectionPageContext | content/models.py:1136-1176 | the support section page lists `Select` over its own live descendants; the subscriber flag is `IsPremiumSubscriber` |
| Pages.ScopeIsolation | content/models.py:958-967 | a page shows an article iff it is a live article of the page's scope, and, with distinct keys, each candidate exactly once across the tiers |
| Pages.ListedAreCandidates | content/models.py:461 | nothing outside the page's live scope is ever listed, for any table |
| Pages.SupportUrlParts | content/models.py:1120-1133 | no parent URL gives no URL; site and root are kept; the path gains the `/subsecao` prefix exactly when it is non-empty and does not already start with `/subsecao/`; otherwise it is unchanged |
| Pages.SupportUrlPartsIdempotent | content/models.py:1130-1131 | for paths that start with `/`, applying the rewrite twice is applying it once |
| Pages.SupportUrlPartsNotIdempotentWithoutSlash | content/models.py:1130-1131 | a path without the leading `/` is rewritten again on a second pass: `x`, then `/subsecaox`, then `/subsecao/subsecaox` |
| Pages.CleanHomePage | content/models.py:446-449 | an empty tagline passes; a non-empty one fails exactly when fewer than ten characters remain after stripping whitespace |
| Pages.CleanHomePageRejectsBlanks | content/models.py:446-449 | a tagline made only of whitespace is refused |
| Pages.CleanHomePageAcceptsTrimmed | content/models.py:446-449 | a tagline of at least ten characters that begins and ends with non-whitespace is accepted |
| Pages.ArticleImageUrl | content/models.py:733-739 | the external URL wins when set; else the uploaded image's URL; no URL exactly when neither is present |
| Pages.VideoThumbnailUrl | content/models.py:858-864 | the external thumbnail wins; else the uploaded image; else the fixed placeholder URL |
| AccountValidators.CalculateDigit | accounts/validators.py:23-26 | the check digit is a single decimal digit, and equals `10 * weighted sum mod 11 mod 10`, the other usual statement of the rule |
| AccountValidators.CheckDigitTable | accounts/validators.py:25-26 | for every remainder `r`, `0 if r < 2 else 11 - r` equals `10r mod 11 mod 10` |
| AccountValidators.WeightedSumNonNegative | accounts/validators.py:24 | with positive weights the weighted digit sum is never negative |
| AccountValidators.ValidateCpf | accounts/validators.py:7-38 | punctuation is ignored; `CpfWrongLength` exactly when there are not eleven digits; success exactly when the digits are not one repeated digit and both check digits match; on success the input is returned unchanged |
| AccountValidators.CheckDigitsDetermined | accounts/validators.py:28-36 | eleven digits form a valid CPF iff they are the first nine followed by the two computed check digits, and are not one repeated digit |
| AccountValidators.CpfMaskDigits | accounts/validators.py:12 | removing non-digits from the printed `XXX.XXX.XXX-XX` form gives back the eleven digits |
| AccountValidators.RepeatedDigitsRejected | accounts/validators.py:18-20 | any input whose digits are eleven copies of one digit is refused as invalid |
| AccountValidators.ValidCpfExample | accounts/tests.py:16-22 | `111.444.777-35` is accepted and returned unchanged |
| AccountValidators.RepeatedDigitExample | accounts/tests.py:24-27 | `111.111.111-11` is refused as invalid, although both of its check digits match |
| AccountValidators.RepeatedDigitDigits | accounts/validators.py:19-36 | `11111111111` passes both check-digit tests, so only the repeated-digit rule refuses it |
| AccountValidators.WrongSecondDigitExample | accounts/tests.py:29-32 | `123.456.789-00` is refused as invalid |
| AccountValidators.WrongSecondDigitDigits | accounts/validators.py:28-36 | the digits of `123.456.789-00` pass the first check digit and fail the second |
| AccountValidators.WrongLengthExample | accounts/tests.py:34-37 | `123.456.789` is refused for its length |
| AccountValidators.ValidateAllowedEmailDomains | accounts/validators.py:41-53 | accepted, and returned unchanged, exactly when the lower-cased address ends with `@gmail.com`, `@outlook.com` or `@hotmail.com` |
| AccountValidators.AllowedDomainsIgnoreCase | accounts/validators.py:46 | an address and its lower-cased form get the same verdict |
| AccountValidators.AllowedDomainHasAt | accounts/validators.py:45-48 | every accepted address contains an `@` |
| AccountValidators.AllowedDomainAccepted | accounts/tests.py:43-67 | any local part followed by one of the three domains is accepted |
| AccountValidators.NotEndingInMRejected | accounts/tests.py:57-60 | an address whose last character is not `m` or `M` (`user@outlook.com.br`) is refused |
| AccountValidators.OtherProviderRejected | accounts/tests.py:69-72 | any local part followed by `@yahoo.com` is refused |
| AccountValidators.ValidateUsernameFormat | accounts/validators.py:56-72 | the first failing check decides the error: length below 8, then a full match of `[a-zA-Z0-9]+$` as Python's `re.match` reads it, then at least one letter; success returns the input |
| AccountValidators.UsernameExamples | accounts/tests.py:90-110 | `username123` is accepted; `user123` is too short; `user@name123` has a bad character; `12345678` has no letter |
| AccountValidators.UsernameTrailingNewlineAccepted | accounts/validators.py:66 | `abcdefg1` followed by a newline is accepted by the code as written |
| AccountValidators.ValidateUsernameFormatCorrected | accounts/validators.py:56-72 | the intended rule: accepted exactly when the code as written accepts and the last character is not a newline; an accepted name is all ASCII letters and digits with at least one letter |
| AccountValidators.ValidateEmailCharacters | accounts/validators.py:75-87 | accepted, and returned unchanged, exactly when the text before the first `@` (all of it when there is none) matches `[a-zA-Z0-9._-]+$` as `re.match` reads it; an accepted address is non-empty and does not start with `@` |
| AccountValidators.EmailCharactersAccepted | accounts/tests.py:74-79 | a non-empty local part of letters, digits, `.`, `_` and `-`, followed by `@` and any domain, is accepted |
| AccountValidators.EmailCharactersRejected | accounts/tests.py:81-84 | a local part with any other character (`#`, say) before the `@` is refused |
| PasswordValidators.ValidatePassword | accounts/password_validators.py:16-39 | the first broken rule is reported, in the order length below 8, no letter, no digit, no symbol; the password passes exactly when it has all four |
| PasswordValidators.SymbolsAreOtherCharacters | accounts/password_validators.py:35 | no character of the symbol class is a letter, a digit or whitespace |
| PasswordValidators.AcceptedWithAllKinds | accounts/password_validators.py:16-39 | a password of length at least 8 holding a letter, a digit and a symbol anywhere passes |
| PasswordValidators.AcceptedExtendsRight | accounts/password_validators.py:16-39 | appending text to an accepted password keeps it accepted |
| PasswordValidators.AcceptedExtendsLeft | accounts/password_validators.py:16-39 | prepending text to an accepted password keeps it accepted |
| PasswordValidators.TooShortExample | accounts/password_validators.py:17-21 | `Abc1!` is too short |
| PasswordValidators.NoLetterExample | accounts/password_validators.py:23-27 | `12345678!` has no letter |
| PasswordValidators.NoNumberExample | accounts/password_validators.py:29-33 | `abcdefgh!` has no digit |
| PasswordValidators.NoSymbolExample | accounts/password_validators.py:35-39 | `abcdefg1` has no symbol |
| PasswordValidators.AcceptedExample | accounts/password_validators.py:16-39 | `abcdef1!` passes |
| FormValidation.PartialMask | static/js/form-validation.js:13-20 | the mask adds one separator per full group of three digits that has a digit after it: `.` at positions 3 and 7, `-` at 11 |
| FormValidation.FormattedCpf | static/js/form-validation.js:7-20 | the formatted value is never longer than `XXX.XXX.XXX-XX` |
| FormValidation.FormatCpf | static/js/form-validation.js:6-23 | the input's value becomes the formatted form of its old value, and nothing else changes |
| FormValidation.PartialMaskDigits | static/js/form-validation.js:13-20 | removing the separators from a masked value gives back the digits |
| FormValidation.FormattedCpfDigits | static/js/form-validation.js:7-11 | the formatted value carries exactly the first eleven digits typed |
| FormValidation.FormattedCpfIdempotent | static/js/form-validation.js:6-23 | formatting an already formatted value changes nothing |
| FormValidation.FormattedCpfComplete | static/js/form-validation.js:14-15 | with eleven digits typed, the formatted value is the printed CPF mask, and the server accepts it exactly when it accepts what was typed |
| FormValidation.JsRemainder | static/js/form-validation.js:37 | JavaScript `%` agrees with the mathematical remainder on non-negative operands and stays strictly between `-b` and `b` |
| FormValidation.CheckDigitJs | static/js/form-validation.js:32-38 | the summing loop and the remainder step compute the server's `calculate_digit` on the same prefix and weights |
| FormValidation.ValidateCpfJs | static/js/form-validation.js:26-51 | on ASCII input, the browser accepts a CPF exactly when the server's `validate_cpf` does |
| FormValidation.ValidateEmailDomainJs | static/js/form-validation.js:54-58 | the browser's domain check accepts exactly what the server's does |
| FormValidation.ValidateEmailCharactersJs | static/js/form-validation.js:61-65 | the browser accepts exactly the addresses with an `@` that the server accepts and whose local part does not end in a newline; so the server's extra acceptances are an address without `@`, or a local part ending in a newline |
| FormValidation.EmailCharactersWithoutAt | static/js/form-validation.js:62 | a valid local part with no `@` (`username`) is accepted by the server and refused by the browser |
| FormValidation.EmailCharactersTrailingNewline | static/js/form-validation.js:62 | a valid local part followed by a newline, `@` and any domain (`a\n@x`) is accepted by the server and refused by the browser |
| FormValidation.ValidateUsernameJs | static/js/form-validation.js:68-73 | the browser accepts exactly the usernames of the corrected rule, all of which the server accepts |
| FormValidation.ValidatePasswordJs | static/js/form-validation.js:76-81 | the browser refuses exactly when `CustomPasswordValidator.validate` reports one of its first three errors; that validator accepts exactly when the browser does and there is a symbol |
| FormValidation.PasswordClientLaxer | static/js/form-validation.js:76-81 | `abcdefg1` passes in the browser and is refused by `CustomPasswordValidator.validate` for lack of a symbol |
| SiteScripts.ValidateEmailIff | static/js/main.js:131-134 | the pattern matches exactly when the address has no whitespace and a single `@` that is not first, and, after the `@`, a `.` that is neither the first character of the domain nor the last of the address |
| SiteScripts.MatchIsWellFormed | static/js/main.js:132 | a match at any split yields that shape |
| SiteScripts.WellFormedMatches | static/js/main.js:132 | that shape is matched |
| SiteScripts.ValidateEmailAccepts | static/js/main.js:132 | three non-empty runs without whitespace or `@`, joined as `local@host.tld`, match |
| SiteScripts.ValidateEmailRejectsSpace | static/js/main.js:132 | no address containing whitespace matches |
| SiteScripts.ValidateEmailRejectsTwoAts | static/js/main.js:132 | no address with two `@` matches |
| SiteScripts.WordCount | static/js/main.js:62 | `trim().split(/\s+/).length` is at least 1 |
| SiteScripts.WordCountCountsWords | static/js/main.js:62 | for text with some non-whitespace, the count is the number of maximal non-whitespace runs |
| SiteScripts.WordsAndRuns | static/js/main.js:62 | words and whitespace runs alternate, so their counts differ only by how the text starts and ends |
| SiteScripts.TrimmedWords | static/js/main.js:62 | trimming removes no word |
| SiteScripts.BlankTextIsOneWord | static/js/main.js:62 | empty or all-whitespace text still counts as one word |
| SiteScripts.ReadingTimeMinutes | static/js/main.js:63 | `Math.ceil(n / 200)`: the least number of minutes whose 200-word budget covers `n` words |
| SiteScripts.EstimateReadingTime | static/js/main.js:61-63 | the estimate is at least one minute and the least whose budget covers the word count |
| SiteScripts.ReadingTimeMonotone | static/js/main.js:63 | more words never make a shorter estimate |
| SiteScripts.ReadingTimeExamples | static/js/main.js:63 | 1 and 200 words take 1 minute; 201 and 400 take 2; 401 take 3 |
| Text.Digits | accounts/validators.py:12 | the result is all digits; a character is in it exactly when it is a digit of the input; all-digit input is unchanged |
| Text.DigitsCons | accounts/validators.py:12 | the empty string has no digits, and a leading digit is kept in front of the digits of the rest while any other character is dropped; this fixes which digits are kept and in what order |
| Text.BeforeFirstAt | accounts/validators.py:80 | the result has no `@`, is a prefix of the input, and is followed by an `@` when shorter than it |
| Text.TrimEmptyIff | content/models.py:446 | stripping leaves nothing exactly when the text is all whitespace; otherwise what remains starts and ends with non-whitespace |
| Seqs.FilterSplit | content/models.py:468-486 | filtering by a test and by its negation splits a list's multiset in two |

## Left out

- Database access is not modelled. The querysets (`descendant_of`, `filter(section=…)`, `.live()`, `.exclude`, `.order_by`, `.first()`) become filters over an explicit article table `store`. The tree path and section of each row are fields.
- Selection.LatestFeatured: among featured articles with the same newest date, the database's choice is unspecified. The contract says only that the hero is a featured article with no newer featured one. The model takes the first in table order.
- Selection.SortByDateDesc: among articles with equal dates, the source's order comes from Python's stable sort or the database. The contract states only the permutation and the date order.
- Reading the clock (`timezone.now()`) is a parameter `now`. The source reads the clock once per article in the trending loop; the model reads it once per page.
- `freeze_time` in the tests becomes an explicit clock value.
- The rest of each page's `get_context` is out of scope: video shorts, site customization, `section_name`, `layout_config`, `home_page`. They are lookups with no logic.
- `HomePage.clean`'s call to the parent `clean` is left out: that is framework validation.
- Full-content access for premium articles is decided in templates, outside the code modelled here.
- AccountValidators.ValidateCpf: Python's `\d` at accounts/validators.py:12 keeps every Unicode decimal digit, and `int()` at line 24 converts them. So the server accepts a valid CPF written in, say, Arabic-Indic digits, which the browser's ASCII `\D` strips to nothing. The model reads `\d` as `[0-9]`. It does not capture that server acceptance, and `FormValidation.ValidateCpfJs` states agreement only for ASCII digits.
- Articles.ArticlePage.Save: Wagtail's own `Page.save` bookkeeping is not modelled (`full_clean`, URL paths, revisions). Neither are `update_fields` names that are not columns, which Django refuses: the column set is typed.
- Whether the site's settings install `CustomPasswordValidator` is not part of this model. A sign-up test expects a password without a symbol to be accepted, so the comparisons are with the validator's `validate`, not with the sign-up form.
- Unicode classes are out of scope:
  - Python's `\d` in the password check also matches non-ASCII decimal digits;
  - `lower()`/`toLowerCase()` fold non-ASCII letters.
  The model treats both ASCII-only.
- `String.prototype.length` counts UTF-16 code units. The model counts characters, which differ only outside the Basic Multilingual Plane.
- `Math.ceil(wordCount / 200)` is floating point in JavaScript. It is modelled as exact integer ceiling division, which agrees for every count below 2^53.
- The DOM wiring is left out: event listeners, validation messages, inserting the reading-time element, `header_padding.js`.
- Forms, views, signals, admin, template tags and management commands are not part of this model.

## Findings

| source | as written | input that shows it | evidently intended | confidence | as-written member | corrected member |
|---|---|---|---|---|---|---|
| accounts/validators.py:66 | `re.match(r'^[a-zA-Z0-9]+$', username)`: Python's `$` also matches before a final newline | `abcdefg1` followed by `\n` is accepted as a username | only letters and digits (the docstring says "apenas letras e números"), as the browser's `/^[a-zA-Z0-9]+$/` enforces | not executed | AccountValidators.UsernameTrailingNewlineAccepted | AccountValidators.ValidateUsernameFormatCorrected |
