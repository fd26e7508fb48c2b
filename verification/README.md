# forsale-web record evaluator in Dafny

This project models the core of forsale-web's `main.go`, a small web service that answers one question: is a domain for sale? The service reads the `_for-sale` TXT records that a domain's owner can publish. The evaluator does the following:

- checks that the input looks like a domain name;
- converts it to its Unicode and ASCII (punycode) forms;
- skips domains under `.arpa`;
- looks up the TXT records at `_for-sale.<punycode>`;
- keeps every record as raw output, and interprets only the records that carry the version tag `v=FORSALE1;`.

A tagged record holds one content tag:

- `ftxt=` (free text);
- `furi=` (a URI, validated against an allow-list of schemes);
- `fval=` (a price such as `EUR1500.00`, checked against `^([A-Z]+)(\d+(?:\.\d+)?)$` and formatted with a currency symbol);
- `fcod=` (a broker code).

Any tagged record marks the domain for sale. A record with an empty or unknown content adds a reason instead of a value. After the loop, the four value lists are sorted. If nothing was found, a "no valid indicator" reason is added.

The model has the following files:

- `wrappers.dfy` holds `Option`.
- `text.dfy` models the parts of Go's `strings` package the evaluator calls: `TrimSpace` with Go's `unicode.IsSpace` set, `TrimLeft`, `ReplaceAll`, `HasSuffix`, `TrimSuffix` and ASCII `ToLower`. It also holds the order Go's `<` puts on strings, with its laws.
- `sorting.dfy` holds one stable insertion sort on a string key. It stands for both `sort.Strings` and `sort.SliceStable`. The file proves that the sort orders its input, permutes it, keeps equal keys in arrival order, and that sorted strings are determined by their multiset.
- `records.dfy` holds the per-record helpers: `hasVersionPrefix`, `sanitizeText`, the `fval` pattern, `formatPrice` and `validateURI`.
- `domain.dfy` holds `isLikelyDomain`, the IDN fallback and the `.arpa` rule.
- `evaluator.dfy` holds `parseForsaleRR` and `checkDomain` in two forms:
  - pure functions on a `SaleInfo` datatype (`ParseRecord`, `Step`, `Fold`, `Finalize`, `Evaluate`, `Check`), which serve as the specification and carry the lemmas;
  - the source's in-place form: a class `MutableSaleInfo` whose methods append to its lists and set `forSale` as the Go code does, plus the method `CheckDomain` with the record loop. Each method is proved to produce exactly the value its specification function gives.

The DNS lookup, the IDN library and `url.Parse` are collaborators the model cannot see. They are parameters:

- `TxtResolver`: the answer's strings in DNS order, or `None` on a lookup error.
- `IdnCodec`: the converted name, or `None` on a library error.
- `UrlParser`: `ParseFailed`, or the scheme that was read.

The Dutch diagnostic texts are the constructors of `Diagnostic`; `Message` gives each one's text as the source writes it.

## Model

| member | source | states |
|---|---|---|
| Text.IsSpace | main.go:68 | Go's `unicode.IsSpace` set, which every `strings.TrimSpace` uses (main.go:68, 90, 137, 149, 167, 175, 205): the Latin-1 spaces and the other Unicode White_Space characters |
| Text.Span | main.go:143 | the count of leading characters satisfying the predicate: all of them satisfy it and the next one does not |
| Text.SpanUnique | main.go:143 | that count is the only length with this property |
| Text.TrimSpace | main.go:68 | `strings.TrimSpace`: the result is no longer than the input, and it neither starts nor ends with white space |
| Text.TrimSpaceInfix | main.go:68 | the trimmed string is one contiguous stretch `s[i..j]` of the input, and everything before `i` and after `j` is white space |
| Text.TrimSpaceBlank | main.go:68-70 | trimming leaves the empty string exactly when the input is all white space |
| Text.TrimSpaceKeepsText | main.go:149 | trimming adds no character and keeps every non-space character |
| Text.TrimSpaceOfTrimmed | main.go:149 | trimming a string with no outer white space returns it unchanged |
| Text.TrimSpaceOfPadded | main.go:137 | trimming text followed by ASCII spaces gives back the text |
| Text.TrimLeftSpaces | main.go:143 | `strings.TrimLeft(s, " ")`: the result is a suffix of the input, only spaces were dropped, and it does not start with a space |
| Text.TrimLeftSpacesOfPadded | main.go:143 | dropping the leading spaces of spaces-then-text gives back the text |
| Text.ReplaceChar | main.go:87-89 | `strings.ReplaceAll` with one-character arguments: same length, and exactly the matching positions are replaced |
| Text.HasSuffix | main.go:230 | `strings.HasSuffix`: the text is at least as long as the suffix and ends with it |
| Text.HasSuffixOfAppend | main.go:230 | any text ends with what was appended to it last |
| Text.TrimSuffix | main.go:229 | `strings.TrimSuffix`: with the suffix present, the result plus the suffix is the input; otherwise the input is unchanged |
| Text.LowerChar | main.go:228 | ASCII upper-case letters move to lower case, and every other character is kept |
| Text.AsciiLower | main.go:228 | `strings.ToLower` on ASCII: same length, lowered character by character |
| Text.AsciiLowerIdempotent | main.go:228 | lower-casing twice is the same as lower-casing once |
| Text.LessIrreflexive | main.go:259-260 | no string is below itself under Go's `<` |
| Text.LessAsymmetric | main.go:259-260 | two strings are never each below the other |
| Text.LessTransitive | main.go:259-260 | `<` on strings is transitive |
| Text.LessTotal | main.go:259-260 | any two different strings are ordered one way or the other |
| Text.NotLessTransitive | main.go:259-260 | "not below" is transitive, so it is a total preorder to sort by |
| Sorting.InsertBy | main.go:257-260 | inserting one element lengthens the list by one |
| Sorting.SortBy | main.go:257-260 | the sort keeps the length |
| Sorting.SortStrings | main.go:257-258 | `sort.Strings` keeps the length; the order and permutation facts are `SortBySorted`, `SortByPermutes` and `SortStringsCanonical` |
| Sorting.InsertByPermutes | main.go:257-260 | insertion adds exactly the inserted element to the multiset |
| Sorting.SortByPermutes | main.go:257-260 | the sort is a permutation of its input |
| Sorting.InsertBySorted | main.go:257-260 | inserting into a sorted list keeps it sorted |
| Sorting.SortBySorted | main.go:257-260 | the sort's output is ordered by the key under Go's `<` |
| Sorting.SortedHeadLeast | main.go:257-258 | the head of a sorted list of strings is not above any of its elements |
| Sorting.SortedTail | main.go:257-260 | the tail of a sorted list is sorted |
| Sorting.SortedStringsUnique | main.go:257-258 | two sorted lists of strings with the same multiset are equal |
| Sorting.SortStringsCanonical | main.go:257-258 | `sort.Strings` returns the sorted arrangement of its input, whatever the input's order |
| Sorting.WithKeyAppend | main.go:259-260 | selecting the elements with one key distributes over concatenation |
| Sorting.WithKeyAbove | main.go:259-260 | a sorted list whose head is above a key holds no element with that key |
| Sorting.WithKeyInsert | main.go:259-260 | insertion places the new element after every earlier element with the same key |
| Sorting.SortByStable | main.go:259-260 | `sort.SliceStable`: elements with equal keys keep their input order |
| Records.NoteText | main.go:116-127 | a URI note's text is empty exactly for a valid URI |
| Records.HasVersionPrefix | main.go:135-145 | tagged exactly when the trimmed record starts with `v=FORSALE1;`; on failure the rest is empty; on success the rest is the end of the trimmed record, only spaces lie between it and the tag, and it does not start with a space |
| Records.VersionPrefixRoundTrip | main.go:135-145 | tag, then any spaces, then content without outer white space: recognised, and the content comes back unchanged |
| Records.TrimSpaceOfTagged | main.go:137 | trimming a tagged record keeps the tag and the spaces after it, and drops them when there is no content |
| Records.TrimSpaceOfTaggedText | main.go:137 | with non-empty content, trimming a tagged record returns it unchanged |
| Records.ReplaceControls | main.go:87-89 | tab, LF and CR become spaces; every other character stays in place |
| Records.SanitizeText | main.go:86-91 | `sanitizeText`: the result holds no tab, LF or CR, and has no leading or trailing white space |
| Records.SanitizeTextInfix | main.go:86-91 | the sanitised text is one contiguous stretch of the input with tab, LF and CR turned into spaces, and everything before and after that stretch is white space |
| Records.SanitizeTextBlank | main.go:86-91 | sanitising gives the empty string exactly when the input is all white space |
| Records.SanitizeTextIdempotent | main.go:86-91 | sanitising twice is the same as sanitising once |
| Records.IsAmount | main.go:93 | the amount scanner accepts only strings that start and end with a digit |
| Records.IsAmountSound | main.go:93 | the scanner accepts only strings of the language `\d+(?:\.\d+)?` |
| Records.IsAmountComplete | main.go:93 | the scanner accepts every string of that language |
| Records.IsAmountCorrect | main.go:93 | the scanner accepts exactly that language |
| Records.SplitFval | main.go:93 | on a match, the currency and amount groups concatenate to the value; the currency is non-empty upper case and the amount is in the amount language |
| Records.SplitFvalComplete | main.go:93 | every upper-case currency followed by an amount is split into exactly those two groups |
| Records.SplitFvalMatchesPattern | main.go:93 | the split succeeds exactly when the value matches `^([A-Z]+)(\d+(?:\.\d+)?)$` |
| Records.FormatPrice | main.go:95-105 | keeps currency and amount; the display form is the table symbol, a space and the amount, or the code, a space and the amount when the code is not in the table |
| Records.ValidateUri | main.go:107-132 | keeps the URI; valid exactly when it parses and its lower-cased scheme is http, https, mailto or tel, and then the scheme is that lower-cased scheme; when invalid the scheme is empty and the note is not; a parse failure, a missing scheme and a disallowed scheme each get their own note |
| Domain.IsLikelyDomain | main.go:67-77 | true exactly when the trimmed input contains a `.` and no space, `/` or `\`; so false for all-white-space input |
| Domain.Canonical | main.go:79-84 | the codec's answer on the trimmed name, or the name itself when the codec fails |
| Domain.IsArpa | main.go:228-230 | `.arpa` exactly when the lower-cased ASCII form ends in `.arpa` or in `.arpa.` |
| Domain.ArpaSuffixes | main.go:229-230 | stripping one trailing dot and then testing the suffix is the same as testing for the suffix with or without a trailing dot |
| Domain.IsArpaIgnoresCase | main.go:228 | the rule ignores ASCII case |
| Domain.ForSaleName | main.go:236 | the lookup name is `_for-sale.` followed directly by the ASCII form: it has that prefix, that suffix, and exactly their combined length |
| Evaluator.Message | main.go:152-264 | the text of each diagnostic, as the source writes it |
| Evaluator.MessageQuotesValue | main.go:172-196 | the messages for a possibly invalid URI, an invalid `fval` and an unknown tag end with the rejected value (and the URI's note) |
| Evaluator.Start | main.go:204-208 | the result `checkDomain` starts from: the given input, empty names, not for sale, no reasons, values, raw records or warnings |
| Evaluator.ParseRecord | main.go:148-199 | after any record content the domain is for sale; the record adds exactly one reason or value; no list shrinks; the domain fields and raw records are untouched; warnings change only for `furi=` |
| Evaluator.WithFtxt | main.go:157-165 | an `ftxt=` value adds one free text or one reason, and touches no other list |
| Evaluator.WithFuri | main.go:166-173 | an `furi=` value adds one URI and possibly a warning, and touches no other list |
| Evaluator.WithFval | main.go:174-184 | an `fval=` value adds one price or one reason, and touches no other list |
| Evaluator.WithFcod | main.go:185-193 | an `fcod=` value adds one broker code or one reason, and touches no other list |
| Evaluator.TagsExclusive | main.go:156-198 | at most one content tag can match, so the order of the switch cases does not matter |
| Evaluator.ParseRecordByTag | main.go:148-199 | the decision table, one row per case. Empty content adds the empty-record reason. A non-empty `ftxt=`/`fcod=` value adds its sanitised text, an empty one adds its reason. `furi=` always adds the validated URI, with a warning exactly when it is invalid. A matching `fval=` adds one price whose currency and amount are the two groups of the pattern (a non-empty upper-case currency and an amount in `\d+(?:\.\d+)?`, concatenating to the value), formatted by `formatPrice`; a non-matching one adds a reason and leaves the prices alone. An unknown tag adds a reason |
| Evaluator.Step | main.go:246-254 | one loop pass: the record joins the raw records; an untagged record changes nothing else; a tagged one marks the domain for sale and adds one entry |
| Evaluator.TaggedCount | main.go:246-254 | only a bound: at most one tagged record per record; what the count counts is proved in `Evaluator.TaggedCountZero` and `Evaluator.FoldEntries` |
| Evaluator.TaggedCountZero | main.go:246-254 | the count is zero exactly when no record is tagged |
| Evaluator.Fold | main.go:246-254 | the loop's raw records are the answer in DNS order, and the domain fields are untouched |
| Evaluator.FoldForSale | main.go:246-254 | after the loop the domain is for sale exactly when it was before or some record is tagged |
| Evaluator.FoldEntries | main.go:246-254 | the loop adds one reason or value per tagged record |
| Evaluator.FoldUntagged | main.go:249-251 | with no tagged record the loop only collects the raw records |
| Evaluator.SortValues | main.go:256-260 | the four sorts keep each list's length and change no other field |
| Evaluator.SortValuesSorts | main.go:256-260 | each list ends up sorted by its key (the text for `ftxt`/`fcod`, `URI` for `furi`, `FormattedNice` for `fval`) and is a permutation of itself before; nothing else changes |
| Evaluator.SortValuesKeepsEntries | main.go:256-260 | sorting keeps the number of reasons and values |
| Evaluator.SortedOutputsCanonical | main.go:257-258 | the sorted free texts and broker codes depend only on which values were collected, not on record order |
| Evaluator.SortValuesStable | main.go:259-260 | URIs and prices with equal keys keep their DNS order |
| Evaluator.Finalize | main.go:256-265 | the "no indicator" reason is appended exactly when all four lists are empty and the domain is not for sale; otherwise reasons are unchanged; the lists are the sorted ones |
| Evaluator.Evaluate | main.go:246-265 | the record-set evaluator (loop, sorts, final reason): the raw records are the earlier ones plus the answer in DNS order, and the names are untouched |
| Evaluator.Check | main.go:203-268 | the result's domain input is the trimmed input |
| Evaluator.Resolution | main.go:228-265 | the path after the syntax test (`.arpa`, lookup, evaluation) never changes the domain names |
| Evaluator.CheckEarlyExits | main.go:210-243 | a bad syntax yields only the syntax warning, with empty names; the names are the codec answers or the fallback; `.arpa` yields only its reason, not for sale and with no raw records; a failed lookup yields only its reason |
| Evaluator.CheckAnswer | main.go:236-265 | after a successful lookup the raw records are the answer, and the domain is for sale exactly when some record carries the version tag |
| Evaluator.CheckAnswerLists | main.go:246-265 | after a successful lookup every output list is sorted by its key, and an answer with no tagged record leaves only the "no indicator" reason, not for sale, with no values and no warnings |
| Evaluator.EvaluateAnswer | main.go:246-265 | from a fresh result, the raw records are the answer in DNS order, the names are kept, and for sale exactly when some record is tagged |
| Evaluator.EvaluateWithoutTag | main.go:249-251 | without a tagged record the result holds only the "no indicator" reason, with no values and no warnings |
| Evaluator.EvaluateWithTag | main.go:253-265 | with a tagged record the domain is for sale and the result holds exactly one reason or value per tagged record, so no "no indicator" reason |
| Evaluator.EvaluateSorted | main.go:256-260 | every output list is sorted by its key |
| Evaluator.MutableSaleInfo.constructor | main.go:204-208 | a fresh result: the trimmed input, nothing else |
| Evaluator.MutableSaleInfo.ParseForsaleRR | main.go:148-199 | the in-place `parseForsaleRR` leaves exactly the state `ParseRecord` gives |
| Evaluator.MutableSaleInfo.AddFtxt | main.go:157-165 | the in-place `ftxt=` branch equals `WithFtxt` |
| Evaluator.MutableSaleInfo.AddFuri | main.go:166-173 | the in-place `furi=` branch equals `WithFuri` |
| Evaluator.MutableSaleInfo.AddFval | main.go:174-184 | the in-place `fval=` branch equals `WithFval` |
| Evaluator.MutableSaleInfo.AddFcod | main.go:185-193 | the in-place `fcod=` branch equals `WithFcod` |
| Evaluator.MutableSaleInfo.AcceptRecord | main.go:247-253 | one in-place loop pass equals `Step` |
| Evaluator.MutableSaleInfo.SortLists | main.go:256-260 | the four in-place sorts equal `SortValues` |
| Evaluator.MutableSaleInfo.Finish | main.go:256-265 | the sorts and the final reason equal `Finalize` |
| Evaluator.MutableSaleInfo.Resolve | main.go:228-265 | the in-place `.arpa` test, lookup and evaluation leave exactly the state `Resolution` gives |
| Evaluator.MutableSaleInfo.EvaluateRecords | main.go:246-265 | the in-place loop, sorts and final reason equal `Evaluate`; the loop invariant is the fold over the records seen so far |
| Evaluator.CheckDomain | main.go:203-268 | `checkDomain` built in place returns exactly `Check` |

## Left out

- The DNS lookup `net.LookupTXT` (main.go:239) is network I/O. The model takes its answer as a parameter of type `TxtResolver`. Any error is `None`.
- The IDN conversions `idna.Lookup.ToASCII` and `ToUnicode` (main.go:79-84) are a foreign library. They are parameters of type `IdnCodec`, so the model proves nothing about their output. The fallback to the trimmed input is modelled.
- `url.Parse` (main.go:115) is a foreign library. Its outcome is a parameter of type `UrlParser`: a failure, or the scheme it read.
- The regular-expression engine is not modelled. A scanner replaces it and is proved to accept exactly the pattern's language (`Records.SplitFvalMatchesPattern`).
- The HTTP handlers, templates, the JSON encoding of the answer and `main` (main.go:272-368) are I/O and presentation.
- Nil versus empty lists are not modelled. `encoding/json` writes a nil slice as `null` and an empty one as `[]`. The code starts `Reasons` and `Warnings` as empty slices (main.go:206-207), while `FTxt`, `FUri`, `FVal`, `FCod` and `RawRR` stay nil until something is appended. The model has only sequences, so an empty list here stands for both.
- The `AmountFloat` field of `Price` (main.go:44) is never set by the code, so `Price` has no such field.
- The browser script `static/app.js` is not part of this model: it is UI only.
- Strings are sequences of Unicode code points. Invalid UTF-8, which Go's string functions handle byte by byte, is not modelled. Go's `<` compares UTF-8 bytes; on valid UTF-8 that is the code point order used here.
- Text.AsciiLower: lowers ASCII letters only, where `strings.ToLower` lowers all of Unicode. It has two uses, and in both the result is the one `strings.ToLower` gives:
  - The URI scheme in `validateURI` (main.go:125, main.go:130). `url.Parse` only returns schemes made of ASCII letters, digits, `+`, `-` and `.`, so lowering ASCII is all of `ToLower` there.
  - The `.arpa` test on the punycode form (main.go:228-230). After a codec failure that form is the trimmed input and may hold non-ASCII characters (main.go:221-224). No non-ASCII character lowers to `.`, `a`, `r` or `p`, so the suffix test gives the same answer either way.
- `sort.Strings` is not a stable sort in Go. The model uses one stable sort for it. For plain strings the two give the same output, because elements that compare equal are identical (`Sorting.SortStringsCanonical`).
- The diagnostics are values of the `Diagnostic` datatype, and `Evaluator.Message` renders each one to the source's Dutch text. Likewise a URI's note is a value of the `UriNote` datatype, where the source stores the string (main.go:38); `Records.NoteText` renders it to the source's text (main.go:116-127). Results keep the datatypes, so string equality between different messages or notes is not a concern of the model.
- Evaluator.Check: its own contract states only the trimmed domain input. The outcomes of each path are proved in `Evaluator.CheckEarlyExits`, `Evaluator.CheckAnswer` and `Evaluator.CheckAnswerLists`.
- Evaluator.Resolution: its own contract states only that the domain names are kept. The outcomes of its three paths are proved through `Check`, in the three lemmas named above.
- Three details the model takes as the code has them. The invalid-syntax message goes into the warnings, not the reasons (main.go:211). The version tag is tested on the whole trimmed record (main.go:137). A successful lookup that returns no records gets the "no indicator" reason, not the lookup-failure reason (main.go:240-265).
