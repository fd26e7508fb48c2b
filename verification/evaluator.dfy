/** The record evaluator: `parseForsaleRR` and `checkDomain` (main.go:148-265).
    The pure functions here are the specification; the class and the method
    `CheckDomain` follow the source's in-place updates and are proved equal to it. */
module Evaluator {
  import opened Wrappers
  import opened Text
  import opened Sorting
  import opened Records
  import opened Domain

  /** The evaluation result, field for field as the source's `SaleInfo`. */
  datatype SaleInfo = SaleInfo(
    domainInput: string,
    unicode: string,
    punycode: string,
    forSale: bool,
    reasons: seq<Diagnostic>,
    ftxt: seq<string>,
    furi: seq<ValidatedUri>,
    fval: seq<Price>,
    fcod: seq<string>,
    rawRR: seq<string>,
    warnings: seq<Diagnostic>)

  /** The DNS TXT lookup: the strings of the answer in DNS order, or None on a lookup error. */
  type TxtResolver = string -> Option<seq<string>>

  // ---------- Diagnostics ----------

  /** The dismiss reasons and warnings the evaluator records. */
  datatype Diagnostic =
    | EmptyRecord
    | EmptyFtxt
    | PossiblyInvalidFuri(uri: string, note: UriNote)
    | InvalidFval(value: string)
    | EmptyFcod
    | UnknownTag(content: string)
    | InvalidSyntax
    | UnderArpa
    | LookupFailed
    | NoIndicator

  /** The text of a diagnostic, as the source writes it. */
  function Message(d: Diagnostic): string {
    match d
    case EmptyRecord => "Leeg 'te koop' record (alleen versie-tag) aangetroffen."
    case EmptyFtxt => "Lege ftxt=-waarde"
    case PossiblyInvalidFuri(uri, note) => "Aangetroffen furi is mogelijk ongeldig: " + uri + " " + NoteText(note)
    case InvalidFval(value) => "Ongeldige fval-structuur; verwacht CUR123[.45]: " + value
    case EmptyFcod => "Lege fcod=-waarde"
    case UnknownTag(content) => "Onbekende of ongeldige content-tag: " + content
    case InvalidSyntax => "Ongeldige domeinnaam-syntax."
    case UnderArpa => "Domein valt onder .arpa infrastructuur en wordt genegeerd."
    case LookupFailed => "Geen TXT-records gevonden of lookup-fout."
    case NoIndicator => "Geen geldig _for-sale-indicator aangetroffen (geen versie-tag)."
  }

  /** A message about a rejected value ends with that value, so the user sees what was rejected. */
  lemma MessageQuotesValue(value: string, content: string, uri: string, note: UriNote)
    ensures HasSuffix(Message(InvalidFval(value)), value)
    ensures HasSuffix(Message(UnknownTag(content)), content)
    ensures HasSuffix(Message(PossiblyInvalidFuri(uri, note)), uri + " " + NoteText(note))
  {
    HasSuffixOfAppend("Ongeldige fval-structuur; verwacht CUR123[.45]: ", value);
    HasSuffixOfAppend("Onbekende of ongeldige content-tag: ", content);
    var prefix, tail := "Aangetroffen furi is mogelijk ongeldig: ", uri + " " + NoteText(note);
    assert Message(PossiblyInvalidFuri(uri, note)) == prefix + tail;
    HasSuffixOfAppend(prefix, tail);
  }

  const FtxtTag := "ftxt="
  const FuriTag := "furi="
  const FvalTag := "fval="
  const FcodTag := "fcod="

  // ---------- Views of a result ----------

  /** The result `checkDomain` starts from. */
  function Start(domainInput: string): (r: SaleInfo)
    ensures r.domainInput == domainInput && r.unicode == "" && r.punycode == ""
    ensures !r.forSale && Entries(r) == 0 && r.rawRR == [] && r.warnings == []
  {
    SaleInfo(domainInput, "", "", false, [], [], [], [], [], [], [])
  }

  predicate NoValues(s: SaleInfo) {
    s.ftxt == [] && s.furi == [] && s.fval == [] && s.fcod == []
  }

  /** Dismiss reasons plus collected values: every tagged record adds exactly one. */
  function Entries(s: SaleInfo): nat {
    |s.reasons| + |s.ftxt| + |s.furi| + |s.fval| + |s.fcod|
  }

  /** The fields parsing a record never touches. */
  predicate SameDomain(s: SaleInfo, r: SaleInfo) {
    r.domainInput == s.domainInput && r.unicode == s.unicode && r.punycode == s.punycode
  }

  // ---------- One record ----------

  /** `parseForsaleRR` on values: the effect of one record's content (the
      text after the version tag) on the accumulated result. */
  function ParseRecord(content: string, s: SaleInfo, parse: UrlParser): (r: SaleInfo)
    ensures r.forSale
    ensures SameDomain(s, r) && r.rawRR == s.rawRR
    ensures Entries(r) == Entries(s) + 1
    ensures s.reasons <= r.reasons && s.ftxt <= r.ftxt && s.furi <= r.furi
    ensures s.fval <= r.fval && s.fcod <= r.fcod && s.warnings <= r.warnings
    ensures !(FuriTag <= TrimSpace(content)) ==> r.warnings == s.warnings
  {
    var c := TrimSpace(content);
    var t := s.(forSale := true);
    TagsExclusive(c);
    if c == [] then t.(reasons := t.reasons + [EmptyRecord])
    else if FtxtTag <= c then WithFtxt(t, c[|FtxtTag|..])
    else if FuriTag <= c then WithFuri(t, c[|FuriTag|..], parse)
    else if FvalTag <= c then WithFval(t, c[|FvalTag|..])
    else if FcodTag <= c then WithFcod(t, c[|FcodTag|..])
    else t.(reasons := t.reasons + [UnknownTag(c)])
  }

  /** An `ftxt=` value: kept once sanitised, or an empty-value reason. */
  function WithFtxt(s: SaleInfo, raw: string): (r: SaleInfo)
    ensures r.forSale == s.forSale && SameDomain(s, r) && r.rawRR == s.rawRR
    ensures Entries(r) == Entries(s) + 1
    ensures s.reasons <= r.reasons && s.ftxt <= r.ftxt && s.furi == r.furi
    ensures s.fval == r.fval && s.fcod == r.fcod && s.warnings == r.warnings
  {
    var v := SanitizeText(raw);
    if v != [] then s.(ftxt := s.ftxt + [v]) else s.(reasons := s.reasons + [EmptyFtxt])
  }

  /** An `furi=` value: always kept, with a warning when it does not validate. */
  function WithFuri(s: SaleInfo, raw: string, parse: UrlParser): (r: SaleInfo)
    ensures r.forSale == s.forSale && SameDomain(s, r) && r.rawRR == s.rawRR
    ensures Entries(r) == Entries(s) + 1
    ensures s.reasons == r.reasons && s.ftxt == r.ftxt && s.furi <= r.furi
    ensures s.fval == r.fval && s.fcod == r.fcod && s.warnings <= r.warnings
  {
    var u := ValidateUri(TrimSpace(raw), parse);
    var t := s.(furi := s.furi + [u]);
    if !u.valid then t.(warnings := t.warnings + [PossiblyInvalidFuri(u.uri, u.note)]) else t
  }

  /** An `fval=` value: a formatted price, or an invalid-structure reason. */
  function WithFval(s: SaleInfo, raw: string): (r: SaleInfo)
    ensures r.forSale == s.forSale && SameDomain(s, r) && r.rawRR == s.rawRR
    ensures Entries(r) == Entries(s) + 1
    ensures s.reasons <= r.reasons && s.ftxt == r.ftxt && s.furi == r.furi
    ensures s.fval <= r.fval && s.fcod == r.fcod && s.warnings == r.warnings
  {
    var v := TrimSpace(raw);
    match SplitFval(v)
    case Some((cur, amt)) => s.(fval := s.fval + [FormatPrice(cur, amt)])
    case None => s.(reasons := s.reasons + [InvalidFval(v)])
  }

  /** An `fcod=` value: kept once sanitised, or an empty-value reason. */
  function WithFcod(s: SaleInfo, raw: string): (r: SaleInfo)
    ensures r.forSale == s.forSale && SameDomain(s, r) && r.rawRR == s.rawRR
    ensures Entries(r) == Entries(s) + 1
    ensures s.reasons <= r.reasons && s.ftxt == r.ftxt && s.furi == r.furi
    ensures s.fval == r.fval && s.fcod <= r.fcod && s.warnings == r.warnings
  {
    var v := SanitizeText(raw);
    if v != [] then s.(fcod := s.fcod + [v]) else s.(reasons := s.reasons + [EmptyFcod])
  }

  /** The content tags are mutually exclusive. */
  lemma TagsExclusive(c: string)
    ensures FtxtTag <= c ==> !(FuriTag <= c) && !(FvalTag <= c) && !(FcodTag <= c)
    ensures FuriTag <= c ==> !(FvalTag <= c) && !(FcodTag <= c)
    ensures FvalTag <= c ==> !(FcodTag <= c)
  {
    assert FtxtTag <= c ==> c[1] == 't';
    assert FuriTag <= c ==> c[1] == 'u';
    assert FvalTag <= c ==> c[1] == 'v';
    assert FcodTag <= c ==> c[1] == 'c';
  }

  /** The decision table of `parseForsaleRR`, one row per content form: which
      list or diagnostic the record adds to. */
  lemma ParseRecordByTag(content: string, s: SaleInfo, parse: UrlParser)
    ensures var r := ParseRecord(content, s, parse); var c := TrimSpace(content);
      c == [] ==> r.reasons == s.reasons + [EmptyRecord]
    ensures var r := ParseRecord(content, s, parse); var c := TrimSpace(content);
      FtxtTag <= c ==> var v := SanitizeText(c[|FtxtTag|..]);
        && (v != [] ==> r.ftxt == s.ftxt + [v] && r.reasons == s.reasons)
        && (v == [] ==> r.ftxt == s.ftxt && r.reasons == s.reasons + [EmptyFtxt])
    ensures var r := ParseRecord(content, s, parse); var c := TrimSpace(content);
      FuriTag <= c ==> var u := ValidateUri(TrimSpace(c[|FuriTag|..]), parse);
        && r.furi == s.furi + [u]
        && (u.valid ==> r.warnings == s.warnings)
        && (!u.valid ==> r.warnings == s.warnings + [PossiblyInvalidFuri(u.uri, u.note)])
    ensures var r := ParseRecord(content, s, parse); var c := TrimSpace(content);
      FvalTag <= c ==> var v := TrimSpace(c[|FvalTag|..]);
        && (FvalPattern(v) ==>
              && |r.fval| == |s.fval| + 1 && r.reasons == s.reasons
              && r.fval[|s.fval|].currency + r.fval[|s.fval|].amountString == v
              && r.fval[|s.fval|].currency != [] && AllUpper(r.fval[|s.fval|].currency)
              && AmountForm(r.fval[|s.fval|].amountString)
              && r.fval[|s.fval|] == FormatPrice(r.fval[|s.fval|].currency, r.fval[|s.fval|].amountString))
        && (!FvalPattern(v) ==> r.fval == s.fval && r.reasons == s.reasons + [InvalidFval(v)])
    ensures var r := ParseRecord(content, s, parse); var c := TrimSpace(content);
      FcodTag <= c ==> var v := SanitizeText(c[|FcodTag|..]);
        && (v != [] ==> r.fcod == s.fcod + [v] && r.reasons == s.reasons)
        && (v == [] ==> r.fcod == s.fcod && r.reasons == s.reasons + [EmptyFcod])
    ensures var r := ParseRecord(content, s, parse); var c := TrimSpace(content);
      (c != [] && !(FtxtTag <= c) && !(FuriTag <= c) && !(FvalTag <= c) && !(FcodTag <= c))
        ==> r.reasons == s.reasons + [UnknownTag(c)]
  {
    var c := TrimSpace(content);
    TagsExclusive(c);
    if FvalTag <= c {
      SplitFvalMatchesPattern(TrimSpace(c[|FvalTag|..]));
    }
  }

  /** A record carrying the version tag. */
  predicate Tagged(rr: string) {
    HasVersionPrefix(rr).0
  }

  /** One pass of the record loop: the raw record is kept, and only a tagged
      record is interpreted. */
  function Step(rr: string, s: SaleInfo, parse: UrlParser): (r: SaleInfo)
    ensures r.rawRR == s.rawRR + [rr] && SameDomain(s, r)
    ensures !Tagged(rr) ==> r == s.(rawRR := s.rawRR + [rr])
    ensures Tagged(rr) ==> r.forSale && Entries(r) == Entries(s) + 1
    ensures r.forSale <==> s.forSale || Tagged(rr)
  {
    var s' := s.(rawRR := s.rawRR + [rr]);
    var tagged := HasVersionPrefix(rr);
    if tagged.0 then ParseRecord(tagged.1, s', parse) else s'
  }

  /** The number of records carrying the version tag. */
  function TaggedCount(txts: seq<string>): (n: nat)
    ensures n <= |txts|
  {
    if txts == [] then 0
    else TaggedCount(txts[..|txts| - 1]) + (if Tagged(txts[|txts| - 1]) then 1 else 0)
  }

  lemma {:induction false} TaggedCountZero(txts: seq<string>)
    ensures TaggedCount(txts) == 0 <==> forall i :: 0 <= i < |txts| ==> !Tagged(txts[i])
  {
    if txts != [] {
      var init, last := txts[..|txts| - 1], txts[|txts| - 1];
      TaggedCountZero(init);
      assert txts == init + [last];
    }
  }

  /** The record loop of `checkDomain` over `txts` in DNS order. */
  function Fold(txts: seq<string>, s: SaleInfo, parse: UrlParser): (r: SaleInfo)
    ensures r.rawRR == s.rawRR + txts && SameDomain(s, r)
    decreases |txts|
  {
    if txts == [] then
      assert s.rawRR + txts == s.rawRR;
      s
    else
      var init, last := txts[..|txts| - 1], txts[|txts| - 1];
      assert txts == init + [last];
      Step(last, Fold(init, s, parse), parse)
  }

  /** The loop marks the domain for sale exactly when some record is tagged. */
  lemma {:induction false} FoldForSale(txts: seq<string>, s: SaleInfo, parse: UrlParser)
    ensures Fold(txts, s, parse).forSale <==> s.forSale || TaggedCount(txts) > 0
  {
    if txts != [] {
      FoldForSale(txts[..|txts| - 1], s, parse);
    }
  }

  /** The loop leaves one reason or value per tagged record. */
  lemma {:induction false} FoldEntries(txts: seq<string>, s: SaleInfo, parse: UrlParser)
    ensures Entries(Fold(txts, s, parse)) == Entries(s) + TaggedCount(txts)
  {
    if txts != [] {
      FoldEntries(txts[..|txts| - 1], s, parse);
    }
  }

  /** Without a tagged record the loop only collects the raw records. */
  lemma {:induction false} FoldUntagged(txts: seq<string>, s: SaleInfo, parse: UrlParser)
    requires forall i :: 0 <= i < |txts| ==> !Tagged(txts[i])
    ensures Fold(txts, s, parse) == s.(rawRR := s.rawRR + txts)
  {
    if txts == [] {
      assert s.rawRR + txts == s.rawRR;
    } else {
      var init, last := txts[..|txts| - 1], txts[|txts| - 1];
      assert txts == init + [last];
      FoldUntagged(init, s, parse);
      assert s.rawRR + init + [last] == s.rawRR + txts;
    }
  }

  function UriKey(u: ValidatedUri): string { u.uri }

  function NiceKey(p: Price): string { p.formattedNice }

  /** The four sorts after the loop (main.go:257-260). */
  function SortValues(s: SaleInfo): (r: SaleInfo)
    ensures |r.ftxt| == |s.ftxt| && |r.fcod| == |s.fcod| && |r.furi| == |s.furi| && |r.fval| == |s.fval|
    ensures r == s.(ftxt := r.ftxt, fcod := r.fcod, furi := r.furi, fval := r.fval)
  {
    s.(ftxt := SortStrings(s.ftxt), fcod := SortStrings(s.fcod),
       furi := SortBy(s.furi, UriKey), fval := SortBy(s.fval, NiceKey))
  }

  /** The sorts order each list and only rearrange it; nothing else changes. */
  lemma SortValuesSorts(s: SaleInfo)
    ensures var r := SortValues(s);
      && SortedBy(r.ftxt, StringKey) && SortedBy(r.fcod, StringKey)
      && SortedBy(r.furi, UriKey) && SortedBy(r.fval, NiceKey)
      && multiset(r.ftxt) == multiset(s.ftxt) && multiset(r.fcod) == multiset(s.fcod)
      && multiset(r.furi) == multiset(s.furi) && multiset(r.fval) == multiset(s.fval)
      && r == s.(ftxt := r.ftxt, fcod := r.fcod, furi := r.furi, fval := r.fval)
  {
    SortBySorted(s.ftxt, StringKey);
    SortBySorted(s.fcod, StringKey);
    SortBySorted(s.furi, UriKey);
    SortBySorted(s.fval, NiceKey);
    SortByPermutes(s.ftxt, StringKey);
    SortByPermutes(s.fcod, StringKey);
    SortByPermutes(s.furi, UriKey);
    SortByPermutes(s.fval, NiceKey);
  }

  /** What follows the loop: the sorts, and the "no indicator" reason exactly
      when no value was collected and nothing marked the domain for sale. */
  function Finalize(s: SaleInfo): (r: SaleInfo)
    ensures r.reasons == s.reasons + [NoIndicator] <==> NoValues(s) && !s.forSale
    ensures !(NoValues(s) && !s.forSale) ==> r.reasons == s.reasons
    ensures r == SortValues(s).(reasons := r.reasons)
  {
    var t := SortValues(s);
    if NoValues(t) && !t.forSale then t.(reasons := t.reasons + [NoIndicator]) else t
  }

  /** The record-set evaluator: the loop, then the sorts and the final reason. */
  function Evaluate(s: SaleInfo, txts: seq<string>, parse: UrlParser): (r: SaleInfo)
    ensures r.rawRR == s.rawRR + txts && SameDomain(s, r)
  {
    Finalize(Fold(txts, s, parse))
  }

  /** `checkDomain` with its collaborators passed in. */
  function Check(input: string, toUnicode: IdnCodec, toAscii: IdnCodec, lookupTxt: TxtResolver, parse: UrlParser): (r: SaleInfo)
    ensures r.domainInput == TrimSpace(input)
  {
    var domain := TrimSpace(input);
    var s := Start(domain);
    if !IsLikelyDomain(domain) then s.(warnings := s.warnings + [InvalidSyntax])
    else Resolution(s.(unicode := Canonical(domain, toUnicode), punycode := Canonical(domain, toAscii)), lookupTxt, parse)
  }

  /** The part of `checkDomain` after the names are known: the `.arpa` exit,
      the lookup, and the evaluation of a successful answer. */
  function Resolution(s: SaleInfo, lookupTxt: TxtResolver, parse: UrlParser): (r: SaleInfo)
    ensures SameDomain(s, r)
  {
    if IsArpa(s.punycode) then s.(reasons := s.reasons + [UnderArpa])
    else
      match lookupTxt(ForSaleName(s.punycode))
      case None => s.(reasons := s.reasons + [LookupFailed])
      case Some(txts) => Evaluate(s, txts, parse)
  }

  // ---------- Properties of the evaluator ----------

  /** The three early exits of `checkDomain`: a syntax warning, the `.arpa`
      reason, and the failed lookup, each with nothing else recorded. */
  lemma CheckEarlyExits(input: string, toUnicode: IdnCodec, toAscii: IdnCodec, lookupTxt: TxtResolver, parse: UrlParser)
    ensures var r := Check(input, toUnicode, toAscii, lookupTxt, parse);
      && (!IsLikelyDomain(TrimSpace(input)) ==>
            && r.warnings == [InvalidSyntax] && r.reasons == []
            && r.unicode == "" && r.punycode == ""
            && !r.forSale && NoValues(r) && r.rawRR == [])
      && (IsLikelyDomain(TrimSpace(input)) ==>
            && r.unicode == Canonical(TrimSpace(input), toUnicode)
            && r.punycode == Canonical(TrimSpace(input), toAscii))
      && (IsLikelyDomain(TrimSpace(input)) && IsArpa(r.punycode) ==>
            && r.reasons == [UnderArpa] && r.warnings == []
            && !r.forSale && NoValues(r) && r.rawRR == [])
      && (IsLikelyDomain(TrimSpace(input)) && !IsArpa(r.punycode)
          && lookupTxt(ForSaleName(r.punycode)).None? ==>
            && r.reasons == [LookupFailed] && r.warnings == []
            && !r.forSale && NoValues(r) && r.rawRR == [])
  {
  }

  /** A successful lookup is evaluated: the raw records are the answer and
      the domain is for sale exactly when some record carries the version tag. */
  lemma CheckAnswer(input: string, toUnicode: IdnCodec, toAscii: IdnCodec, lookupTxt: TxtResolver, parse: UrlParser)
    requires IsLikelyDomain(TrimSpace(input))
    requires !IsArpa(Canonical(TrimSpace(input), toAscii))
    requires lookupTxt(ForSaleName(Canonical(TrimSpace(input), toAscii))).Some?
    ensures var r := Check(input, toUnicode, toAscii, lookupTxt, parse);
      var txts := lookupTxt(ForSaleName(Canonical(TrimSpace(input), toAscii))).value;
      && r.rawRR == txts
      && r.unicode == Canonical(TrimSpace(input), toUnicode)
      && r.punycode == Canonical(TrimSpace(input), toAscii)
      && (r.forSale <==> exists i :: 0 <= i < |txts| && Tagged(txts[i]))
  {
    var punycode := Canonical(TrimSpace(input), toAscii);
    EvaluateAnswer(TrimSpace(input), Canonical(TrimSpace(input), toUnicode), punycode,
      lookupTxt(ForSaleName(punycode)).value, parse);
  }

  /** After a successful lookup every output list is sorted by its key, and
      an answer without a tagged record leaves only the "no indicator" reason. */
  lemma CheckAnswerLists(input: string, toUnicode: IdnCodec, toAscii: IdnCodec, lookupTxt: TxtResolver, parse: UrlParser)
    requires IsLikelyDomain(TrimSpace(input))
    requires !IsArpa(Canonical(TrimSpace(input), toAscii))
    requires lookupTxt(ForSaleName(Canonical(TrimSpace(input), toAscii))).Some?
    ensures var r := Check(input, toUnicode, toAscii, lookupTxt, parse);
      var txts := lookupTxt(ForSaleName(Canonical(TrimSpace(input), toAscii))).value;
      && SortedBy(r.ftxt, StringKey) && SortedBy(r.fcod, StringKey)
      && SortedBy(r.furi, UriKey) && SortedBy(r.fval, NiceKey)
      && ((forall i :: 0 <= i < |txts| ==> !Tagged(txts[i])) ==>
            !r.forSale && r.reasons == [NoIndicator] && r.warnings == [] && NoValues(r))
  {
    var domain := TrimSpace(input);
    var s := Start(domain).(unicode := Canonical(domain, toUnicode), punycode := Canonical(domain, toAscii));
    var txts := lookupTxt(ForSaleName(Canonical(domain, toAscii))).value;
    EvaluateSorted(s, txts, parse);
    if forall i :: 0 <= i < |txts| ==> !Tagged(txts[i]) {
      EvaluateWithoutTag(s, txts, parse);
    }
  }

  /** Evaluating an answer: the raw records are the answer in DNS order, the
      names are the ones looked up, and the domain is for sale exactly when
      some record carries the version tag. */
  lemma EvaluateAnswer(domain: string, unicode: string, punycode: string, txts: seq<string>, parse: UrlParser)
    ensures var r := Evaluate(Start(domain).(unicode := unicode, punycode := punycode), txts, parse);
      && r.rawRR == txts && r.domainInput == domain && r.unicode == unicode && r.punycode == punycode
      && (r.forSale <==> exists i :: 0 <= i < |txts| && Tagged(txts[i]))
  {
    var s := Start(domain).(unicode := unicode, punycode := punycode);
    FoldForSale(txts, s, parse);
    TaggedCountZero(txts);
    assert s.rawRR + txts == txts;
  }

  /** Without a tagged record the answer holds the "no indicator" reason and nothing else. */
  lemma EvaluateWithoutTag(s: SaleInfo, txts: seq<string>, parse: UrlParser)
    requires !s.forSale && s.reasons == [] && s.warnings == [] && NoValues(s)
    requires forall i :: 0 <= i < |txts| ==> !Tagged(txts[i])
    ensures var r := Evaluate(s, txts, parse);
      && !r.forSale && r.reasons == [NoIndicator] && r.warnings == [] && NoValues(r)
  {
    FoldUntagged(txts, s, parse);
  }

  /** With a tagged record, every tagged record left exactly one reason or
      value and no "no indicator" reason is added. */
  lemma EvaluateWithTag(s: SaleInfo, txts: seq<string>, parse: UrlParser)
    requires exists i :: 0 <= i < |txts| && Tagged(txts[i])
    ensures var r := Evaluate(s, txts, parse);
      && r.forSale && Entries(r) == Entries(s) + TaggedCount(txts)
  {
    var f := Fold(txts, s, parse);
    FoldForSale(txts, s, parse);
    TaggedCountZero(txts);
    FoldEntries(txts, s, parse);
    SortValuesKeepsEntries(f);
  }

  /** Every list of the answer comes out sorted by its key. */
  lemma EvaluateSorted(s: SaleInfo, txts: seq<string>, parse: UrlParser)
    ensures var r := Evaluate(s, txts, parse);
      && SortedBy(r.ftxt, StringKey) && SortedBy(r.fcod, StringKey)
      && SortedBy(r.furi, UriKey) && SortedBy(r.fval, NiceKey)
  {
    SortValuesSorts(Fold(txts, s, parse));
  }

  /** Sorting neither adds nor drops a reason or a value. */
  lemma SortValuesKeepsEntries(s: SaleInfo)
    ensures Entries(SortValues(s)) == Entries(s)
  {
  }

  /** The free-text and broker-code outputs depend only on which values were
      collected, not on the order in which the records arrived. */
  lemma SortedOutputsCanonical(s: SaleInfo, t: SaleInfo)
    requires multiset(s.ftxt) == multiset(t.ftxt) && multiset(s.fcod) == multiset(t.fcod)
    ensures SortValues(s).ftxt == SortValues(t).ftxt
    ensures SortValues(s).fcod == SortValues(t).fcod
  {
    SortStringsCanonical(s.ftxt, t.ftxt);
    SortStringsCanonical(s.fcod, t.fcod);
  }

  /** URIs and prices that share their sort key keep the order in which their
      records arrived. */
  lemma SortValuesStable(s: SaleInfo, uri: string, nice: string)
    ensures WithKey(SortValues(s).furi, UriKey, uri) == WithKey(s.furi, UriKey, uri)
    ensures WithKey(SortValues(s).fval, NiceKey, nice) == WithKey(s.fval, NiceKey, nice)
  {
    SortByStable(s.furi, UriKey, uri);
    SortByStable(s.fval, NiceKey, nice);
  }

  // ---------- The source's in-place form ----------

  /** The `*SaleInfo` that `parseForsaleRR` and `checkDomain` update in place. */
  class MutableSaleInfo {
    var domainInput: string
    var unicode: string
    var punycode: string
    var forSale: bool
    var reasons: seq<Diagnostic>
    var ftxt: seq<string>
    var furi: seq<ValidatedUri>
    var fval: seq<Price>
    var fcod: seq<string>
    var rawRR: seq<string>
    var warnings: seq<Diagnostic>

    function Value(): SaleInfo
      reads this
    {
      SaleInfo(domainInput, unicode, punycode, forSale, reasons, ftxt, furi, fval, fcod, rawRR, warnings)
    }

    constructor (domainInput: string)
      ensures Value() == Start(domainInput)
    {
      this.domainInput := domainInput;
      unicode, punycode := "", "";
      forSale := false;
      reasons, ftxt, furi, fval, fcod, rawRR, warnings := [], [], [], [], [], [], [];
    }

    /** `parseForsaleRR(content, info)`. */
    method ParseForsaleRR(content: string, parse: UrlParser)
      modifies this
      ensures Value() == ParseRecord(content, old(Value()), parse)
    {
      var c := TrimSpace(content);
      forSale := true;
      if c == [] {
        reasons := reasons + [EmptyRecord];
      } else if FtxtTag <= c {
        AddFtxt(c[|FtxtTag|..]);
      } else if FuriTag <= c {
        AddFuri(c[|FuriTag|..], parse);
      } else if FvalTag <= c {
        AddFval(c[|FvalTag|..]);
      } else if FcodTag <= c {
        AddFcod(c[|FcodTag|..]);
      } else {
        reasons := reasons + [UnknownTag(c)];
      }
    }

    method AddFtxt(raw: string)
      modifies this
      ensures Value() == WithFtxt(old(Value()), raw)
    {
      var val := SanitizeText(raw);
      if val != [] {
        ftxt := ftxt + [val];
      } else {
        reasons := reasons + [EmptyFtxt];
      }
    }

    method AddFuri(raw: string, parse: UrlParser)
      modifies this
      ensures Value() == WithFuri(old(Value()), raw, parse)
    {
      var v := ValidateUri(TrimSpace(raw), parse);
      furi := furi + [v];
      if !v.valid {
        warnings := warnings + [PossiblyInvalidFuri(v.uri, v.note)];
      }
    }

    method AddFval(raw: string)
      modifies this
      ensures Value() == WithFval(old(Value()), raw)
    {
      var val := TrimSpace(raw);
      var m := SplitFval(val);
      if m.Some? {
        fval := fval + [FormatPrice(m.value.0, m.value.1)];
      } else {
        reasons := reasons + [InvalidFval(val)];
      }
    }

    method AddFcod(raw: string)
      modifies this
      ensures Value() == WithFcod(old(Value()), raw)
    {
      var val := SanitizeText(raw);
      if val != [] {
        fcod := fcod + [val];
      } else {
        reasons := reasons + [EmptyFcod];
      }
    }

    /** One pass of the record loop: keep the raw record, and interpret it
        when it carries the version tag. */
    method AcceptRecord(rr: string, parse: UrlParser)
      modifies this
      ensures Value() == Step(rr, old(Value()), parse)
    {
      rawRR := rawRR + [rr];
      var tagged := HasVersionPrefix(rr);
      if tagged.0 {
        ParseForsaleRR(tagged.1, parse);
      }
    }

    /** The four in-place sorts after the loop. */
    method SortLists()
      modifies this
      ensures Value() == SortValues(old(Value()))
    {
      ftxt, fcod := SortStrings(ftxt), SortStrings(fcod);
      furi, fval := SortBy(furi, UriKey), SortBy(fval, NiceKey);
    }

    /** The `.arpa` exit, the lookup and the evaluation of `checkDomain`. */
    method Resolve(lookupTxt: TxtResolver, parse: UrlParser)
      modifies this
      ensures Value() == Resolution(old(Value()), lookupTxt, parse)
    {
      if IsArpa(punycode) {
        reasons := reasons + [UnderArpa];
        return;
      }
      var answer := lookupTxt(ForSaleName(punycode));
      if answer.None? {
        reasons := reasons + [LookupFailed];
        return;
      }
      EvaluateRecords(answer.value, parse);
    }

    /** The record loop, the sorts and the final reason of `checkDomain`
        (main.go:246-265). */
    method EvaluateRecords(txts: seq<string>, parse: UrlParser)
      modifies this
      ensures Value() == Evaluate(old(Value()), txts, parse)
    {
      ghost var start := Value();
      var i := 0;
      while i < |txts|
        invariant 0 <= i <= |txts|
        invariant Value() == Fold(txts[..i], start, parse)
      {
        assert txts[..i + 1][..i] == txts[..i];
        AcceptRecord(txts[i], parse);
        i := i + 1;
      }
      assert txts[..i] == txts;
      Finish();
    }

    /** What follows the loop: the sorts, then the "no indicator" reason when
        nothing was collected and nothing marked the domain for sale. */
    method Finish()
      modifies this
      ensures Value() == Finalize(old(Value()))
    {
      SortLists();
      if ftxt == [] && furi == [] && fval == [] && fcod == [] && !forSale {
        reasons := reasons + [NoIndicator];
      }
    }
  }

  /** `checkDomain`: builds the result in place, record by record, and
      returns exactly what `Check` specifies. */
  method CheckDomain(input: string, toUnicode: IdnCodec, toAscii: IdnCodec, lookupTxt: TxtResolver, parse: UrlParser)
    returns (result: SaleInfo)
    ensures result == Check(input, toUnicode, toAscii, lookupTxt, parse)
  {
    var domain := TrimSpace(input);
    var info := new MutableSaleInfo(domain);
    ghost var start := info.Value();
    if !IsLikelyDomain(domain) {
      info.warnings := info.warnings + [InvalidSyntax];
      assert info.Value() == start.(warnings := start.warnings + [InvalidSyntax]);
      return info.Value();
    }
    info.unicode := Canonical(domain, toUnicode);
    info.punycode := Canonical(domain, toAscii);
    ghost var named := info.Value();
    assert named == start.(unicode := Canonical(domain, toUnicode), punycode := Canonical(domain, toAscii));
    info.Resolve(lookupTxt, parse);
    result := info.Value();
    assert result == Resolution(named, lookupTxt, parse);
  }
}
