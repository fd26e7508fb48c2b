/** The per-record helpers of the evaluator: the version tag, text
    sanitisation, the `fval` price pattern and its formatting, and URI
    validation (main.go:86-145). */
module Records {
  import opened Wrappers
  import opened Text

  /** Why a URI was not accepted; `NoNote` on a valid one. */
  datatype UriNote = NoNote | Unparsable | NoScheme | UnsupportedScheme

  /** The note as the source writes it into the result. */
  function NoteText(n: UriNote): (t: string)
    ensures t == "" <==> n == NoNote
  {
    match n
    case NoNote => ""
    case Unparsable => "Kon URI niet parsen"
    case NoScheme => "(URI ontbreekt of mist scheme http/https/mailto/tel)"
    case UnsupportedScheme => "(Niet-ondersteunde URI-scheme)"
  }

  /** A `furi=` value after validation. */
  datatype ValidatedUri = ValidatedUri(uri: string, scheme: string, valid: bool, note: UriNote)

  /** An `fval=` value split into currency and amount, with its display form. */
  datatype Price = Price(currency: string, amountString: string, formattedNice: string)

  /** What `url.Parse` yields for a string: a failure, or the scheme it read
      (empty when the string has none). The parser itself is a collaborator
      handed in by the caller. */
  datatype UrlParse = ParseFailed | ParsedUri(scheme: string)

  type UrlParser = string -> UrlParse

  // ---------- Version tag ----------

  const VersionTag := "v=FORSALE1;"

  /** `hasVersionPrefix`: whether the trimmed record starts with the version
      tag, and the content after it with the spaces right after the `;` dropped. */
  function HasVersionPrefix(rr: string): (r: (bool, string))
    ensures r.0 <==> VersionTag <= TrimSpace(rr)
    ensures !r.0 ==> r.1 == ""
    ensures r.0 ==> var t := TrimSpace(rr);
      && |VersionTag| + |r.1| <= |t|
      && t[|t| - |r.1|..] == r.1
      && (forall i :: |VersionTag| <= i < |t| - |r.1| ==> t[i] == ' ')
    ensures r.0 ==> r.1 == [] || r.1[0] != ' '
  {
    var t := TrimSpace(rr);
    if !(VersionTag <= t) then (false, "")
    else
      var u := t[|VersionTag|..];
      var rest := TrimLeftSpaces(u);
      assert t[|t| - |rest|..] == u[|u| - |rest|..];
      (true, rest)
  }

  /** The tag followed by any number of spaces and a content without outer
      white space is recognised, and the content comes back unchanged. */
  lemma VersionPrefixRoundTrip(spaces: nat, content: string)
    requires content == [] || (!IsSpace(content[0]) && !IsSpace(content[|content| - 1]))
    ensures HasVersionPrefix(VersionTag + Spaces(spaces) + content) == (true, content)
  {
    var rest := if content == [] then [] else Spaces(spaces) + content;
    TrimSpaceOfTagged(spaces, content);
    assert (VersionTag + rest)[|VersionTag|..] == rest;
    if content == [] {
      assert TrimLeftSpaces(rest) == [];
    } else {
      TrimLeftSpacesOfPadded(spaces, content);
    }
  }

  /** Trimming a tagged record removes only the spaces at its end. */
  lemma TrimSpaceOfTagged(spaces: nat, content: string)
    requires content == [] || (!IsSpace(content[0]) && !IsSpace(content[|content| - 1]))
    ensures TrimSpace(VersionTag + Spaces(spaces) + content)
         == VersionTag + (if content == [] then [] else Spaces(spaces) + content)
  {
    if content == [] {
      assert VersionTag + Spaces(spaces) + content == VersionTag + Spaces(spaces);
      TrimSpaceOfPadded(VersionTag, spaces);
    } else {
      TrimSpaceOfTaggedText(spaces, content);
    }
  }

  lemma TrimSpaceOfTaggedText(spaces: nat, content: string)
    requires content != [] && !IsSpace(content[0]) && !IsSpace(content[|content| - 1])
    ensures TrimSpace(VersionTag + Spaces(spaces) + content) == VersionTag + (Spaces(spaces) + content)
  {
    var tail := Spaces(spaces) + content;
    var t := VersionTag + tail;
    assert t[0] == VersionTag[0];
    assert t[|t| - 1] == content[|content| - 1];
    TrimSpaceOfTrimmed(t);
    AppendAssociative(VersionTag, Spaces(spaces), content);
  }

  // ---------- Text ----------

  /** The three `strings.ReplaceAll` calls of `sanitizeText`. */
  function ReplaceControls(s: string): (u: string)
    ensures |u| == |s|
    ensures forall i :: 0 <= i < |s| ==> u[i] == (if s[i] == '\t' || s[i] == '\n' || s[i] == '\r' then ' ' else s[i])
  {
    ReplaceChar(ReplaceChar(ReplaceChar(s, '\t', ' '), '\n', ' '), '\r', ' ')
  }

  /** `sanitizeText`: tab, line feed and carriage return each become a
      space, then the result is trimmed. */
  function SanitizeText(s: string): (r: string)
    ensures '\t' !in r && '\n' !in r && '\r' !in r
    ensures r == [] || (!IsSpace(r[0]) && !IsSpace(r[|r| - 1]))
  {
    var u := ReplaceControls(s);
    assert '\t' !in u && '\n' !in u && '\r' !in u;
    TrimSpaceKeepsText(u);
    TrimSpace(u)
  }

  /** A text sanitises to nothing exactly when it is all white space. */
  lemma SanitizeTextBlank(s: string)
    ensures SanitizeText(s) == [] <==> Blank(s)
  {
    var u := ReplaceControls(s);
    TrimSpaceBlank(u);
    assert Blank(u) <==> Blank(s) by {
      assert forall i :: 0 <= i < |s| ==> (IsSpace(u[i]) <==> IsSpace(s[i]));
    }
  }

  /** Sanitising keeps one contiguous stretch of the input, with its tabs,
      line feeds and carriage returns turned into spaces, and everything
      before and after that stretch is white space. */
  lemma SanitizeTextInfix(s: string) returns (i: nat, j: nat)
    ensures i <= j <= |s|
    ensures SanitizeText(s) == ReplaceControls(s)[i..j] && Blank(s[..i]) && Blank(s[j..])
  {
    var u := ReplaceControls(s);
    i, j := TrimSpaceInfix(u);
    forall k | 0 <= k < i ensures IsSpace(s[..i][k]) {
      assert u[..i][k] == u[k];
    }
    forall k | 0 <= k < |s| - j ensures IsSpace(s[j..][k]) {
      assert u[j..][k] == u[j + k];
    }
  }

  /** Sanitising a sanitised text changes nothing. */
  lemma SanitizeTextIdempotent(s: string)
    ensures SanitizeText(SanitizeText(s)) == SanitizeText(s)
  {
    var r := SanitizeText(s);
    assert ReplaceControls(r) == r;
    TrimSpaceOfTrimmed(r);
  }

  // ---------- fval ----------

  predicate IsUpper(c: char) { 'A' <= c <= 'Z' }

  /** `\d` in Go's regexp syntax: ASCII digits only. */
  predicate IsDigit(c: char) { '0' <= c <= '9' }

  predicate AllUpper(s: string) { forall i :: 0 <= i < |s| ==> IsUpper(s[i]) }

  predicate AllDigits(s: string) { forall i :: 0 <= i < |s| ==> IsDigit(s[i]) }

  /** The language of `\d+(?:\.\d+)?`. */
  ghost predicate AmountForm(a: string) {
    || (a != [] && AllDigits(a))
    || exists i :: 0 < i < |a| - 1 && a[i] == '.' && AllDigits(a[..i]) && AllDigits(a[i + 1..])
  }

  /** The language of the whole pattern `^([A-Z]+)(\d+(?:\.\d+)?)$`. */
  ghost predicate FvalPattern(v: string) {
    exists n :: 0 < n <= |v| && AllUpper(v[..n]) && AmountForm(v[n..])
  }

  /** Recognises `\d+(?:\.\d+)?` by scanning. */
  predicate IsAmount(a: string)
    ensures IsAmount(a) ==> a != [] && IsDigit(a[0]) && IsDigit(a[|a| - 1])
  {
    var n := Span(a, IsDigit);
    0 < n && (n == |a| || (a[n] == '.' && n + 1 < |a| && Span(a[n + 1..], IsDigit) == |a| - n - 1))
  }

  lemma IsAmountCorrect(a: string)
    ensures IsAmount(a) <==> AmountForm(a)
  {
    if IsAmount(a) {
      IsAmountSound(a);
    }
    if AmountForm(a) {
      IsAmountComplete(a);
    }
  }

  lemma IsAmountSound(a: string)
    requires IsAmount(a)
    ensures AmountForm(a)
  {
    var n := Span(a, IsDigit);
    if n < |a| {
      assert AllDigits(a[..n]);
      assert AllDigits(a[n + 1..]);
    }
  }

  lemma IsAmountComplete(a: string)
    requires AmountForm(a)
    ensures IsAmount(a)
  {
    if a != [] && AllDigits(a) {
      SpanUnique(a, IsDigit, |a|);
    } else {
      var i :| 0 < i < |a| - 1 && a[i] == '.' && AllDigits(a[..i]) && AllDigits(a[i + 1..]);
      assert forall k :: 0 <= k < i ==> IsDigit(a[..i][k]);
      SpanUnique(a, IsDigit, i);
      SpanUnique(a[i + 1..], IsDigit, |a| - i - 1);
      var n := Span(a, IsDigit);
      assert n == i && a[n] == '.' && n + 1 < |a|;
      assert Span(a[n + 1..], IsDigit) == |a| - n - 1;
    }
  }

  /** `reFval.FindStringSubmatch`: the currency and the amount groups, or
      None when the value does not match. */
  function SplitFval(v: string): (r: Option<(string, string)>)
    ensures r.Some? ==> var (cur, amt) := r.value;
      cur + amt == v && cur != [] && AllUpper(cur) && AmountForm(amt)
  {
    var n := Span(v, IsUpper);
    if 0 < n && IsAmount(v[n..]) then
      IsAmountCorrect(v[n..]);
      assert v[..n] + v[n..] == v;
      Some((v[..n], v[n..]))
    else None
  }

  /** Every value of the pattern's language is split into exactly its two groups. */
  lemma SplitFvalComplete(cur: string, amt: string)
    requires cur != [] && AllUpper(cur) && AmountForm(amt)
    ensures SplitFval(cur + amt) == Some((cur, amt))
  {
    var v := cur + amt;
    assert amt != [] && IsDigit(amt[0]) by {
      if !(amt != [] && AllDigits(amt)) {
        var i :| 0 < i < |amt| - 1 && amt[i] == '.' && AllDigits(amt[..i]) && AllDigits(amt[i + 1..]);
        assert amt[..i][0] == amt[0];
      }
    }
    assert v[|cur|] == amt[0];
    assert forall k :: 0 <= k < |cur| ==> v[k] == cur[k];
    assert Span(v, IsUpper) == |cur|;
    assert v[..|cur|] == cur && v[|cur|..] == amt;
    IsAmountCorrect(amt);
  }

  /** The scan matches exactly the strings the regular expression matches. */
  lemma SplitFvalMatchesPattern(v: string)
    ensures SplitFval(v).Some? <==> FvalPattern(v)
  {
    if SplitFval(v).Some? {
      var (cur, amt) := SplitFval(v).value;
      assert v[..|cur|] == cur && v[|cur|..] == amt;
    }
    if FvalPattern(v) {
      var n :| 0 < n <= |v| && AllUpper(v[..n]) && AmountForm(v[n..]);
      assert v == v[..n] + v[n..];
      SplitFvalComplete(v[..n], v[n..]);
    }
  }

  /** The currency symbols `formatPrice` knows. */
  const CurrencySymbols: map<string, string> := map[
    "EUR" := "\U{20AC}", "USD" := "$", "GBP" := "\U{00A3}", "JPY" := "\U{00A5}",
    "CHF" := "CHF", "AUD" := "A$", "CAD" := "C$", "CNY" := "\U{00A5}", "INR" := "\U{20B9}"
  ]

  /** `formatPrice`: the symbol from the table, or else the code itself,
      followed by a space and the amount as written. */
  function FormatPrice(cur: string, amt: string): (p: Price)
    ensures p.currency == cur && p.amountString == amt
    ensures cur in CurrencySymbols ==> p.formattedNice == CurrencySymbols[cur] + " " + amt
    ensures cur !in CurrencySymbols ==> p.formattedNice == cur + " " + amt
  {
    var p := Price(cur, amt, cur + " " + amt);
    if cur in CurrencySymbols then p.(formattedNice := CurrencySymbols[cur] + " " + amt) else p
  }

  // ---------- URIs ----------

  const AllowedSchemes: set<string> := {"http", "https", "mailto", "tel"}

  /** `validateURI`: valid exactly when the URI parses and its lower-cased
      scheme is on the allow-list; otherwise a note says why not. */
  function ValidateUri(u: string, parse: UrlParser): (v: ValidatedUri)
    ensures v.uri == u
    ensures v.valid <==> parse(u).ParsedUri? && AsciiLower(parse(u).scheme) in AllowedSchemes
    ensures v.valid ==> v.scheme in AllowedSchemes && v.scheme == AsciiLower(parse(u).scheme) && v.note == NoNote
    ensures !v.valid ==> v.scheme == "" && NoteText(v.note) != ""
    ensures parse(u).ParseFailed? ==> v.note == Unparsable
    ensures parse(u) == ParsedUri("") ==> v.note == NoScheme
    ensures parse(u).ParsedUri? && parse(u).scheme != "" && AsciiLower(parse(u).scheme) !in AllowedSchemes
      ==> v.note == UnsupportedScheme
  {
    var v := ValidatedUri(u, "", false, NoNote);
    match parse(u)
    case ParseFailed => v.(note := Unparsable)
    case ParsedUri(scheme) =>
      if scheme == "" then v.(note := NoScheme)
      else if AsciiLower(scheme) !in AllowedSchemes then v.(note := UnsupportedScheme)
      else v.(valid := true, scheme := AsciiLower(scheme))
  }
}
