/** The domain-name side of `checkDomain`: the syntax screen, the IDN
    conversions with their fallback, and the `.arpa` exclusion
    (main.go:67-84, main.go:210-236). */
module Domain {
  import opened Wrappers
  import opened Text

  /** An IDN conversion (`idna.Lookup.ToASCII` or `ToUnicode`): the converted
      name, or None when the library reports an error. */
  type IdnCodec = string -> Option<string>

  /** `isLikelyDomain`: a superficial screen, not a full syntax check. */
  function IsLikelyDomain(s: string): (r: bool)
    ensures r <==> var t := TrimSpace(s); '.' in t && ' ' !in t && '/' !in t && '\\' !in t
    ensures Blank(s) ==> !r
    ensures ('/' in s || '\\' in s || '.' !in s) ==> !r
  {
    var t := TrimSpace(s);
    TrimSpaceKeepsText(s);
    TrimSpaceBlank(s);
    if t == "" then false
    else if ' ' in t || '/' in t || '\\' in t then false
    else '.' in t
  }

  /** The Unicode or ASCII form of a domain: the codec's answer on the
      trimmed name, or the name itself when the codec fails. */
  function Canonical(domain: string, codec: IdnCodec): (r: string)
    ensures codec(TrimSpace(domain)).Some? ==> r == codec(TrimSpace(domain)).value
    ensures codec(TrimSpace(domain)).None? ==> r == domain
  {
    codec(TrimSpace(domain)).GetOr(domain)
  }

  const ArpaSuffix := ".arpa"

  /** The `.arpa` rule: the lower-cased ASCII form, without one trailing dot,
      ends in `.arpa`. */
  function IsArpa(punycode: string): (r: bool)
    ensures r <==> HasSuffix(AsciiLower(punycode), ArpaSuffix) || HasSuffix(AsciiLower(punycode), ArpaSuffix + ".")
  {
    var lc := AsciiLower(punycode);
    ArpaSuffixes(lc);
    HasSuffix(TrimSuffix(lc, "."), ArpaSuffix)
  }

  /** Dropping one trailing dot before the suffix test is the same as also
      accepting the suffix followed by a dot. */
  lemma ArpaSuffixes(lc: string)
    ensures HasSuffix(TrimSuffix(lc, "."), ArpaSuffix)
        <==> HasSuffix(lc, ArpaSuffix) || HasSuffix(lc, ArpaSuffix + ".")
  {
    var trimmed := TrimSuffix(lc, ".");
    if HasSuffix(lc, ".") {
      assert lc[|lc| - 1] == '.';
      assert HasSuffix(trimmed, ArpaSuffix) <==> HasSuffix(lc, ArpaSuffix + ".") by {
        if |trimmed| >= 5 {
          assert lc[|lc| - 6..] == trimmed[|trimmed| - 5..] + ".";
        }
      }
    }
  }

  /** The rule ignores the case of ASCII letters. */
  lemma IsArpaIgnoresCase(punycode: string)
    ensures IsArpa(AsciiLower(punycode)) == IsArpa(punycode)
  {
    AsciiLowerIdempotent(punycode);
  }

  /** The name the TXT records are looked up under. */
  function ForSaleName(punycode: string): (r: string)
    ensures HasSuffix(r, punycode) && "_for-sale." <= r
    ensures |r| == |"_for-sale."| + |punycode|
  {
    "_for-sale." + punycode
  }
}
