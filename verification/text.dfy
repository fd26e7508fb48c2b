/** The parts of Go's `strings` package that the evaluator relies on, over
    strings modelled as sequences of Unicode code points, and the ordering
    Go's `<` puts on strings. */
module Text {

  /** White space as Go's `unicode.IsSpace` defines it: the Latin-1 spaces
      and the other characters with the Unicode White_Space property. */
  predicate IsSpace(c: char) {
    || c == '\t' || c == '\n' || c == '\U{000B}' || c == '\U{000C}' || c == '\r' || c == ' '
    || c == '\U{0085}' || c == '\U{00A0}' || c == '\U{1680}'
    || ('\U{2000}' <= c <= '\U{200A}')
    || c == '\U{2028}' || c == '\U{2029}' || c == '\U{202F}' || c == '\U{205F}' || c == '\U{3000}'
  }

  /** Number of leading characters of `s` that satisfy `p`. */
  function Span(s: string, p: char -> bool): (n: nat)
    ensures n <= |s|
    ensures forall i :: 0 <= i < n ==> p(s[i])
    ensures n < |s| ==> !p(s[n])
  {
    if s == [] || !p(s[0]) then 0 else 1 + Span(s[1..], p)
  }

  /** The span is the one length whose prefix satisfies `p` and is not followed by a character that does. */
  lemma {:induction false} SpanUnique(s: string, p: char -> bool, n: nat)
    requires n <= |s|
    requires forall i :: 0 <= i < n ==> p(s[i])
    requires n < |s| ==> !p(s[n])
    ensures Span(s, p) == n
  {
    if n > 0 {
      SpanUnique(s[1..], p, n - 1);
    }
  }

  /** Go's `strings.TrimSpace`: drops leading and trailing white space and
      keeps everything in between. */
  function TrimSpace(s: string): (r: string)
    ensures |r| <= |s|
    ensures r == [] || (!IsSpace(r[0]) && !IsSpace(r[|r| - 1]))
  {
    if s != [] && IsSpace(s[0]) then TrimSpace(s[1..])
    else if s != [] && IsSpace(s[|s| - 1]) then TrimSpace(s[..|s| - 1])
    else s
  }

  /** Nothing but white space. */
  predicate Blank(s: string) {
    forall i :: 0 <= i < |s| ==> IsSpace(s[i])
  }

  /** Trimming leaves nothing exactly when there is nothing but white space. */
  lemma {:induction false} TrimSpaceBlank(s: string)
    ensures TrimSpace(s) == [] <==> Blank(s)
  {
    if s != [] && IsSpace(s[0]) {
      TrimSpaceBlank(s[1..]);
      assert Blank(s) <==> Blank(s[1..]) by {
        if Blank(s[1..]) {
          forall i | 0 < i < |s| ensures IsSpace(s[i]) {
            assert s[i] == s[1..][i - 1];
          }
        }
      }
    } else if s != [] && IsSpace(s[|s| - 1]) {
      TrimSpaceBlank(s[..|s| - 1]);
      assert s[..|s| - 1][0] == s[0];
    }
  }

  /** Trimming keeps every character that is not white space and adds none. */
  lemma {:induction false} TrimSpaceKeepsText(s: string)
    ensures forall c :: c in TrimSpace(s) ==> c in s
    ensures forall i :: 0 <= i < |s| && !IsSpace(s[i]) ==> s[i] in TrimSpace(s)
  {
    if s != [] && IsSpace(s[0]) {
      TrimSpaceKeepsText(s[1..]);
      forall i | 0 <= i < |s| && !IsSpace(s[i])
        ensures s[i] in TrimSpace(s)
      {
        assert s[1..][i - 1] == s[i];
      }
    } else if s != [] && IsSpace(s[|s| - 1]) {
      TrimSpaceKeepsText(s[..|s| - 1]);
      forall i | 0 <= i < |s| && !IsSpace(s[i])
        ensures s[i] in TrimSpace(s)
      {
        assert s[..|s| - 1][i] == s[i];
      }
    }
  }

  /** Trimming a string that has no leading or trailing white space is the identity. */
  lemma TrimSpaceOfTrimmed(s: string)
    requires s == [] || (!IsSpace(s[0]) && !IsSpace(s[|s| - 1]))
    ensures TrimSpace(s) == s
  {
  }

  /** Trailing ASCII spaces after a trimmed text are all that trimming drops. */
  lemma {:induction false} TrimSpaceOfPadded(s: string, n: nat)
    requires s != [] && !IsSpace(s[0]) && !IsSpace(s[|s| - 1])
    ensures TrimSpace(s + Spaces(n)) == s
  {
    var t := s + Spaces(n);
    assert t[0] == s[0];
    if n > 0 {
      assert t[|t| - 1] == ' ';
      assert t[..|t| - 1] == s + Spaces(n - 1);
      TrimSpaceOfPadded(s, n - 1);
    } else {
      assert t == s;
    }
  }

  /** Trimming keeps one contiguous stretch of the input, and everything
      before and after that stretch is white space. */
  lemma {:induction false} TrimSpaceInfix(s: string) returns (i: nat, j: nat)
    ensures i <= j <= |s|
    ensures TrimSpace(s) == s[i..j] && Blank(s[..i]) && Blank(s[j..])
  {
    if s != [] && IsSpace(s[0]) {
      var t := s[1..];
      var i', j' := TrimSpaceInfix(t);
      i, j := i' + 1, j' + 1;
      assert t[i'..j'] == s[i..j];
      assert t[j'..] == s[j..];
      forall k | 0 <= k < i ensures IsSpace(s[..i][k]) {
        if k > 0 {
          assert s[..i][k] == t[..i'][k - 1];
        }
      }
    } else if s != [] && IsSpace(s[|s| - 1]) {
      var t := s[..|s| - 1];
      i, j := TrimSpaceInfix(t);
      assert t[i..j] == s[i..j];
      assert t[..i] == s[..i];
      forall k | 0 <= k < |s| - j ensures IsSpace(s[j..][k]) {
        if j + k < |s| - 1 {
          assert s[j..][k] == t[j..][k];
        }
      }
    } else {
      i, j := 0, |s|;
      assert s[i..j] == s;
    }
  }

  /** Regrouping a concatenation, stated once so that proofs can cite it. */
  lemma AppendAssociative<T>(a: seq<T>, b: seq<T>, c: seq<T>)
    ensures a + b + c == a + (b + c)
  {
  }

  /** The one character of the cutset `" "`: U+0020 alone, not the other white space. */
  predicate IsPlainSpace(c: char) { c == ' ' }

  /** `n` ASCII spaces. */
  function Spaces(n: nat): (r: string)
    ensures |r| == n && forall i :: 0 <= i < n ==> r[i] == ' '
  {
    seq(n, _ => ' ')
  }

  /** Go's `strings.TrimLeft(s, " ")`: drops leading ASCII spaces only. */
  function TrimLeftSpaces(s: string): (r: string)
    ensures |r| <= |s| && r == s[|s| - |r|..]
    ensures forall i :: 0 <= i < |s| - |r| ==> s[i] == ' '
    ensures r == [] || r[0] != ' '
  {
    s[Span(s, IsPlainSpace)..]
  }

  /** Dropping the leading spaces of padded text gives the text back. */
  lemma TrimLeftSpacesOfPadded(n: nat, s: string)
    requires s == [] || s[0] != ' '
    ensures TrimLeftSpaces(Spaces(n) + s) == s
  {
    var t := Spaces(n) + s;
    SpanUnique(t, IsPlainSpace, n);
    assert t[n..] == s;
  }

  /** Go's `strings.ReplaceAll` for a one-character pattern and replacement. */
  function ReplaceChar(s: string, from: char, to: char): (r: string)
    ensures |r| == |s|
    ensures forall i :: 0 <= i < |s| ==> r[i] == (if s[i] == from then to else s[i])
  {
    if s == [] then [] else [if s[0] == from then to else s[0]] + ReplaceChar(s[1..], from, to)
  }

  /** Go's `strings.HasSuffix`. */
  predicate HasSuffix(s: string, suffix: string) {
    |suffix| <= |s| && s[|s| - |suffix|..] == suffix
  }

  /** Any text ends with what was appended to it last. */
  lemma HasSuffixOfAppend(a: string, b: string)
    ensures HasSuffix(a + b, b)
  {
    assert (a + b)[|a|..] == b;
  }

  /** Go's `strings.TrimSuffix`: removes one occurrence of `suffix` at the end, if present. */
  function TrimSuffix(s: string, suffix: string): (r: string)
    ensures HasSuffix(s, suffix) ==> r + suffix == s
    ensures !HasSuffix(s, suffix) ==> r == s
  {
    if HasSuffix(s, suffix) then s[..|s| - |suffix|] else s
  }

  /** Lower-cases an ASCII letter and leaves every other character alone. */
  function LowerChar(c: char): (r: char)
    ensures 'A' <= c <= 'Z' ==> r as int == c as int + 32
    ensures !('A' <= c <= 'Z') ==> r == c
  {
    if 'A' <= c <= 'Z' then (c as int + 32) as char else c
  }

  /** `strings.ToLower` restricted to ASCII letters. */
  function AsciiLower(s: string): (r: string)
    ensures |r| == |s|
    ensures forall i :: 0 <= i < |s| ==> r[i] == LowerChar(s[i])
  {
    if s == [] then [] else [LowerChar(s[0])] + AsciiLower(s[1..])
  }

  /** Lower-casing twice is lower-casing once. */
  lemma AsciiLowerIdempotent(s: string)
    ensures AsciiLower(AsciiLower(s)) == AsciiLower(s)
  {
    var l := AsciiLower(s);
    forall i | 0 <= i < |s| ensures AsciiLower(l)[i] == l[i] {
      assert LowerChar(LowerChar(s[i])) == LowerChar(s[i]);
    }
  }

  // ---------- The order of Go's `<` on strings ----------

  /** Go compares strings byte by byte in UTF-8; on code points that is the
      lexicographic order, with a proper prefix below the longer string. */
  predicate Less(a: string, b: string) {
    if a == [] then b != []
    else if b == [] then false
    else if a[0] != b[0] then a[0] < b[0]
    else Less(a[1..], b[1..])
  }

  lemma {:induction false} LessIrreflexive(a: string)
    ensures !Less(a, a)
  {
    if a != [] {
      LessIrreflexive(a[1..]);
    }
  }

  lemma {:induction false} LessAsymmetric(a: string, b: string)
    ensures !(Less(a, b) && Less(b, a))
  {
    if a != [] && b != [] && a[0] == b[0] {
      LessAsymmetric(a[1..], b[1..]);
    }
  }

  lemma {:induction false} LessTransitive(a: string, b: string, c: string)
    requires Less(a, b) && Less(b, c)
    ensures Less(a, c)
  {
    if a != [] && a[0] == b[0] && b[0] == c[0] {
      LessTransitive(a[1..], b[1..], c[1..]);
    }
  }

  lemma {:induction false} LessTotal(a: string, b: string)
    ensures a == b || Less(a, b) || Less(b, a)
  {
    if a != [] && b != [] && a[0] == b[0] {
      LessTotal(a[1..], b[1..]);
      if a[1..] == b[1..] {
        assert a == [a[0]] + a[1..] && b == [b[0]] + b[1..];
      }
    }
  }

  /** "not above" is transitive: the relation the sorted outputs are ordered by. */
  lemma NotLessTransitive(a: string, b: string, c: string)
    requires !Less(b, a) && !Less(c, b)
    ensures !Less(c, a)
  {
    LessTotal(a, b);
    if Less(c, a) {
      if a == b {
      } else {
        LessTransitive(c, a, b);
      }
    }
  }
}
