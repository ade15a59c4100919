/** String helpers shared by the server and the client models: ASCII lower-casing,
    substring search, whitespace stripping, underscore replacement, and the
    "fail"/"error" content rule that both the orchestrator and the action layer apply. */
module Text {

  /** The ASCII part of Python's `str.lower` and JavaScript's `toLowerCase`. */
  function LowerChar(c: char): char
  {
    if 'A' <= c <= 'Z' then (c as int + 32) as char else c
  }

  function Lower(s: string): (r: string)
    ensures |r| == |s|
    ensures forall i :: 0 <= i < |s| ==> r[i] == LowerChar(s[i])
  {
    if s == [] then [] else [LowerChar(s[0])] + Lower(s[1..])
  }

  lemma {:induction false} LowerIdempotent(s: string)
    ensures Lower(Lower(s)) == Lower(s)
  {
    var l := Lower(s);
    assert |Lower(l)| == |l|;
    forall i | 0 <= i < |l| ensures Lower(l)[i] == l[i] {
      assert l[i] == LowerChar(s[i]);
    }
  }

  predicate StartsWith(s: string, prefix: string)
  {
    |prefix| <= |s| && s[..|prefix|] == prefix
  }

  /** Python's `sub in s` and JavaScript's `s.includes(sub)`. */
  predicate Contains(s: string, sub: string)
    decreases |s|
  {
    StartsWith(s, sub) || (|s| > 0 && Contains(s[1..], sub))
  }

  /** `sub` occurs in `s` at offset `i`. */
  predicate OccursAt(s: string, sub: string, i: int)
  {
    0 <= i && i + |sub| <= |s| && s[i..i + |sub|] == sub
  }

  /** `Contains` finds exactly the offsets at which `sub` occurs. */
  lemma {:induction false} ContainsIffOccurs(s: string, sub: string)
    ensures Contains(s, sub) <==> exists i :: OccursAt(s, sub, i)
    decreases |s|
  {
    if StartsWith(s, sub) {
      assert OccursAt(s, sub, 0);
    } else if |s| > 0 {
      ContainsIffOccurs(s[1..], sub);
      if Contains(s[1..], sub) {
        var i :| OccursAt(s[1..], sub, i);
        assert s[i + 1..i + 1 + |sub|] == s[1..][i..i + |sub|];
        assert OccursAt(s, sub, i + 1);
      } else {
        forall i | 0 <= i && i + |sub| <= |s| ensures !OccursAt(s, sub, i) {
          if i > 0 {
            assert s[i..i + |sub|] == s[1..][i - 1..i - 1 + |sub|];
            assert !OccursAt(s[1..], sub, i - 1);
          } else {
            assert s[..|sub|] == s[i..i + |sub|];
          }
        }
      }
    }
  }

  /** The content rule of the mock executors: a command fails iff its lower-cased
      text contains "fail" or "error". */
  predicate MentionsFailure(text: string)
  {
    Contains(Lower(text), "fail") || Contains(Lower(text), "error")
  }

  /** Case does not matter to the content rule. */
  lemma MentionsFailureIgnoresCase(text: string)
    ensures MentionsFailure(Lower(text)) == MentionsFailure(text)
  {
    LowerIdempotent(text);
  }

  /** Python's `str.isspace`: the C0 separators, the space, NEL and the Unicode
      space separators. */
  predicate IsPySpace(c: char)
  {
    || 9 <= c as int <= 13 || 28 <= c as int <= 32 || c as int == 0x85 || c as int == 0xA0
    || c as int == 0x1680 || 0x2000 <= c as int <= 0x200A || c as int == 0x2028 || c as int == 0x2029
    || c as int == 0x202F || c as int == 0x205F || c as int == 0x3000
  }

  /** The characters JavaScript's `String.prototype.trim` removes: WhiteSpace and
      LineTerminator of ECMA-262 (section 12.2 and 12.3). */
  predicate IsJsSpace(c: char)
  {
    || 9 <= c as int <= 13 || c as int == 32 || c as int == 0xA0 || c as int == 0xFEFF
    || c as int == 0x1680 || 0x2000 <= c as int <= 0x200A || c as int == 0x2028 || c as int == 0x2029
    || c as int == 0x202F || c as int == 0x205F || c as int == 0x3000
  }

  function TrimStart(s: string, ws: char -> bool): (r: string)
    ensures |r| <= |s| && r == s[|s| - |r|..]
    ensures r != [] ==> !ws(r[0])
    ensures forall i :: 0 <= i < |s| - |r| ==> ws(s[i])
  {
    if s != [] && ws(s[0]) then TrimStart(s[1..], ws) else s
  }

  function TrimEnd(s: string, ws: char -> bool): (r: string)
    ensures |r| <= |s| && r == s[..|r|]
    ensures r != [] ==> !ws(r[|r| - 1])
    ensures forall i :: |r| <= i < |s| ==> ws(s[i])
  {
    if s != [] && ws(s[|s| - 1]) then TrimEnd(s[..|s| - 1], ws) else s
  }

  /** `strip()` / `trim()` for the whitespace class `ws`. */
  function Trim(s: string, ws: char -> bool): string
  {
    TrimEnd(TrimStart(s, ws), ws)
  }

  /** A string trims to nothing exactly when it is all whitespace. */
  lemma TrimEmptyIffBlank(s: string, ws: char -> bool)
    ensures Trim(s, ws) == [] <==> forall i :: 0 <= i < |s| ==> ws(s[i])
  {
    var a := TrimStart(s, ws);
    if Trim(s, ws) != [] {
      assert a != [];
      assert !ws(a[0]) && a[0] == s[|s| - |a|];
    }
  }

  /** Trimming keeps a contiguous slice `s[i..j]` of the input; everything cut
      away on either side is whitespace. */
  lemma TrimIsSlice(s: string, ws: char -> bool) returns (i: int, j: int)
    ensures 0 <= i <= j <= |s| && Trim(s, ws) == s[i..j]
    ensures forall k :: 0 <= k < i ==> ws(s[k])
    ensures forall k :: j <= k < |s| ==> ws(s[k])
  {
    var a := TrimStart(s, ws);
    i := |s| - |a|;
    var b := TrimEnd(a, ws);
    j := i + |b|;
    assert b == s[i..j];
    forall k | j <= k < |s| ensures ws(s[k]) {
      assert a[k - i] == s[k];
    }
  }

  /** JavaScript's `replaceAll("_", " ")`. */
  function ReplaceUnderscores(s: string): (r: string)
    ensures |r| == |s|
    ensures forall i :: 0 <= i < |s| ==> r[i] == if s[i] == '_' then ' ' else s[i]
    ensures '_' !in r
  {
    if s == [] then [] else [if s[0] == '_' then ' ' else s[0]] + ReplaceUnderscores(s[1..])
  }

  /** A string without underscores is left as it is. */
  lemma {:induction false} ReplaceUnderscoresFixed(s: string)
    requires '_' !in s
    ensures ReplaceUnderscores(s) == s
  {
    if s != [] {
      ReplaceUnderscoresFixed(s[1..]);
    }
  }

  /** Text that mentions "fail" or "error" still does after whitespace is stripped:
      the two words contain no whitespace. */
  lemma MentionsFailureSurvivesTrim(s: string)
    ensures MentionsFailure(Trim(s, IsPySpace)) == MentionsFailure(s)
  {
    var i, j := TrimIsSlice(s, IsPySpace);
    WordInSlice(s, i, j, "fail");
    WordInSlice(s, i, j, "error");
  }

  lemma LowerSlice(s: string, i: int, j: int)
    requires 0 <= i <= j <= |s|
    ensures Lower(s[i..j]) == Lower(s)[i..j]
  {
  }

  /** An occurrence inside a slice is an occurrence in the whole string. */
  lemma OccurrenceLifts(l: string, i: int, j: int, w: string, p: int)
    requires 0 <= i <= j <= |l| && OccursAt(l[i..j], w, p)
    ensures OccursAt(l, w, i + p)
  {
    forall k | 0 <= k < |w| ensures l[i + p..i + p + |w|][k] == w[k] {
      assert l[i..j][p..p + |w|][k] == w[k];
    }
  }

  /** An occurrence that lies within `[i, j)` is an occurrence in the slice. */
  lemma OccurrenceDescends(l: string, i: int, j: int, w: string, p: int)
    requires 0 <= i <= p && p + |w| <= j <= |l| && OccursAt(l, w, p)
    ensures OccursAt(l[i..j], w, p - i)
  {
    forall k | 0 <= k < |w| ensures l[i..j][p - i..p - i + |w|][k] == w[k] {
      assert l[p..p + |w|][k] == w[k];
    }
  }

  /** Lower-casing never turns whitespace into something else. */
  lemma LowerKeepsSpace(c: char)
    ensures IsPySpace(c) ==> LowerChar(c) == c
  {
  }

  lemma WordHasNoSpace(w: string)
    requires w == "fail" || w == "error"
    ensures forall k :: 0 <= k < |w| ==> !IsPySpace(w[k])
  {
  }

  /** A whitespace-free word occurs in `s` iff it occurs in a slice of `s` whose
      cut-off ends are whitespace. */
  lemma WordInSlice(s: string, i: int, j: int, w: string)
    requires 0 <= i <= j <= |s|
    requires forall k :: 0 <= k < i ==> IsPySpace(s[k])
    requires forall k :: j <= k < |s| ==> IsPySpace(s[k])
    requires w == "fail" || w == "error"
    ensures Contains(Lower(s[i..j]), w) == Contains(Lower(s), w)
  {
    var l := Lower(s);
    LowerSlice(s, i, j);
    ContainsIffOccurs(l[i..j], w);
    ContainsIffOccurs(l, w);
    if Contains(l[i..j], w) {
      var p :| OccursAt(l[i..j], w, p);
      OccurrenceLifts(l, i, j, w, p);
    }
    if Contains(l, w) {
      var p :| OccursAt(l, w, p);
      WordInside(s, i, j, w, p);
      OccurrenceDescends(l, i, j, w, p);
    }
  }

  /** An occurrence of a whitespace-free word lies between the whitespace ends. */
  lemma WordInside(s: string, i: int, j: int, w: string, p: int)
    requires 0 <= i <= j <= |s|
    requires forall k :: 0 <= k < i ==> IsPySpace(s[k])
    requires forall k :: j <= k < |s| ==> IsPySpace(s[k])
    requires w == "fail" || w == "error"
    requires OccursAt(Lower(s), w, p)
    ensures i <= p && p + |w| <= j
  {
    var l := Lower(s);
    WordHasNoSpace(w);
    assert l[p..p + |w|][0] == w[0] && l[p..p + |w|][|w| - 1] == w[|w| - 1];
    LowerKeepsSpace(s[p]);
    LowerKeepsSpace(s[p + |w| - 1]);
    assert !IsPySpace(s[p]) && !IsPySpace(s[p + |w| - 1]);
  }

  predicate IsDigit(c: char)
  {
    '0' <= c <= '9'
  }

  function DigitChar(d: int): (c: char)
    requires 0 <= d < 10
    ensures IsDigit(c) && c as int - '0' as int == d
  {
    ('0' as int + d) as char
  }

  /** The decimal rendering of a natural number: Python's `str(n)` and JavaScript's
      `${n}`. */
  function DecimalString(n: nat): (r: string)
    ensures |r| >= 1 && forall i :: 0 <= i < |r| ==> IsDigit(r[i])
  {
    if n < 10 then [DigitChar(n)] else DecimalString(n / 10) + [DigitChar(n % 10)]
  }

  /** The same for any integer: a minus sign before the magnitude when negative. */
  function IntString(n: int): string
  {
    if n < 0 then "-" + DecimalString(-n) else DecimalString(n)
  }

  /** Python's `int(s)` on a string of digits. */
  function ParseDecimal(s: string): (n: nat)
    requires forall i :: 0 <= i < |s| ==> IsDigit(s[i])
  {
    if s == [] then 0 else ParseDecimal(s[..|s| - 1]) * 10 + (assert IsDigit(s[|s| - 1]); s[|s| - 1] as int - '0' as int)
  }

  /** Reading a rendered number back gives the number. */
  lemma {:induction false} DecimalRoundTrip(n: nat)
    ensures ParseDecimal(DecimalString(n)) == n
  {
    if n >= 10 {
      var r := DecimalString(n);
      DecimalRoundTrip(n / 10);
      assert r[..|r| - 1] == DecimalString(n / 10);
    }
  }
}
