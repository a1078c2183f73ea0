/**
 * String operations the application relies on: Python's `str.strip()`,
 * the case-insensitive substring test behind Django's `icontains` lookup,
 * `str.startswith`, and decimal rendering of integers (`str(n)`).
 */
module Text {
  import opened Common

  /** The characters Python's `str.isspace()` accepts. */
  predicate IsSpace(c: char) {
    c == ' ' || ('\U{9}' <= c <= '\U{d}') || ('\U{1c}' <= c <= '\U{1f}')
    || c == '\U{85}' || c == '\U{a0}' || c == '\U{1680}'
    || ('\U{2000}' <= c <= '\U{200a}') || c == '\U{2028}' || c == '\U{2029}'
    || c == '\U{202f}' || c == '\U{205f}' || c == '\U{3000}'
  }

  /** Every character of `s` is whitespace (vacuously so for ""). */
  predicate IsBlank(s: string) {
    forall i :: 0 <= i < |s| ==> IsSpace(s[i])
  }

  /** `s.lstrip()`: the longest suffix of `s` that does not start with whitespace. */
  function StripLeft(s: string): (r: string)
    ensures |r| <= |s| && r == s[|s| - |r|..]
    ensures r != [] ==> !IsSpace(r[0])
    ensures forall i :: 0 <= i < |s| - |r| ==> IsSpace(s[i])
    decreases |s|
  {
    if s != [] && IsSpace(s[0]) then StripLeft(s[1..]) else s
  }

  /** `s.rstrip()`: the longest prefix of `s` that does not end with whitespace. */
  function StripRight(s: string): (r: string)
    ensures |r| <= |s| && r == s[..|r|]
    ensures r != [] ==> !IsSpace(r[|r| - 1])
    ensures forall i :: |r| <= i < |s| ==> IsSpace(s[i])
    decreases |s|
  {
    if s != [] && IsSpace(s[|s| - 1]) then StripRight(s[..|s| - 1]) else s
  }

  /** `s.strip()` */
  function Strip(s: string): string {
    StripRight(StripLeft(s))
  }

  /** `s.strip()` is falsy exactly when `s` consists of whitespace only. */
  lemma StripEmptyIffBlank(s: string)
    ensures Strip(s) == [] <==> IsBlank(s)
  {
    var l := StripLeft(s);
    if Strip(s) == [] {
      assert l == [];
      forall i | 0 <= i < |s| ensures IsSpace(s[i]) { }
    } else {
      var r := Strip(s);
      assert l != [];
      assert !IsSpace(l[0]);
      assert s[|s| - |l|] == l[0];
    }
  }

  /** Stripping removes whitespace only: any other character occurs in the stripped text iff it occurs in `s`. */
  lemma StripKeeps(s: string, c: char)
    requires !IsSpace(c)
    ensures c in Strip(s) <==> c in s
  {
    if c in Strip(s) {
      StrippedFromS(s, c);
    }
    if c in s {
      var i :| 0 <= i < |s| && s[i] == c;
      KeptByStrip(s, i);
    }
  }

  lemma StrippedFromS(s: string, c: char)
    requires c in Strip(s)
    ensures c in s
  {
    var l := StripLeft(s);
    var r := Strip(s);
    var k :| 0 <= k < |r| && r[k] == c;
    assert l[k] == c;
    assert s[|s| - |l| + k] == c;
  }

  /** A character that is not whitespace stays in the stripped text, at its offset from the left end. */
  lemma KeptByStrip(s: string, i: nat)
    requires i < |s| && !IsSpace(s[i])
    ensures s[i] in Strip(s)
  {
    var l := StripLeft(s);
    var off := |s| - |l|;
    assert off <= i;
    assert l[i - off] == s[i];
    var r := StripRight(l);
    assert i - off < |r|;
    assert r[i - off] == s[i];
  }

  /** Text without whitespace at either end is left as it is by `strip()`. */
  lemma StripOfTrimmed(s: string)
    requires s == [] || (!IsSpace(s[0]) && !IsSpace(s[|s| - 1]))
    ensures Strip(s) == s
  {
  }

  /** `strip()` is idempotent: stripping stripped text changes nothing. */
  lemma StripIdempotent(s: string)
    ensures Strip(Strip(s)) == Strip(s)
  {
    var l := StripLeft(s);
    var r := Strip(s);
    if r != [] {
      assert r[0] == l[0];
    }
    StripOfTrimmed(r);
  }

  /** One space on each side of trimmed text is stripped away again. */
  lemma StripPadded(s: string)
    requires Strip(s) == s
    ensures Strip(" " + s + " ") == s
  {
    TrimmedEnds(s);
    PadLeftDropped(s);
    PadRightDropped(s);
    if s == [] {
      assert StripLeft(s + " ") == StripLeft([]);
    } else {
      assert (s + " ")[0] == s[0];
      assert StripLeft(s + " ") == s + " ";
    }
  }

  /** Text that `strip()` leaves alone has no whitespace to strip at either end. */
  lemma TrimmedEnds(s: string)
    requires Strip(s) == s
    ensures StripLeft(s) == s && StripRight(s) == s
    ensures s != [] ==> !IsSpace(s[0])
  {
    assert |StripLeft(s)| >= |s|;
  }

  lemma PadLeftDropped(s: string)
    ensures StripLeft(" " + s + " ") == StripLeft(s + " ")
  {
    assert (" " + s + " ")[1..] == s + " ";
  }

  lemma PadRightDropped(s: string)
    ensures StripRight(s + " ") == StripRight(s)
  {
    assert (s + " ")[..|s|] == s;
  }

  /** The NUL character, which Django's `ProhibitNullCharactersValidator` refuses in every form `CharField`. */
  const NUL: char := '\0'

  /**
   * What a Django `forms.CharField` hands to `cleaned_data`: the submitted
   * text stripped of surrounding whitespace, or "" when nothing was submitted.
   * Stripping keeps every NUL character of the submitted text.
   */
  function CleanChar(raw: Option<string>): (r: string)
    ensures raw.None? ==> r == ""
    ensures raw.Some? ==> (r == "" <==> IsBlank(raw.value))
    ensures raw.Some? ==> (NUL in r <==> NUL in raw.value)
  {
    if raw.None? then "" else (StripEmptyIffBlank(raw.value); StripKeeps(raw.value, NUL); Strip(raw.value))
  }

  /** ASCII case folding, which is what SQLite's LIKE does for `icontains`. */
  function LowerChar(c: char): char {
    if 'A' <= c <= 'Z' then (c as int + 32) as char else c
  }

  function Lower(s: string): (r: string)
    ensures |r| == |s|
    ensures forall i :: 0 <= i < |s| ==> r[i] == LowerChar(s[i])
  {
    seq(|s|, i requires 0 <= i < |s| => LowerChar(s[i]))
  }

  /** `s.startswith(prefix)` */
  predicate StartsWith(s: string, prefix: string) {
    |prefix| <= |s| && s[..|prefix|] == prefix
  }

  /** `sub` occurs in `s` starting at position `i`. */
  predicate OccursAt(s: string, sub: string, i: nat) {
    i + |sub| <= |s| && s[i..i + |sub|] == sub
  }

  /** `sub in s`, computed by scanning the start positions from left to right. */
  predicate Contains(s: string, sub: string)
    decreases |s|
  {
    StartsWith(s, sub) || (s != [] && Contains(s[1..], sub))
  }

  lemma {:induction false} ContainsIffOccurs(s: string, sub: string)
    ensures Contains(s, sub) <==> exists i: nat :: OccursAt(s, sub, i)
    decreases |s|
  {
    if StartsWith(s, sub) {
      assert OccursAt(s, sub, 0);
    } else if s != [] {
      ContainsIffOccurs(s[1..], sub);
      if Contains(s[1..], sub) {
        var i: nat :| OccursAt(s[1..], sub, i);
        assert s[1..][i..i + |sub|] == s[i + 1..i + 1 + |sub|];
        assert OccursAt(s, sub, i + 1);
      }
      forall i: nat | OccursAt(s, sub, i)
        ensures i > 0 && OccursAt(s[1..], sub, i - 1)
      {
        assert s[0..|sub|] == s[..|sub|];
        assert s[1..][i - 1..i - 1 + |sub|] == s[i..i + |sub|];
      }
    }
  }

  /** Django's `field__icontains=q` on SQLite: a substring test after ASCII case folding. */
  predicate IContains(s: string, sub: string) {
    Contains(Lower(s), Lower(sub))
  }

  /** The empty query is contained in every string, so `icontains=""` matches every row. */
  lemma IContainsEmpty(s: string)
    ensures IContains(s, "")
  {
    assert StartsWith(Lower(s), Lower(""));
  }

  // ---------------------------------------------------------------
  // Decimal digits
  // ---------------------------------------------------------------

  predicate IsDigit(c: char) {
    '0' <= c <= '9'
  }

  predicate AllDigits(s: string) {
    forall i :: 0 <= i < |s| ==> IsDigit(s[i])
  }

  function DigitChar(d: nat): (c: char)
    requires d < 10
    ensures IsDigit(c)
  {
    (d + '0' as int) as char
  }

  function DigitValue(c: char): (d: nat)
    requires IsDigit(c)
    ensures d < 10
  {
    c as int - '0' as int
  }

  /** `str(n)` for a non-negative integer: its decimal digits, most significant first. */
  function NatToString(n: nat): (r: string)
    ensures |r| >= 1 && AllDigits(r)
    ensures n >= 10 ==> r[0] != '0'
    decreases n
  {
    if n < 10 then [DigitChar(n)] else NatToString(n / 10) + [DigitChar(n % 10)]
  }

  function DigitsValue(s: string): nat
    requires AllDigits(s)
    decreases |s|
  {
    if s == [] then 0 else DigitsValue(s[..|s| - 1]) * 10 + DigitValue(s[|s| - 1])
  }

  /** `int(s)` restricted to plain non-empty digit strings. */
  function ParseNat(s: string): (r: Option<nat>)
    ensures r.Some? <==> s != [] && AllDigits(s)
  {
    if s != [] && AllDigits(s) then Some(DigitsValue(s)) else None
  }

  lemma {:induction false} DigitsValueOfNatToString(n: nat)
    ensures DigitsValue(NatToString(n)) == n
    decreases n
  {
    var r := NatToString(n);
    if n < 10 {
      assert r[..0] == [];
    } else {
      DigitsValueOfNatToString(n / 10);
      assert r[..|r| - 1] == NatToString(n / 10);
    }
  }

  /** Reading back what `str(n)` printed gives `n`. */
  lemma NatToStringRoundTrip(n: nat)
    ensures ParseNat(NatToString(n)) == Some(n)
  {
    DigitsValueOfNatToString(n);
  }

  /** Distinct numbers print differently. */
  lemma NatToStringInjective(a: nat, b: nat)
    ensures NatToString(a) == NatToString(b) <==> a == b
  {
    NatToStringRoundTrip(a);
    NatToStringRoundTrip(b);
  }
}
