/**
 * `normalizeColor` (scripts/runtime.js): `white` and the 1- to 6-digit hex
 * forms become a canonical `#RRGGBB`; any other string is trimmed; anything
 * that is not a non-empty string is returned as it came.
 */
module Color {
  import opened JsValue

  predicate IsHexDigit(c: char) {
    '0' <= c <= '9' || 'a' <= c <= 'f' || 'A' <= c <= 'F'
  }

  predicate IsUpperHexDigit(c: char) {
    '0' <= c <= '9' || 'A' <= c <= 'F'
  }

  /** `toUpperCase` on the ASCII letters (a hex body holds nothing else). */
  function UpperAscii(c: char): (r: char)
    ensures IsHexDigit(c) ==> IsUpperHexDigit(r)
    ensures IsUpperHexDigit(c) ==> r == c
  {
    if 'a' <= c <= 'z' then (c as int - 32) as char else c
  }

  function LowerAscii(c: char): char {
    if 'A' <= c <= 'Z' then (c as int + 32) as char else c
  }

  function Upper(s: string): (r: string)
    ensures |r| == |s| && forall i :: 0 <= i < |s| ==> r[i] == UpperAscii(s[i])
  {
    seq(|s|, i requires 0 <= i < |s| => UpperAscii(s[i]))
  }

  /** `/^white$/i`: case-insensitive only on ASCII letters, as without the `u` flag. */
  predicate IsWhite(v: string) {
    |v| == 5 && LowerAscii(v[0]) == 'w' && LowerAscii(v[1]) == 'h' && LowerAscii(v[2]) == 'i'
    && LowerAscii(v[3]) == 't' && LowerAscii(v[4]) == 'e'
  }

  /** `/^#[0-9a-f]{1,6}$/i` */
  predicate IsHexColor(v: string) {
    2 <= |v| <= 7 && v[0] == '#' && forall i :: 1 <= i < |v| ==> IsHexDigit(v[i])
  }

  /** `#` and six upper-case hex digits. */
  predicate IsCanonicalColor(s: string) {
    |s| == 7 && s[0] == '#' && forall i :: 1 <= i < 7 ==> IsUpperHexDigit(s[i])
  }

  /**
   * The six digits a hex body of one to six digits stands for: three digits
   * are each doubled, six are kept, and the other lengths are padded by
   * repeating their last digit.
   */
  function Expand(m: string): (r: string)
    requires 1 <= |m| <= 6
  {
    if |m| == 3 then seq(6, i requires 0 <= i < 6 => UpperAscii(m[i / 2]))
    else seq(6, i requires 0 <= i < 6 => UpperAscii(if i < |m| then m[i] else m[|m| - 1]))
  }

  /** What `normalizeColor(c)` returns. */
  function NormalizedColor(c: Value): (r: Value)
    ensures !(c.Str? && c.s != "") ==> r == c
    ensures c.Str? && c.s != "" ==> r.Str?
  {
    if !Truthy(c) || !c.Str? then c
    else
      var v := Trim(c.s);
      if IsWhite(v) then Str("#FFFFFF")
      else if IsHexColor(v) then Str("#" + Expand(v[1..]))
      else Str(v)
  }

  /** `normalizeColor`, step by step as the runtime does it. */
  method NormalizeColor(c: Value) returns (r: Value)
    ensures r == NormalizedColor(c)
  {
    if !Truthy(c) || !c.Str? {
      return c;
    }
    var v := Trim(c.s);
    if IsWhite(v) {
      return Str("#FFFFFF");
    }
    if IsHexColor(v) {
      HexBranch(c.s);
      var digits := ExpandDigits(v[1..]);
      return Str("#" + digits);
    }
    return Str(v);
  }

  /**
   * The hex branch of `normalizeColor` after the `#`: the doubling loop for
   * three digits, upper-casing for six, and the padding `while` loop for the
   * other lengths.
   */
  method ExpandDigits(h: string) returns (r: string)
    requires 1 <= |h| <= 6
    ensures r == Expand(h)
  {
    if |h| == 3 {
      var m := Upper(h);
      var doubled := "";
      for i := 0 to 3
        invariant |doubled| == 2 * i
        invariant forall k :: 0 <= k < 2 * i ==> doubled[k] == m[k / 2]
      {
        doubled := doubled + [m[i], m[i]];
      }
      return doubled;
    }
    if |h| == 6 {
      return Upper(h);
    }
    var m := Upper(h);
    while |m| < 6
      invariant |h| <= |m| <= 6
      invariant forall k :: 0 <= k < |m| ==> m[k] == UpperAscii(if k < |h| then h[k] else h[|h| - 1])
      decreases 6 - |m|
    {
      m := m + [if |m| > 0 then m[|m| - 1] else 'F'];
    }
    return m[..6];
  }

  /** A hex form has no space to trim. */
  lemma HexFormTrimmed(v: string)
    requires IsHexColor(v)
    ensures Trim(v) == v
  {
    assert !IsJsSpace(v[0]) && !IsJsSpace(v[|v| - 1]);
    TrimUnchanged(v);
  }

  /** `#` and one to six hex digits is a hex form with nothing to trim. */
  lemma HexDigitsForm(h: string)
    requires 1 <= |h| <= 6 && forall i :: 0 <= i < |h| ==> IsHexDigit(h[i])
    ensures IsHexColor("#" + h) && Trim("#" + h) == "#" + h && ("#" + h)[1..] == h
  {
    var v := "#" + h;
    assert v[1..] == h;
    assert forall i :: 1 <= i < |v| ==> v[i] == h[i - 1];
    HexFormTrimmed(v);
  }

  /** `#` and one to six hex digits normalises to `#` and their expansion. */
  lemma HexDigitsNormalized(h: string)
    requires 1 <= |h| <= 6 && forall i :: 0 <= i < |h| ==> IsHexDigit(h[i])
    ensures NormalizedColor(Str("#" + h)) == Str("#" + Expand(h))
  {
    HexDigitsForm(h);
    HexBranch("#" + h);
  }

  /** A string whose trim is a hex form takes the hex branch. */
  lemma HexBranch(s: string)
    requires IsHexColor(Trim(s))
    ensures NormalizedColor(Str(s)) == Str("#" + Expand(Trim(s)[1..]))
  {
    var v := Trim(s);
    assert !IsWhite(v) by { assert LowerAscii(v[0]) != 'w'; }
  }

  /** Every hex form, once trimmed, comes out as `#` and six upper-case hex digits. */
  lemma HexFormsCanonical(s: string)
    requires IsHexColor(Trim(s))
    ensures NormalizedColor(Str(s)).Str? && IsCanonicalColor(NormalizedColor(Str(s)).s)
  {
    var v := Trim(s);
    assert !IsWhite(v) by { assert LowerAscii(v[0]) != 'w'; }
    var e := Expand(v[1..]);
    assert forall i :: 0 <= i < 6 ==> IsUpperHexDigit(e[i]);
  }

  /** A three-digit form doubles each digit: `#abc` gives `#AABBCC`. */
  lemma ThreeDigitsDoubled(h: string)
    requires |h| == 3 && forall i :: 0 <= i < 3 ==> IsHexDigit(h[i])
    ensures NormalizedColor(Str("#" + h))
         == Str(['#', UpperAscii(h[0]), UpperAscii(h[0]), UpperAscii(h[1]),
                 UpperAscii(h[1]), UpperAscii(h[2]), UpperAscii(h[2])])
  {
    HexDigitsForm(h);
    HexBranch("#" + h);
  }

  /** The lengths 1, 2, 4 and 5 pad by repeating the last digit: `#1` gives `#111111`. */
  lemma ShortFormsRepeatLast(h: string)
    requires |h| in {1, 2, 4, 5} && forall i :: 0 <= i < |h| ==> IsHexDigit(h[i])
    ensures NormalizedColor(Str("#" + h)) == Str("#" + Upper(h) + Repeat(UpperAscii(h[|h| - 1]), 6 - |h|))
  {
    var tail := Repeat(UpperAscii(h[|h| - 1]), 6 - |h|);
    assert "#" + Expand(h) == "#" + Upper(h) + tail by {
      assert Expand(h) == Upper(h) + tail by {
        assert forall i :: 0 <= i < 6 ==> Expand(h)[i] == (Upper(h) + tail)[i];
      }
      assert "#" + (Upper(h) + tail) == "#" + Upper(h) + tail;
    }
    HexDigitsNormalized(h);
  }

  /** `n` copies of `c`. */
  function Repeat(c: char, n: nat): (r: string)
    ensures |r| == n && forall i :: 0 <= i < n ==> r[i] == c
  {
    seq(n, _ => c)
  }

  /** A six-digit form is only upper-cased. */
  lemma SixDigitsUpperCased(h: string)
    requires |h| == 6 && forall i :: 0 <= i < 6 ==> IsHexDigit(h[i])
    ensures NormalizedColor(Str("#" + h)) == Str("#" + Upper(h))
  {
    HexDigitsForm(h);
    HexBranch("#" + h);
    assert Expand(h) == Upper(h);
  }

  /**
   * The cases outside the hex forms: `white` in any ASCII case and with
   * surrounding spaces is `#FFFFFF`; any other non-empty string is returned
   * trimmed.
   */
  lemma OtherStrings(s: string)
    requires s != "" && !IsHexColor(Trim(s))
    ensures IsWhite(Trim(s)) ==> NormalizedColor(Str(s)) == Str("#FFFFFF")
    ensures !IsWhite(Trim(s)) ==> NormalizedColor(Str(s)) == Str(Trim(s))
  {
  }

  /** A canonical colour normalises to itself. */
  lemma CanonicalColorFixed(r: string)
    requires IsCanonicalColor(r)
    ensures NormalizedColor(Str(r)) == Str(r)
  {
    assert IsHexColor(r);
    HexFormTrimmed(r);
    HexBranch(r);
    assert Expand(r[1..]) == r[1..];
    assert "#" + r[1..] == r;
  }

  /** Normalising a colour twice gives what normalising it once gives. */
  lemma NormalizeColorIdempotent(c: Value)
    ensures NormalizedColor(NormalizedColor(c)) == NormalizedColor(c)
  {
    if c.Str? && c.s != "" {
      var v := Trim(c.s);
      if IsWhite(v) {
        CanonicalColorFixed("#FFFFFF");
      } else if IsHexColor(v) {
        HexFormsCanonical(c.s);
        CanonicalColorFixed(NormalizedColor(c).s);
      } else {
        TrimIdempotent(c.s);
      }
    }
  }
}
