/** Go strings are byte sequences holding UTF-8; the model keeps them as
    `string` (Unicode scalar values) and measures them as Go's `len` does. */
module Text {

  /** Number of bytes the UTF-8 encoding of `c` takes. */
  function Utf8Width(c: char): (w: nat)
    ensures 1 <= w <= 4
    ensures w == 1 <==> (c as int) < 0x80
  {
    if (c as int) < 0x80 then 1
    else if (c as int) < 0x800 then 2
    else if (c as int) < 0x10000 then 3
    else 4
  }

  /** Go's `len(s)`: the UTF-8 byte length. */
  function ByteLen(s: string): (n: nat)
    ensures |s| <= n <= 4 * |s|
  {
    if |s| == 0 then 0 else Utf8Width(s[0]) + ByteLen(s[1..])
  }

  predicate IsAscii(s: string) {
    forall i :: 0 <= i < |s| ==> (s[i] as int) < 0x80
  }

  /** On ASCII text the byte length is the character count; otherwise it is larger. */
  lemma {:induction false} ByteLenAscii(s: string)
    ensures ByteLen(s) == |s| <==> IsAscii(s)
  {
    if |s| > 0 {
      ByteLenAscii(s[1..]);
      assert forall i :: 1 <= i < |s| ==> s[i] == s[1..][i - 1];
      if !IsAscii(s[1..]) {
        var i :| 0 <= i < |s[1..]| && (s[1..][i] as int) >= 0x80;
        assert (s[i + 1] as int) >= 0x80;
      }
    }
  }

  /** `\d` in Go's RE2 syntax, and what `time.Parse` accepts as a digit. */
  predicate IsDigit(c: char) { '0' <= c <= '9' }

  function DigitValue(c: char): (d: nat)
    requires IsDigit(c)
    ensures d <= 9
  {
    (c as int) - ('0' as int)
  }

  function DigitChar(d: nat): (c: char)
    requires d <= 9
    ensures IsDigit(c) && DigitValue(c) == d
  {
    (('0' as int) + d) as char
  }

  /** `[a-zA-Z]`. */
  predicate IsAsciiLetter(c: char) { 'a' <= c <= 'z' || 'A' <= c <= 'Z' }

  predicate AllDigits(s: string) {
    forall i :: 0 <= i < |s| ==> IsDigit(s[i])
  }

  /** The value of a run of decimal digits. */
  function DigitsValue(s: string): (n: nat)
    requires AllDigits(s)
    ensures n < Pow10(|s|)
  {
    if |s| == 0 then 0
    else DigitsValue(s[..|s| - 1]) * 10 + DigitValue(s[|s| - 1])
  }

  function Pow10(k: nat): (p: nat)
    ensures p >= 1
  {
    if k == 0 then 1 else 10 * Pow10(k - 1)
  }

  /** `n` in decimal, left-padded with zeros to `width` digits, as Go's
      `appendInt(b, n, width)` writes a non-negative number. */
  function PadDecimal(n: nat, width: nat): (s: string)
    ensures AllDigits(s)
    ensures |s| >= width
    ensures 1 <= width && n < Pow10(width) ==> |s| == width
    decreases width + n
  {
    if n < 10 && width <= 1 then [DigitChar(n)]
    else PadDecimal(n / 10, if width == 0 then 0 else width - 1) + [DigitChar(n % 10)]
  }

  /** Reading back a padded decimal gives the number. */
  lemma {:induction false} PadDecimalValue(n: nat, width: nat)
    ensures DigitsValue(PadDecimal(n, width)) == n
    decreases width + n
  {
    var s := PadDecimal(n, width);
    if n < 10 && width <= 1 {
    } else {
      var w' := if width == 0 then 0 else width - 1;
      PadDecimalValue(n / 10, w');
      assert s[..|s| - 1] == PadDecimal(n / 10, w');
    }
  }

  /** Padding the value of a digit string to its own width gives the string back. */
  lemma {:induction false} PadDigitsValue(t: string)
    requires |t| >= 1 && AllDigits(t)
    ensures PadDecimal(DigitsValue(t), |t|) == t
    decreases |t|
  {
    var w := |t|;
    var n := DigitsValue(t);
    if w == 1 {
      assert t[..0] == [];
      assert n == DigitValue(t[0]);
      assert [DigitChar(n)] == t;
    } else {
      var init := t[..w - 1];
      assert AllDigits(init);
      assert n / 10 == DigitsValue(init) && n % 10 == DigitValue(t[w - 1]);
      PadDigitsValue(init);
      assert init + [t[w - 1]] == t;
    }
  }
}
