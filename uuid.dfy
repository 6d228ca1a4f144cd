/** The identifiers of the `github.com/google/uuid` package as the core uses
    them: a 16-byte value, its canonical text form (`UUID.String`), and the
    parser `uuid.Parse` restricted to that canonical 8-4-4-4-12 form. */
module Uuid {
  import opened Outcomes
  import opened Text

  newtype Byte = x: int | 0 <= x < 256

  type UUID = b: seq<Byte> | |b| == 16
    witness [0, 0, 0, 0, 0, 0, 0, 0, 0, 0, 0, 0, 0, 0, 0, 0]

  /** `uuid.Nil`, the all-zero identifier. */
  const Nil: UUID := [0, 0, 0, 0, 0, 0, 0, 0, 0, 0, 0, 0, 0, 0, 0, 0]

  predicate IsHexDigit(c: char) {
    IsDigit(c) || 'a' <= c <= 'f' || 'A' <= c <= 'F'
  }

  /** A digit `UUID.String` may write: 0-9 or a-f. */
  predicate IsLowerHexDigit(c: char) {
    IsDigit(c) || 'a' <= c <= 'f'
  }

  /** The value of a hexadecimal digit, either case. */
  function HexValue(c: char): (v: nat)
    requires IsHexDigit(c)
    ensures v < 16
  {
    if IsDigit(c) then DigitValue(c)
    else if 'a' <= c <= 'f' then (c as int) - ('a' as int) + 10
    else (c as int) - ('A' as int) + 10
  }

  /** The lower-case digit that `hex.Encode` writes for `v`. */
  function HexChar(v: nat): (c: char)
    requires v < 16
    ensures IsLowerHexDigit(c) && HexValue(c) == v
  {
    if v < 10 then DigitChar(v) else (('a' as int) + v - 10) as char
  }

  function HexEncode(b: seq<Byte>): (s: string)
    ensures |s| == 2 * |b|
    ensures forall i :: 0 <= i < |s| ==> IsLowerHexDigit(s[i])
  {
    if |b| == 0 then []
    else [HexChar(b[0] as int / 16), HexChar(b[0] as int % 16)] + HexEncode(b[1..])
  }

  /** Pairs of hex digits to bytes, failing on the first non-hex character
      (the `xtob` loop of `uuid.Parse`). */
  function HexDecode(s: string): (r: Option<seq<Byte>>)
    requires |s| % 2 == 0
    ensures r.Some? <==> forall i :: 0 <= i < |s| ==> IsHexDigit(s[i])
    ensures r.Some? ==> 2 * |r.value| == |s|
  {
    if |s| == 0 then Some([])
    else if !IsHexDigit(s[0]) || !IsHexDigit(s[1]) then None
    else
      var rest := HexDecode(s[2..]);
      assert forall i :: 2 <= i < |s| ==> s[i] == s[2..][i - 2];
      if rest.None? then None
      else Some([(HexValue(s[0]) * 16 + HexValue(s[1])) as Byte] + rest.value)
  }

  lemma {:induction false} HexEncodeAppend(a: seq<Byte>, b: seq<Byte>)
    ensures HexEncode(a + b) == HexEncode(a) + HexEncode(b)
  {
    if |a| > 0 {
      assert (a + b)[1..] == a[1..] + b;
      HexEncodeAppend(a[1..], b);
    } else {
      assert a + b == b;
    }
  }

  lemma {:induction false} HexRoundTrip(b: seq<Byte>)
    ensures HexDecode(HexEncode(b)) == Some(b)
  {
    if |b| > 0 {
      var s := HexEncode(b);
      assert s[2..] == HexEncode(b[1..]);
      HexRoundTrip(b[1..]);
      var x := b[0] as int;
      assert HexValue(s[0]) == x / 16 && HexValue(s[1]) == x % 16;
      assert (HexValue(s[0]) * 16 + HexValue(s[1])) as Byte == b[0];
      assert [b[0]] + b[1..] == b;
    }
  }

  /** `UUID.String()`: lower-case hex in groups of 8, 4, 4, 4 and 12 digits. */
  function ToString(u: UUID): (s: string)
    ensures IsCanonicalShape(s)
    ensures forall i :: 0 <= i < 36 && i != 8 && i != 13 && i != 18 && i != 23 ==>
      IsLowerHexDigit(s[i])
  {
    var a, b, c, d, e := HexEncode(u[..4]), HexEncode(u[4..6]), HexEncode(u[6..8]),
                         HexEncode(u[8..10]), HexEncode(u[10..]);
    var s := a + "-" + b + "-" + c + "-" + d + "-" + e;
    assert forall i :: 0 <= i < 8 ==> s[i] == a[i];
    assert forall i :: 9 <= i < 13 ==> s[i] == b[i - 9];
    assert forall i :: 14 <= i < 18 ==> s[i] == c[i - 14];
    assert forall i :: 19 <= i < 23 ==> s[i] == d[i - 19];
    assert forall i :: 24 <= i < 36 ==> s[i] == e[i - 24];
    s
  }

  predicate IsCanonicalShape(s: string) {
    |s| == 36 && s[8] == '-' && s[13] == '-' && s[18] == '-' && s[23] == '-'
  }

  /** `uuid.Parse` on a 36-character input: hyphens at 8, 13, 18 and 23 and a
      hex digit everywhere else. */
  function Parse(s: string): (r: Option<UUID>)
    ensures r.Some? <==> (IsCanonicalShape(s) &&
      forall i :: 0 <= i < 36 && i != 8 && i != 13 && i != 18 && i != 23 ==> IsHexDigit(s[i]))
  {
    if !IsCanonicalShape(s) then None
    else
      var digits := Digits(s);
      assert forall i :: 0 <= i < 36 && i != 8 && i != 13 && i != 18 && i != 23 ==>
        s[i] == digits[if i < 8 then i else if i < 13 then i - 1 else if i < 18 then i - 2
                       else if i < 23 then i - 3 else i - 4];
      assert forall j :: 0 <= j < 32 ==>
        digits[j] == s[if j < 8 then j else if j < 12 then j + 1 else if j < 16 then j + 2
                       else if j < 20 then j + 3 else j + 4];
      match HexDecode(digits)
      case None => None
      case Some(bytes) => Some(bytes)
  }

  /** `uuid.Parse(u.String())` gives back `u`. */
  lemma ParseToString(u: UUID)
    ensures Parse(ToString(u)) == Some(u)
  {
    var s := ToString(u);
    var digits := Digits(s);
    assert s[..8] == HexEncode(u[..4]);
    assert s[9..13] == HexEncode(u[4..6]);
    assert s[14..18] == HexEncode(u[6..8]);
    assert s[19..23] == HexEncode(u[8..10]);
    assert s[24..] == HexEncode(u[10..]);
    EncodeGroups(u);
    assert digits == HexEncode(u);
    HexRoundTrip(u);
  }

  /** Encoding what lower-case hex text decodes to gives the text back. */
  lemma {:induction false} HexEncodeDecode(t: string)
    requires |t| % 2 == 0
    requires forall i :: 0 <= i < |t| ==> IsLowerHexDigit(t[i])
    ensures HexDecode(t).Some? && HexEncode(HexDecode(t).value) == t
  {
    if |t| > 0 {
      var rest := t[2..];
      assert forall i :: 0 <= i < |rest| ==> rest[i] == t[i + 2];
      HexEncodeDecode(rest);
      var hi, lo := HexValue(t[0]), HexValue(t[1]);
      var x := (hi * 16 + lo) as Byte;
      assert x as int / 16 == hi && x as int % 16 == lo;
      assert HexChar(hi) == t[0] && HexChar(lo) == t[1];
      assert HexDecode(t).value == [x] + HexDecode(rest).value;
      assert ([x] + HexDecode(rest).value)[1..] == HexDecode(rest).value;
    }
  }

  /** The hex encoding of a UUID, cut into the five groups of its string form. */
  lemma EncodeGroups(u: UUID)
    ensures HexEncode(u) == HexEncode(u[..4]) + HexEncode(u[4..6]) + HexEncode(u[6..8])
                            + HexEncode(u[8..10]) + HexEncode(u[10..])
  {
    HexEncodeAppend(u[..4], u[4..6]);
    assert u[..4] + u[4..6] == u[..6];
    HexEncodeAppend(u[..6], u[6..8]);
    assert u[..6] + u[6..8] == u[..8];
    HexEncodeAppend(u[..8], u[8..10]);
    assert u[..8] + u[8..10] == u[..10];
    HexEncodeAppend(u[..10], u[10..]);
    assert u[..10] + u[10..] == u;
  }

  /** The 32 digits of a 36-character text, hyphen positions dropped. */
  function Digits(s: string): (d: string)
    requires |s| == 36
    ensures |d| == 32
    ensures d[..8] == s[..8] && d[8..12] == s[9..13] && d[12..16] == s[14..18]
    ensures d[16..20] == s[19..23] && d[20..] == s[24..]
  {
    s[..8] + s[9..13] + s[14..18] + s[19..23] + s[24..]
  }

  lemma DigitsLower(s: string)
    requires |s| == 36
    requires forall i :: 0 <= i < 36 && i != 8 && i != 13 && i != 18 && i != 23 ==>
      IsLowerHexDigit(s[i])
    ensures forall j :: 0 <= j < 32 ==> IsLowerHexDigit(Digits(s)[j])
  {
    var d := Digits(s);
    assert forall j :: 0 <= j < 32 ==>
      d[j] == s[if j < 8 then j else if j < 12 then j + 1 else if j < 16 then j + 2
                else if j < 20 then j + 3 else j + 4];
  }

  /** The groups of an encoding are the encodings of the byte groups. */
  lemma GroupsOfEncoding(u: UUID, d: string)
    requires HexEncode(u) == d
    ensures HexEncode(u[..4]) == d[..8] && HexEncode(u[4..6]) == d[8..12]
    ensures HexEncode(u[6..8]) == d[12..16] && HexEncode(u[8..10]) == d[16..20]
    ensures HexEncode(u[10..]) == d[20..]
  {
    EncodeGroups(u);
  }

  /** `u.String()` of a UUID parsed from lower-case canonical text gives
      that text back, so the parsed bytes are the ones the digits spell. */
  lemma ToStringParse(s: string)
    requires Parse(s).Some?
    requires forall i :: 0 <= i < 36 && i != 8 && i != 13 && i != 18 && i != 23 ==>
      IsLowerHexDigit(s[i])
    ensures ToString(Parse(s).value) == s
  {
    var d := Digits(s);
    DigitsLower(s);
    HexEncodeDecode(d);
    var u := Parse(s).value;
    assert u == HexDecode(d).value;
    GroupsOfEncoding(u, d);
    assert s == s[..8] + "-" + s[9..13] + "-" + s[14..18] + "-" + s[19..23] + "-" + s[24..];
  }
}
