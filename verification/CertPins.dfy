/** Parsing and printing the pinned certificate fingerprint: 32 bytes as 64 hexadecimal digits. */
module CertPins {
  import opened Prelude

  const PIN_BYTES := 32

  predicate IsSeparator(c: bv8) {
    c == 9 || c == 10 || c == 12 || c == 13 || c == 32 || c == 58  // ASCII whitespace and ':'
  }

  /** The text without tabs, line feeds, form feeds, carriage returns, spaces and colons. */
  function Cleaned(s: seq<bv8>): seq<bv8> {
    Retain(c => !(c == 0x09 || c == 0x0A || c == 0x0C || c == 0x0D || c == 0x20 || c == 0x3A), s)
  }

  method Clean(s: seq<bv8>) returns (cleaned: seq<bv8>)
    ensures cleaned == Cleaned(s)
  {
    cleaned := Retain(c => !IsSeparator(c), s);
    RetainSame(c => !IsSeparator(c), c => !(c == 0x09 || c == 0x0A || c == 0x0C || c == 0x0D || c == 0x20 || c == 0x3A), s);
  }

  /** The sixteen digits "0123456789abcdef". */
  ghost const DIGITS: seq<bv8> := [48, 49, 50, 51, 52, 53, 54, 55, 56, 57, 97, 98, 99, 100, 101, 102]

  /** Digits '0' to '9' are 48 to 57, 'A' to 'F' 65 to 70, 'a' to 'f' 97 to 102. */
  predicate IsHexDigit(c: bv8) {
    48 <= c <= 57 || 65 <= c <= 70 || 97 <= c <= 102
  }

  function HexVal(c: bv8): (r: Option<bv8>)
    ensures r.Some? <==> IsHexDigit(c)
    ensures r.Some? ==> r.value < 16 && HexDigit(r.value) == ToLower(c)
  {
    if 48 <= c <= 57 then Some(c - 48)
    else if 97 <= c <= 102 then Some(c - 97 + 10)
    else if 65 <= c <= 70 then Some(c - 65 + 10)
    else None
  }

  function HexDigit(n: bv8): bv8
    requires n < 16
  {
    if n < 10 then 48 + n else 87 + n
  }

  function ToLower(c: bv8): bv8 {
    if 65 <= c <= 90 then c + 32 else c
  }

  /** Digit `i` of the lower-case rendering: high nibble first. */
  function DigitAt(bytes: seq<bv8>, i: nat): bv8
    requires i < 2 * |bytes|
  {
    if i % 2 == 0 then HexDigit(bytes[i / 2] >> 4) else HexDigit(bytes[i / 2] & 15)
  }

  function Hex(bytes: seq<bv8>): seq<bv8> {
    seq(2 * |bytes|, i requires 0 <= i < 2 * |bytes| => DigitAt(bytes, i))
  }

  method HexEncode(bytes: seq<bv8>) returns (s: seq<bv8>)
    ensures s == Hex(bytes)
  {
    s := [];
    for k := 0 to |bytes|
      invariant |s| == 2 * k
      invariant forall i :: 0 <= i < 2 * k ==> s[i] == DigitAt(bytes, i)
    {
      s := s + [HexDigit(bytes[k] >> 4), HexDigit(bytes[k] & 15)];
      assert (2 * k) / 2 == k && (2 * k + 1) / 2 == k;
    }
  }

  /** The printed form, digit by digit: high nibble first. */
  lemma DigitsOfByte(bytes: seq<bv8>, k: nat)
    requires k < |bytes|
    ensures (bytes[k] >> 4) < 16 && (bytes[k] & 15) < 16
    ensures Hex(bytes)[2 * k] == DIGITS[(bytes[k] >> 4) as int]
    ensures Hex(bytes)[2 * k + 1] == DIGITS[(bytes[k] & 15) as int]
  {
    assert (2 * k) / 2 == k && (2 * k + 1) / 2 == k;
    DigitIs(bytes[k] >> 4);
    DigitIs(bytes[k] & 15);
  }

  lemma DigitIs(n: bv8)
    requires n < 16
    ensures 0 <= n as int < 16 && HexDigit(n) == DIGITS[n as int]
  {
  }

  datatype PinResult = Ok(pin: seq<bv8>) | BadLength(got: nat) | BadDigit(digit: bv8)

  /** The parser accepts exactly 64 hexadecimal digits, in either case and with any separators, and
      what it returns prints as those digits in lower case. */
  method ParseCertPin(s: seq<bv8>) returns (r: PinResult)
    ensures r.Ok? <==> |Cleaned(s)| == 64 && forall c :: c in Cleaned(s) ==> IsHexDigit(c)
    ensures r.Ok? ==> |r.pin| == PIN_BYTES && Hex(r.pin) == seq(64, i requires 0 <= i < 64 => ToLower(Cleaned(s)[i]))
    ensures r.BadLength? <==> |Cleaned(s)| != 64
    ensures r.BadLength? ==> r.got == |Cleaned(s)|
    ensures r.BadDigit? ==> exists k :: 0 <= k < 64 && r.digit == Cleaned(s)[k] && !IsHexDigit(r.digit)
                                        && forall m :: 0 <= m < k ==> IsHexDigit(Cleaned(s)[m])
  {
    hide Cleaned, Hex, Printed, IsHexDigit, ToLower;
    var cleaned := Clean(s);
    if |cleaned| != 64 {
      return BadLength(|cleaned|);
    }
    var out := new bv8[32];
    NothingPrinted(cleaned);
    for i := 0 to 32
      invariant Printed(out[..i], cleaned)
    {
      ghost var done := out[..i];
      var hi := HexVal(cleaned[i * 2]);
      if hi.None? {
        FirstBad(done, cleaned, i * 2);
        return BadDigit(cleaned[i * 2]);
      }
      var lo := HexVal(cleaned[i * 2 + 1]);
      if lo.None? {
        FirstBad(done, cleaned, i * 2 + 1);
        return BadDigit(cleaned[i * 2 + 1]);
      }
      out[i] := (hi.value << 4) | lo.value;
      PrintedSnoc(done, cleaned, hi.value, lo.value);
      assert out[..i + 1] == done + [out[i]];
    }
    assert out[..32] == out[..];
    AllPrinted(out[..], cleaned);
    return Ok(out[..]);
  }

  /** The bytes print as the first digits of the text. */
  ghost predicate Printed(bytes: seq<bv8>, text: seq<bv8>) {
    2 * |bytes| <= |text| &&
    forall m :: 0 <= m < 2 * |bytes| ==> IsHexDigit(text[m]) && DigitAt(bytes, m) == ToLower(text[m])
  }

  lemma NothingPrinted(text: seq<bv8>)
    ensures Printed([], text)
  {
  }

  lemma PrintedSnoc(bytes: seq<bv8>, text: seq<bv8>, hi: bv8, lo: bv8)
    requires Printed(bytes, text) && 2 * |bytes| + 1 < |text|
    requires HexVal(text[2 * |bytes|]) == Some(hi) && HexVal(text[2 * |bytes| + 1]) == Some(lo)
    ensures Printed(bytes + [(hi << 4) | lo], text)
  {
    var k, all := |bytes|, bytes + [(hi << 4) | lo];
    NibblesJoin(hi, lo);
    forall m | 0 <= m < 2 * |all|
      ensures IsHexDigit(text[m]) && DigitAt(all, m) == ToLower(text[m])
    {
      if m < 2 * k {
        assert DigitAt(all, m) == DigitAt(bytes, m);
      } else {
        assert m / 2 == k;
      }
    }
  }

  /** The digit at `k`, with nothing wrong before it. */
  lemma FirstBad(bytes: seq<bv8>, text: seq<bv8>, k: nat)
    requires Printed(bytes, text) && k < |text| == 64 && !IsHexDigit(text[k])
    requires k == 2 * |bytes| || (k == 2 * |bytes| + 1 && IsHexDigit(text[k - 1]))
    ensures !(forall c :: c in text ==> IsHexDigit(c))
    ensures exists j :: 0 <= j < 64 && text[k] == text[j] && !IsHexDigit(text[k]) && forall m :: 0 <= m < j ==> IsHexDigit(text[m])
  {
    assert text[k] in text;
    assert forall m :: 0 <= m < k ==> IsHexDigit(text[m]);
  }

  lemma AllPrinted(bytes: seq<bv8>, text: seq<bv8>)
    requires Printed(bytes, text) && |bytes| == 32 && |text| == 64
    ensures forall c :: c in text ==> IsHexDigit(c)
    ensures Hex(bytes) == seq(64, i requires 0 <= i < 64 => ToLower(text[i]))
  {
    forall c | c in text
      ensures IsHexDigit(c)
    {
      var m :| 0 <= m < 64 && text[m] == c;
    }
  }

  lemma NibblesJoin(hi: bv8, lo: bv8)
    requires hi < 16 && lo < 16
    ensures ((hi << 4) | lo) >> 4 == hi && ((hi << 4) | lo) & 15 == lo
  {
  }

  /** Printing is injective, so the pin is determined by its digits. */
  lemma HexInjective(a: seq<bv8>, b: seq<bv8>)
    requires Hex(a) == Hex(b)
    ensures a == b
  {
    assert 2 * |a| == |Hex(a)| == |Hex(b)| == 2 * |b|;
    forall k | 0 <= k < |a|
      ensures a[k] == b[k]
    {
      assert Hex(a)[2 * k] == DigitAt(a, 2 * k) == HexDigit(a[k] >> 4);
      assert Hex(b)[2 * k] == DigitAt(b, 2 * k) == HexDigit(b[k] >> 4);
      assert (2 * k + 1) / 2 == k;
      assert Hex(a)[2 * k + 1] == DigitAt(a, 2 * k + 1) == HexDigit(a[k] & 15);
      assert Hex(b)[2 * k + 1] == DigitAt(b, 2 * k + 1) == HexDigit(b[k] & 15);
      ByteFromNibbles(a[k], b[k]);
    }
  }

  lemma ByteFromNibbles(x: bv8, y: bv8)
    requires HexDigit(x >> 4) == HexDigit(y >> 4) && HexDigit(x & 15) == HexDigit(y & 15)
    ensures x == y
  {
  }

  /** The printed form of any 32 bytes parses back to them. */
  method RoundTrip(pin: seq<bv8>) returns (r: PinResult)
    requires |pin| == PIN_BYTES
    ensures r == Ok(pin)
  {
    var digits := HexEncode(pin);
    r := ParseCertPin(digits);
    HexIsClean(pin);
    assert forall i :: 0 <= i < 64 ==> ToLower(Hex(pin)[i]) == Hex(pin)[i];
    assert Hex(r.pin) == Hex(pin);
    HexInjective(r.pin, pin);
  }

  lemma NoSeparators(s: seq<bv8>)
    requires forall i :: 0 <= i < |s| ==> IsHexDigit(s[i])
    ensures forall c :: c in s ==> !(c == 0x09 || c == 0x0A || c == 0x0C || c == 0x0D || c == 0x20 || c == 0x3A)
  {
  }

  lemma HexIsClean(bytes: seq<bv8>)
    ensures Cleaned(Hex(bytes)) == Hex(bytes)
    ensures forall c :: c in Hex(bytes) ==> IsHexDigit(c) && ToLower(c) == c
  {
    forall i | 0 <= i < 2 * |bytes|
      ensures IsHexDigit(Hex(bytes)[i]) && ToLower(Hex(bytes)[i]) == Hex(bytes)[i]
    {
      var b := bytes[i / 2];
      assert b >> 4 < 16 && b & 15 < 16;
    }
    NoSeparators(Hex(bytes));
    hide Hex;
    RetainMembers(c => !(c == 0x09 || c == 0x0A || c == 0x0C || c == 0x0D || c == 0x20 || c == 0x3A), Hex(bytes));
  }
}
