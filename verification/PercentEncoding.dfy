/** `encodeURIComponent` and `decodeURIComponent`: percent-encoding (section 2.1 of RFC 3986) of the UTF-8
    bytes of a text. A surrogate among the code points of a text is a lone one, which UTF-8 cannot express
    and on which encoding throws. `None` is a `URIError`. */
module PercentEncoding {
  import opened CodePoints
  import opened Wrappers

  const PERCENT: CodePoint := 0x25

  predicate IsScalar(c: CodePoint) { c < 0xD800 || 0xDFFF < c }

  predicate WellFormed(s: Text) { forall k | 0 <= k < |s| :: IsScalar(s[k]) }

  /** Letters, digits and `-_.!~*'()`, which are left as they are. */
  predicate IsUnreserved(c: CodePoint) {
    || 0x30 <= c <= 0x39
    || 0x41 <= c <= 0x5A
    || 0x61 <= c <= 0x7A
    || c == 0x2D || c == 0x5F || c == 0x2E || c == 0x21 || c == 0x7E || c == 0x2A || c == 0x27 || c == 0x28 || c == 0x29
  }

  // ----- Encoding -----

  function Utf8(c: CodePoint): (bytes: seq<int>)
    ensures 1 <= |bytes| <= 4
    ensures forall k | 0 <= k < |bytes| :: 0 <= bytes[k] < 0x100
  {
    if c < 0x80 then [c]
    else if c < 0x800 then [0xC0 + c / 0x40, 0x80 + c % 0x40]
    else if c < 0x10000 then [0xE0 + c / 0x1000, 0x80 + c / 0x40 % 0x40, 0x80 + c % 0x40]
    else [0xF0 + c / 0x40000, 0x80 + c / 0x1000 % 0x40, 0x80 + c / 0x40 % 0x40, 0x80 + c % 0x40]
  }

  function HexDigit(n: int): CodePoint
    requires 0 <= n < 16
  {
    if n < 10 then 0x30 + n else 0x41 + n - 10
  }

  function Escape(bytes: seq<int>): Text
    requires forall k | 0 <= k < |bytes| :: 0 <= bytes[k] < 0x100
  {
    if bytes == [] then []
    else [PERCENT, HexDigit(bytes[0] / 16), HexDigit(bytes[0] % 16)] + Escape(bytes[1..])
  }

  function EncodeOne(c: CodePoint): Text {
    if IsUnreserved(c) then [c] else Escape(Utf8(c))
  }

  function Encode(s: Text): Option<Text> {
    if s == [] then Some([])
    else if !IsScalar(s[0]) then None
    else
      var rest := Encode(s[1..]);
      if rest.None? then None else Some(EncodeOne(s[0]) + rest.value)
  }

  // ----- Decoding -----

  /** The escaped byte `s` starts with. */
  function FirstByte(s: Text): Option<int> {
    if |s| < 3 || s[0] != PERCENT || HexValue(s[1]).None? || HexValue(s[2]).None? then None
    else Some(16 * HexValue(s[1]).value + HexValue(s[2]).value)
  }

  function FirstBytes(s: Text, n: nat): (r: Option<seq<int>>)
    ensures r.Some? ==> |r.value| == n && |s| >= 3 * n
  {
    if n == 0 then Some([])
    else if FirstByte(s).None? then None
    else
      var rest := FirstBytes(s[3..], n - 1);
      if rest.None? then None else Some([FirstByte(s).value] + rest.value)
  }

  /** How many bytes a sequence that starts with `lead` has, 0 if none may. */
  function SequenceLength(lead: int): nat {
    if 0 <= lead < 0x80 then 1
    else if 0xC0 <= lead < 0xE0 then 2
    else if 0xE0 <= lead < 0xF0 then 3
    else if 0xF0 <= lead < 0xF8 then 4
    else 0
  }

  predicate IsContinuation(b: int) { 0x80 <= b < 0xC0 }

  /** No overlong form, no surrogate, nothing above U+10FFFF. */
  function FromUtf8(bytes: seq<int>): (c: Option<CodePoint>)
    ensures c.Some? ==> IsScalar(c.value)
  {
    if |bytes| == 1 && 0 <= bytes[0] < 0x80 then Some(bytes[0])
    else if |bytes| == 2 && IsContinuation(bytes[1]) then
      InRange(0x80, (bytes[0] - 0xC0) * 0x40 + bytes[1] - 0x80)
    else if |bytes| == 3 && IsContinuation(bytes[1]) && IsContinuation(bytes[2]) then
      InRange(0x800, (bytes[0] - 0xE0) * 0x1000 + (bytes[1] - 0x80) * 0x40 + bytes[2] - 0x80)
    else if |bytes| == 4 && IsContinuation(bytes[1]) && IsContinuation(bytes[2]) && IsContinuation(bytes[3]) then
      InRange(0x10000, (bytes[0] - 0xF0) * 0x40000 + (bytes[1] - 0x80) * 0x1000 +
                       (bytes[2] - 0x80) * 0x40 + bytes[3] - 0x80)
    else None
  }

  function InRange(least: int, c: int): (r: Option<CodePoint>)
    requires 0 <= least
    ensures r.Some? ==> IsScalar(r.value)
  {
    if least <= c < 0x110000 && IsScalar(c) then Some(c) else None
  }

  /** The first code point of what `s` encodes, and how much of `s` encodes it. */
  function DecodeOne(s: Text): (r: Option<(CodePoint, nat)>)
    requires s != []
    ensures r.Some? ==> 0 < r.value.1 <= |s|
  {
    if s[0] != PERCENT then Some((s[0], 1))
    else if FirstByte(s).None? then None
    else
      var n := SequenceLength(FirstByte(s).value);
      var bytes := FirstBytes(s, n);
      if n == 0 || bytes.None? || FromUtf8(bytes.value).None? then None
      else Some((FromUtf8(bytes.value).value, 3 * n))
  }

  function Decode(s: Text): Option<Text> {
    if s == [] then Some([])
    else
      var one := DecodeOne(s);
      if one.None? then None
      else
        var rest := Decode(s[one.value.1..]);
        if rest.None? then None else Some([one.value.0] + rest.value)
  }

  // ----- Decoding undoes encoding -----

  /** The base-64 digits of a code point. */
  lemma Digits(c: int)
    requires 0 <= c
    ensures c == c / 0x1000 * 0x1000 + c / 0x40 % 0x40 * 0x40 + c % 0x40
    ensures c == c / 0x40000 * 0x40000 + c / 0x1000 % 0x40 * 0x1000 + c / 0x40 % 0x40 * 0x40 + c % 0x40
  {
    assert c / 0x1000 == c / 0x40 / 0x40;
    assert c / 0x40000 == c / 0x1000 / 0x40;
  }

  lemma FromUtf8OfUtf8(c: CodePoint)
    requires IsScalar(c)
    ensures FromUtf8(Utf8(c)) == Some(c) && SequenceLength(Utf8(c)[0]) == |Utf8(c)|
  {
    Digits(c);
    if 0x10000 <= c {
      assert 0xF0 <= Utf8(c)[0] < 0xF8;
    }
  }

  lemma HexDigitReads(n: int)
    requires 0 <= n < 16
    ensures HexValue(HexDigit(n)) == Some(n) && IsUnreserved(HexDigit(n))
  {
  }

  lemma {:induction false} FirstBytesOfEscape(bytes: seq<int>, rest: Text)
    requires forall k | 0 <= k < |bytes| :: 0 <= bytes[k] < 0x100
    ensures |Escape(bytes)| == 3 * |bytes| && FirstBytes(Escape(bytes) + rest, |bytes|) == Some(bytes)
    ensures bytes != [] ==> FirstByte(Escape(bytes) + rest) == Some(bytes[0]) && Escape(bytes)[0] == PERCENT
  {
    if bytes != [] {
      HexDigitReads(bytes[0] / 16);
      HexDigitReads(bytes[0] % 16);
      FirstBytesOfEscape(bytes[1..], rest);
      assert (Escape(bytes) + rest)[3..] == Escape(bytes[1..]) + rest;
      assert [bytes[0]] + bytes[1..] == bytes;
    }
  }

  lemma DecodeOneOfEncodeOne(c: CodePoint, rest: Text)
    requires IsScalar(c)
    ensures EncodeOne(c) != [] && DecodeOne(EncodeOne(c) + rest) == Some((c, |EncodeOne(c)|))
  {
    if !IsUnreserved(c) {
      FromUtf8OfUtf8(c);
      FirstBytesOfEscape(Utf8(c), rest);
    }
  }

  lemma {:induction false} EncodeSucceeds(s: Text)
    ensures Encode(s).Some? <==> WellFormed(s)
  {
    if s != [] {
      EncodeSucceeds(s[1..]);
      assert forall k | 0 < k < |s| :: s[k] == s[1..][k - 1];
    }
  }

  lemma {:induction false} DecodeOfEncode(s: Text)
    requires Encode(s).Some?
    ensures Decode(Encode(s).value) == Some(s)
  {
    if s != [] {
      var rest := Encode(s[1..]).value;
      DecodeOfEncode(s[1..]);
      DecodeOneOfEncodeOne(s[0], rest);
      assert (EncodeOne(s[0]) + rest)[|EncodeOne(s[0])|..] == rest;
      assert [s[0]] + s[1..] == s;
    }
  }

  /** Encoding succeeds exactly on text without lone surrogates, and decoding gives that text back. */
  lemma EncodeRoundTrip(s: Text)
    ensures Encode(s).Some? <==> WellFormed(s)
    ensures Encode(s).Some? ==> Decode(Encode(s).value) == Some(s)
  {
    EncodeSucceeds(s);
    if Encode(s).Some? {
      DecodeOfEncode(s);
    }
  }

  lemma {:induction false} EscapedIsPlain(bytes: seq<int>)
    requires forall k | 0 <= k < |bytes| :: 0 <= bytes[k] < 0x100
    ensures forall k | 0 <= k < |Escape(bytes)| :: Escape(bytes)[k] == PERCENT || IsUnreserved(Escape(bytes)[k])
  {
    if bytes != [] {
      EscapedIsPlain(bytes[1..]);
      HexDigitReads(bytes[0] / 16);
      HexDigitReads(bytes[0] % 16);
    }
  }

  /** Encoded text holds nothing but unreserved characters and `%`, so none of a URL's delimiters. */
  lemma {:induction false} EncodedIsPlain(s: Text)
    requires Encode(s).Some?
    ensures forall k | 0 <= k < |Encode(s).value| :: Encode(s).value[k] == PERCENT || IsUnreserved(Encode(s).value[k])
  {
    if s != [] {
      EncodedIsPlain(s[1..]);
      EscapedIsPlain(Utf8(s[0]));
    }
  }

  /** A letter, a digit or one of the marks. */
  predicate IsPlainChar(c: char) {
    'A' <= c <= 'Z' || 'a' <= c <= 'z' || '0' <= c <= '9' || c in "-_.!~*'()"
  }

  predicate IsLeftAlone(c: CodePoint) { exists ch: char :: ch as int == c && IsPlainChar(ch) }

  predicate IsHexChar(c: char) { '0' <= c <= '9' || 'A' <= c <= 'F' }

  predicate IsUpperHex(c: CodePoint) { exists ch: char :: ch as int == c && IsHexChar(ch) }

  /** An escaped byte: a percent sign and two digits, in upper case. */
  predicate IsEscapedByte(s: Text) { |s| == 3 && s[0] == PERCENT && IsUpperHex(s[1]) && IsUpperHex(s[2]) }

  lemma LeftAloneAre(c: CodePoint)
    ensures IsUnreserved(c) <==> IsLeftAlone(c)
  {
    if IsUnreserved(c) {
      var ch := c as char;
      assert ch as int == c && IsPlainChar(ch);
    }
  }

  lemma HexDigitIs(n: int)
    requires 0 <= n < 16
    ensures IsUpperHex(HexDigit(n))
  {
    var ch := HexDigit(n) as char;
    assert ch as int == HexDigit(n) && IsHexChar(ch);
  }

  lemma {:induction false} EscapedByBytes(bytes: seq<int>, k: nat)
    requires (forall j | 0 <= j < |bytes| :: 0 <= bytes[j] < 0x100) && k < |bytes|
    ensures |Escape(bytes)| == 3 * |bytes| && IsEscapedByte(Escape(bytes)[3 * k..3 * k + 3])
  {
    FirstBytesOfEscape(bytes, []);
    if k == 0 {
      HexDigitIs(bytes[0] / 16);
      HexDigitIs(bytes[0] % 16);
    } else {
      EscapedByBytes(bytes[1..], k - 1);
      assert Escape(bytes)[3 * k..3 * k + 3] == Escape(bytes[1..])[3 * k - 3..3 * k];
    }
  }

  /** A character is left alone exactly if it is one of these; of any other, each byte is escaped. */
  lemma EncodedCharacter(c: CodePoint, k: nat)
    ensures EncodeOne(c) == [c] <==> IsLeftAlone(c)
    ensures !IsLeftAlone(c) && k < |Utf8(c)| ==>
              |EncodeOne(c)| == 3 * |Utf8(c)| && IsEscapedByte(EncodeOne(c)[3 * k..3 * k + 3])
  {
    LeftAloneAre(c);
    if !IsUnreserved(c) {
      FirstBytesOfEscape(Utf8(c), []);
      if k < |Utf8(c)| {
        EscapedByBytes(Utf8(c), k);
      }
    }
  }

  /** Digits of escapes are read in either case, and nothing else is a digit. */
  lemma HexIsCaseBlind(n: nat, c: CodePoint)
    ensures HexValue(c) == Some(n) <==> n < 16 && (c == HexDigit(n) || (n >= 10 && c == HexDigit(n) + 32))
  {
  }

  /** Text without a percent sign decodes to itself; `+` in particular is no space. */
  lemma {:induction false} OthersAreThemselves(s: Text)
    requires PERCENT !in s
    ensures Decode(s) == Some(s)
  {
    if s != [] {
      OthersAreThemselves(s[1..]);
      assert [s[0]] + s[1..] == s;
    }
  }

  /** Whatever decodes from well-formed text can be encoded again. */
  lemma {:induction false} DecodedIsWellFormed(s: Text)
    requires WellFormed(s) && Decode(s).Some?
    ensures WellFormed(Decode(s).value)
    decreases |s|
  {
    if s != [] {
      var (c, n) := DecodeOne(s).value;
      assert IsScalar(c);
      DecodedIsWellFormed(s[n..]);
    }
  }
}
