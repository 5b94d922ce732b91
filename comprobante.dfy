/**
 * ComprobanteGenerator.generarHMAC: the HMAC-SHA256 tag of the message under
 * the key (both UTF-8 encoded), written as lowercase hexadecimal, two
 * characters per byte. The MAC itself is the platform's; the hex loop is
 * modelled as written.
 */
module Comprobante {
  import opened Outcomes
  import opened Platform

  /** `0xff & b`: a signed byte read as its unsigned value. */
  function Unsigned(b: int8): (u: nat)
    ensures u < 256
    ensures b >= 0 ==> u == b as int
    ensures b < 0 ==> u == b as int + 256
  {
    if b < 0 then b as int + 256 else b as int
  }

  /** The signed byte whose unsigned value is `u` (the cast `(byte) u`). */
  function ByteOf(u: nat): (b: int8)
    requires u < 256
    ensures Unsigned(b) == u
  {
    if u >= 128 then (u - 256) as int8 else u as int8
  }

  /** The high and the low four bits of a byte. */
  function High(b: int8): (d: nat)
    ensures d < 16
  {
    Unsigned(b) / 16
  }

  function Low(b: int8): (d: nat)
    ensures d < 16
  {
    Unsigned(b) % 16
  }

  lemma Nibbles(b: int8)
    ensures High(b) * 16 + Low(b) == Unsigned(b)
  {
  }

  predicate IsHexLower(c: char) {
    ('0' <= c <= '9') || ('a' <= c <= 'f')
  }

  /** The lowercase hexadecimal digit of `d`, as Integer.toHexString writes it. */
  function HexDigit(d: nat): (c: char)
    requires d < 16
    ensures IsHexLower(c)
  {
    if d < 10 then (('0' as int) + d) as char else (('a' as int) + d - 10) as char
  }

  /** The value of a lowercase hexadecimal digit. */
  function DigitValue(c: char): (d: nat)
    requires IsHexLower(c)
    ensures d < 16 && HexDigit(d) == c
  {
    if c <= '9' then (c as int) - ('0' as int) else (c as int) - ('a' as int) + 10
  }

  /** Integer.toHexString of a non-negative value: lowercase digits, no leading zeros. */
  function ToHexString(u: nat): (r: string)
    ensures r != []
    ensures forall k :: 0 <= k < |r| ==> IsHexLower(r[k])
  {
    if u < 16 then [HexDigit(u)] else ToHexString(u / 16) + [HexDigit(u % 16)]
  }

  /**
   * What one byte contributes: its hex string, padded with a '0' when it has
   * a single digit. That is always the high and the low nibble, in that order.
   */
  function HexPair(b: int8): (r: string)
    ensures r == [HexDigit(High(b)), HexDigit(Low(b))]
  {
    var h := ToHexString(Unsigned(b));
    HexStringOfByte(Unsigned(b));
    if |h| == 1 then "0" + h else h
  }

  /** Integer.toHexString of a value below 256: one digit below 16, two digits from 16 on. */
  lemma HexStringOfByte(u: nat)
    requires u < 256
    ensures u < 16 ==> ToHexString(u) == [HexDigit(u)] && u / 16 == 0 && HexDigit(0) == '0' && u % 16 == u
    ensures u >= 16 ==> ToHexString(u) == [HexDigit(u / 16), HexDigit(u % 16)]
  {
    if u >= 16 {
      assert ToHexString(u / 16) == [HexDigit(u / 16)];
    }
  }

  /** The hex text of a byte sequence: each byte's pair, in order. */
  function HexEncoding(bytes: seq<int8>): (r: string)
    ensures |r| == 2 * |bytes|
    ensures forall k :: 0 <= k < |r| ==> IsHexLower(r[k])
  {
    if bytes == [] then ""
    else HexEncoding(bytes[..|bytes| - 1]) + HexPair(bytes[|bytes| - 1])
  }

  lemma HexEncodingSnoc(bytes: seq<int8>, i: nat)
    requires i < |bytes|
    ensures HexEncoding(bytes[..i + 1]) == HexEncoding(bytes[..i]) + HexPair(bytes[i])
  {
    assert bytes[..i + 1][..i] == bytes[..i];
  }

  /** Characters 2i and 2i+1 of the hex text are the high and the low digit of byte i. */
  lemma {:induction false} HexEncodingPairs(bytes: seq<int8>)
    ensures forall i :: 0 <= i < |bytes| ==> PairAt(HexEncoding(bytes), i, bytes[i])
    decreases |bytes|
  {
    if bytes != [] {
      var front := bytes[..|bytes| - 1];
      HexEncodingPairs(front);
      PairsKept(HexEncoding(front), HexPair(bytes[|bytes| - 1]), front, bytes);
    }
  }

  /** Characters 2i and 2i+1 of `s` are the two digits of `b`. */
  ghost predicate PairAt(s: string, i: nat, b: int8) {
    2 * i + 1 < |s| && s[2 * i] == HexDigit(High(b)) && s[2 * i + 1] == HexDigit(Low(b))
  }

  lemma PairsKept(e: string, p: string, front: seq<int8>, bytes: seq<int8>)
    requires |e| == 2 * |front| && bytes != [] && front == bytes[..|bytes| - 1]
    requires forall i :: 0 <= i < |front| ==> PairAt(e, i, front[i])
    requires p == HexPair(bytes[|bytes| - 1])
    ensures forall i :: 0 <= i < |bytes| ==> PairAt(e + p, i, bytes[i])
  {
    forall i | 0 <= i < |bytes| ensures PairAt(e + p, i, bytes[i]) {
      if i < |front| {
        assert PairAt(e, i, front[i]);
        assert front[i] == bytes[i];
      } else {
        assert i == |front|;
      }
    }
  }

  /** Reads the hex text back, two characters per byte. */
  function DecodeHex(s: string): (bytes: seq<int8>)
    requires |s| % 2 == 0
    requires forall k :: 0 <= k < |s| ==> IsHexLower(s[k])
    ensures |bytes| == |s| / 2
  {
    if s == [] then []
    else
      var n := |s|;
      DecodeHex(s[..n - 2]) + [ByteOf(DigitValue(s[n - 2]) * 16 + DigitValue(s[n - 1]))]
  }

  /** Characters 2i and 2i+1 encode byte i, so decoding the hex gives the bytes back. */
  lemma {:induction false} DecodeHexEncoding(bytes: seq<int8>)
    ensures DecodeHex(HexEncoding(bytes)) == bytes
    decreases |bytes|
  {
    if bytes != [] {
      var n := |bytes|;
      var front, b := bytes[..n - 1], bytes[n - 1];
      assert bytes == front + [b];
      DecodeHexEncoding(front);
      DecodeHexSnoc(HexEncoding(front), b);
    }
  }

  /** Decoding the hex text with one more byte's pair appended gives that byte at the end. */
  lemma DecodeHexSnoc(e: string, b: int8)
    requires |e| % 2 == 0
    requires forall k :: 0 <= k < |e| ==> IsHexLower(e[k])
    ensures DecodeHex(e + HexPair(b)) == DecodeHex(e) + [b]
  {
    var hi, lo := HexDigit(High(b)), HexDigit(Low(b));
    assert e + HexPair(b) == e + [hi, lo];
    DecodeHexAppend(e, hi, lo);
    assert ByteOf(DigitValue(hi) * 16 + DigitValue(lo)) == b by {
      PairValue(b);
    }
  }

  /** Unfolds DecodeHex once: the last two characters are the last byte. */
  lemma DecodeHexLast(s: string)
    requires |s| >= 2 && |s| % 2 == 0
    requires forall k :: 0 <= k < |s| ==> IsHexLower(s[k])
    ensures DecodeHex(s) == DecodeHex(s[..|s| - 2]) + [ByteOf(DigitValue(s[|s| - 2]) * 16 + DigitValue(s[|s| - 1]))]
  {
  }

  /** Two more hex digits at the end of the text decode to one more byte. */
  lemma DecodeHexAppend(e: string, hi: char, lo: char)
    requires |e| % 2 == 0
    requires forall k :: 0 <= k < |e| ==> IsHexLower(e[k])
    requires IsHexLower(hi) && IsHexLower(lo)
    ensures forall k :: 0 <= k < |e| + 2 ==> IsHexLower((e + [hi, lo])[k])
    ensures DecodeHex(e + [hi, lo]) == DecodeHex(e) + [ByteOf(DigitValue(hi) * 16 + DigitValue(lo))]
  {
    var s := e + [hi, lo];
    forall k | 0 <= k < |s| ensures IsHexLower(s[k]) {
      if k < |e| { assert s[k] == e[k]; }
    }
    calc {
      DecodeHex(s);
      == { DecodeHexLast(s); }
      DecodeHex(s[..|s| - 2]) + [ByteOf(DigitValue(s[|s| - 2]) * 16 + DigitValue(s[|s| - 1]))];
      == { assert s[..|s| - 2] == e; }
      DecodeHex(e) + [ByteOf(DigitValue(s[|s| - 2]) * 16 + DigitValue(s[|s| - 1]))];
      == { assert s[|s| - 2] == hi && s[|s| - 1] == lo; }
      DecodeHex(e) + [ByteOf(DigitValue(hi) * 16 + DigitValue(lo))];
    }
  }

  /** The two digits of a byte's pair read back as that byte. */
  lemma PairValue(b: int8)
    ensures ByteOf(DigitValue(HexDigit(High(b))) * 16 + DigitValue(HexDigit(Low(b)))) == b
  {
    DigitRoundTrip(High(b));
    DigitRoundTrip(Low(b));
    ByteRoundTrip(b);
  }

  lemma DigitRoundTrip(d: nat)
    requires d < 16
    ensures DigitValue(HexDigit(d)) == d
  {
  }

  /** Reassembling a byte from its two nibbles gives the byte. */
  lemma ByteRoundTrip(b: int8)
    ensures ByteOf(High(b) * 16 + Low(b)) == b
  {
    Nibbles(b);
  }

  /** A byte below 16 is written with a leading '0'; every byte takes exactly two characters. */
  lemma PaddedByte(b: int8)
    ensures |HexPair(b)| == 2
    ensures Unsigned(b) < 16 ==> HexPair(b)[0] == '0'
  {
  }

  /** The secret the invoices are signed with; it is not empty, so generarHMAC never refuses it. */
  const ClaveFactura: string := "llave-secreta-puravida"

  /** The integrity code of `mensaje` under `clave`: the hex text of the MAC over their UTF-8 bytes. */
  function CodigoControl(mensaje: string, clave: string, rt: Runtime): (code: string)
    ensures |code| == 64
    ensures forall k :: 0 <= k < |code| ==> IsHexLower(code[k])
  {
    HexEncoding(rt.hmacSha256(rt.utf8(clave), rt.utf8(mensaje)))
  }

  /**
   * generarHMAC: an empty key is refused (new SecretKeySpec throws
   * IllegalArgumentException on no key bytes, and UTF-8 gives no bytes
   * exactly for the empty string); otherwise the tag's bytes are turned to
   * hex one at a time, as the for loop does.
   */
  method GenerarHmac(mensaje: string, claveSecreta: string, rt: Runtime) returns (r: Result<string>)
    ensures claveSecreta == "" <==> r.Failure?
    ensures r.Failure? ==> r.error == ArgumentoInvalido(ClaveVacia)
    ensures r.Success? ==> r.value == CodigoControl(mensaje, claveSecreta, rt)
    ensures r.Success? ==> |r.value| == 64 && DecodeHex(r.value) == rt.hmacSha256(rt.utf8(claveSecreta), rt.utf8(mensaje))
  {
    if claveSecreta == "" {
      return Failure(ArgumentoInvalido(ClaveVacia));
    }
    var hmacBytes := rt.hmacSha256(rt.utf8(claveSecreta), rt.utf8(mensaje));
    var hex := "";
    for i := 0 to |hmacBytes|
      invariant hex == HexEncoding(hmacBytes[..i])
    {
      var b := hmacBytes[i];
      ghost var before := hex;
      var h := ToHexString(Unsigned(b));
      if |h| == 1 {
        hex := hex + "0";
      }
      hex := hex + h;
      assert hex == before + HexPair(b);
      HexEncodingSnoc(hmacBytes, i);
    }
    assert hex == HexEncoding(hmacBytes) by {
      assert hmacBytes[..|hmacBytes|] == hmacBytes;
    }
    DecodeHexEncoding(hmacBytes);
    r := Success(hex);
  }
}
