/**
 * What the suite takes from the Java platform and that this model keeps
 * abstract: formatting and parsing of doubles and ints, UTF-8 encoding and
 * the HMAC-SHA256 primitive (RFC 2104 over SHA-256 of FIPS 180-4).
 */
module Platform {
  import opened Outcomes

  /** A Java `byte`: signed, -128..127. */
  newtype int8 = x: int | -128 <= x < 128

  /** An HMAC-SHA256 tag: 32 bytes. */
  type Digest = s: seq<int8> | |s| == 32 witness seq(32, i => 0)

  /** The platform functions, each an uninterpreted function value. */
  datatype Runtime = Runtime(
    format2: real -> string,               // String.format("%.2f", x)
    doubleText: real -> string,            // a double appended to a String (Double.toString)
    parseDouble: string -> Option<real>,   // Double.parseDouble; None = NumberFormatException
    parseInt: string -> Option<int>,       // Integer.parseInt; None = NumberFormatException
    utf8: string -> seq<int8>,             // String.getBytes(StandardCharsets.UTF_8)
    hmacSha256: (seq<int8>, seq<int8>) -> Digest  // Mac "HmacSHA256": key bytes, message bytes
  )
}
