/**
 * Query-component escaping as url.QueryEscape does it: percent-encoding
 * (section 2.1 of RFC 3986) with the form-encoding rule that a space becomes
 * '+', and its inverse url.QueryUnescape. Only the unreserved bytes of
 * section 2.3 of RFC 3986 pass through unchanged.
 */
module UrlEscape {
  import opened Wrappers
  import opened GoStrings

  /** ALPHA / DIGIT / "-" / "." / "_" / "~": the bytes QueryEscape keeps. */
  predicate IsUnreserved(b: byte) {
    || 97 <= b <= 122   // a-z
    || 65 <= b <= 90    // A-Z
    || 48 <= b <= 57    // 0-9
    || b == 45 || b == 46 || b == 95 || b == 126   // - . _ ~
  }

  /** A hexadecimal digit in either case, as the unescaper accepts them. */
  predicate IsHex(b: byte) {
    48 <= b <= 57 || 65 <= b <= 70 || 97 <= b <= 102
  }

  /** The value of a hexadecimal digit. */
  function Unhex(b: byte): (n: nat)
    requires IsHex(b)
    ensures n < 16
  {
    if b <= 57 then (b - 48) as nat
    else if b <= 70 then (b - 55) as nat
    else (b - 87) as nat
  }

  /** The upper-case digit the escaper writes for a nibble; Unhex reads it back. */
  function HexDigit(n: nat): (d: byte)
    requires n < 16
    ensures IsHex(d) && Unhex(d) == n
    ensures 48 <= d <= 57 || 65 <= d <= 70
  {
    if n < 10 then (48 + n) as byte else (55 + n) as byte
  }

  /** The bytes one input byte becomes. */
  function EscapeByte(b: byte): (r: Str)
    ensures 1 <= |r| <= 3
    ensures AMP !in r && EQ !in r && SEMI !in r
  {
    if IsUnreserved(b) then [b]
    else if b == SP then [PLUS]
    else [PCT, HexDigit(b as nat / 16), HexDigit(b as nat % 16)]
  }

  /**
   * url.QueryEscape: every byte escaped in turn. The output never holds the
   * bytes that separate query pairs ('&') or a key from its value ('='), and
   * it is at least as long and at most three times as long as the input.
   */
  function QueryEscape(s: Str): (r: Str)
    ensures AMP !in r && EQ !in r
    ensures |s| <= |r| <= 3 * |s|
  {
    if s == [] then [] else EscapeByte(s[0]) + QueryEscape(s[1..])
  }

  /**
   * url.QueryUnescape: "%XY" with two hexadecimal digits becomes the byte
   * 0xXY, '+' becomes a space, every other byte stands for itself; a '%' not
   * followed by two hexadecimal digits is an error.
   */
  function QueryUnescape(s: Str): (r: Option<Str>)
    ensures r.Some? ==> |r.value| <= |s|
  {
    if s == [] then Some([])
    else if s[0] == PCT then
      if |s| < 3 || !IsHex(s[1]) || !IsHex(s[2]) then None
      else
        match QueryUnescape(s[3..])
        case None => None
        case Some(t) => Some([(Unhex(s[1]) * 16 + Unhex(s[2])) as byte] + t)
    else
      match QueryUnescape(s[1..])
      case None => None
      case Some(t) => Some([if s[0] == PLUS then SP else s[0]] + t)
  }

  /** Unescaping the escape of one byte in front of any text puts that byte back in front. */
  lemma UnescapeByte(b: byte, t: Str)
    ensures QueryUnescape(EscapeByte(b) + t) ==
      match QueryUnescape(t)
      case None => None
      case Some(u) => Some([b] + u)
  {
    var e := EscapeByte(b);
    if IsUnreserved(b) {
      assert (e + t)[1..] == t;
    } else if b == SP {
      assert (e + t)[1..] == t;
    } else {
      assert (e + t)[3..] == t;
      assert Unhex(e[1]) * 16 + Unhex(e[2]) == b as nat;
    }
  }

  /** QueryUnescape inverts QueryEscape on every byte string. */
  lemma {:induction false} UnescapeEscape(s: Str)
    ensures QueryUnescape(QueryEscape(s)) == Some(s)
  {
    if s != [] {
      UnescapeEscape(s[1..]);
      UnescapeByte(s[0], QueryEscape(s[1..]));
      assert [s[0]] + s[1..] == s;
    }
  }

  /** Escaping is injective: distinct keys or values stay distinct once escaped. */
  lemma EscapeInjective(s: Str, t: Str)
    ensures QueryEscape(s) == QueryEscape(t) ==> s == t
  {
    UnescapeEscape(s);
    UnescapeEscape(t);
  }
}
