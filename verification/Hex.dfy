/**
 Base 16 (section 8 of RFC 4648) as Crypto++'s HexEncoder and HexDecoder do it:
 upper-case digits on output; on input either case, with every other character
 skipped and an odd last digit dropped.
 */
module Hex {
  import opened Text

  type nibble = n: nat | n < 16

  function Digit(n: nibble): (c: byte)
    ensures Value(c) == Some(n) && IsUpperHex(c)
  {
    if n < 10 then ('0' as int + n) as char else ('A' as int + n - 10) as char
  }

  predicate IsUpperHex(c: byte) { '0' <= c <= '9' || 'A' <= c <= 'F' }

  function Value(c: byte): Option<nibble> {
    if '0' <= c <= '9' then Some(c as int - '0' as int)
    else if 'A' <= c <= 'F' then Some(c as int - 'A' as int + 10)
    else if 'a' <= c <= 'f' then Some(c as int - 'a' as int + 10)
    else None
  }

  function Encode(s: Bytes): (r: Bytes)
    ensures |r| == 2 * |s|
    ensures forall i :: 0 <= i < |r| ==> IsUpperHex(r[i])
  {
    if s == [] then []
    else [Digit(s[0] as int / 16), Digit(s[0] as int % 16)] + Encode(s[1..])
  }

  /** The values of the hex digits in `s`; other characters are skipped. */
  function Nibbles(s: Bytes): seq<nibble> {
    if s == [] then []
    else
      match Value(s[0])
      case Some(n) => [n] + Nibbles(s[1..])
      case None => Nibbles(s[1..])
  }

  function Join(hi: nibble, lo: nibble): byte {
    (16 * (hi as int) + lo as int) as char
  }

  /** Two digits to a byte, high digit first. */
  function Pack(ns: seq<nibble>): (r: Bytes)
    ensures |r| == |ns| / 2
  {
    if |ns| < 2 then [] else [Join(ns[0], ns[1])] + Pack(ns[2..])
  }

  function Decode(s: Bytes): Bytes { Pack(Nibbles(s)) }

  lemma {:induction false} DecodeEncode(s: Bytes)
    ensures |Nibbles(Encode(s))| == 2 * |s|
    ensures Decode(Encode(s)) == s
  {
    if s != [] {
      var hi, lo := s[0] as int / 16, s[0] as int % 16;
      var rest := Encode(s[1..]);
      var all := Encode(s);
      assert all == [Digit(hi)] + ([Digit(lo)] + rest);
      assert all[1..] == [Digit(lo)] + rest;
      assert all[1..][1..] == rest;
      assert Nibbles(all) == [hi] + ([lo] + Nibbles(rest));
      assert Nibbles(all)[2..] == Nibbles(rest);
      DecodeEncode(s[1..]);
    }
  }

  lemma {:induction false} EncodeAppend(a: Bytes, b: Bytes)
    ensures Encode(a + b) == Encode(a) + Encode(b)
  {
    if a == [] {
      assert a + b == b;
    } else {
      assert (a + b)[1..] == a[1..] + b;
      EncodeAppend(a[1..], b);
    }
  }

  /** Every byte is two digits, the high one first, and its place is twice its own. */
  lemma {:induction false} EncodedDigits(s: Bytes, i: nat)
    requires i < |s|
    ensures Value(Encode(s)[2 * i]).Some? && Value(Encode(s)[2 * i + 1]).Some?
    ensures s[i] as int == 16 * Value(Encode(s)[2 * i]).value + Value(Encode(s)[2 * i + 1]).value
  {
    if i > 0 {
      EncodedDigits(s[1..], i - 1);
      assert Encode(s)[2..] == Encode(s[1..]);
      assert Encode(s)[2 * i] == Encode(s[1..])[2 * (i - 1)];
      assert Encode(s)[2 * i + 1] == Encode(s[1..])[2 * (i - 1) + 1];
    }
  }
}
