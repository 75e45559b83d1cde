/**
 * Ruby's `String#unpack("H*")` and `Array#pack("H*")`: the hex-digit codec every ObjectId
 * conversion of the library goes through. Digits are taken high nibble first.
 */
module HexPacking {

  /** One element of a BINARY (ASCII-8BIT) Ruby string. */
  type Byte = b: int | 0 <= b < 256

  predicate IsHexChar(c: char) {
    '0' <= c <= '9' || 'a' <= c <= 'f' || 'A' <= c <= 'F'
  }

  predicate IsLowerHexChar(c: char) {
    '0' <= c <= '9' || 'a' <= c <= 'f'
  }

  predicate IsHexString(s: seq<char>) {
    forall i | 0 <= i < |s| :: IsHexChar(s[i])
  }

  predicate IsLowerHexString(s: seq<char>) {
    forall i | 0 <= i < |s| :: IsLowerHexChar(s[i])
  }

  /** The lowercase digit for a nibble. */
  function HexDigit(n: int): (c: char)
    requires 0 <= n < 16
    ensures IsLowerHexChar(c)
  {
    if n < 10 then ('0' as int + n) as char else ('a' as int + n - 10) as char
  }

  /** Maps `A`-`F` to `a`-`f` and leaves every other character alone. */
  function DowncaseHexChar(c: char): (d: char)
    ensures IsHexChar(c) ==> IsLowerHexChar(d)
    ensures IsLowerHexChar(c) ==> d == c
  {
    if 'A' <= c <= 'F' then (c as int - 'A' as int + 'a' as int) as char else c
  }

  function DowncaseHex(s: seq<char>): (d: seq<char>)
    ensures |d| == |s|
    ensures forall i | 0 <= i < |s| :: d[i] == DowncaseHexChar(s[i])
  {
    seq(|s|, i requires 0 <= i < |s| => DowncaseHexChar(s[i]))
  }

  /** The value of one hex digit, in either case. */
  function NibbleValue(c: char): (n: int)
    requires IsHexChar(c)
    ensures 0 <= n < 16
    ensures HexDigit(n) == DowncaseHexChar(c)
  {
    if c <= '9' then c as int - '0' as int
    else if c <= 'F' then c as int - 'A' as int + 10
    else c as int - 'a' as int + 10
  }

  /** `String#unpack("H*").first`: two lowercase digits per byte, high nibble first. */
  function UnpackHex(bytes: seq<Byte>): (hex: seq<char>)
    ensures |hex| == 2 * |bytes|
    ensures IsLowerHexString(hex)
  {
    if bytes == [] then []
    else [HexDigit(bytes[0] / 16), HexDigit(bytes[0] % 16)] + UnpackHex(bytes[1..])
  }

  /** `[hex].pack("H*")` for an even number of hex digits: one byte per pair, high nibble first. */
  function PackHex(hex: seq<char>): (bytes: seq<Byte>)
    requires |hex| % 2 == 0 && IsHexString(hex)
    ensures |bytes| == |hex| / 2
  {
    if hex == [] then []
    else [16 * NibbleValue(hex[0]) + NibbleValue(hex[1])] + PackHex(hex[2..])
  }

  /** Byte `i` becomes digits `2*i` and `2*i+1`: its high nibble, then its low nibble. */
  lemma {:induction false} UnpackHexAt(bytes: seq<Byte>, i: int)
    requires 0 <= i < |bytes|
    ensures UnpackHex(bytes)[2 * i] == HexDigit(bytes[i] / 16)
    ensures UnpackHex(bytes)[2 * i + 1] == HexDigit(bytes[i] % 16)
  {
    var pair := [HexDigit(bytes[0] / 16), HexDigit(bytes[0] % 16)];
    assert UnpackHex(bytes) == pair + UnpackHex(bytes[1..]);
    if i > 0 {
      UnpackHexAt(bytes[1..], i - 1);
      assert bytes[1..][i - 1] == bytes[i];
    }
  }

  /** Byte `i` is built from digits `2*i` (the high nibble) and `2*i+1` (the low nibble). */
  lemma {:induction false} PackHexAt(hex: seq<char>, i: int)
    requires |hex| % 2 == 0 && IsHexString(hex)
    requires 0 <= i < |hex| / 2
    ensures PackHex(hex)[i] == 16 * NibbleValue(hex[2 * i]) + NibbleValue(hex[2 * i + 1])
  {
    if i > 0 {
      PackHexAt(hex[2..], i - 1);
      assert hex[2..][2 * (i - 1)] == hex[2 * i];
      assert hex[2..][2 * (i - 1) + 1] == hex[2 * i + 1];
    }
  }

  lemma NibbleOfHexDigit(n: int)
    requires 0 <= n < 16
    ensures NibbleValue(HexDigit(n)) == n
  {
  }

  /** A byte built from two nibbles splits back into them. */
  lemma NibblesOfByte(hi: int, lo: int)
    requires 0 <= hi < 16 && 0 <= lo < 16
    ensures (16 * hi + lo) / 16 == hi && (16 * hi + lo) % 16 == lo
  {
  }

  /** Packing what was unpacked gives the bytes back. */
  lemma {:induction false} PackUnpackHex(bytes: seq<Byte>)
    ensures PackHex(UnpackHex(bytes)) == bytes
  {
    if bytes != [] {
      var b := bytes[0];
      var pair := [HexDigit(b / 16), HexDigit(b % 16)];
      var rest := UnpackHex(bytes[1..]);
      assert UnpackHex(bytes) == pair + rest;
      assert (pair + rest)[2..] == rest;
      NibbleOfHexDigit(b / 16);
      NibbleOfHexDigit(b % 16);
      assert 16 * (b / 16) + b % 16 == b;
      PackUnpackHex(bytes[1..]);
      assert PackHex(pair + rest) == [b] + bytes[1..];
    }
  }

  /** Unpacking what was packed gives the digits back, in lower case. */
  lemma {:induction false} UnpackPackHex(hex: seq<char>)
    requires |hex| % 2 == 0 && IsHexString(hex)
    ensures UnpackHex(PackHex(hex)) == DowncaseHex(hex)
  {
    if hex != [] {
      var hi, lo := NibbleValue(hex[0]), NibbleValue(hex[1]);
      var b: Byte := 16 * hi + lo;
      NibblesOfByte(hi, lo);
      var rest := PackHex(hex[2..]);
      assert PackHex(hex) == [b] + rest;
      assert ([b] + rest)[1..] == rest;
      UnpackPackHex(hex[2..]);
      assert DowncaseHex(hex) == [DowncaseHexChar(hex[0]), DowncaseHexChar(hex[1])] + DowncaseHex(hex[2..]);
    }
  }
}
