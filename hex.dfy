/** Lower-case hexadecimal text of byte strings, as viem's toHex writes a Uint8Array,
    and the decoder that inverts it. */
module Hex {
  import opened Wrappers

  type uint8 = x: int | 0 <= x < 0x100

  predicate IsHexDigit(c: char) { '0' <= c <= '9' || 'a' <= c <= 'f' }

  predicate AllHexDigits(s: string) { forall i :: 0 <= i < |s| ==> IsHexDigit(s[i]) }

  function HexValue(c: char): (d: nat)
    requires IsHexDigit(c)
    ensures d < 16
  {
    if c <= '9' then c as int - '0' as int else c as int - 'a' as int + 10
  }

  function HexDigit(d: nat): (c: char)
    requires d < 16
    ensures IsHexDigit(c) && HexValue(c) == d
  {
    if d < 10 then ('0' as int + d) as char else ('a' as int + d - 10) as char
  }

  /** Two digits per byte, high nibble first. */
  function BytesToHex(bytes: seq<uint8>): (s: string)
    ensures |s| == 2 * |bytes| && AllHexDigits(s)
    decreases |bytes|
  {
    if bytes == [] then []
    else [HexDigit(bytes[0] / 16), HexDigit(bytes[0] % 16)] + BytesToHex(bytes[1..])
  }

  /** `toHex(bytes)`: the digits behind a "0x" prefix. */
  function ToHex(bytes: seq<uint8>): (s: string)
    ensures |s| == 2 + 2 * |bytes| && s[..2] == "0x" && AllHexDigits(s[2..])
    ensures FromHex(s) == Some(bytes)
  {
    var s := "0x" + BytesToHex(bytes);
    assert s[..2] == "0x" && s[2..] == BytesToHex(bytes);
    HexToBytesOfBytesToHex(bytes);
    s
  }

  /** Decodes an even number of lower-case hex digits; None for anything else. */
  function HexToBytes(s: string): Option<seq<uint8>>
    decreases |s|
  {
    if s == [] then Some([])
    else if |s| < 2 || !IsHexDigit(s[0]) || !IsHexDigit(s[1]) then None
    else
      match HexToBytes(s[2..])
      case None => None
      case Some(rest) => Some([HexValue(s[0]) * 16 + HexValue(s[1])] + rest)
  }

  /** Decodes "0x"-prefixed hex text. */
  function FromHex(s: string): Option<seq<uint8>>
  {
    if |s| >= 2 && s[..2] == "0x" then HexToBytes(s[2..]) else None
  }

  /** Decoding the digits gives back the bytes. */
  lemma {:induction false} HexToBytesOfBytesToHex(bytes: seq<uint8>)
    ensures HexToBytes(BytesToHex(bytes)) == Some(bytes)
    decreases |bytes|
  {
    if bytes != [] {
      var s := BytesToHex(bytes);
      HexToBytesOfBytesToHex(bytes[1..]);
      assert s[2..] == BytesToHex(bytes[1..]);
      assert HexValue(s[0]) * 16 + HexValue(s[1]) == bytes[0];
      assert [bytes[0]] + bytes[1..] == bytes;
    }
  }

  /** toHex loses nothing: its output decodes to its input. */
  lemma FromHexOfToHex(bytes: seq<uint8>)
    ensures FromHex(ToHex(bytes)) == Some(bytes)
  {
  }
}
