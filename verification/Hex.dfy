/** Hexadecimal text as Go's encoding/hex reads and writes it. */
module Hex {
  import opened Prelude

  function DigitOf(c: char): (d: Option<nat>)
    ensures d.Some? ==> d.value < 16
  {
    if '0' <= c <= '9' then Some(c as int - '0' as int)
    else if 'a' <= c <= 'f' then Some(c as int - 'a' as int + 10)
    else if 'A' <= c <= 'F' then Some(c as int - 'A' as int + 10)
    else None
  }

  function CharOf(d: nat): (c: char)
    requires d < 16
    ensures DigitOf(c) == Some(d)
    ensures c != ':'
  {
    if d < 10 then '0' + d as char else 'a' + (d - 10) as char
  }

  /** Accepts both letter cases; an odd length or a foreign character is an error. */
  function Decode(s: string): Option<Bytes> {
    if s == [] then Some([])
    else if |s| == 1 then None
    else
      var hi :- DigitOf(s[0]);
      var lo :- DigitOf(s[1]);
      var rest :- Decode(s[2..]);
      Some([16 * hi + lo] + rest)
  }

  function Encode(bs: Bytes): string {
    if bs == [] then "" else [CharOf(bs[0] / 16), CharOf(bs[0] % 16)] + Encode(bs[1..])
  }

  function TrimPrefix0x(s: string): string {
    if "0x" <= s then s[2..] else s
  }

  lemma {:induction false} DecodeEncode(bs: Bytes)
    ensures Decode(Encode(bs)) == Some(bs)
    ensures ':' !in Encode(bs)
  {
    if bs != [] {
      DecodeEncode(bs[1..]);
      var s := Encode(bs);
      assert s[2..] == Encode(bs[1..]);
      assert 16 * (bs[0] / 16) + bs[0] % 16 == bs[0];
      assert [bs[0]] + bs[1..] == bs;
    }
  }
}
