/** Bytes and their Base16 text (section 8 of RFC 4648), as `encoding/hex` writes and reads
    them: `EncodeToString` emits lower-case digits, `DecodeString` accepts either case. */
module Hex {
  import opened Wrappers

  newtype uint8 = x: int | 0 <= x < 256

  const HexDigits: string := "0123456789abcdef"

  function EncodeToString(b: seq<uint8>): (s: string)
    ensures |s| == 2 * |b|
  {
    if b == [] then ""
    else [HexDigits[b[0] as int / 16], HexDigits[b[0] as int % 16]] + EncodeToString(b[1..])
  }

  /** The value of one hex digit, upper or lower case. */
  function FromHexChar(c: char): (r: Option<nat>)
    ensures r.Some? ==> r.value < 16
  {
    if '0' <= c <= '9' then Some(c as int - '0' as int)
    else if 'a' <= c <= 'f' then Some(c as int - 'a' as int + 10)
    else if 'A' <= c <= 'F' then Some(c as int - 'A' as int + 10)
    else None
  }

  /** `hex.DecodeString`: an odd length or a character outside the hex digits is an error. */
  function DecodeString(s: string): (r: Option<seq<uint8>>)
    ensures r.Some? ==> |s| == 2 * |r.value|
    decreases |s|
  {
    if s == [] then Some([])
    else if |s| == 1 then None
    else
      var hi, lo := FromHexChar(s[0]), FromHexChar(s[1]);
      if hi.None? || lo.None? then None
      else match DecodeString(s[2..])
        case None => None
        case Some(rest) => Some([(hi.value * 16 + lo.value) as uint8] + rest)
  }

  lemma HexDigitValue(d: nat)
    requires d < 16
    ensures FromHexChar(HexDigits[d]) == Some(d)
  {
    var c := HexDigits[d];
    if d < 10 {
      assert c as int == '0' as int + d;
    } else {
      assert c as int == 'a' as int + d - 10;
    }
  }

  lemma {:induction false} DecodeEncode(b: seq<uint8>)
    ensures DecodeString(EncodeToString(b)) == Some(b)
  {
    if b != [] {
      var hi, lo := b[0] as int / 16, b[0] as int % 16;
      var s := EncodeToString(b);
      var rest := EncodeToString(b[1..]);
      assert s == [HexDigits[hi], HexDigits[lo]] + rest;
      assert s[0] == HexDigits[hi] && s[1] == HexDigits[lo] && s[2..] == rest;
      HexDigitValue(hi);
      HexDigitValue(lo);
      DecodeEncode(b[1..]);
      assert hi * 16 + lo == b[0] as int;
      assert DecodeString(s) == Some([b[0]] + b[1..]);
      assert [b[0]] + b[1..] == b;
    }
  }

  lemma DecodeRejects()
    ensures DecodeString("abc") == None
    ensures DecodeString("zz") == None
    ensures DecodeString("none") == None
    ensures DecodeString("0aFF") == Some([10, 255])
  {
    assert FromHexChar('n') == None;
    var ff: seq<uint8> := [255];
    assert "FF"[2..] == "";
    assert DecodeString("FF") == Some([255 as uint8] + []);
    assert [255 as uint8] + [] == ff;
    assert "0aFF"[2..] == "FF";
    assert DecodeString("0aFF") == Some([10 as uint8] + ff);
    assert [10 as uint8] + ff == [10, 255];
  }
}
