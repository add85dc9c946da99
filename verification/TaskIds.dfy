/**
 Generated task ids: sixteen random bytes, with the version and variant bits of
 section 5.4 of RFC 9562 set, written as text. The randomness is a parameter.
 */
module TaskIds {
  import opened Tasks

  const HEX := "0123456789abcdef"

  function HexDigit(n: bv8): (c: char)
    requires n < 16
    ensures IsHexDigit(c)
  {
    var i := n as int;
    assert 0 <= i < 16;
    HEX[i]
  }

  function HighHalf(b: bv8): (h: bv8)
    ensures h < 16
  {
    b >> 4
  }

  function LowHalf(b: bv8): (h: bv8)
    ensures h < 16
  {
    b & 0x0F
  }

  /** A byte as two digits. */
  function HexByte(b: bv8): (s: string)
    ensures |s| == 2 && IsHexDigit(s[0]) && IsHexDigit(s[1])
  {
    [HexDigit(HighHalf(b)), HexDigit(LowHalf(b))]
  }

  predicate AllHex(s: string) {
    forall i :: 0 <= i < |s| ==> IsHexDigit(s[i])
  }

  function HexBytes(bytes: seq<bv8>): (s: string)
    ensures |s| == 2 * |bytes| && AllHex(s)
    ensures bytes != [] ==> s[0] == HexByte(bytes[0])[0]
  {
    if bytes == [] then "" else HexByte(bytes[0]) + HexBytes(bytes[1..])
  }

  /** Five groups with dashes between them. */
  function Dashed(a: string, b: string, c: string, d: string, e: string): string {
    a + "-" + b + "-" + c + "-" + d + "-" + e
  }

  lemma DashedIsUuid(a: string, b: string, c: string, d: string, e: string)
    requires AllHex(a) && AllHex(b) && AllHex(c) && AllHex(d) && AllHex(e)
    requires |a| == 8 && |b| == 4 && |c| == 4 && |d| == 4 && |e| == 12
    ensures UuidShaped(Dashed(a, b, c, d, e))
    ensures Dashed(a, b, c, d, e)[14] == c[0] && Dashed(a, b, c, d, e)[19] == d[0]
  {
    hide IsHexDigit;
  }

  /** Bytes as text, with dashes after the fourth, sixth, eighth and tenth. */
  function Format(bytes: seq<bv8>): string
    requires |bytes| == 16
  {
    Dashed(HexBytes(bytes[..4]), HexBytes(bytes[4..6]), HexBytes(bytes[6..8]), HexBytes(bytes[8..10]),
           HexBytes(bytes[10..]))
  }

  /** Whatever the bytes, their text is a UUID; digits 14 and 19 are the upper halves of bytes 6 and 8. */
  lemma FormatIsUuid(bytes: seq<bv8>)
    requires |bytes| == 16
    ensures UuidShaped(Format(bytes))
    ensures Format(bytes)[14] == HexByte(bytes[6])[0] && Format(bytes)[19] == HexByte(bytes[8])[0]
  {
    hide HexByte, IsHexDigit, HexBytes, UuidShaped;
    DashedIsUuid(HexBytes(bytes[..4]), HexBytes(bytes[4..6]), HexBytes(bytes[6..8]), HexBytes(bytes[8..10]),
                 HexBytes(bytes[10..]));
  }

  lemma VersionDigit(b: bv8)
    ensures HexByte((b & 0x0F) | 0x40)[0] == '4'
  {
    assert ((b & 0x0F) | 0x40) >> 4 == 4;
  }

  lemma VariantDigit(b: bv8)
    ensures HexByte((b & 0x3F) | 0x80)[0] in "89ab"
  {
    var h := ((b & 0x3F) | 0x80) >> 4;
    assert h == 8 || h == 9 || h == 10 || h == 11;
  }

  /** Fill sixteen bytes, mask two of them in place, and format: the id is one that parsing accepts. */
  method Generate(random: nat -> bv8) returns (id: string)
    ensures UuidShaped(id)
    ensures id[14] == '4' && id[19] in "89ab"
  {
    var bytes := new bv8[16];
    for i := 0 to 16 {
      bytes[i] := random(i);
    }
    VersionDigit(bytes[6]);
    VariantDigit(bytes[8]);
    bytes[6] := (bytes[6] & 0x0F) | 0x40;
    bytes[8] := (bytes[8] & 0x3F) | 0x80;
    FormatIsUuid(bytes[..]);
    id := Format(bytes[..]);
  }
}
