/**
 * Go strings as the handlers see them.
 *
 * A Go `string` is an immutable sequence of bytes and `len(s)` counts those
 * bytes, not characters. Text that reaches a Go string from a rune slice
 * (`string([]rune{...})`) or from a source literal is stored as its UTF-8
 * encoding, so a name of n characters occupies between n and 4n bytes.
 */
module GoText {

  type Byte = b: int | 0 <= b < 256

  /** The bytes of a Go `string`; Go's `len(s)` is `|s|`. */
  type GoString = seq<Byte>

  /** True when every character is in the 7-bit ASCII range. */
  predicate IsAscii(s: string) {
    forall i :: 0 <= i < |s| ==> (s[i] as int) < 0x80
  }

  /** The UTF-8 encoding of one Unicode scalar value, as Go stores a rune. */
  function EncodeRune(c: char): (bs: GoString)
    ensures 1 <= |bs| <= 4
    ensures |bs| == 1 <==> (c as int) < 0x80
    // the lead byte announces the length of the encoding
    ensures |bs| == 1 ==> bs[0] < 0x80
    ensures |bs| == 2 ==> 0xC0 <= bs[0] < 0xE0
    ensures |bs| == 3 ==> 0xE0 <= bs[0] < 0xF0
    ensures |bs| == 4 ==> 0xF0 <= bs[0] < 0xF8
    // every other byte is a continuation byte 10xxxxxx
    ensures forall i :: 1 <= i < |bs| ==> 0x80 <= bs[i] < 0xC0
  {
    var cp := c as int;
    if cp < 0x80 then
      [cp]
    else if cp < 0x800 then
      [0xC0 + cp / 0x40, 0x80 + cp % 0x40]
    else if cp < 0x1_0000 then
      [0xE0 + cp / 0x1000, 0x80 + (cp / 0x40) % 0x40, 0x80 + cp % 0x40]
    else
      [0xF0 + cp / 0x4_0000, 0x80 + (cp / 0x1000) % 0x40, 0x80 + (cp / 0x40) % 0x40, 0x80 + cp % 0x40]
  }

  /** The UTF-8 encoding of a text: the Go string `string([]rune(s))`. */
  function Utf8(s: string): (bs: GoString)
    ensures |s| <= |bs| <= 4 * |s|
    ensures |bs| == |s| <==> IsAscii(s)
  {
    if s == [] then
      []
    else
      assert IsAscii(s) <==> (s[0] as int) < 0x80 && IsAscii(s[1..]) by {
        if (s[0] as int) < 0x80 && IsAscii(s[1..]) {
          forall i | 0 <= i < |s| ensures (s[i] as int) < 0x80 {
            if i > 0 { assert s[i] == s[1..][i - 1]; }
          }
        }
      }
      EncodeRune(s[0]) + Utf8(s[1..])
  }

  /** Encoding distributes over concatenation of texts. */
  lemma {:induction false} Utf8Append(s: string, t: string)
    ensures Utf8(s + t) == Utf8(s) + Utf8(t)
  {
    if s == [] {
      assert s + t == t;
    } else {
      assert (s + t)[0] == s[0];
      assert (s + t)[1..] == s[1..] + t;
      Utf8Append(s[1..], t);
    }
  }

  /** A text whose characters all take w bytes takes exactly w bytes per character. */
  lemma {:induction false} Utf8UniformWidth(s: string, w: nat)
    requires forall i :: 0 <= i < |s| ==> |EncodeRune(s[i])| == w
    ensures |Utf8(s)| == w * |s|
  {
    if s != [] {
      var rest := s[1..];
      assert forall i :: 0 <= i < |rest| ==> rest[i] == s[i + 1];
      Utf8UniformWidth(rest, w);
      assert |Utf8(s)| == |EncodeRune(s[0])| + |Utf8(rest)|;
      assert w * |s| == w + w * |rest| by {
        assert |s| == |rest| + 1;
      }
    }
  }
}
