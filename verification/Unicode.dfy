/** Characters as bytes: UTF-8. */
module Unicode {
  import opened Bits

  /** The bytes of a character. */
  function Utf8(ch: nat): (b: seq<byte>)
    requires ch < 0x11_0000
    ensures 1 <= |b| <= 4
  {
    if ch < 0x80 then [ch]
    else if ch < 0x800 then [0xc0 + ch / 0x40, 0x80 + ch % 0x40]
    else if ch < 0x1_0000 then [0xe0 + ch / 0x1000, 0x80 + ch / 0x40 % 0x40, 0x80 + ch % 0x40]
    else [0xf0 + ch / 0x4_0000, 0x80 + ch / 0x1000 % 0x40, 0x80 + ch / 0x40 % 0x40, 0x80 + ch % 0x40]
  }

  /** The bytes of a text. */
  function Encoded(text: seq<nat>): (b: seq<byte>)
    requires forall i :: 0 <= i < |text| ==> text[i] < 0x11_0000
    ensures |b| >= |text|
  {
    if text == [] then [] else Encoded(text[..|text| - 1]) + Utf8(text[|text| - 1])
  }

  lemma {:induction false} NoZero(text: seq<nat>)
    requires forall i :: 0 <= i < |text| ==> 0 < text[i] < 0x11_0000
    ensures 0 !in Encoded(text)
  {
    if text != [] {
      NoZero(text[..|text| - 1]);
    }
  }

  lemma {:induction false} AsciiSize(text: seq<nat>)
    requires forall i :: 0 <= i < |text| ==> text[i] < 0x80
    ensures |Encoded(text)| == |text|
  {
    if text != [] {
      AsciiSize(text[..|text| - 1]);
    }
  }
}
