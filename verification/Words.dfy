/** Machine integers: bytes, 32-bit words and their little-endian layout. */
module Words {
  const WORD_SIZE := 0x1_0000_0000

  type byte = x: int | 0 <= x < 0x100
  type word = x: int | 0 <= x < 0x1_0000_0000

  datatype Option<+T> = None | Some(value: T)

  function Wrap(x: int): word {
    x % 0x1_0000_0000
  }

  /** A word read as a two's complement `int`. */
  function Signed(w: word): int {
    if w < 0x8000_0000 then w else w - 0x1_0000_0000
  }

  function LittleEndian(w: word): (bs: seq<byte>)
    ensures |bs| == 4
  {
    [w % 0x100, w / 0x100 % 0x100, w / 0x1_0000 % 0x100, w / 0x100_0000]
  }

  function FromLittleEndian(bs: seq<byte>): word
    requires |bs| == 4
  {
    bs[0] as int + 0x100 * bs[1] as int + 0x1_0000 * bs[2] as int + 0x100_0000 * bs[3] as int
  }

  /** Least significant byte first. */
  lemma LittleEndianValue(w: word)
    ensures var bs := LittleEndian(w);
            bs[0] as int + 0x100 * bs[1] as int + 0x1_0000 * bs[2] as int + 0x100_0000 * bs[3] as int == w
  {
    assert w / 0x100 / 0x100 == w / 0x1_0000;
    assert w / 0x1_0000 / 0x100 == w / 0x100_0000;
  }

  lemma WordRoundTrip(w: word)
    ensures FromLittleEndian(LittleEndian(w)) == w
  {
    assert w / 0x100 / 0x100 == w / 0x1_0000;
    assert w / 0x1_0000 / 0x100 == w / 0x100_0000;
  }

  lemma BytesRoundTrip(bs: seq<byte>)
    requires |bs| == 4
    ensures LittleEndian(FromLittleEndian(bs)) == bs
  {
    var w := FromLittleEndian(bs);
    var b1: int, b2: int, b3: int := bs[1], bs[2], bs[3];
    assert w / 0x100 == b1 + 0x100 * b2 + 0x1_0000 * b3;
    assert w / 0x1_0000 == b2 + 0x100 * b3;
    assert w / 0x100_0000 == bs[3];
  }

  lemma Assoc(a: string, b: string, c: string)
    ensures a + b + c == a + (b + c)
  {
  }
}
