/** The hexadecimal text layer of the stub: digits, register and memory dumps, numerals. */
module HexText {
  import opened Words

  const HEXCHARS := "0123456789abcdef"

  /** `hex`: the value of a digit of either case, -1 for any other character. */
  function HexValue(ch: char): (v: int)
    ensures -1 <= v < 16
  {
    if 'a' <= ch <= 'f' then ch as int - 'a' as int + 10
    else if '0' <= ch <= '9' then ch as int - '0' as int
    else if 'A' <= ch <= 'F' then ch as int - 'A' as int + 10
    else -1
  }

  function HexDigit(n: int): (c: char)
    requires 0 <= n < 16
    ensures HexValue(c) == n
    ensures c != '\0' && c != '$' && c != '#' && c != '+'
  {
    HEXCHARS[n]
  }

  function ByteText(b: byte): (s: string)
    ensures |s| == 2
  {
    [HexDigit(b / 16), HexDigit(b % 16)]
  }

  /** Most significant digit first. */
  lemma ByteTextValue(b: byte)
    ensures 16 * HexValue(ByteText(b)[0]) + HexValue(ByteText(b)[1]) == b
  {
  }

  /** The dump of a byte sequence: two digits a byte, most significant digit first. */
  function HexBytes(bs: seq<byte>): (s: string)
    ensures |s| == 2 * |bs|
    ensures forall i :: 0 <= i < |s| ==> HexValue(s[i]) >= 0
  {
    if bs == [] then "" else HexBytes(bs[..|bs| - 1]) + ByteText(bs[|bs| - 1])
  }

  /** What a debugger makes of a dump: digits in pairs, nothing else. */
  function DecodeBytes(s: string): Option<seq<byte>> {
    var n := |s|;
    if n == 0 then Some([])
    else if n == 1 || HexValue(s[n - 2]) < 0 || HexValue(s[n - 1]) < 0 then None
    else match DecodeBytes(s[..n - 2])
         case None => None
         case Some(bs) => Some(bs + [16 * HexValue(s[n - 2]) + HexValue(s[n - 1])])
  }

  lemma DecodePair(s: string, bs: seq<byte>, b: byte)
    requires DecodeBytes(s) == Some(bs)
    ensures DecodeBytes(s + ByteText(b)) == Some(bs + [b])
  {
    var t := s + ByteText(b);
    assert t[..|t| - 2] == s;
    assert b == 16 * (b / 16) + b % 16;
  }

  lemma {:induction false} DecodeHexBytes(bs: seq<byte>)
    ensures DecodeBytes(HexBytes(bs)) == Some(bs)
  {
    if bs == [] {
    } else {
      var k := |bs| - 1;
      assert HexBytes(bs) == HexBytes(bs[..k]) + ByteText(bs[k]);
      hide HexBytes, ByteText, DecodeBytes;
      DecodeHexBytes(bs[..k]);
      DecodePair(HexBytes(bs[..k]), bs[..k], bs[k]);
      assert bs == bs[..k] + [bs[k]];
    }
  }

  /** Dumps of words laid end to end decode back to the words. */
  function WordsText(ws: seq<word>): (s: string)
    ensures |s| == 8 * |ws|
    ensures forall i :: 0 <= i < |s| ==> HexValue(s[i]) >= 0
  {
    if ws == [] then "" else WordsText(ws[..|ws| - 1]) + HexBytes(LittleEndian(ws[|ws| - 1]))
  }

  function DecodeWords(s: string): Option<seq<word>> {
    var n := |s|;
    if n == 0 then Some([])
    else if n < 8 then None
    else match (DecodeWords(s[..n - 8]), DecodeBytes(s[n - 8..]))
         case (Some(ws), Some(bs)) => if |bs| == 4 then Some(ws + [FromLittleEndian(bs)]) else None
         case _ => None
  }

  lemma DecodeNextWord(s: string, ws: seq<word>, w: word)
    requires DecodeWords(s) == Some(ws)
    ensures DecodeWords(s + HexBytes(LittleEndian(w))) == Some(ws + [w])
  {
    hide HexBytes, DecodeBytes, LittleEndian, FromLittleEndian;
    var d := LittleEndian(w);
    var t := s + HexBytes(d);
    assert t[..|t| - 8] == s && t[|t| - 8..] == HexBytes(d);
    DecodeHexBytes(d);
    WordRoundTrip(w);
  }

  lemma {:induction false} DecodeWordsText(ws: seq<word>)
    ensures DecodeWords(WordsText(ws)) == Some(ws)
  {
    hide HexBytes, LittleEndian;
    if ws == [] {
    } else {
      var k := |ws| - 1;
      DecodeWordsText(ws[..k]);
      DecodeNextWord(WordsText(ws[..k]), ws[..k], ws[k]);
      assert ws == ws[..k] + [ws[k]];
    }
  }

  function Pow16(k: nat): (p: int)
    requires k < 8
    ensures p > 0
  {
    if k == 0 then 0x1 else if k == 1 then 0x10 else if k == 2 then 0x100 else if k == 3 then 0x1000
    else if k == 4 then 0x1_0000 else if k == 5 then 0x10_0000 else if k == 6 then 0x100_0000 else 0x1000_0000
  }

  /** `(reg >> 4 * k) & 0xf`. */
  function Nibble(w: word, k: nat): (n: int)
    requires k < 8
    ensures 0 <= n < 16
  {
    w / Pow16(k) % 16
  }

  lemma SplitByte(q: int)
    requires 0 <= q
    ensures q % 256 / 16 == q / 16 % 16 && q % 256 % 16 == q % 16
  {
    var h, r := q / 256, q % 256;
    assert q / 16 == 16 * h + r / 16;
  }

  lemma NibblesOfBytes(w: word, i: nat)
    requires i < 4
    ensures Nibble(w, 2 * i + 1) == LittleEndian(w)[i] / 16
    ensures Nibble(w, 2 * i) == LittleEndian(w)[i] % 16
  {
    SplitByte(w);
    SplitByte(w / 0x100);
    SplitByte(w / 0x1_0000);
    SplitByte(w / 0x100_0000);
    assert w / 0x100 / 16 == w / 0x1000;
    assert w / 0x1_0000 / 16 == w / 0x10_0000;
    assert w / 0x100_0000 / 16 == w / 0x1000_0000;
  }

  /** `buf` with `text` written over it from position `at`. */
  function Splice(buf: string, at: nat, text: string): (r: string)
    requires at + |text| <= |buf|
    ensures |r| == |buf|
  {
    buf[..at] + text + buf[at + |text|..]
  }

  /** `strcpy`: the text and its terminator over the start of the buffer. */
  function StrCpy(buf: string, text: string): (r: string)
    requires |text| < |buf|
    ensures |r| == |buf|
  {
    Splice(buf, 0, text + ['\0'])
  }

  lemma SpliceAppend(buf: string, at: nat, a: string, b: string)
    requires at + |a| + |b| <= |buf|
    ensures Splice(Splice(buf, at, a), at + |a|, b) == Splice(buf, at, a + b)
  {
  }

  lemma DumpNext(buf: string, at: nat, bs: seq<byte>, i: nat)
    requires i < |bs| && at + 2 * |bs| <= |buf|
    ensures Splice(Splice(buf, at, HexBytes(bs[..i])), at + 2 * i, ByteText(bs[i])) ==
            Splice(buf, at, HexBytes(bs[..i + 1]))
  {
    assert bs[..i + 1][..i] == bs[..i];
    SpliceAppend(buf, at, HexBytes(bs[..i]), ByteText(bs[i]));
  }

  /** `*buf++ = hexchars[high]; *buf++ = hexchars[low];` */
  method PutByte(buffer: array<char>, at: nat, high: int, low: int, ghost b: byte)
    requires at + 2 <= buffer.Length && high == b / 16 && low == b % 16
    modifies buffer
    ensures buffer[..] == Splice(old(buffer[..]), at, ByteText(b))
  {
    buffer[at] := HexDigit(high);
    buffer[at + 1] := HexDigit(low);
  }

  /** The next byte of a dump that started at position `at`. */
  method PutDump(buffer: array<char>, at: nat, high: int, low: int, ghost before: string, ghost bs: seq<byte>, i: nat)
    requires i < |bs| && at + 2 * |bs| <= buffer.Length && |before| == buffer.Length
    requires high == bs[i] / 16 && low == bs[i] % 16
    requires buffer[..] == Splice(before, at, HexBytes(bs[..i]))
    modifies buffer
    ensures buffer[..] == Splice(before, at, HexBytes(bs[..i + 1]))
  {
    hide Splice, HexBytes, ByteText;
    DumpNext(before, at, bs, i);
    PutByte(buffer, at + 2 * i, high, low, bs[i]);
  }

  /** `*buf = 0;` */
  method PutNul(buffer: array<char>, at: nat)
    requires at < buffer.Length
    modifies buffer
    ensures buffer[..] == Splice(old(buffer[..]), at, ['\0'])
  {
    buffer[at] := '\0';
  }

  /** `write_register`: eight digits written from position `at`, no terminator. */
  method WriteRegister(buffer: array<char>, at: nat, reg: word) returns (next: nat)
    requires at + 8 <= buffer.Length
    modifies buffer
    ensures next == at + 8
    ensures buffer[..] == Splice(old(buffer[..]), at, HexBytes(LittleEndian(reg)))
  {
    ghost var before, bs := buffer[..], LittleEndian(reg);
    next := at;
    var i := 0;
    while i < 4
      invariant 0 <= i <= 4 && next == at + 2 * i
      invariant buffer[..] == Splice(before, at, HexBytes(bs[..i]))
    {
      NibblesOfBytes(reg, i);
      PutDump(buffer, at, Nibble(reg, 2 * i + 1), Nibble(reg, 2 * i), before, bs, i);
      next := next + 2;
      i := i + 1;
    }
    assert bs[..4] == bs;
  }

  /** `write_register` after the registers `ws` have been written from the start of the buffer. */
  method WriteNext(buffer: array<char>, at: nat, reg: word, ghost before: string, ghost ws: seq<word>)
    returns (next: nat)
    requires at == 8 * |ws| && at + 8 <= buffer.Length && |before| == buffer.Length
    requires buffer[..] == Splice(before, 0, WordsText(ws))
    modifies buffer
    ensures next == at + 8
    ensures buffer[..] == Splice(before, 0, WordsText(ws + [reg]))
  {
    hide Splice, HexBytes, LittleEndian;
    assert (ws + [reg])[..|ws|] == ws;
    assert WordsText(ws + [reg]) == WordsText(ws) + HexBytes(LittleEndian(reg));
    SpliceAppend(before, 0, WordsText(ws), HexBytes(LittleEndian(reg)));
    next := WriteRegister(buffer, at, reg);
  }

  /** `strcpy` */
  method CopyText(buffer: array<char>, text: string)
    requires |text| < buffer.Length
    modifies buffer
    ensures buffer[..] == StrCpy(old(buffer[..]), text)
  {
    var i := 0;
    while i < |text|
      invariant 0 <= i <= |text|
      invariant forall k :: 0 <= k < i ==> buffer[k] == text[k]
      invariant forall k :: i <= k < buffer.Length ==> buffer[k] == old(buffer[k])
    {
      buffer[i] := text[i];
      i := i + 1;
    }
    buffer[i] := '\0';
  }

  predicate IsHex(s: string) {
    forall i :: 0 <= i < |s| ==> HexValue(s[i]) >= 0
  }

  /** The number a string of digits denotes, without any bound (other characters count 0). */
  function Numeral(s: string): nat {
    if s == "" then 0
    else 16 * Numeral(s[..|s| - 1]) + (if HexValue(s[|s| - 1]) < 0 then 0 else HexValue(s[|s| - 1]))
  }

  /** The end of the longest run of digits that starts at `i`. */
  function HexEnd(s: string, i: nat): (e: nat)
    requires i <= |s|
    ensures i <= e <= |s|
    ensures forall k :: i <= k < e ==> HexValue(s[k]) >= 0
    ensures e < |s| ==> HexValue(s[e]) < 0
    decreases |s| - i
  {
    if i == |s| || HexValue(s[i]) < 0 then i else HexEnd(s, i + 1)
  }

  lemma HexEndStep(s: string, i: nat)
    requires i <= |s|
    ensures HexEnd(s, i) == if i == |s| || HexValue(s[i]) < 0 then i else HexEnd(s, i + 1)
  {
  }

  /** The text of a C string that ends at its terminator. */
  function At(s: string, i: nat): char {
    if i < |s| then s[i] else '\0'
  }

  lemma ShiftIn(n: nat, d: nat)
    ensures Wrap(Wrap(n) * 16 + d) == Wrap(16 * n + d)
  {
    var q := n / 0x1_0000_0000;
    assert 16 * n + d == Wrap(n) * 16 + d + 16 * q * 0x1_0000_0000;
  }

  /** The 32-bit value of the digits between two positions. */
  function HexWord(s: string, start: nat, end: nat): word
    requires start <= end <= |s|
  {
    Wrap(Numeral(s[start..end]))
  }

  lemma NumeralStep(s: string, start: nat, i: nat)
    requires start <= i < |s| && HexValue(s[i]) >= 0
    ensures HexWord(s, start, i + 1) == Wrap(HexWord(s, start, i) * 16 + HexValue(s[i]))
  {
    var t := s[start..i + 1];
    assert t[..|t| - 1] == s[start..i];
    ShiftIn(Numeral(s[start..i]), HexValue(s[i]));
  }

  /** `hex2int`: reads digits from `start` into a 32-bit integer. */
  method Hex2Int(s: string, start: nat) returns (numChars: nat, value: word, next: nat)
    requires start <= |s|
    ensures next == HexEnd(s, start) && numChars == next - start
    ensures value == HexWord(s, start, next)
  {
    assert HexWord(s, start, start) == 0;
    assert HexValue('\0') < 0;
    hide HexWord, HexEnd, HexValue, Numeral, Wrap, IsHex;
    numChars, value, next := 0, 0, start;
    while At(s, next) != '\0'
      invariant start <= next <= |s| && numChars == next - start
      invariant HexEnd(s, start) == HexEnd(s, next)
      invariant value == HexWord(s, start, next)
      decreases |s| - next
    {
      HexEndStep(s, next);
      var hexValue := HexValue(s[next]);
      if hexValue < 0 {
        break;
      }
      NumeralStep(s, start, next);
      value := Wrap(value * 16 + hexValue);
      numChars := numChars + 1;
      next := next + 1;
    }
    HexEndStep(s, next);
  }

  /** The bytes an `m` request shows: real memory below `end`, zeros elsewhere unless a word is asked for. */
  function ShownBytes(mem: seq<byte>, end: word, addr: word, count: int): (bs: seq<byte>)
    requires |mem| == WORD_SIZE
    ensures |bs| == if count < 0 then 0 else count
  {
    var n := if count < 0 then 0 else count;
    if (addr == 0 || addr >= end) && count != 4 then seq(n, _ => 0)
    else seq(n, i => mem[Wrap(addr + i)])
  }

  function WordBytes(mem: seq<byte>, addr: word): (bs: seq<byte>)
    requires |mem| == WORD_SIZE
    ensures |bs| == 4
  {
    [mem[addr], mem[Wrap(addr + 1)], mem[Wrap(addr + 2)], mem[Wrap(addr + 3)]]
  }

  lemma WordShown(mem: seq<byte>, end: word, addr: word)
    requires |mem| == WORD_SIZE
    ensures ShownBytes(mem, end, addr, 4) == LittleEndian(FromLittleEndian(WordBytes(mem, addr)))
  {
    BytesRoundTrip(WordBytes(mem, addr));
    assert Wrap(addr + 0) == addr;
    var shown := ShownBytes(mem, end, addr, 4);
    assert shown[0] == mem[Wrap(addr + 0)] && shown[3] == mem[Wrap(addr + 3)];
  }

  /** `mem2hex`: dumps memory into `buf` and terminates the text. */
  method Mem2Hex(mem: seq<byte>, end: word, addr: word, buf: array<char>, count: int)
    requires |mem| == WORD_SIZE
    requires 2 * count < buf.Length && 0 < buf.Length
    modifies buf
    ensures buf[..] == StrCpy(old(buf[..]), HexBytes(ShownBytes(mem, end, addr, count)))
  {
    ghost var before, shown := buf[..], ShownBytes(mem, end, addr, count);
    var at;
    if (addr == 0 || addr >= end) && count == 4 {
      WordShown(mem, end, addr);
      var j := FromLittleEndian(WordBytes(mem, addr));
      at := WriteRegister(buf, 0, j);
    } else {
      at := DumpBytes(mem, addr == 0 || addr >= end, addr, buf, count, shown);
    }
    PutNul(buf, at);
    SpliceAppend(before, 0, HexBytes(shown), ['\0']);
  }

  /** The byte loops of `mem2hex`: zeros outside the image, memory inside it. */
  method DumpBytes(mem: seq<byte>, outside: bool, addr: word, buf: array<char>, count: int, ghost shown: seq<byte>)
    returns (at: nat)
    requires |mem| == WORD_SIZE && 2 * count < buf.Length && 0 < buf.Length
    requires |shown| == if count < 0 then 0 else count
    requires forall i :: 0 <= i < |shown| ==> shown[i] == if outside then 0 else mem[Wrap(addr + i)]
    modifies buf
    ensures at == 2 * |shown|
    ensures buf[..] == Splice(old(buf[..]), 0, HexBytes(shown))
  {
    ghost var before := buf[..];
    var i := 0;
    at := 0;
    assert buf[..] == Splice(before, 0, HexBytes(shown[..0]));
    while i < count
      invariant 0 <= i <= |shown| && at == 2 * i
      invariant buf[..] == Splice(before, 0, HexBytes(shown[..i]))
    {
      var ch := if outside then 0 else mem[Wrap(addr + i)];
      PutDump(buf, 0, ch / 16, ch % 16, before, shown, i);
      i, at := i + 1, at + 2;
    }
    assert shown[..i] == shown;
  }
}
