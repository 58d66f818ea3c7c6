/** What the texts of requests and replies mean (GDB manual, Appendix E.2). */
module Requests {
  import opened Words
  import opened HexText
  import opened Packets
  import opened Breakpoints
  import opened GdbStub
  import opened DebugRuns

  predicate Starts(pkt: string, lit: string) {
    |lit| <= |pkt| && pkt[..|lit|] == lit
  }

  // ---------------------------------------------------------------- resuming

  lemma ResumeTexts(pkt: string)
    ensures ParseResume(pkt) == Some(Resumption.Step) <==> Starts(pkt, "vCont;s")
    ensures ParseResume(pkt) == Some(Continue) <==> Starts(pkt, "vCont;c")
  {
    var s, c := "vCont;s", "vCont;c";
    assert s[..5] == c[..5] == "vCont" && s[5] == c[5] == ';' && s[6] == 's' && c[6] == 'c';
    assert "vCont" == ['v'] + "Cont";
    if |pkt| >= 7 {
      assert pkt[..7] == pkt[..5] + [pkt[5], pkt[6]];
      assert pkt[..5] == [pkt[0]] + pkt[1..5];
      assert s == "vCont" + [';', 's'] && c == "vCont" + [';', 'c'];
    }
  }

  /** Exactly the requests that begin with `vCont;s` or `vCont;c` resume the program. */
  lemma OnlyThoseResume(end: word, s: Stub, t: Regs, pkt: string)
    requires StubShape(s)
    ensures Command(end, s, t, pkt).Leave? <==> Starts(pkt, "vCont;s") || Starts(pkt, "vCont;c")
  {
    ResumeTexts(pkt);
    assert Starts(pkt, "vCont;s") ==> pkt[0] == "vCont;s"[0];
    assert Starts(pkt, "vCont;c") ==> pkt[0] == "vCont;c"[0];
    hide Starts, StubShape, CommandRead, CommandPoint, FixedReply, WordsText, RegisterList, StrCpy, Splice;
  }

  /** `vCont;s`, whatever follows: the program goes on where it is, with the trap flag set. */
  lemma StepRequest(end: word, s: Stub, t: Regs, pkt: string)
    requires Settled(s) && Starts(pkt, "vCont;s")
    ensures var v := Command(end, s, t, pkt);
            && v.Leave? && v.t == t.(eflags := v.t.eflags) && HasTrapFlag(v.t.eflags) && SameOtherFlags(v.t.eflags, t.eflags)
            && v.s.restoreContinue == NO_ADDRESS && v.s.phase == s.phase
            && v.s.restoreStep == if s.patch.mem[t.eip] == 0xCC then t.eip else NO_ADDRESS
  {
    ResumeTexts(pkt);
    assert pkt[0] == "vCont;s"[0];
    hide Starts, Sound, Mask, StubShape, CommandRead, CommandPoint, FixedReply, WordsText, RegisterList, StrCpy, Splice;
  }

  /** `vCont;c`, whatever follows: off a breakpoint instruction the trap flag is cleared and nothing else
      changes; on one it is set and the continuation is noted. From then on the phase is 2. */
  lemma ContinueRequest(end: word, s: Stub, t: Regs, pkt: string)
    requires Settled(s) && Starts(pkt, "vCont;c")
    ensures var v := Command(end, s, t, pkt);
            && v.Leave? && v.t == t.(eflags := v.t.eflags) && SameOtherFlags(v.t.eflags, t.eflags)
            && (HasTrapFlag(v.t.eflags) <==> s.patch.mem[t.eip] == 0xCC)
            && v.s.restoreStep == NO_ADDRESS && v.s.phase == 2
            && v.s.restoreContinue == (if s.patch.mem[t.eip] == 0xCC then t.eip else NO_ADDRESS)
            && (s.patch.mem[t.eip] != 0xCC ==> v.s.patch == s.patch)
  {
    ResumeTexts(pkt);
    assert pkt[0] == "vCont;c"[0];
    hide Starts, Sound, Mask, StubShape, CommandRead, CommandPoint, FixedReply, WordsText, RegisterList, StrCpy, Splice;
  }

  // ---------------------------------------------------------------- numbers

  /** A number in the usual notation. */
  function HexNumber(n: nat): (s: string)
    ensures s != "" && IsHex(s)
  {
    if n < 16 then [HexDigit(n)] else HexNumber(n / 16) + [HexDigit(n % 16)]
  }

  lemma {:induction false} NumeralOfNumber(n: nat)
    ensures Numeral(HexNumber(n)) == n
  {
    var s := HexNumber(n);
    if n < 16 {
      assert s[..|s| - 1] == "";
    } else {
      NumeralOfNumber(n / 16);
      assert s[..|s| - 1] == HexNumber(n / 16);
    }
  }

  /** Digits of either case, and no other character, count. */
  lemma DigitValues(ch: char, n: nat)
    requires n < 16
    ensures HexValue(ch) == n <==> ch == "0123456789abcdef"[n] || ch == "0123456789ABCDEF"[n]
  {
  }

  /** No digit follows. */
  predicate EndsDigits(tail: string) {
    tail == "" || HexValue(tail[0]) < 0
  }

  lemma DigitsAt(s: string, i: nat, digits: string)
    requires i + |digits| <= |s| && s[i..i + |digits|] == digits && IsHex(digits)
    requires EndsDigits(s[i + |digits|..])
    ensures HexEnd(s, i) == i + |digits|
    ensures HexWord(s, i, i + |digits|) == Wrap(Numeral(digits))
  {
    assert forall k :: 0 <= k < |digits| ==> s[i + k] == digits[k];
    hide HexEnd, Numeral, HexValue;
  }

  /** A letter, a number, a comma and a number. */
  function Join(x: string, a: string, l: string): string {
    x + a + [','] + l
  }

  /** Where its parts lie. */
  lemma Parts(x: string, a: string, l: string, tail: string)
    ensures var s, i := Join(x, a, l) + tail, |x| + |a|;
            && |s| == i + 1 + |l| + |tail|
            && s[..|x|] == x && s[|x|..i] == a && s[i] == ',' && s[i + 1..i + 1 + |l|] == l && s[i + 1 + |l|..] == tail
            && s[i..][0] == ','
  {
  }

  lemma NoTail(s: string)
    ensures s + "" == s
  {
  }

  // ---------------------------------------------------------------- dumps

  /** `m`, an address, a comma and a length. */
  lemma ReadText(a: string, l: string, tail: string)
    requires a != "" && l != "" && IsHex(a) && IsHex(l) && EndsDigits(tail)
    ensures var pkt := Join("m", a, l) + tail;
            ParseRead(pkt) == Some((Wrap(Numeral(a)), Wrap(Numeral(l)))) && At(pkt, 0) == 'm'
  {
    var pkt, i := Join("m", a, l) + tail, 1 + |a|;
    Parts("m", a, l, tail);
    assert pkt[0] == pkt[..1][0] == 'm';
    hide Join, Numeral, IsHex, HexEnd, HexWord;
    DigitsAt(pkt, 1, a);
    DigitsAt(pkt, i + 1, l);
  }

  function ReadRequest(addr: word, length: word): string {
    Join("m", HexNumber(addr), HexNumber(length))
  }

  lemma ReadTextAlone(a: string, l: string)
    requires a != "" && l != "" && IsHex(a) && IsHex(l)
    ensures ParseRead(Join("m", a, l)) == Some((Wrap(Numeral(a)), Wrap(Numeral(l)))) && At(Join("m", a, l), 0) == 'm'
  {
    ReadText(a, l, "");
    hide *;
    NoTail(Join("m", a, l));
  }

  lemma ReadRequestText(addr: word, length: word)
    ensures ParseRead(ReadRequest(addr, length)) == Some((addr, length)) && At(ReadRequest(addr, length), 0) == 'm'
  {
    assert ReadRequest(addr, length) == Join("m", HexNumber(addr), HexNumber(length));
    assert Wrap(addr) == addr && Wrap(length) == length;
    hide *;
    NumeralOfNumber(addr);
    NumeralOfNumber(length);
    ReadTextAlone(HexNumber(addr), HexNumber(length));
  }

  /** A request for the bytes from `addr` on, as a debugger writes it, is answered with the program's bytes. */
  lemma DumpRequest(end: word, s: Stub, t: Regs, addr: word, length: word)
    requires Settled(s) && 0 < addr < end && length <= 511
    ensures var v := Command(end, s, t, ReadRequest(addr, length));
            && v.Answer? && v.s == s.(sendBuf := v.s.sendBuf)
            && DecodeBytes(CString(v.s.sendBuf, 0)) == Some(ProgramBytes(s.patch, addr, length))
  {
    ReadRequestText(addr, length);
    ReadShowsTheProgram(end, s, t, ReadRequest(addr, length), addr, length);
    hide ReadRequest, Command, Settled, StubShape, ParseRead, CString, DecodeBytes, ProgramBytes;
  }

  /** What such a dump shows. */
  function Outside(p: Patch, addr: word, length: word): (bs: seq<byte>)
    requires Shape(p)
  {
    if length == 4 then ProgramBytes(p, addr, 4) else seq<byte>(length, _ => 0)
  }

  lemma ShownOutside(end: word, p: Patch, addr: word, length: word)
    requires Sound(p) && (addr == 0 || addr >= end)
    ensures ShownBytes(MaskAll(p.table, p.mem), end, addr, length) == Outside(p, addr, length)
  {
    MaskAllShowsTheProgram(p);
    var masked := MaskAll(p.table, p.mem);
    hide MaskAll, UnmaskAll, Sound;
    if length == 4 {
      forall i | 0 <= i < 4
        ensures ShownBytes(masked, end, addr, length)[i] == ProgramBytes(p, addr, 4)[i]
      {
        assert masked[Wrap(addr + i)] == Logical(p, Wrap(addr + i));
      }
    }
  }

  /** Outside the image a dump shows zeros, except that four bytes are the program's there too. */
  lemma DumpOutside(end: word, s: Stub, t: Regs, pkt: string, addr: word, length: word)
    requires Settled(s) && At(pkt, 0) == 'm' && ParseRead(pkt) == Some((addr, length))
    requires (addr == 0 || addr >= end) && length <= 511
    ensures var v := Command(end, s, t, pkt);
            && v.Answer? && v.s == s.(sendBuf := v.s.sendBuf)
            && DecodeBytes(CString(v.s.sendBuf, 0)) == Some(Outside(s.patch, addr, length))
  {
    ReadReply(end, s, t, pkt, addr, length);
    ShownOutside(end, s.patch, addr, length);
    var shown := Outside(s.patch, addr, length);
    hide Command, MaskAll, ShownBytes, ParseRead, DecodeBytes, HexBytes, StrCpy, CString, Sound, Outside;
    DecodeHexBytes(shown);
    DigitsAreText(s.sendBuf[0 := '\0'], HexBytes(shown));
  }

  /** Lengths are signed: half of them ask for nothing, and from 512 on a dump would not fit the buffer. */
  lemma DumpLengths(end: word, s: Stub, t: Regs, pkt: string, addr: word, length: word)
    requires StubShape(s) && At(pkt, 0) == 'm' && ParseRead(pkt) == Some((addr, length))
    ensures var v := Command(end, s, t, pkt);
            && (v.Overrun? <==> 512 <= length < 0x8000_0000)
            && (!v.Overrun? ==> v.Answer?)
            && (length >= 0x8000_0000 ==> CString(v.s.sendBuf, 0) == "")
  {
    if length >= 0x8000_0000 {
      var shown := ShownBytes(MaskAll(s.patch.table, s.patch.mem), end, addr, Signed(length));
      assert shown == [] && HexBytes(shown) == "";
      TextOf(s.sendBuf[0 := '\0'], "");
    }
    hide MaskAll, UnmaskAll, ShownBytes, HexBytes, CString, StrCpy, ParseRead;
  }

  // ---------------------------------------------------------------- breakpoints

  /** `Z0` or `z0`, a comma, an address, a comma and a kind; no digits count as 0. */
  lemma PointText(z: char, a: string, k: string, tail: string)
    requires IsHex(a) && IsHex(k) && EndsDigits(tail)
    ensures var pkt := Join([z, '0', ','], a, k) + tail;
            && ParsePoint(pkt) == (if Wrap(Numeral(k)) == 1 then Target(Wrap(Numeral(a))) else BadKind)
            && At(pkt, 0) == z
  {
    var x := [z, '0', ','];
    var pkt, i := Join(x, a, k) + tail, 3 + |a|;
    Parts(x, a, k, tail);
    assert pkt[0] == pkt[..3][0] && pkt[1] == pkt[..3][1] && pkt[2] == pkt[..3][2];
    hide Join, Numeral, IsHex, HexEnd, HexWord;
    DigitsAt(pkt, 3, a);
    DigitsAt(pkt, i + 1, k);
  }

  function PointRequest(z: char, addr: word): string {
    Join([z, '0', ','], HexNumber(addr), "1")
  }

  lemma PointTextAlone(z: char, a: string, k: string)
    requires IsHex(a) && IsHex(k)
    ensures ParsePoint(Join([z, '0', ','], a, k)) == (if Wrap(Numeral(k)) == 1 then Target(Wrap(Numeral(a))) else BadKind)
    ensures At(Join([z, '0', ','], a, k), 0) == z
  {
    PointText(z, a, k, "");
    hide *;
    NoTail(Join([z, '0', ','], a, k));
  }

  lemma PointRequestText(z: char, addr: word)
    ensures ParsePoint(PointRequest(z, addr)) == Target(addr) && At(PointRequest(z, addr), 0) == z
  {
    assert PointRequest(z, addr) == Join([z, '0', ','], HexNumber(addr), "1");
    assert Wrap(addr) == addr && Wrap(1) == 1;
    hide *;
    NumeralOfNumber(addr);
    NumeralOfOne();
    PointTextAlone(z, HexNumber(addr), "1");
  }

  lemma NumeralOfOne()
    ensures Numeral("1") == 1 && IsHex("1")
  {
    NumeralOfNumber(1);
    assert HexNumber(1) == "1";
  }

  lemma OkReply(s: Stub)
    requires StubShape(s)
    ensures CString(Say(s, "OK").sendBuf, 0) == "OK"
  {
    TextOf(s.sendBuf, "OK");
  }

  /** Setting a breakpoint, as a debugger writes it, is answered with OK and patches the program there and
      nowhere else, unless the table is full: then OK is all that happens. */
  lemma SetRequest(end: word, s: Stub, t: Regs, addr: word)
    requires Settled(s) && addr != 0 && !Listed(s.patch.table, addr)
    ensures var v := Command(end, s, t, PointRequest('Z', addr));
            && v.Answer? && CString(v.s.sendBuf, 0) == "OK" && SameProgram(s.patch, v.s.patch)
            && (Find(s.patch.table, 0) == 1024 ==> v.s.patch == s.patch)
            && (Find(s.patch.table, 0) < 1024 ==>
                  Listed(v.s.patch.table, addr) && v.s.patch.mem == s.patch.mem[addr := 0xCC])
  {
    PointRequestText('Z', addr);
    var s0 := s.(sendBuf := s.sendBuf[0 := '\0']);
    OkReply(s0);
    hide PointRequest, ParsePoint, CString, StrCpy, Sound;
    if Find(s.patch.table, 0) < MAX_BREAKPOINT {
      AddFresh(s.patch, addr);
    }
  }

  /** Clearing one is answered with OK and gives the program its byte back, there and nowhere else. */
  lemma ClearRequest(end: word, s: Stub, t: Regs, addr: word)
    requires Settled(s) && Listed(s.patch.table, addr)
    ensures var v := Command(end, s, t, PointRequest('z', addr));
            && v.Answer? && CString(v.s.sendBuf, 0) == "OK" && SameProgram(s.patch, v.s.patch)
            && !Listed(v.s.patch.table, addr) && v.s.patch.mem == s.patch.mem[addr := Logical(s.patch, addr)]
  {
    PointRequestText('z', addr);
    var s0 := s.(sendBuf := s.sendBuf[0 := '\0']);
    OkReply(s0);
    hide PointRequest, ParsePoint, CString, StrCpy, Sound;
    RemoveListed(s.patch, addr);
  }

  // ---------------------------------------------------------------- all other requests

  predicate Known(pkt: string) {
    || Starts(pkt, "qSupported:") || Starts(pkt, "qfThreadInfo") || Starts(pkt, "qsThreadInfo")
    || Starts(pkt, "qThreadExtraInfo,1") || Starts(pkt, "qC") || Starts(pkt, "Hg0") || Starts(pkt, "Hc-")
    || Starts(pkt, "?") || Starts(pkt, "vCont?") || Starts(pkt, "T1")
  }

  /** The fixed replies, by the beginning of the request; every other request is answered with nothing. */
  lemma FixedReplies(pkt: string)
    ensures Starts(pkt, "qSupported:") ==> FixedReply(pkt) == "PacketSize=1000"
    ensures Starts(pkt, "qfThreadInfo") ==> FixedReply(pkt) == "m1"
    ensures Starts(pkt, "qsThreadInfo") ==> FixedReply(pkt) == "l"
    ensures Starts(pkt, "qThreadExtraInfo,1") ==> FixedReply(pkt) == "4350552330205b72756e6e696e675d"
    ensures Starts(pkt, "qC") ==> FixedReply(pkt) == "QC1"
    ensures Starts(pkt, "Hg0") || Starts(pkt, "Hc-") || Starts(pkt, "T1") ==> FixedReply(pkt) == "OK"
    ensures Starts(pkt, "?") ==> FixedReply(pkt) == "T05thread:01;"
    ensures Starts(pkt, "vCont?") ==> FixedReply(pkt) == "vCont;c;C;s;S"
    ensures !Known(pkt) ==> FixedReply(pkt) == ""
  {
    QueryReplies(pkt);
    OtherReplies(pkt);
    hide FixedReply, Starts;
  }

  lemma StartsAt(pkt: string, c: char, lit: string)
    ensures At(pkt, 0) == c && c != '\0' && StartsWith(pkt, 1, lit) ==> Starts(pkt, [c] + lit)
    ensures Starts(pkt, [c] + lit) ==> At(pkt, 0) == c && StartsWith(pkt, 1, lit)
  {
    if 1 + |lit| <= |pkt| {
      assert pkt[..1 + |lit|] == [pkt[0]] + pkt[1..1 + |lit|];
    }
  }

  lemma QueryReplies(pkt: string)
    ensures Starts(pkt, "qSupported:") ==> FixedReply(pkt) == "PacketSize=1000"
    ensures Starts(pkt, "qfThreadInfo") ==> FixedReply(pkt) == "m1"
    ensures Starts(pkt, "qsThreadInfo") ==> FixedReply(pkt) == "l"
    ensures Starts(pkt, "qThreadExtraInfo,1") ==> FixedReply(pkt) == "4350552330205b72756e6e696e675d"
    ensures Starts(pkt, "qC") ==> FixedReply(pkt) == "QC1"
    ensures At(pkt, 0) == 'q' && !Known(pkt) ==> FixedReply(pkt) == ""
  {
    assert "qSupported:" == ['q'] + "Supported:" && "qfThreadInfo" == ['q'] + "fThreadInfo";
    assert "qsThreadInfo" == ['q'] + "sThreadInfo" && "qThreadExtraInfo,1" == ['q'] + "ThreadExtraInfo,1";
    assert "qC" == ['q'] + "C";
    StartsAt(pkt, 'q', "Supported:");
    StartsAt(pkt, 'q', "fThreadInfo");
    StartsAt(pkt, 'q', "sThreadInfo");
    StartsAt(pkt, 'q', "ThreadExtraInfo,1");
    StartsAt(pkt, 'q', "C");
    FirstOf(pkt, "Supported:");
    FirstOf(pkt, "fThreadInfo");
    FirstOf(pkt, "sThreadInfo");
    FirstOf(pkt, "ThreadExtraInfo,1");
    FirstOf(pkt, "C");
    OneCharacter(pkt, 'C');
    hide Starts, StartsWith;
  }

  lemma OtherReplies(pkt: string)
    ensures Starts(pkt, "Hg0") || Starts(pkt, "Hc-") || Starts(pkt, "T1") ==> FixedReply(pkt) == "OK"
    ensures Starts(pkt, "?") ==> FixedReply(pkt) == "T05thread:01;"
    ensures Starts(pkt, "vCont?") ==> FixedReply(pkt) == "vCont;c;C;s;S"
    ensures At(pkt, 0) != 'q' && !Known(pkt) ==> FixedReply(pkt) == ""
  {
    assert "Hg0" == ['H'] + "g0" && "Hc-" == ['H'] + "c-" && "T1" == ['T'] + "1" && "?" == ['?'] + "";
    StartsAt(pkt, 'H', "g0");
    StartsAt(pkt, 'H', "c-");
    StartsAt(pkt, 'T', "1");
    StartsAt(pkt, '?', "");
    OneCharacter(pkt, '1');
    StartsWithNothing(pkt);
    ContQuery(pkt);
    hide Starts, StartsWith;
  }

  lemma StartsWithNothing(pkt: string)
    ensures At(pkt, 0) == '?' ==> StartsWith(pkt, 1, "")
  {
  }

  lemma ContQuery(pkt: string)
    ensures Starts(pkt, "vCont?") <==> At(pkt, 0) == 'v' && StartsWith(pkt, 1, "Cont") && At(pkt, 5) == '?'
  {
    var q := "vCont?";
    assert q == ['v'] + "Cont" + ['?'];
    if |pkt| >= 6 {
      assert pkt[..6] == [pkt[0]] + pkt[1..5] + [pkt[5]];
    }
  }

  lemma FirstOf(pkt: string, lit: string)
    requires lit != ""
    ensures StartsWith(pkt, 1, lit) ==> At(pkt, 1) == lit[0]
  {
  }

  lemma OneCharacter(pkt: string, c: char)
    requires c != '\0'
    ensures StartsWith(pkt, 1, [c]) <==> At(pkt, 1) == c && |pkt| > 1
  {
  }

  /** The reply to any request but dumps, breakpoints, registers and resumptions is that text; nothing else
      changes. */
  lemma OtherRequests(end: word, s: Stub, t: Regs, pkt: string)
    requires StubShape(s) && At(pkt, 0) !in {'g', 'm', 'Z', 'z'}
    requires !Starts(pkt, "vCont;s") && !Starts(pkt, "vCont;c")
    ensures var v := Command(end, s, t, pkt);
            v.Answer? && v.s == s.(sendBuf := v.s.sendBuf) && CString(v.s.sendBuf, 0) == FixedReply(pkt)
  {
    ResumeTexts(pkt);
    NoTerminator(pkt);
    TextOf(s.sendBuf[0 := '\0'], FixedReply(pkt));
    hide Starts, FixedReply, CString, StrCpy, CommandRead, CommandPoint, ParseResume;
  }

  predicate NulFree(text: string) {
    '\0' !in text
  }

  lemma LongTextsAreNulFree()
    ensures NulFree("PacketSize=1000") && NulFree("T05thread:01;") && NulFree("vCont;c;C;s;S")
    ensures NulFree("4350552330205b72756e6e696e675d")
  {
  }

  lemma ShortTextsAreNulFree()
    ensures NulFree("") && NulFree("OK") && NulFree("m1") && NulFree("l") && NulFree("QC1")
  {
  }

  lemma NoTerminator(pkt: string)
    ensures NulFree(FixedReply(pkt))
  {
    LongTextsAreNulFree();
    ShortTextsAreNulFree();
    hide NulFree;
  }

  /** A dump request that lacks a number or the comma is answered with an error. */
  lemma BadDumpRequest(end: word, s: Stub, t: Regs, pkt: string)
    requires StubShape(s) && At(pkt, 0) == 'm' && ParseRead(pkt) == None
    ensures var v := Command(end, s, t, pkt);
            v.Answer? && v.s == s.(sendBuf := v.s.sendBuf) && CString(v.s.sendBuf, 0) == "E01"
  {
    TextOf(s.sendBuf[0 := '\0'], "E01");
    hide CString, StrCpy, ParseRead;
  }

  /** A breakpoint request without `0` or a comma is not answered with a text, one of another kind halts. */
  lemma BadPointRequest(end: word, s: Stub, t: Regs, pkt: string)
    requires StubShape(s) && (At(pkt, 0) == 'Z' || At(pkt, 0) == 'z') && !ParsePoint(pkt).Target?
    ensures var v := Command(end, s, t, pkt);
            if ParsePoint(pkt).BadKind? then v.Panic?
            else v.Answer? && v.s == s.(sendBuf := v.s.sendBuf) && CString(v.s.sendBuf, 0) == ""
  {
    hide StrCpy, ParsePoint;
  }

  /** A conversation that is not silent opens with the stop reply. */
  lemma OpensWithStop(end: word, s: Stub, trapno: int, t: Regs, rest: string, out: string)
    requires StubShape(s) && !IsSilent(s, trapno)
    ensures Conversation(end, s, trapno, t, "+" + rest, out) ==
            Session(end, Entered(s, trapno, t).0, t.(eip := StoppedAt(s, trapno, t.eip)), rest,
                    out + Frame("T05thread:01;"))
  {
    EnteredRegisters(s, trapno, t);
    assert ("+" + rest)[1..] == rest;
    PutStep("T05thread:01;", "+" + rest, out);
    hide Entered, StoppedAt, Session, Put, Frame, StubShape;
  }
}
