/** The stub's replies seen from the other end of the line. */
module Replies {
  import opened Words
  import opened HexText
  import opened Packets
  import opened Breakpoints
  import opened GdbStub
  import opened DebugRuns

  /** The send buffer never holds a framing character, always ends early enough, and has no ':' in third
      place. */
  predicate Tidy(buf: string) {
    |buf| == BUFFER_SIZE && Clean(buf) && buf[BUFFER_SIZE - 2] == '\0' && buf[2] != ':'
  }

  predicate Plain(s: string) {
    '$' !in s && '#' !in s
  }

  lemma PlainIsClean(s: string)
    requires Plain(s)
    ensures Clean(s)
  {
  }

  lemma LongTextsArePlain()
    ensures Plain("PacketSize=1000") && Plain("T05thread:01;") && Plain("vCont;c;C;s;S")
  {
  }

  lemma ThreadInfoIsPlain()
    ensures Plain("4350552330205b72756e6e696e675d")
  {
  }

  lemma ShortTextsArePlain()
    ensures Plain("") && Plain("OK") && Plain("E01") && Plain("m1") && Plain("l") && Plain("QC1")
  {
  }

  lemma FixedRepliesAreClean(pkt: string)
    ensures Clean(FixedReply(pkt)) && At(FixedReply(pkt), 2) != ':'
  {
    LongTextsArePlain();
    ThreadInfoIsPlain();
    ShortTextsArePlain();
    hide Plain, Clean;
    PlainIsClean(FixedReply(pkt));
  }

  lemma DigitsAreClean(text: string)
    requires IsHex(text)
    ensures Clean(text) && At(text, 2) != ':'
  {
    assert forall i :: 0 <= i < |text| ==> HexValue(text[i]) >= 0;
  }

  lemma SayIsTidy(buf: string, text: string)
    requires Tidy(buf) && Clean(text) && At(text, 2) != ':' && |text| < BUFFER_SIZE - 1
    ensures Tidy(StrCpy(buf, text))
  {
  }

  lemma DumpIsTidy(buf: string, text: string)
    requires Tidy(buf) && Clean(text) && At(text, 2) != ':' && 2 < |text| < BUFFER_SIZE - 1
    ensures Tidy(Splice(buf, 0, text))
  {
  }

  lemma ReadIsTidy(end: word, s: Stub, pkt: string)
    requires StubShape(s) && Tidy(s.sendBuf)
    ensures CommandRead(end, s, pkt).Answer? ==> Tidy(CommandRead(end, s, pkt).s.sendBuf)
  {
    ShortTextsArePlain();
    PlainIsClean("E01");
    hide Tidy, Clean, StrCpy, HexBytes, ShownBytes, MaskAll, UnmaskAll;
    match ParseRead(pkt)
    case None => SayIsTidy(s.sendBuf, "E01");
    case Some((addr, length)) =>
      if Signed(length) <= 511 {
        var text := HexBytes(ShownBytes(MaskAll(s.patch.table, s.patch.mem), end, addr, Signed(length)));
        DigitsAreClean(text);
        SayIsTidy(s.sendBuf, text);
      }
  }

  lemma PointIsTidy(s: Stub, pkt: string)
    requires StubShape(s) && Tidy(s.sendBuf)
    ensures CommandPoint(s, pkt).Answer? ==> Tidy(CommandPoint(s, pkt).s.sendBuf)
  {
    ShortTextsArePlain();
    PlainIsClean("OK");
    hide Tidy, Clean, Plain, StrCpy, Add, Remove;
    PlainIsClean("");
    SayIsTidy(s.sendBuf, "OK");
    SayIsTidy(s.sendBuf, "");
  }

  lemma DispatchIsTidy(end: word, s: Stub, t: Regs, pkt: string)
    requires StubShape(s) && Tidy(s.sendBuf)
    ensures var v := Dispatch(end, s, t, pkt); v.Answer? || v.Leave? ==> Tidy(v.s.sendBuf)
  {
    FixedRepliesAreClean(pkt);
    SayIsTidy(s.sendBuf, FixedReply(pkt));
    DigitsAreClean(WordsText(RegisterList(t)));
    DumpIsTidy(s.sendBuf, WordsText(RegisterList(t)));
    ReadIsTidy(end, s, pkt);
    PointIsTidy(s, pkt);
    hide Tidy, FixedReply, WordsText, RegisterList, CommandRead, CommandPoint, ParseResume, StrCpy, Splice;
  }

  /** A reply in such a buffer is one the packet layer receives whole and at once: no framing character and
      not too long. It is handed on as it is unless it is shorter than two characters and meets a ':' left
      over at the receiver. */
  lemma ReplyArrives(b: string, buf: string, rest: string, out: string)
    requires Tidy(b) && |buf| == BUFFER_SIZE
    ensures var text, r := CString(b, 0), Hunt(buf, Frame(CString(b, 0)) + rest, out);
            && |text| < BUFFER_SIZE - 1
            && r == Accept(StrCpy(buf, text), rest, out)
            && (r == Delivered(StrCpy(buf, text), 0, rest, out + "+") <==> |text| >= 2 || buf[2] != ':')
            && CString(StrCpy(buf, text), 0) == text
  {
    var text := CString(b, 0);
    ShortOfTheEnd(b);
    hide Tidy, CString, Clean;
    FrameArrives(buf, text, rest, out);
    FrameRoundTrip(buf, text, rest, out);
  }

  lemma ShortOfTheEnd(b: string)
    requires Tidy(b)
    ensures var text := CString(b, 0);
            && |text| < BUFFER_SIZE - 1 && Clean(text) && At(text, 2) != ':'
            && forall i :: 0 <= i < |text| ==> text[i] != '\0'
  {
    var text := CString(b, 0);
    assert forall i :: 0 <= i < |text| ==> b[i] == text[i] && b[i] != '\0';
  }

  lemma CommandIsTidy(end: word, s: Stub, t: Regs, pkt: string)
    requires StubShape(s) && Tidy(s.sendBuf)
    ensures var v := Command(end, s, t, pkt); v.Answer? || v.Leave? ==> Tidy(v.s.sendBuf)
  {
    var s0 := s.(sendBuf := s.sendBuf[0 := '\0']);
    assert Tidy(s0.sendBuf);
    DispatchIsTidy(end, s0, t, pkt);
    hide Tidy, Dispatch;
  }

  /** From boot on, that is what the buffer is like, conversation after conversation. */
  lemma {:induction false} SessionIsTidy(end: word, s: Stub, t: Regs, input: string, out: string)
    requires StubShape(s) && Tidy(s.sendBuf)
    ensures var e := Session(end, s, t, input, out); e.Returns? ==> Tidy(e.s.sendBuf)
    decreases |input|
  {
    hide Tidy, Command, CString;
    match Hunt(s.recvBuf, input, out)
    case Waiting =>
    case Delivered(buf, start, rest, out1) =>
      var s0, pkt := s.(recvBuf := buf), CString(buf, start);
      CommandIsTidy(end, s0, t, pkt);
      match Command(end, s0, t, pkt)
      case Panic =>
      case Overrun =>
      case Leave(_, _) =>
      case Answer(s1) =>
        PutShortens(CString(s1.sendBuf, 0), rest, out1);
        match Put(CString(s1.sendBuf, 0), rest, out1)
        case Unanswered =>
        case Acked(rest2, out2) => SessionIsTidy(end, s1, t, rest2, out2);
  }

  lemma StepIsTidy(end: word, m: Moment, n: Moment, line: string)
    requires Tidy(m.s.sendBuf) && DebuggerRuns(end, m, n, line)
    ensures Tidy(n.s.sendBuf)
  {
    var (s1, t1) := Entered(m.s, m.mode.trapno, m.t);
    assert s1.sendBuf == m.s.sendBuf;
    hide Tidy, Session, Orderly;
    if t1.Some? && Put(STOP_REPLY, line, "").Acked? {
      var a := Put(STOP_REPLY, line, "");
      SessionIsTidy(end, s1, t1.value, a.rest, a.out);
    }
  }

  lemma BootIsTidy(end: word, run: seq<Moment>, lines: seq<string>)
    requires Run(end, run, lines)
    ensures Tidy(run[0].s.sendBuf)
  {
  }

  lemma ProgramIsTidy(m: Moment, n: Moment)
    requires ProgramRuns(m, n)
    ensures n.s.sendBuf == m.s.sendBuf
  {
  }

  /** From boot on, the send buffer is always tidy. */
  lemma {:induction false} RunIsTidy(end: word, run: seq<Moment>, lines: seq<string>, i: nat)
    requires Run(end, run, lines) && i < |run|
    ensures Tidy(run[i].s.sendBuf)
  {
    if i == 0 {
      BootIsTidy(end, run, lines);
    } else {
      RunIsTidy(end, run, lines, i - 1);
      StepOfRun(end, run, lines, i - 1);
      hide Run, Tidy, DebuggerRuns, ProgramRuns;
      if DebuggerRuns(end, run[i - 1], run[i], lines[i - 1]) {
        StepIsTidy(end, run[i - 1], run[i], lines[i - 1]);
      } else {
        ProgramIsTidy(run[i - 1], run[i]);
      }
    }
  }
}
