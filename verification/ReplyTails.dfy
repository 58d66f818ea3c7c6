/** Where the reply to a request for the registers ends: it has no terminator of its own, so that depends on
    the dumps made before. */
module ReplyTails {
  import opened Words
  import opened HexText
  import opened Packets
  import opened Breakpoints
  import opened GdbStub
  import opened DebugRuns

  /** The characters of a `g` reply. */
  const REGISTERS_TEXT := 128

  /** How many bytes a request dumps. */
  function DumpSize(pkt: string): nat {
    if At(pkt, 0) != 'm' then 0
    else match ParseRead(pkt)
         case None => 0
         case Some((_, length)) => if Signed(length) < 0 then 0 else Signed(length)
  }

  /** Among the requests answered there is no dump of 64 bytes or more, or the last such dump was of exactly
      64. */
  predicate EndsThere(answered: seq<string>)
    decreases |answered|
  {
    if answered == [] then true
    else
      var last := DumpSize(answered[|answered| - 1]);
      if last < 64 then EndsThere(answered[..|answered| - 1]) else last == 64
  }

  /** The buffer has its terminator where a `g` reply needs one. */
  predicate Ended(buf: string) {
    |buf| == BUFFER_SIZE && buf[REGISTERS_TEXT] == '\0'
  }

  // ---------------------------------------------------------------- one request

  lemma CopyTail(buf: string, text: string)
    requires |text| < |buf| == BUFFER_SIZE
    ensures StrCpy(buf, text)[REGISTERS_TEXT] ==
            if |text| < REGISTERS_TEXT then buf[REGISTERS_TEXT]
            else if |text| == REGISTERS_TEXT then '\0'
            else text[REGISTERS_TEXT]
  {
  }

  lemma FixedRepliesAreShort(pkt: string)
    ensures |FixedReply(pkt)| < REGISTERS_TEXT
  {
  }

  lemma DumpTail(end: word, s: Stub, pkt: string)
    requires StubShape(s) && At(pkt, 0) == 'm' && CommandRead(end, s, pkt).Answer?
    ensures Ended(CommandRead(end, s, pkt).s.sendBuf) <==>
            if DumpSize(pkt) < 64 then Ended(s.sendBuf) else DumpSize(pkt) == 64
  {
    hide StrCpy, HexBytes, ShownBytes, MaskAll, UnmaskAll;
    match ParseRead(pkt)
    case None => CopyTail(s.sendBuf, "E01");
    case Some((addr, length)) =>
      var text := HexBytes(ShownBytes(MaskAll(s.patch.table, s.patch.mem), end, addr, Signed(length)));
      assert |text| == 2 * DumpSize(pkt);
      assert |text| > REGISTERS_TEXT ==> HexValue(text[REGISTERS_TEXT]) >= 0;
      CopyTail(s.sendBuf, text);
  }

  lemma DispatchTail(end: word, s: Stub, t: Regs, pkt: string)
    requires StubShape(s)
    ensures var v := Dispatch(end, s, t, pkt);
            && (v.Answer? ==>
                  (Ended(v.s.sendBuf) <==> if DumpSize(pkt) < 64 then Ended(s.sendBuf) else DumpSize(pkt) == 64))
            && (v.Leave? ==> v.s.sendBuf == s.sendBuf)
  {
    var c := At(pkt, 0);
    if c == 'm' {
      if CommandRead(end, s, pkt).Answer? {
        DumpTail(end, s, pkt);
      }
      hide CommandRead, Ended, DumpSize, StubShape;
    } else {
      assert DumpSize(pkt) == 0;
      FixedRepliesAreShort(pkt);
      CopyTail(s.sendBuf, FixedReply(pkt));
      CopyTail(s.sendBuf, "OK");
      CopyTail(s.sendBuf, "");
      RegistersTail(s.sendBuf, WordsText(RegisterList(t)));
      hide StrCpy, Splice, FixedReply, WordsText, RegisterList, CommandRead, DumpSize, Add, Remove, Mask, ParseRead;
    }
  }

  lemma RegistersTail(buf: string, text: string)
    requires |buf| == BUFFER_SIZE && |text| == REGISTERS_TEXT
    ensures Splice(buf, 0, text)[REGISTERS_TEXT] == buf[REGISTERS_TEXT]
  {
  }

  lemma CommandTail(end: word, s: Stub, t: Regs, pkt: string, answered: seq<string>)
    requires StubShape(s) && (Ended(s.sendBuf) <==> EndsThere(answered))
    ensures var v := Command(end, s, t, pkt);
            && (v.Answer? ==> (Ended(v.s.sendBuf) <==> EndsThere(answered + [pkt])))
            && (v.Leave? ==> (Ended(v.s.sendBuf) <==> EndsThere(answered)))
  {
    var s0 := s.(sendBuf := s.sendBuf[0 := '\0']);
    assert (answered + [pkt])[..|answered|] == answered;
    assert Ended(s0.sendBuf) <==> Ended(s.sendBuf);
    DispatchTail(end, s0, t, pkt);
    hide Dispatch, Ended, DumpSize;
  }

  // ---------------------------------------------------------------- conversations and runs

  /** The requests answered in a session, after those in `answered`. */
  function Answered(end: word, s: Stub, t: Regs, input: string, out: string, answered: seq<string>): seq<string>
    requires StubShape(s)
    decreases |input|
  {
    match Hunt(s.recvBuf, input, out)
    case Waiting => answered
    case Delivered(buf, start, rest, out1) =>
      match Command(end, s.(recvBuf := buf), t, CString(buf, start))
      case Panic => answered
      case Overrun => answered
      case Leave(_, _) => answered
      case Answer(s1) =>
        PutShortens(CString(s1.sendBuf, 0), rest, out1);
        match Put(CString(s1.sendBuf, 0), rest, out1)
        case Unanswered => answered + [CString(buf, start)]
        case Acked(rest2, out2) => Answered(end, s1, t, rest2, out2, answered + [CString(buf, start)])
  }

  /** Every `g` reply of a session is the registers and nothing more exactly if the requests answered before
      it say so. */
  ghost predicate RegistersEnd(end: word, s: Stub, t: Regs, input: string, out: string, answered: seq<string>)
    requires StubShape(s)
    decreases |input|
  {
    match Hunt(s.recvBuf, input, out)
    case Waiting => true
    case Delivered(buf, start, rest, out1) =>
      var pkt := CString(buf, start);
      match Command(end, s.(recvBuf := buf), t, pkt)
      case Panic => true
      case Overrun => true
      case Leave(_, _) => true
      case Answer(s1) =>
        && (At(pkt, 0) == 'g' ==> (|CString(s1.sendBuf, 0)| == REGISTERS_TEXT <==> EndsThere(answered)))
        && (PutShortens(CString(s1.sendBuf, 0), rest, out1);
            match Put(CString(s1.sendBuf, 0), rest, out1)
            case Unanswered => true
            case Acked(rest2, out2) => RegistersEnd(end, s1, t, rest2, out2, answered + [pkt]))
  }

  lemma {:induction false} SessionTails(end: word, s: Stub, t: Regs, input: string, out: string, answered: seq<string>)
    requires StubShape(s) && (Ended(s.sendBuf) <==> EndsThere(answered))
    ensures RegistersEnd(end, s, t, input, out, answered)
    ensures var e := Session(end, s, t, input, out);
            e.Returns? ==> (Ended(e.s.sendBuf) <==> EndsThere(Answered(end, s, t, input, out, answered)))
    decreases |input|
  {
    hide Command, CString, EndsThere;
    match Hunt(s.recvBuf, input, out)
    case Waiting =>
    case Delivered(buf, start, rest, out1) =>
      var s0, pkt := s.(recvBuf := buf), CString(buf, start);
      CommandTail(end, s0, t, pkt, answered);
      if At(pkt, 0) == 'g' {
        RegistersReadBack(end, s0, t, pkt);
      }
      match Command(end, s0, t, pkt)
      case Panic =>
      case Overrun =>
      case Leave(_, _) =>
      case Answer(s1) =>
        PutShortens(CString(s1.sendBuf, 0), rest, out1);
        match Put(CString(s1.sendBuf, 0), rest, out1)
        case Unanswered =>
        case Acked(rest2, out2) => SessionTails(end, s1, t, rest2, out2, answered + [pkt]);
  }

  /** The requests answered in the conversation a trap starts. */
  ghost function AnsweredAt(end: word, m: Moment, line: string, answered: seq<string>): seq<string>
    requires StubShape(m.s)
  {
    if m.mode.Running? then answered
    else
      var (s1, t1) := Entered(m.s, m.mode.trapno, m.t);
      var a := Put(STOP_REPLY, line, "");
      if t1.None? || a.Unanswered? then answered else Answered(end, s1, t1.value, a.rest, a.out, answered)
  }

  /** All requests answered before moment `i` of a run (at which the stub always has its shape). */
  ghost function History(end: word, run: seq<Moment>, lines: seq<string>, i: nat): seq<string>
    requires i < |run| == |lines| + 1
  {
    if i == 0 then []
    else
      var before := History(end, run, lines, i - 1);
      if StubShape(run[i - 1].s) then AnsweredAt(end, run[i - 1], lines[i - 1], before) else before
  }

  lemma StepTails(end: word, m: Moment, n: Moment, line: string, answered: seq<string>)
    requires DebuggerRuns(end, m, n, line) && (Ended(m.s.sendBuf) <==> EndsThere(answered))
    ensures Ended(n.s.sendBuf) <==> EndsThere(AnsweredAt(end, m, line, answered))
  {
    var (s1, t1) := Entered(m.s, m.mode.trapno, m.t);
    assert s1.sendBuf == m.s.sendBuf;
    var a := Put(STOP_REPLY, line, "");
    hide Ended, EndsThere, Session, Orderly, Answered, Put, RegistersEnd;
    if t1.Some? && a.Acked? {
      SessionTails(end, s1, t1.value, a.rest, a.out, answered);
    }
  }

  lemma ProgramTails(m: Moment, n: Moment)
    requires ProgramRuns(m, n)
    ensures m.mode.Running? && n.s.sendBuf == m.s.sendBuf
  {
  }

  lemma BootTails(end: word, run: seq<Moment>, lines: seq<string>)
    requires Run(end, run, lines)
    ensures Ended(run[0].s.sendBuf)
  {
  }

  /** Over every run the state of the buffer is what the requests answered so far say. */
  lemma {:induction false} RunTails(end: word, run: seq<Moment>, lines: seq<string>, i: nat)
    requires Run(end, run, lines) && i < |run|
    ensures Ended(run[i].s.sendBuf) <==> EndsThere(History(end, run, lines, i))
  {
    if i == 0 {
      BootTails(end, run, lines);
    } else {
      RunTails(end, run, lines, i - 1);
      StepOfRun(end, run, lines, i - 1);
      var before := History(end, run, lines, i - 1);
      hide Run, DebuggerRuns, ProgramRuns, EndsThere, Ended, StubShape, AnsweredAt;
      if DebuggerRuns(end, run[i - 1], run[i], lines[i - 1]) {
        StepTails(end, run[i - 1], run[i], lines[i - 1], before);
      } else {
        ProgramTails(run[i - 1], run[i]);
        RunningAnswersNothing(end, run[i - 1], lines[i - 1], before);
      }
    }
  }

  lemma RunningAnswersNothing(end: word, m: Moment, line: string, answered: seq<string>)
    requires m.mode.Running?
    ensures StubShape(m.s) ==> AnsweredAt(end, m, line, answered) == answered
  {
  }

  /** In every conversation of every run, whatever is on the line, each `g` reply ends behind the registers
      exactly if, among the requests answered before it since boot, there is no dump of 64 bytes or more or the
      last such dump was of exactly 64. */
  lemma RegistersEndWhere(end: word, run: seq<Moment>, lines: seq<string>, i: nat, line: string)
    requires Run(end, run, lines) && i < |run| && run[i].mode.Trapped? && StubShape(run[i].s)
    ensures var (s1, t1) := Entered(run[i].s, run[i].mode.trapno, run[i].t);
            var a := Put(STOP_REPLY, line, "");
            t1.Some? && a.Acked? ==>
              RegistersEnd(end, s1, t1.value, a.rest, a.out, History(end, run, lines, i))
  {
    RunTails(end, run, lines, i);
    var (s1, t1) := Entered(run[i].s, run[i].mode.trapno, run[i].t);
    assert s1.sendBuf == run[i].s.sendBuf;
    var a := Put(STOP_REPLY, line, "");
    var answered := History(end, run, lines, i);
    hide Run, History, Ended, EndsThere, RegistersEnd, Answered, Put, Entered, Session;
    if t1.Some? && a.Acked? {
      SessionTails(end, s1, t1.value, a.rest, a.out, answered);
    }
  }
}
