/** Where the program is shown to be, and goes on, at each stop of a run: the life of `phase`. */
module Stops {
  import opened Words
  import opened HexText
  import opened Packets
  import opened Breakpoints
  import opened GdbStub
  import opened DebugRuns

  // ---------------------------------------------------------------- one command, one conversation

  /** Only a continuation moves the phase, to 2. */
  lemma CommandPhase(end: word, s: Stub, t: Regs, pkt: string)
    requires StubShape(s)
    ensures var v := Command(end, s, t, pkt);
            && (v.Answer? ==> v.s.phase == s.phase && v.s.restoreContinue == s.restoreContinue)
            && (v.Leave? ==> v.s.phase == if ParseResume(pkt) == Some(Continue) then 2 else s.phase)
            && (v.Leave? && v.s.phase == 0 ==> v.s.restoreContinue == s.restoreContinue)
  {
    hide StrCpy, Splice, WordsText, RegisterList, FixedReply, ParseRead, ParsePoint, ParseResume;
    hide Add, Remove, Mask, MaskAll, UnmaskAll, HexBytes, ShownBytes;
  }

  lemma {:induction false} SessionPhase(end: word, s: Stub, t: Regs, input: string, out: string)
    requires StubShape(s) && s.phase != 0
    ensures var e := Session(end, s, t, input, out); e.Returns? ==> e.s.phase != 0
    decreases |input|
  {
    hide Command, CString;
    match Hunt(s.recvBuf, input, out)
    case Waiting =>
    case Delivered(buf, start, rest, out1) =>
      var s0, pkt := s.(recvBuf := buf), CString(buf, start);
      CommandPhase(end, s0, t, pkt);
      match Command(end, s0, t, pkt)
      case Panic =>
      case Overrun =>
      case Leave(_, _) =>
      case Answer(s1) =>
        PutShortens(CString(s1.sendBuf, 0), rest, out1);
        match Put(CString(s1.sendBuf, 0), rest, out1)
        case Unanswered =>
        case Acked(rest2, out2) => SessionPhase(end, s1, t, rest2, out2);
  }

  lemma EnteredPhase(s: Stub, trapno: int, t: Regs)
    requires StubShape(s)
    ensures var (s1, t1) := Entered(s, trapno, t);
            && (t1.None? <==> IsSilent(s, trapno))
            && (t1.None? ==> s1.phase == s.phase)
            && (t1.Some? ==> s1.phase == if s.phase == 0 then 1 else s.phase)
  {
  }

  /** A conversation that is not silent leaves the phase different from 0, for good. */
  lemma ConversationPhase(end: word, s: Stub, trapno: int, t: Regs, input: string)
    requires StubShape(s)
    ensures var e := Conversation(end, s, trapno, t, input, "");
            e.Returns? ==> (e.s.phase == 0 <==> s.phase == 0 && IsSilent(s, trapno))
  {
    EnteredPhase(s, trapno, t);
    var (s1, t1) := Entered(s, trapno, t);
    hide Entered, Session, StubShape, IsSilent, Put;
    if t1.Some? && Put(STOP_REPLY, input, "").Acked? {
      var a := Put(STOP_REPLY, input, "");
      SessionPhase(end, s1, t1.value, a.rest, a.out);
    }
  }

  // ---------------------------------------------------------------- runs

  /** The program has not been stopped yet. */
  ghost predicate NeverStopped(run: seq<Moment>, i: nat)
    requires i <= |run|
  {
    forall k :: 0 <= k < i ==> run[k].mode.Running?
  }

  lemma BootPhase(end: word, run: seq<Moment>, lines: seq<string>)
    requires Run(end, run, lines)
    ensures run[0].s.phase == 0 && run[0].s.restoreContinue == NO_ADDRESS && run[0].mode.Running?
  {
  }

  lemma ProgramPhase(m: Moment, n: Moment)
    requires ProgramRuns(m, n)
    ensures m.mode.Running? && n.s.phase == m.s.phase && n.s.restoreContinue == m.s.restoreContinue
  {
  }

  lemma DebuggerPhase(end: word, m: Moment, n: Moment, line: string)
    requires DebuggerRuns(end, m, n, line)
    ensures m.mode.Trapped? && (n.s.phase == 0 <==> m.s.phase == 0 && IsSilent(m.s, m.mode.trapno))
  {
    ConversationPhase(end, m.s, m.mode.trapno, m.t, line);
    hide Conversation, OrderlyTrap, StubShape;
  }

  /** The phase is 0 exactly up to and including the first stop, and until then nothing is pending. */
  lemma {:induction false} PhaseTellsTheFirstStop(end: word, run: seq<Moment>, lines: seq<string>, i: nat)
    requires Run(end, run, lines) && i < |run|
    ensures run[i].s.phase == 0 <==> NeverStopped(run, i)
    ensures run[i].s.phase == 0 ==> run[i].s.restoreContinue == NO_ADDRESS
  {
    if i == 0 {
      BootPhase(end, run, lines);
    } else {
      PhaseTellsTheFirstStop(end, run, lines, i - 1);
      StepOfRun(end, run, lines, i - 1);
      hide Run, DebuggerRuns, ProgramRuns;
      var m := run[i - 1];
      assert NeverStopped(run, i) <==> NeverStopped(run, i - 1) && m.mode.Running?;
      if DebuggerRuns(end, m, run[i], lines[i - 1]) {
        DebuggerPhase(end, m, run[i], lines[i - 1]);
      } else {
        ProgramPhase(m, run[i]);
      }
    }
  }

  lemma ShapeOfRun(end: word, run: seq<Moment>, lines: seq<string>, i: nat)
    requires Run(end, run, lines) && i < |run|
    ensures StubShape(run[i].s)
  {
    DebuggerIsInvisible(end, run, lines, i);
  }

  /** The program counter of a stop: at the first one, behind the instruction the trap was reported at or, for
      a breakpoint instruction, right behind it; at every later one, where the trap was reported or, for a
      breakpoint instruction, at it. */
  function StopsAt(first: bool, trapno: int, eip: word): word {
    if first then (if trapno == 3 then eip else Wrap(eip + 1))
    else if trapno == 3 then Wrap(eip - 1)
    else eip
  }

  /** The program counter the program goes on with is the one the debugger was shown, unless the stop is
      silent. */
  lemma StopOfPhase(s: Stub, first: bool, trapno: int, eip: word)
    requires first <==> s.phase == 0
    requires s.phase == 0 ==> s.restoreContinue == NO_ADDRESS
    ensures first ==> !IsSilent(s, trapno)
    ensures StoppedAt(s, trapno, eip) == StopsAt(first, trapno, eip)
    ensures ResumedAt(s, trapno, eip) == if IsSilent(s, trapno) then eip else StopsAt(first, trapno, eip)
  {
    WrapBack(eip);
  }

  /** At every stop of every run the debugger is shown that program counter, and there the program goes on,
      unless the stop is the silent one inside a continuation, which moves nothing. */
  lemma EveryStop(end: word, run: seq<Moment>, lines: seq<string>, i: nat)
    requires Run(end, run, lines) && i < |run| && run[i].mode.Trapped?
    ensures StubShape(run[i].s)
    ensures var m := run[i];
            var at := StopsAt(NeverStopped(run, i), m.mode.trapno, m.t.eip);
            && (NeverStopped(run, i) ==> !IsSilent(m.s, m.mode.trapno))
            && Entered(m.s, m.mode.trapno, m.t).1 ==
               (if IsSilent(m.s, m.mode.trapno) then None else Some(m.t.(eip := at)))
            && (i < |lines| ==> run[i + 1].t.eip == if IsSilent(m.s, m.mode.trapno) then m.t.eip else at)
  {
    ShapeOfRun(end, run, lines, i);
    PhaseTellsTheFirstStop(end, run, lines, i);
    if i < |lines| {
      NextCounter(end, run, lines, i);
    }
    var m := run[i];
    hide *;
    StopOfPhase(m.s, NeverStopped(run, i), m.mode.trapno, m.t.eip);
    EnteredRegisters(m.s, m.mode.trapno, m.t);
  }

  lemma NextCounter(end: word, run: seq<Moment>, lines: seq<string>, i: nat)
    requires Run(end, run, lines) && i < |lines| && run[i].mode.Trapped?
    ensures run[i + 1].t.eip == ResumedAt(run[i].s, run[i].mode.trapno, run[i].t.eip)
  {
    DebuggerIsInvisible(end, run, lines, i);
    StepOfRun(end, run, lines, i);
    hide *;
    GoesOn(end, run[i], run[i + 1], lines[i]);
  }

  lemma WrapBack(eip: word)
    ensures Wrap(Wrap(eip - 1) + 1) == eip
  {
  }

  lemma GoesOn(end: word, m: Moment, n: Moment, line: string)
    requires Safe(m) && m.mode.Trapped? && (ProgramRuns(m, n) || DebuggerRuns(end, m, n, line))
    ensures n.t.eip == ResumedAt(m.s, m.mode.trapno, m.t.eip)
  {
    ConversationKeeps(end, m.s, m.mode.trapno, m.t, line);
    hide Conversation, OrderlyTrap, Trappable, Resumable, SameProgram, ResumedAt;
  }
}
