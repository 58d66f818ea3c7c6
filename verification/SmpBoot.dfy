/** The start of the secondary processors (Intel MultiProcessor Specification 1.4, Appendix B.4) as a
    state machine: the boot processor's loops in `smp_init` against the secondaries' `cpu_start`. */
module SmpBoot {
  const MAX_CPU_COUNT := 32
  const POLLS := 1000

  /** Where the boot processor is: about to send the startup message to `cpu`, in the polling loop, at
      the test behind it, or done with the loop. */
  datatype Boot = Send(cpu: nat) | Poll(cpu: nat, i: nat) | Test(cpu: nat) | Finished

  /** Where a secondary is: not started; started; between the load and the store of `no_cpus_up++`;
      counted; between the load and the store of `cpus_up_mask |= 1 << cpu`; up.
      `seen` records how many mask stores had happened at the load. */
  datatype Secondary = Asleep | Started | Loaded(v: nat) | Counted | MaskLoaded(m: set<nat>, seen: nat) | Up

  /** The shared variables, and two history variables: the number of mask stores, and whether one of them
      overwrote a store made since its load. */
  datatype State = State(boot: Boot, noCpusUp: nat, mask: set<nat>, cpus: seq<Secondary>, stores: nat, raced: bool)

  /** `cpu_mp_variables.c`; entry 0 of `cpus` stands for the boot processor and is not used. */
  function Initial(): State {
    State(Send(1), 1, {0}, seq(MAX_CPU_COUNT + 1, _ => Asleep), 0, false)
  }

  datatype Step = BootSend | BootPoll | BootTest | Load(cpu: nat) | Store(cpu: nat) | MaskLoad(cpu: nat) | MaskStore(cpu: nat)

  predicate Enabled(s: State, e: Step) {
    && |s.cpus| == MAX_CPU_COUNT + 1
    && match e
       case BootSend => s.boot.Send?
       case BootPoll => s.boot.Poll?
       case BootTest => s.boot.Test?
       case Load(c) => 1 <= c <= MAX_CPU_COUNT && s.cpus[c].Started?
       case Store(c) => 1 <= c <= MAX_CPU_COUNT && s.cpus[c].Loaded?
       case MaskLoad(c) => 1 <= c <= MAX_CPU_COUNT && s.cpus[c].Counted?
       case MaskStore(c) => 1 <= c <= MAX_CPU_COUNT && s.cpus[c].MaskLoaded?
  }

  /** The bit `1 << cpu` sets on this processor, which shifts modulo 32. */
  function Bit(cpu: nat): nat {
    cpu % 32
  }

  function Next(s: State, e: Step): State
    requires Enabled(s, e)
  {
    match e
    case BootSend =>
      var cpu := s.boot.cpu;
      if cpu > MAX_CPU_COUNT then s.(boot := Finished)
      else s.(boot := Poll(cpu, 0), cpus := if s.cpus[cpu] == Asleep then s.cpus[cpu := Started] else s.cpus)
    case BootPoll =>
      var cpu, i := s.boot.cpu, s.boot.i;
      s.(boot := if i >= POLLS || s.noCpusUp == cpu + 1 then Test(cpu) else Poll(cpu, i + 1))
    case BootTest =>
      s.(boot := if s.noCpusUp < s.boot.cpu + 1 then Finished else Send(s.boot.cpu + 1))
    case Load(c) => s.(cpus := s.cpus[c := Loaded(s.noCpusUp)])
    case Store(c) => s.(noCpusUp := s.cpus[c].v + 1, cpus := s.cpus[c := Counted])
    case MaskLoad(c) => s.(cpus := s.cpus[c := MaskLoaded(s.mask, s.stores)])
    case MaskStore(c) =>
      s.(mask := s.cpus[c].m + {Bit(c)}, cpus := s.cpus[c := Up], stores := s.stores + 1,
         raced := s.raced || s.cpus[c].seen != s.stores)
  }

  predicate AllEnabled(s: State, es: seq<Step>)
    decreases |es|
  {
    es != [] ==> Enabled(s, es[0]) && AllEnabled(Next(s, es[0]), es[1..])
  }

  function Run(s: State, es: seq<Step>): State
    requires AllEnabled(s, es)
    decreases |es|
  {
    if es == [] then s else Run(Next(s, es[0]), es[1..])
  }

  // ---------------------------------------------------------------- the counter

  predicate HasCounted(x: Secondary) {
    x.Counted? || x.MaskLoaded? || x.Up?
  }

  /** Startup messages sent so far, while the boot processor is in its loop. */
  function Sent(b: Boot): nat {
    match b
    case Send(cpu) => if cpu == 0 then 0 else cpu - 1
    case Poll(cpu, _) => cpu
    case Test(cpu) => cpu
    case Finished => 0
  }

  /** With `n` messages sent: nobody beyond has started, everybody before the last has counted, and the
      last one's load, if pending, is of the current value. */
  ghost predicate Serial(s: State, n: nat) {
    && |s.cpus| == MAX_CPU_COUNT + 1 && n <= MAX_CPU_COUNT
    && (!s.boot.Finished? ==> Sent(s.boot) == n)
    && (forall c :: n < c <= MAX_CPU_COUNT ==> s.cpus[c] == Asleep)
    && (forall c :: 1 <= c < n ==> HasCounted(s.cpus[c]))
    && (n >= 1 ==> s.cpus[n] != Asleep)
    && (n >= 1 && s.cpus[n].Loaded? ==> s.cpus[n].v == s.noCpusUp)
    && (s.boot.Send? ==> s.boot.cpu == n + 1 && (n >= 1 ==> HasCounted(s.cpus[n])))
    && s.noCpusUp == if n >= 1 && !HasCounted(s.cpus[n]) then n else n + 1
  }

  lemma StepIsSerial(s: State, e: Step, n: nat) returns (n': nat)
    requires Serial(s, n) && Enabled(s, e)
    ensures Serial(Next(s, e), n') && n <= n'
  {
    n' := if e == BootSend && s.boot.cpu <= MAX_CPU_COUNT then n + 1 else n;
  }

  /** How many secondaries up to `c` have incremented the counter. */
  function CountedUpTo(cpus: seq<Secondary>, c: nat): nat
    requires c < |cpus|
  {
    if c == 0 then 0 else CountedUpTo(cpus, c - 1) + (if HasCounted(cpus[c]) then 1 else 0)
  }

  lemma {:induction false} CountSerial(s: State, n: nat, c: nat)
    requires Serial(s, n) && c <= MAX_CPU_COUNT
    ensures CountedUpTo(s.cpus, c) ==
            if c < n then c else if n == 0 then 0 else if HasCounted(s.cpus[n]) then n else n - 1
  {
    if c > 0 {
      CountSerial(s, n, c - 1);
    }
  }

  lemma {:induction false} RunIsSerial(s: State, es: seq<Step>, n: nat) returns (n': nat)
    requires Serial(s, n) && AllEnabled(s, es)
    ensures Serial(Run(s, es), n')
    decreases |es|
  {
    if es == [] {
      n' := n;
    } else {
      var n1 := StepIsSerial(s, es[0], n);
      n' := RunIsSerial(Next(s, es[0]), es[1..], n1);
    }
  }

  /** Under every interleaving, timeouts and late starters included, at most one started secondary has
      not counted itself, and the unprotected increments lose nothing: the counter is one more than the
      number of secondaries that have incremented it. */
  lemma CounterIsExact(es: seq<Step>)
    requires AllEnabled(Initial(), es)
    ensures var s := Run(Initial(), es);
            && |s.cpus| == MAX_CPU_COUNT + 1
            && s.noCpusUp == 1 + CountedUpTo(s.cpus, MAX_CPU_COUNT)
            && forall c, d :: 1 <= c < d <= MAX_CPU_COUNT && s.cpus[c] != Asleep && s.cpus[d] != Asleep ==>
                 HasCounted(s.cpus[c])
  {
    var n := RunIsSerial(Initial(), es, 0);
    CountSerial(Run(Initial(), es), n, MAX_CPU_COUNT);
  }

  // ---------------------------------------------------------------- the mask

  /** The mask, and every copy a secondary is about to write back, holds bit 0 and otherwise only
      secondaries that have counted. */
  ghost predicate MaskSound(s: State) {
    && |s.cpus| == MAX_CPU_COUNT + 1
    && BitsSound(s, s.mask)
    && forall c :: 1 <= c <= MAX_CPU_COUNT && s.cpus[c].MaskLoaded? ==> BitsSound(s, s.cpus[c].m)
  }

  ghost predicate BitsSound(s: State, m: set<nat>)
    requires |s.cpus| == MAX_CPU_COUNT + 1
  {
    0 in m && forall c :: c in m ==> c < MAX_CPU_COUNT && (c > 0 ==> HasCounted(s.cpus[c]))
  }

  lemma StepMaskSound(s: State, e: Step)
    requires MaskSound(s) && Enabled(s, e)
    ensures MaskSound(Next(s, e))
  {
    var t := Next(s, e);
    assert forall c :: 0 <= c <= MAX_CPU_COUNT && HasCounted(s.cpus[c]) ==> HasCounted(t.cpus[c]);
  }

  lemma {:induction false} RunMaskSound(s: State, es: seq<Step>)
    requires MaskSound(s) && AllEnabled(s, es)
    ensures MaskSound(Run(s, es))
    decreases |es|
  {
    if es != [] {
      StepMaskSound(s, es[0]);
      RunMaskSound(Next(s, es[0]), es[1..]);
    }
  }

  /** `cpus_up_mask` always keeps bit 0 and never names a processor that has not counted itself. */
  lemma MaskNamesOnlyCounted(es: seq<Step>)
    requires AllEnabled(Initial(), es)
    ensures var s := Run(Initial(), es);
            |s.cpus| == MAX_CPU_COUNT + 1 && BitsSound(s, s.mask)
  {
    RunMaskSound(Initial(), es);
  }

  /** The processors that are through `cpu_start`. */
  function UpSet(s: State): set<nat> {
    set c | 1 <= c < |s.cpus| && s.cpus[c].Up?
  }

  /** What the mask should be. */
  predicate MaskComplete(s: State) {
    s.mask == {0} + UpSet(s)
  }

  /** Nobody but the processors 1 to 31 runs. */
  predicate SmallIds(es: seq<Step>) {
    forall i :: 0 <= i < |es| && (es[i].Load? || es[i].Store? || es[i].MaskLoad? || es[i].MaskStore?) ==> es[i].cpu < 32
  }

  /** A pending copy is current if nothing was stored since it was loaded, and otherwise misses one of
      the processors that are up; so does the mask itself once a stale copy has been stored. */
  ghost predicate Histories(s: State) {
    && |s.cpus| == MAX_CPU_COUNT + 1
    && 0 in s.mask && s.mask <= {0} + UpSet(s)
    && (!s.raced ==> MaskComplete(s))
    && (s.raced ==> exists d :: d in UpSet(s) && d !in s.mask)
    && forall c :: 1 <= c <= MAX_CPU_COUNT && s.cpus[c].MaskLoaded? ==> CopyOk(s, s.cpus[c].m, s.cpus[c].seen)
  }

  ghost predicate CopyOk(s: State, m: set<nat>, seen: nat) {
    && 0 in m && m <= {0} + UpSet(s)
    && if seen == s.stores then m == s.mask
       else seen < s.stores && exists d :: d in UpSet(s) && d !in m
  }

  lemma StoreKeepsHistories(s: State, c: nat)
    requires Histories(s) && Enabled(s, MaskStore(c)) && c < 32
    ensures Histories(Next(s, MaskStore(c)))
  {
    var t := Next(s, MaskStore(c));
    var m := s.cpus[c].m;
    assert CopyOk(s, m, s.cpus[c].seen);
    assert UpSet(t) == UpSet(s) + {c} && c !in UpSet(s);
    if s.cpus[c].seen != s.stores {
      var d :| d in UpSet(s) && d !in m;
      assert d in UpSet(t) && d !in t.mask;
    } else if s.raced {
      var d :| d in UpSet(s) && d !in s.mask;
      assert d in UpSet(t) && d !in t.mask;
    }
    forall e | 1 <= e <= MAX_CPU_COUNT && t.cpus[e].MaskLoaded?
      ensures CopyOk(t, t.cpus[e].m, t.cpus[e].seen)
    {
      assert t.cpus[e] == s.cpus[e] && CopyOk(s, s.cpus[e].m, s.cpus[e].seen);
      assert c in UpSet(t) && c !in t.cpus[e].m;
    }
  }

  lemma OtherKeepsHistories(s: State, e: Step)
    requires Histories(s) && Enabled(s, e) && !e.MaskStore?
    ensures Histories(Next(s, e))
  {
    var t := Next(s, e);
    assert UpSet(t) == UpSet(s);
    forall c | 1 <= c <= MAX_CPU_COUNT && t.cpus[c].MaskLoaded?
      ensures CopyOk(t, t.cpus[c].m, t.cpus[c].seen)
    {
      assert t.cpus[c] == s.cpus[c] ==> CopyOk(s, s.cpus[c].m, s.cpus[c].seen);
    }
  }

  lemma {:induction false} RunKeepsHistories(s: State, es: seq<Step>)
    requires Histories(s) && AllEnabled(s, es) && SmallIds(es)
    ensures Histories(Run(s, es))
    decreases |es|
  {
    if es != [] {
      if es[0].MaskStore? {
        StoreKeepsHistories(s, es[0].cpu);
      } else {
        OtherKeepsHistories(s, es[0]);
      }
      RunKeepsHistories(Next(s, es[0]), es[1..]);
    }
  }

  // ---------------------------------------------------------------- the race, on the schedule

  /** Between the load of the mask at `i` and the same processor's store at `j`, another store happens. */
  predicate Overtakes(es: seq<Step>, i: nat, k: nat, j: nat) {
    i < k < j < |es| && es[i].MaskLoad? && es[k].MaskStore? && es[j] == MaskStore(es[i].cpu)
  }

  ghost predicate Raced(es: seq<Step>) {
    exists i: nat, k: nat, j: nat :: Overtakes(es, i, k, j)
  }

  /** Some store has followed the load of `c`. */
  predicate Follows(es: seq<Step>, i: nat, k: nat, c: nat) {
    i < k < |es| && es[i] == MaskLoad(c) && es[k].MaskStore?
  }

  ghost predicate Stale(es: seq<Step>, c: nat) {
    exists i: nat, k: nat :: Follows(es, i, k, c)
  }

  /** What the two history variables say about the schedule that led to them. */
  ghost predicate Recorded(s: State, es: seq<Step>) {
    && |s.cpus| == MAX_CPU_COUNT + 1
    && (s.raced <==> Raced(es))
    && forall c :: 1 <= c <= MAX_CPU_COUNT ==> RecordedAt(s, es, c)
  }

  ghost predicate RecordedAt(s: State, es: seq<Step>, c: nat)
    requires c < |s.cpus|
  {
    if s.cpus[c].MaskLoaded? then
      s.cpus[c].seen <= s.stores && MaskLoad(c) in es && (s.cpus[c].seen != s.stores <==> Stale(es, c))
    else s.cpus[c].Up? || MaskLoad(c) !in es
  }

  lemma RacedNext(es: seq<Step>, e: Step)
    ensures Raced(es + [e]) <==> Raced(es) || (e.MaskStore? && Stale(es, e.cpu))
  {
    var fs := es + [e];
    if Raced(es) {
      var i: nat, k: nat, j: nat :| Overtakes(es, i, k, j);
      assert Overtakes(fs, i, k, j);
    }
    if e.MaskStore? && Stale(es, e.cpu) {
      var i: nat, k: nat :| Follows(es, i, k, e.cpu);
      assert Overtakes(fs, i, k, |es|);
    }
    if Raced(fs) {
      var i: nat, k: nat, j: nat :| Overtakes(fs, i, k, j);
      if j < |es| {
        assert Overtakes(es, i, k, j);
      } else {
        assert Follows(es, i, k, e.cpu);
      }
    }
  }

  lemma StaleNext(es: seq<Step>, e: Step, c: nat)
    ensures Stale(es + [e], c) <==> Stale(es, c) || (e.MaskStore? && MaskLoad(c) in es)
  {
    var fs := es + [e];
    if Stale(es, c) {
      var i: nat, k: nat :| Follows(es, i, k, c);
      assert Follows(fs, i, k, c);
    }
    if e.MaskStore? && MaskLoad(c) in es {
      var i: nat :| i < |es| && es[i] == MaskLoad(c);
      assert Follows(fs, i, |es|, c);
    }
    if Stale(fs, c) {
      var i: nat, k: nat :| Follows(fs, i, k, c);
      if k < |es| {
        assert Follows(es, i, k, c);
      } else {
        assert es[i] == MaskLoad(c);
      }
    }
  }

  lemma NotStale(es: seq<Step>, c: nat)
    requires MaskLoad(c) !in es
    ensures !Stale(es, c)
  {
  }

  lemma RecordedNext(s: State, es: seq<Step>, e: Step)
    requires Recorded(s, es) && Enabled(s, e)
    ensures Recorded(Next(s, e), es + [e])
  {
    var t := Next(s, e);
    RacedNext(es, e);
    hide Raced, Stale;
    if e.MaskStore? {
      assert RecordedAt(s, es, e.cpu);
    }
    forall c | 1 <= c <= MAX_CPU_COUNT
      ensures RecordedAt(t, es + [e], c)
    {
      assert RecordedAt(s, es, c);
      StaleNext(es, e, c);
      if MaskLoad(c) !in es {
        NotStale(es, c);
      }
    }
  }

  lemma {:induction false} RunIsRecorded(es: seq<Step>)
    requires AllEnabled(Initial(), es)
    ensures Recorded(Run(Initial(), es), es)
    decreases |es|
  {
    if es == [] {
    } else {
      var n := |es| - 1;
      assert es == es[..n] + [es[n]];
      PrefixEnabled(Initial(), es[..n], es[n]);
      RunIsRecorded(es[..n]);
      RecordedNext(Run(Initial(), es[..n]), es[..n], es[n]);
    }
  }

  lemma {:induction false} PrefixEnabled(s: State, es: seq<Step>, e: Step)
    requires AllEnabled(s, es + [e])
    ensures AllEnabled(s, es) && Enabled(Run(s, es), e) && Run(s, es + [e]) == Next(Run(s, es), e)
    decreases |es|
  {
    if es == [] {
      assert [] + [e] == [e];
    } else {
      assert (es + [e])[1..] == es[1..] + [e];
      PrefixEnabled(Next(s, es[0]), es[1..], e);
    }
  }

  /** The mask names everyone who is up exactly if in the schedule no processor's update of the mask has
      another processor's store between its load and its store. */
  lemma MaskCompleteUnlessRaced(es: seq<Step>)
    requires AllEnabled(Initial(), es) && SmallIds(es)
    ensures MaskComplete(Run(Initial(), es)) <==>
            !exists i: nat, k: nat, j: nat :: Overtakes(es, i, k, j)
  {
    assert UpSet(Initial()) == {};
    RunKeepsHistories(Initial(), es);
    RunIsRecorded(es);
  }

  lemma {:induction false} RunsInParts(s: State, es: seq<Step>, fs: seq<Step>)
    requires AllEnabled(s, es) && AllEnabled(Run(s, es), fs)
    ensures AllEnabled(s, es + fs) && Run(s, es + fs) == Run(Run(s, es), fs)
    decreases |es|
  {
    if es == [] {
      assert [] + fs == fs;
    } else {
      RunsInParts(Next(s, es[0]), es[1..], fs);
      assert (es + fs)[1..] == es[1..] + fs;
    }
  }

  /** The loop ends behind processor 32, or behind one that has not counted itself. */
  lemma LoopEnds(s: State, e: Step)
    requires Enabled(s, e) && (e.BootSend? || e.BootPoll? || e.BootTest?)
    ensures Next(s, e).boot.Finished? <==>
            (s.boot.Send? && s.boot.cpu > 32) || (s.boot.Test? && s.noCpusUp < s.boot.cpu + 1)
  {
  }

  function Polls(n: nat): (es: seq<Step>)
    ensures |es| == n && forall i :: 0 <= i < n ==> es[i] == BootPoll
  {
    if n == 0 then [] else [BootPoll] + Polls(n - 1)
  }

  lemma {:induction false} Polled(s: State, c: nat, i: nat, n: nat)
    requires |s.cpus| == MAX_CPU_COUNT + 1 && s.boot == Poll(c, i) && s.noCpusUp != c + 1 && i + n <= 1000
    ensures AllEnabled(s, Polls(n)) && Run(s, Polls(n)) == s.(boot := Poll(c, i + n))
    decreases n
  {
    if n > 0 {
      var t := s.(boot := Poll(c, i + 1));
      Polled(t, c, i + 1, n - 1);
      OneStep(s, BootPoll, Polls(n - 1), t, t.(boot := Poll(c, i + n)));
    }
  }

  /** A processor that does not count itself within a thousand polls, of 100 microseconds each, ends the loop:
      nobody behind it is started. */
  lemma SilentProcessorEndsTheLoop(s: State, c: nat)
    requires |s.cpus| == MAX_CPU_COUNT + 1 && 1 <= c <= MAX_CPU_COUNT
    requires s.boot == Poll(c, 0) && s.noCpusUp < c + 1
    ensures var es := Polls(1000) + [BootPoll, BootTest];
            AllEnabled(s, es) && Run(s, es) == s.(boot := Finished)
  {
    Polled(s, c, 0, 1000);
    var s1, s2 := s.(boot := Poll(c, 1000)), s.(boot := Test(c));
    hide AllEnabled, Run;
    LastStep(s2, BootTest, s.(boot := Finished));
    OneStep(s1, BootPoll, [BootTest], s2, s.(boot := Finished));
    assert [BootPoll, BootTest] == [BootPoll] + [BootTest];
    RunsInParts(s, Polls(1000), [BootPoll, BootTest]);
  }

  /** Processor `c` answers the startup message sent to it, up to the load of the mask, and the boot
      processor sees the counter move. */
  lemma Answered(s: State, c: nat)
    requires |s.cpus| == MAX_CPU_COUNT + 1 && 1 <= c <= MAX_CPU_COUNT
    requires s.boot == Send(c) && s.noCpusUp == c && s.cpus[c] == Asleep
    ensures AllEnabled(s, Answer(c))
    ensures Run(s, Answer(c)) ==
            s.(boot := Send(c + 1), noCpusUp := c + 1, cpus := s.cpus[c := MaskLoaded(s.mask, s.stores)])
  {
    var s1 := s.(boot := Poll(c, 0), cpus := s.cpus[c := Started]);
    var s2 := s1.(cpus := s.cpus[c := Loaded(c)]);
    var s3 := s2.(noCpusUp := c + 1, cpus := s.cpus[c := Counted]);
    var s4 := s3.(cpus := s.cpus[c := MaskLoaded(s.mask, s.stores)]);
    var s5 := s4.(boot := Test(c));
    var s6 := s5.(boot := Send(c + 1));
    var es5 := [BootTest];
    var es4 := [BootPoll] + es5;
    var es3 := [MaskLoad(c)] + es4;
    var es2 := [Store(c)] + es3;
    var es1 := [Load(c)] + es2;
    hide AllEnabled, Run;
    LastStep(s5, BootTest, s6);
    OneStep(s4, BootPoll, es5, s5, s6);
    OneStep(s3, MaskLoad(c), es4, s4, s6);
    OneStep(s2, Store(c), es3, s3, s6);
    OneStep(s1, Load(c), es2, s2, s6);
    OneStep(s, BootSend, es1, s1, s6);
    assert Answer(c) == [BootSend] + es1;
  }

  function Answer(c: nat): seq<Step> {
    [BootSend, Load(c), Store(c), MaskLoad(c), BootPoll, BootTest]
  }

  function Stores(): seq<Step> {
    [MaskStore(1), MaskStore(2)]
  }

  lemma LastStep(s: State, e: Step, next: State)
    requires Enabled(s, e) && Next(s, e) == next
    ensures AllEnabled(s, [e]) && Run(s, [e]) == next
  {
  }

  lemma OneStep(s: State, e: Step, es: seq<Step>, next: State, last: State)
    requires Enabled(s, e) && Next(s, e) == next
    requires AllEnabled(next, es) && Run(next, es) == last
    ensures AllEnabled(s, [e] + es) && Run(s, [e] + es) == last
  {
    assert ([e] + es)[1..] == es;
  }

  /** And that does happen: the boot processor goes on as soon as the counter has moved, so two
      secondaries can be in their mask updates at once. */
  lemma MaskCanLoseAProcessor() returns (es: seq<Step>)
    ensures AllEnabled(Initial(), es) && SmallIds(es)
    ensures var s := Run(Initial(), es);
            && s.noCpusUp == 3 && s.mask == {0, 2}
            && |s.cpus| > 2 && s.cpus[1] == Up && s.cpus[2] == Up
  {
    hide AllEnabled, Run;
    var s := Initial();
    Answered(s, 1);
    var s1 := Run(s, Answer(1));
    Answered(s1, 2);
    var s2 := Run(s1, Answer(2));
    RunsInParts(s, Answer(1), Answer(2));
    var s3 := Next(s2, MaskStore(1));
    var s4 := Next(s3, MaskStore(2));
    LastStep(s3, MaskStore(2), s4);
    OneStep(s2, MaskStore(1), [MaskStore(2)], s3, s4);
    assert Stores() == [MaskStore(1)] + [MaskStore(2)];
    RunsInParts(s, Answer(1) + Answer(2), Stores());
    es := Answer(1) + Answer(2) + Stores();
  }
}
