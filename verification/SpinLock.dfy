/** `cpu_test_and_set`: a lock word taken by compare and exchange, whose previous value is read through one
    byte. */
module SpinLock {
  import opened Words

  /** Processor ids come from the top byte of a local APIC register. */
  type CpuId = n: nat | n < 256

  class Lock {
    var word: word

    constructor ()
      ensures word == 0
    {
      word := 0;
    }

    /** `lock cmpxchgl`; the previous value is left in `al`, one byte of it. */
    method CompareAndSwap(oldval: word, newval: word) returns (prev: byte)
      modifies this
      ensures word == if old(word) == oldval then newval else old(word)
      ensures prev == old(word) % 256
    {
      var eax := word;
      if word == oldval {
        word := newval;
      }
      prev := eax % 256;
    }

    /** `hint` is what is written to the test-and-set port, if anything is. */
    method TestAndSet(me: CpuId) returns (result: nat, hint: Option<nat>)
      modifies this
      ensures (word, result, hint) == Attempt(old(word), me)
    {
      hint := None;
      var locker := CompareAndSwap(0, me + 1);
      if locker != 0 {
        if locker != me + 1 {
          hint := Some(locker);
          result := 1;
        } else {
          result := 1;
        }
      } else {
        result := 0;
      }
    }
  }

  /** What one attempt leaves in the word, returns, and writes to the port. */
  function Attempt(w: word, me: CpuId): (word, nat, Option<nat>) {
    (if w == 0 then me + 1 else w,
     if w % 256 == 0 then 0 else 1,
     if w % 256 != 0 && w % 256 != me + 1 then Some(w % 256) else None)
  }

  // ---------------------------------------------------------------- any number of processors

  /** The word, and the processors whose attempt returned zero and that have not released since. */
  datatype State = State(word: word, holders: set<CpuId>)

  datatype Step = Try(cpu: CpuId) | Release(cpu: CpuId)

  predicate Enabled(s: State, e: Step) {
    e.Release? ==> e.cpu in s.holders
  }

  function Next(s: State, e: Step): State {
    match e
    case Try(c) =>
      var (w, result, _) := Attempt(s.word, c);
      State(w, if result == 0 then s.holders + {c} else s.holders)
    case Release(c) => State(0, s.holders - {c})
  }

  /** `es` is a run of processors in `ids`. */
  predicate Enables(s: State, es: seq<Step>, ids: set<CpuId>)
    decreases |es|
  {
    es != [] ==> Enabled(s, es[0]) && es[0].cpu in ids && Enables(Next(s, es[0]), es[1..], ids)
  }

  function Run(s: State, es: seq<Step>): State
    decreases |es|
  {
    if es == [] then s else Run(Next(s, es[0]), es[1..])
  }

  const Free := State(0, {})

  predicate Exclusive(s: State) {
    forall c, d :: c in s.holders && d in s.holders ==> c == d
  }

  ghost predicate AlwaysExclusive(ids: set<CpuId>) {
    forall es :: Enables(Free, es, ids) ==> Exclusive(Run(Free, es))
  }

  /** The word names the holder. */
  predicate Named(s: State) {
    s.word <= 255 && s.holders == if s.word == 0 then {} else {s.word - 1}
  }

  lemma {:induction false} RunIsNamed(s: State, es: seq<Step>, ids: set<CpuId>)
    requires Named(s) && 255 !in ids && Enables(s, es, ids)
    ensures Named(Run(s, es))
    decreases |es|
  {
    if es != [] {
      RunIsNamed(Next(s, es[0]), es[1..], ids);
    }
  }

  lemma {:induction false} RunHoldersIn(s: State, es: seq<Step>, ids: set<CpuId>)
    requires s.holders <= ids && Enables(s, es, ids)
    ensures Run(s, es).holders <= ids
    decreases |es|
  {
    if es != [] {
      RunHoldersIn(Next(s, es[0]), es[1..], ids);
    }
  }

  /** The lock of processor 255 reads as free to everybody. */
  lemma LastIdSharesTheLock(other: CpuId) returns (es: seq<Step>)
    requires other != 255
    ensures Enables(Free, es, {255, other}) && Run(Free, es).holders == {255, other}
  {
    es := [Try(255), Try(other)];
    var s1 := Next(Free, es[0]);
    assert s1 == State(256, {255});
    assert es[1..] == [Try(other)];
    var s2 := Next(s1, es[1]);
    assert s2.holders == {255, other};
    assert [Try(other)][1..] == [];
    assert Enables(s2, [], {255, other}) && Run(s2, []) == s2;
    assert Enables(s1, [Try(other)], {255, other}) && Run(s1, [Try(other)]) == s2;
  }

  lemma {:induction false} MoreProcessors(s: State, es: seq<Step>, few: set<CpuId>, many: set<CpuId>)
    requires few <= many && Enables(s, es, few)
    ensures Enables(s, es, many)
    decreases |es|
  {
    if es != [] {
      MoreProcessors(Next(s, es[0]), es[1..], few, many);
    }
  }

  /** Mutual exclusion in every reachable state, for exactly the sets of processors in which 255 is alone
      or absent: the bound under which reading one byte of the word does no harm. */
  lemma MutualExclusion(ids: set<CpuId>)
    ensures AlwaysExclusive(ids) <==> (255 in ids ==> ids == {255})
  {
    if 255 in ids && ids != {255} {
      var other :| other in ids && other != 255;
      var es := LastIdSharesTheLock(other);
      MoreProcessors(Free, es, {255, other}, ids);
      assert 255 in Run(Free, es).holders && other in Run(Free, es).holders;
    } else {
      forall es | Enables(Free, es, ids)
        ensures Exclusive(Run(Free, es))
      {
        RunHoldersIn(Free, es, ids);
        if 255 !in ids {
          RunIsNamed(Free, es, ids);
        }
      }
    }
  }

  /** In every state such processors reach, an attempt succeeds exactly when nobody holds the lock, and
      what it writes to the port names the holder, if that is somebody else. */
  lemma AttemptTellsTheHolder(ids: set<CpuId>, es: seq<Step>, me: CpuId)
    requires 255 !in ids && Enables(Free, es, ids) && me in ids
    ensures var s, a := Run(Free, es), Attempt(Run(Free, es).word, me);
            && (a.1 == 0 <==> s.holders == {})
            && (a.1 == 0 ==> Next(s, Try(me)).holders == {me})
            && (a.1 != 0 ==> Next(s, Try(me)) == s)
            && forall h: CpuId :: a.2 == Some(h + 1) <==> h != me && s.holders == {h}
  {
    RunIsNamed(Free, es, ids);
    var s := Run(Free, es);
    assert s.word != 0 ==> s.word - 1 in s.holders;
    forall h: CpuId | s.holders == {h}
      ensures s.word == h + 1
    {
      assert h in s.holders;
    }
  }
}
