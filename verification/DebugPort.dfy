/** The debugger's serial port: the receive ring of `foo` and `dbg_recv`, and the bytes sent. */
module DebugPort {
  import opened Words
  const RECV_BUFFER_SIZE := 1024

  /** The slot after slot `i`. */
  function After(i: nat): (j: nat)
    requires i < RECV_BUFFER_SIZE
    ensures j == if i == RECV_BUFFER_SIZE - 1 then 0 else i + 1
  {
    (i + 1) % RECV_BUFFER_SIZE
  }

  predicate Indices(buf: string, start: nat, end: nat) {
    |buf| == RECV_BUFFER_SIZE && start < RECV_BUFFER_SIZE && end < RECV_BUFFER_SIZE
  }

  /** The characters a ring holds, oldest first. */
  function RingText(buf: string, start: nat, end: nat): (s: string)
    requires Indices(buf, start, end)
    ensures |s| == if start <= end then end - start else |buf| - start + end
  {
    if start <= end then buf[start..end] else buf[start..] + buf[..end]
  }

  lemma RingPush(buf: string, start: nat, end: nat, c: char)
    requires Indices(buf, start, end) && After(end) != start
    ensures RingText(buf[end := c], start, After(end)) == RingText(buf, start, end) + [c]
  {
    var b := buf[end := c];
    if start <= end {
      assert b[start..end + 1] == buf[start..end] + [c];
      if end + 1 == RECV_BUFFER_SIZE {
        assert b[start..] == b[start..end + 1];
        assert b[start..] + b[..0] == b[start..];
      }
    } else {
      assert b[start..] == buf[start..] && b[..end + 1] == buf[..end] + [c];
      Assoc(buf[start..], buf[..end], [c]);
    }
  }

  lemma RingPop(buf: string, start: nat, end: nat)
    requires Indices(buf, start, end) && start != end
    ensures RingText(buf, start, end) == [buf[start]] + RingText(buf, After(start), end)
  {
    if start < end {
      assert buf[start..end] == [buf[start]] + buf[start + 1..end];
    } else {
      assert buf[start..] == [buf[start]] + buf[start + 1..];
      if start + 1 == RECV_BUFFER_SIZE {
        assert buf[start..] == [buf[start]] && buf[0..end] == buf[..end];
      } else {
        Assoc([buf[start]], buf[start + 1..], buf[..end]);
      }
    }
  }

  /** The ring is full, and `foo` halts, exactly when it holds one character less than its size. */
  lemma RingFull(buf: string, start: nat, end: nat)
    requires Indices(buf, start, end)
    ensures After(end) == start <==> |RingText(buf, start, end)| == 1023
  {
  }

  // ---------------------------------------------------------------- runs of the ring

  datatype Ring = Ring(buf: string, start: nat, end: nat)

  predicate RingValid(r: Ring) {
    Indices(r.buf, r.start, r.end)
  }

  function Held(r: Ring): string
    requires RingValid(r)
  {
    RingText(r.buf, r.start, r.end)
  }

  /** One event of the ring: `foo(c)`, or `dbg_recv` finding a character, with the characters
      that `foo` stores as an interrupt between the slot read and the index advance. */
  datatype Event = Arrive(c: char) | Take(during: string)

  function Foo(r: Ring, c: char): (r': Option<Ring>)
    requires RingValid(r)
    ensures r'.Some? ==> RingValid(r'.value)
  {
    var next := After(r.end);
    if next == r.start then None else Some(Ring(r.buf[r.end := c], r.start, next))
  }

  function FooAll(r: Ring, cs: string): (r': Option<Ring>)
    requires RingValid(r)
    decreases |cs|
    ensures r'.Some? ==> RingValid(r'.value)
  {
    if cs == "" then Some(r)
    else match Foo(r, cs[0])
         case None => None
         case Some(r1) => FooAll(r1, cs[1..])
  }

  /** `None` is the overflow halt; the string is what `dbg_recv` returns. */
  function StepRing(r: Ring, e: Event): (res: Option<(Ring, string)>)
    requires RingValid(r)
    ensures res.Some? ==> RingValid(res.value.0)
  {
    match e
    case Arrive(c) =>
      (match Foo(r, c) case None => None case Some(r1) => Some((r1, "")))
    case Take(during) =>
      if r.start == r.end then Some((r, ""))
      else match FooAll(r, during)
           case None => None
           case Some(r1) => Some((r1.(start := After(r.start)), [r.buf[r.start]]))
  }

  /** The characters an event hands to `foo`; an empty ring makes `dbg_recv` wait. */
  function Arrivals(r: Ring, e: Event): string {
    match e
    case Arrive(c) => [c]
    case Take(during) => if r.start == r.end then "" else during
  }

  function RunRing(r: Ring, es: seq<Event>): (res: Option<(Ring, string)>)
    requires RingValid(r)
    ensures res.Some? ==> RingValid(res.value.0)
    decreases |es|
  {
    if es == [] then Some((r, ""))
    else match StepRing(r, es[0])
         case None => None
         case Some((r1, out)) =>
           match RunRing(r1, es[1..])
           case None => None
           case Some((r2, more)) => Some((r2, out + more))
  }

  function AllArrivals(r: Ring, es: seq<Event>): string
    requires RingValid(r)
    decreases |es|
  {
    if es == [] then ""
    else match StepRing(r, es[0])
         case None => Arrivals(r, es[0])
         case Some((r1, _)) => Arrivals(r, es[0]) + AllArrivals(r1, es[1..])
  }

  lemma FooHolds(r: Ring, c: char)
    requires RingValid(r)
    ensures Foo(r, c).None? <==> |Held(r)| == RECV_BUFFER_SIZE - 1
    ensures Foo(r, c).Some? ==> Held(Foo(r, c).value) == Held(r) + [c]
    ensures Foo(r, c).Some? ==> var r1 := Foo(r, c).value;
              r1.start == r.start && (r.start != r.end ==> r1.start != r1.end && r1.buf[r.start] == r.buf[r.start])
  {
    RingFull(r.buf, r.start, r.end);
    if Foo(r, c).Some? {
      RingPush(r.buf, r.start, r.end, c);
    }
  }

  lemma {:induction false} FooAllHolds(r: Ring, cs: string)
    requires RingValid(r)
    decreases |cs|
    ensures FooAll(r, cs).Some? <==> |Held(r)| + |cs| < RECV_BUFFER_SIZE
    ensures FooAll(r, cs).Some? ==> Held(FooAll(r, cs).value) == Held(r) + cs
    ensures FooAll(r, cs).Some? ==> var r1 := FooAll(r, cs).value;
              r1.start == r.start && (r.start != r.end ==> r1.start != r1.end && r1.buf[r.start] == r.buf[r.start])
  {
    if cs == "" {
      assert Held(r) + cs == Held(r);
    } else {
      FooHolds(r, cs[0]);
      if Foo(r, cs[0]).Some? {
        var r1 := Foo(r, cs[0]).value;
        FooAllHolds(r1, cs[1..]);
        assert Held(r) + cs == Held(r) + [cs[0]] + cs[1..];
      }
    }
  }

  lemma StepIsFifo(r: Ring, e: Event)
    requires RingValid(r) && StepRing(r, e).Some?
    ensures var (r', out) := StepRing(r, e).value;
            out + Held(r') == Held(r) + Arrivals(r, e)
  {
    match e
    case Arrive(c) =>
      FooHolds(r, c);
    case Take(during) =>
      if r.start != r.end {
        FooAllHolds(r, during);
        var r1 := FooAll(r, during).value;
        RingPop(r1.buf, r1.start, r1.end);
      }
  }

  lemma Regroup(out: string, held1: string, held: string, arr: string, more: string, held2: string, later: string)
    requires out + held1 == held + arr && more + held2 == held1 + later
    ensures out + more + held2 == held + (arr + later)
  {
    assert out + more + held2 == out + (more + held2);
    assert out + (held1 + later) == out + held1 + later;
    assert held + arr + later == held + (arr + later);
  }

  /** The ring is a first-in first-out queue over every run, interrupts in the window included:
      what was taken followed by what is still held is what was held followed by what arrived. */
  lemma {:induction false} RingIsFifo(r: Ring, es: seq<Event>)
    requires RingValid(r) && RunRing(r, es).Some?
    ensures var (r', out) := RunRing(r, es).value;
            out + Held(r') == Held(r) + AllArrivals(r, es)
    decreases |es|
  {
    if es == [] {
    } else {
      StepIsFifo(r, es[0]);
      var (r1, out) := StepRing(r, es[0]).value;
      RingIsFifo(r1, es[1..]);
      var (r2, more) := RunRing(r1, es[1..]).value;
      Regroup(out, Held(r1), Held(r), Arrivals(r, es[0]), more, Held(r2), AllArrivals(r1, es[1..]));
    }
  }

  // ---------------------------------------------------------------- the port

  lemma Received(held: string, wire: string)
    requires wire != ""
    ensures held + [wire[0]] + wire[1..] == held + wire
  {
    assert wire == [wire[0]] + wire[1..];
    Assoc(held, [wire[0]], wire[1..]);
  }

  lemma Taken(c: char, held: string, wire: string)
    ensures [c] + held + wire == [c] + (held + wire)
    ensures ([c] + held + wire)[0] == c && ([c] + held + wire)[1..] == held + wire
  {
    Assoc([c], held, wire);
  }

  /** The file-scope state of debug.c that the serial line touches. `wire` is what the other side
      has still to say; `sent` is everything written with `dbg_send`. */
  class Port {
    const recvBuffer: array<char>
    var recvStart: nat
    var recvEnd: nat
    var wire: string
    var sent: string
    /** Everything the stub has still to read: what the ring holds, then what is on the wire. */
    ghost var pending: string

    ghost predicate RingOk()
      reads this, recvBuffer
    {
      recvBuffer.Length == RECV_BUFFER_SIZE && recvStart < RECV_BUFFER_SIZE && recvEnd < RECV_BUFFER_SIZE
    }

    ghost predicate Valid()
      reads this, recvBuffer
    {
      RingOk() && pending == Contents() + wire
    }

    ghost function Contents(): string
      reads this, recvBuffer
      requires RingOk()
    {
      RingText(recvBuffer[..], recvStart, recvEnd)
    }

    constructor (wire: string)
      ensures Valid() && fresh(recvBuffer) && pending == wire && sent == ""
    {
      recvBuffer := new char[RECV_BUFFER_SIZE](_ => '\0');
      recvStart, recvEnd := 0, 0;
      this.wire, sent, pending := wire, "", wire;
    }

    method DbgSend(c: char)
      requires Valid()
      modifies this`sent
      ensures Valid() && sent == old(sent) + [c]
    {
      sent := sent + [c];
    }

    /** `foo`: stores a received character; a full ring halts the machine. */
    method Foo(c: char) returns (halted: bool)
      requires RingOk()
      modifies this`recvEnd, recvBuffer
      ensures RingOk()
      ensures halted == (|old(Contents())| == RECV_BUFFER_SIZE - 1)
      ensures Contents() == if halted then old(Contents()) else old(Contents()) + [c]
      ensures old(recvStart != recvEnd) ==>
                recvStart != recvEnd && recvBuffer[recvStart] == old(recvBuffer[recvStart])
    {
      RingFull(recvBuffer[..], recvStart, recvEnd);
      var next := After(recvEnd);
      if next == recvStart {
        return true;
      }
      RingPush(recvBuffer[..], recvStart, recvEnd, c);
      recvBuffer[recvEnd] := c;
      assert recvBuffer[..] == old(recvBuffer[..])[recvEnd := c];
      recvEnd := next;
      halted := false;
    }

    /** The end of `dbg_recv`: the slot is read, `during` arrives by interrupt, the index advances. */
    method Take(during: string) returns (halted: bool, c: char)
      requires RingOk() && Contents() != []
      modifies this`recvStart, this`recvEnd, recvBuffer
      ensures RingOk()
      ensures halted == (|old(Contents())| + |during| >= RECV_BUFFER_SIZE)
      ensures !halted ==> [c] + Contents() == old(Contents()) + during
    {
      hide RingText;
      ghost var held := Contents();
      assert held + during[..0] == held;
      c := recvBuffer[recvStart];
      var i := 0;
      while i < |during|
        invariant 0 <= i <= |during| && RingOk() && |held| + i < RECV_BUFFER_SIZE
        invariant Contents() == held + during[..i]
        invariant recvStart == old(recvStart) && recvStart != recvEnd && recvBuffer[recvStart] == c
      {
        halted := Foo(during[i]);
        if halted {
          return;
        }
        assert during[..i + 1] == during[..i] + [during[i]];
        Assoc(held, during[..i], [during[i]]);
        i := i + 1;
      }
      assert during[..i] == during;
      RingPop(recvBuffer[..], recvStart, recvEnd);
      recvStart := After(recvStart);
      halted := false;
    }

    /** `dbg_recv`: the next pending character; `ok` is false when none will ever come. */
    method DbgRecv() returns (ok: bool, c: char)
      requires Valid()
      modifies this`recvStart, this`recvEnd, this`wire, this`pending, recvBuffer
      ensures Valid()
      ensures ok == (old(pending) != "")
      ensures ok ==> c == old(pending)[0] && pending == old(pending)[1..]
      ensures !ok ==> pending == ""
    {
      c := '\0';
      var halted;
      while recvStart == recvEnd
        invariant Valid() && pending == old(pending)
        decreases |wire|
      {
        if wire == "" {
          return false, c;
        }
        Received(Contents(), wire);
        halted := Foo(wire[0]);
        wire := wire[1..];
      }
      ghost var held := Contents();
      halted, c := Take("");
      assert held + "" == held;
      Taken(c, Contents(), wire);
      pending := pending[1..];
      ok := true;
    }
  }
}
