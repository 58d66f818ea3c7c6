/** From a vector to the service routine attached for it, over any history of attachments and
    initialisations. */
module IrqRouting {
  import opened Idt
  import opened Controllers

  datatype Op = AttachIsr(id: nat, isr: nat) | PicInit

  /** The tables after a history that starts with nothing attached. */
  function Tables(im: Image, ops: seq<Op>): (h: Handlers)
    ensures Shaped(h)
    decreases |ops|
  {
    if ops == [] then Handlers(Nulls(16), Nulls(PINS), 0, 0)
    else
      var h := Tables(im, ops[..|ops| - 1]);
      match ops[|ops| - 1]
      case AttachIsr(id, isr) => Attach(im, h, id, isr)
      case PicInit => h.(pic := Nulls(16))
  }

  /** What was attached to `id` last, if it was not cleared since; 0 if nothing. */
  function Latest(im: Image, id: nat, ops: seq<Op>): nat
    decreases |ops|
  {
    if ops == [] then 0
    else
      match ops[|ops| - 1]
      case AttachIsr(i, isr) => if i == id then isr else Latest(im, id, ops[..|ops| - 1])
      case PicInit => if id > 1 && IsPicVector(im, id) then 0 else Latest(im, id, ops[..|ops| - 1])
  }

  lemma {:induction false} TablesHoldTheLatest(im: Image, ops: seq<Op>, id: nat)
    ensures var h := Tables(im, ops);
            && (id == 0 ==> h.ipi == Latest(im, id, ops))
            && (id == 1 ==> h.timer == Latest(im, id, ops))
            && (id > 1 && IsPicVector(im, id) ==> h.pic[id - im.picOffset] == Latest(im, id, ops))
            && (id > 1 && IsApicVector(im, id) && !IsPicVector(im, id) ==>
                  h.apic[id - im.apicOffset] == Latest(im, id, ops))
    decreases |ops|
  {
    if ops != [] {
      TablesHoldTheLatest(im, ops[..|ops| - 1], id);
    }
  }

  /** The routines called, in order. */
  function Calls(es: seq<Event>): seq<Event>
    decreases |es|
  {
    if es == [] then []
    else (if es[0].Call? then [es[0]] else []) + Calls(es[1..])
  }

  lemma CallsOf(eois: seq<Event>, isr: nat, arg: nat)
    requires |eois| <= 2 && forall i :: 0 <= i < |eois| ==> !eois[i].Call?
    ensures Calls(eois + Called(isr, arg)) == Called(isr, arg) == Calls(Called(isr, arg) + eois)
  {
    var cs := Called(isr, arg);
    if |eois| > 0 {
      assert eois == [eois[0]] + eois[1..];
      CallsOf(eois[1..], isr, arg);
      assert (eois + cs)[1..] == eois[1..] + cs;
    } else {
      assert eois + cs == cs == cs + eois;
    }
    NoCalls(eois);
    if isr != 0 {
      assert (cs + eois)[1..] == eois;
    } else {
      assert cs + eois == eois;
    }
  }

  lemma {:induction false} NoCalls(eois: seq<Event>)
    requires forall i :: 0 <= i < |eois| ==> !eois[i].Call?
    ensures Calls(eois) == []
    decreases |eois|
  {
    if eois != [] {
      NoCalls(eois[1..]);
    }
  }

  /** One controller owns the vector, and its number is not one of the two special ids. */
  predicate Routable(im: Image, v: nat) {
    v > 1 && (IsPicVector(im, v) <==> !IsApicVector(im, v))
  }

  /** Interrupt `v` calls the routine attached for it last, if there is one, and nothing else, with `v` as its
      argument; the 8259s it came through are acknowledged before that, the local APIC after it. */
  lemma InterruptCallsTheLatest(im: Image, ops: seq<Op>, v: nat)
    requires Routable(im, v)
    ensures var isr := Latest(im, v, ops);
            Response(im, Tables(im, ops), Target(im, v)) ==
              if IsApicVector(im, v) then Called(isr, v) + [LapicEoi]
              else if v < im.picOffset + 8 then [MasterEoi] + Called(isr, v)
              else [SlaveEoi, MasterEoi] + Called(isr, v)
  {
    TablesHoldTheLatest(im, ops, v);
    hide Tables, Latest;
  }

  lemma AfterOneAttachment(im: Image, id: nat, isr: nat)
    ensures Tables(im, [AttachIsr(id, isr)]) == Attach(im, Handlers(Nulls(16), Nulls(PINS), 0, 0), id, isr)
    ensures Latest(im, id, [AttachIsr(id, isr)]) == isr
  {
    var ops := [AttachIsr(id, isr)];
    assert ops[..|ops| - 1] == [];
    assert Tables(im, []) == Handlers(Nulls(16), Nulls(PINS), 0, 0);
  }

  /** A vector reaches what is attached for it exactly if it is routable: where the two ranges overlap, the
      routine goes into one table and the gate leads to the other, and ids 0 and 1 mean other interrupts. */
  lemma RoutedExactly(im: Image, v: nat)
    requires IsPicVector(im, v) || IsApicVector(im, v)
    ensures Routable(im, v) <==>
            forall isr :: isr != 0 ==>
              Calls(Response(im, Tables(im, [AttachIsr(v, isr)]), Target(im, v))) == [Call(isr, v)]
  {
    if Routable(im, v) {
      forall isr | isr != 0
        ensures Calls(Response(im, Tables(im, [AttachIsr(v, isr)]), Target(im, v))) == [Call(isr, v)]
      {
        InterruptCallsTheLatest(im, [AttachIsr(v, isr)], v);
        AfterOneAttachment(im, v, isr);
        hide Tables, Latest, Response;
        CallsOf([LapicEoi], isr, v);
        CallsOf([MasterEoi], isr, v);
        CallsOf([SlaveEoi, MasterEoi], isr, v);
      }
    } else {
      Misrouted(im, v);
    }
  }

  lemma Misrouted(im: Image, v: nat)
    requires (IsPicVector(im, v) || IsApicVector(im, v)) && !Routable(im, v)
    ensures Calls(Response(im, Tables(im, [AttachIsr(v, 1)]), Target(im, v))) == []
  {
    AfterOneAttachment(im, v, 1);
    hide Tables;
    NoCalls([LapicEoi]);
    NoCalls([MasterEoi]);
    NoCalls([SlaveEoi, MasterEoi]);
    assert [] + [LapicEoi] == [LapicEoi];
  }

  /** The timer and interprocessor interrupts acknowledge the local APIC and then call what is attached to
      ids 1 and 0, with argument 1 for both, and unconditionally: address 0 if nothing is attached. */
  lemma LocalInterruptsCallTheLatest(im: Image, ops: seq<Op>)
    requires !IsPicVector(im, LOCAL_TIMER_VECTOR) && !IsApicVector(im, LOCAL_TIMER_VECTOR)
    requires !IsPicVector(im, LAPIC_IPI_VECTOR) && !IsApicVector(im, LAPIC_IPI_VECTOR)
    ensures Response(im, Tables(im, ops), Target(im, LOCAL_TIMER_VECTOR)) == [LapicEoi, Call(Latest(im, 1, ops), 1)]
    ensures Response(im, Tables(im, ops), Target(im, LAPIC_IPI_VECTOR)) == [LapicEoi, Call(Latest(im, 0, ops), 1)]
  {
    TablesHoldTheLatest(im, ops, 0);
    TablesHoldTheLatest(im, ops, 1);
  }

  /** Vectors nobody claims are acknowledged at the local APIC and otherwise ignored; the error vector is not
      even acknowledged. No routine is called for either. */
  lemma UnclaimedVectors(im: Image, ops: seq<Op>, v: nat)
    requires !IsPicVector(im, v) && !IsApicVector(im, v)
    ensures v == 0xEE ==> Response(im, Tables(im, ops), Target(im, v)) == []
    ensures v == 14 || (v > 16 && v !in {0xED, 0xEE, 0xEF}) ==>
              Response(im, Tables(im, ops), Target(im, v)) == [LapicEoi]
  {
  }
}
