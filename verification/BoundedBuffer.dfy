/** threads/example03.c: one producer, one consumer, a mutex and two conditions. */
module BoundedBuffer {
  import opened Circular

  const BUFFSIZE := 10
  const NLOOP := 50

  /** struct buf_t without its mutex and conditions. */
  datatype Buf = Buf(buf: seq<int>, nitems: int, nextget: nat, nextput: nat)

  predicate Sized(b: Buf) { |b.buf| == BUFFSIZE && b.nextget < BUFFSIZE && b.nextput < BUFFSIZE }

  /** produce's statements between its wait and its signal. */
  function Inserted(b: Buf, val: int): Buf
    requires Sized(b)
  {
    Buf(b.buf[b.nextput := val], b.nitems + 1, b.nextget, Around(b.nextput + 1, BUFFSIZE))
  }

  /** consume's. */
  function Removed(b: Buf): Buf { b.(nextget := Around(b.nextget + 1, BUFFSIZE), nitems := b.nitems - 1) }

  class Buffer {
    const b_buf: array<int>
    var b_nitems: int
    var b_nextget: nat
    var b_nextput: nat

    ghost function View(): Buf
      reads this, b_buf
    {
      Buf(b_buf[..], b_nitems, b_nextget, b_nextput)
    }

    constructor ()
      ensures fresh(b_buf) && Sized(View()) && View() == Buf(b_buf[..], 0, 0, 0)
    {
      b_buf := new int[BUFFSIZE];
      b_nitems, b_nextget, b_nextput := 0, 0, 0;
    }

    method Insert(val: int)
      requires Sized(View())
      modifies this, b_buf
      ensures View() == Inserted(old(View()), val) && Sized(View())
    {
      b_buf[b_nextput] := val;
      b_nextput := b_nextput + 1;
      if b_nextput >= BUFFSIZE {
        b_nextput := 0;
      }
      b_nitems := b_nitems + 1;
    }

    method Remove() returns (val: int)
      requires Sized(View())
      modifies this
      ensures val == old(b_buf[b_nextget])
      ensures View() == Removed(old(View())) && Sized(View())
    {
      val := b_buf[b_nextget];
      b_nextget := b_nextget + 1;
      if b_nextget >= BUFFSIZE {
        b_nextget := 0;
      }
      b_nitems := b_nitems - 1;
    }
  }

  /** Where each thread is within produce or consume; `Holds...` states own the mutex. */
  datatype Producer = PLock | PHoldsTest | PWaits | PWoken | PHoldsStore | PHoldsAdvance | PHoldsCount | PHoldsSignal | PHoldsUnlock | PDone

  datatype Consumer =
    CLock | CHoldsTest | CWaits | CWoken | CHoldsFetch | CHoldsAdvance(val: int) | CHoldsCount | CHoldsSignal | CHoldsUnlock | CDone

  /** `produced` and `consumed` record the values put into and taken out of the buffer. */
  datatype System = System(b: Buf, p: Producer, c: Consumer, produced: seq<int>, consumed: seq<int>)

  datatype Step = Produce | Consume | WakeProducer | WakeConsumer

  predicate PHolds(p: Producer) { p != PLock && p != PWaits && p != PWoken && p != PDone }
  predicate CHolds(c: Consumer) { c != CLock && c != CWaits && c != CWoken && c != CDone }

  /** A thread steps unless it waits, is done, or wants a mutex that the other holds; waits may end by themselves. */
  predicate Enabled(s: System, a: Step) {
    match a
    case Produce => s.p != PWaits && s.p != PDone && (PHolds(s.p) || !CHolds(s.c))
    case Consume => s.c != CWaits && s.c != CDone && (CHolds(s.c) || !PHolds(s.p))
    case WakeProducer => s.p == PWaits
    case WakeConsumer => s.c == CWaits
  }

  /** produce_loop: the value produced is the number of values produced before. */
  function ProducerStep(s: System): System
    requires Sized(s.b)
  {
    match s.p
    case PLock => s.(p := PHoldsTest)
    case PWoken => s.(p := PHoldsTest)
    case PHoldsTest => s.(p := if s.b.nitems >= BUFFSIZE then PWaits else PHoldsStore)
    case PHoldsStore => s.(b := s.b.(buf := s.b.buf[s.b.nextput := |s.produced|]), p := PHoldsAdvance)
    case PHoldsAdvance =>
      s.(b := s.b.(nextput := Around(s.b.nextput + 1, BUFFSIZE)), p := PHoldsCount, produced := s.produced + [s.b.buf[s.b.nextput]])
    case PHoldsCount => s.(b := s.b.(nitems := s.b.nitems + 1), p := PHoldsSignal)
    case PHoldsSignal => s.(p := PHoldsUnlock, c := if s.c == CWaits then CWoken else s.c)
    case PHoldsUnlock => s.(p := if |s.produced| < NLOOP then PLock else PDone)
    case _ => s
  }

  function ConsumerStep(s: System): System
    requires Sized(s.b)
  {
    match s.c
    case CLock => s.(c := CHoldsTest)
    case CWoken => s.(c := CHoldsTest)
    case CHoldsTest => s.(c := if s.b.nitems <= 0 then CWaits else CHoldsFetch)
    case CHoldsFetch => s.(c := CHoldsAdvance(s.b.buf[s.b.nextget]))
    case CHoldsAdvance(val) => s.(b := s.b.(nextget := Around(s.b.nextget + 1, BUFFSIZE)), c := CHoldsCount, consumed := s.consumed + [val])
    case CHoldsCount => s.(b := s.b.(nitems := s.b.nitems - 1), c := CHoldsSignal)
    case CHoldsSignal => s.(c := CHoldsUnlock, p := if s.p == PWaits then PWoken else s.p)
    case CHoldsUnlock => s.(c := if |s.consumed| < NLOOP then CLock else CDone)
    case _ => s
  }

  function Next(s: System, a: Step): System
    requires Sized(s.b) && Enabled(s, a)
  {
    match a
    case Produce => ProducerStep(s)
    case Consume => ConsumerStep(s)
    case WakeProducer => s.(p := PWoken)
    case WakeConsumer => s.(c := CWoken)
  }

  function Initial(buf: seq<int>): System { System(Buf(buf, 0, 0, 0), PLock, CLock, [], []) }

  /** The three steps between test and signal come to what the whole section does. */
  lemma {:induction false} SectionsCompose(s: System)
    requires Sized(s.b)
    ensures s.p == PHoldsStore ==>
              var t := ProducerStep(ProducerStep(ProducerStep(s)));
              t.p == PHoldsSignal && t.b == Inserted(s.b, |s.produced|) && t.produced == s.produced + [|s.produced|]
    ensures s.c == CHoldsFetch ==>
              var t := ConsumerStep(ConsumerStep(ConsumerStep(s)));
              t.c == CHoldsSignal && t.b == Removed(s.b) && t.consumed == s.consumed + [s.b.buf[s.b.nextget]]
  {}

  // ---------------------------------------------------------------- invariant

  /** Values between nextget and nextput: the counter lags behind the pointers for a moment. */
  function Stored(s: System): int {
    s.b.nitems + (if s.p == PHoldsCount then 1 else 0) - (if s.c == CHoldsCount then 1 else 0)
  }

  /** Who holds the mutex, how the counter and the pointers agree, when the loops end, and who may be waiting. */
  ghost predicate ControlInv(s: System) {
    var b := s.b;
    && Sized(b)
    && !(PHolds(s.p) && CHolds(s.c))
    && 0 <= b.nitems <= BUFFSIZE && 0 <= Stored(s) <= BUFFSIZE
    && (s.p == PHoldsStore || s.p == PHoldsAdvance || s.p == PHoldsCount ==> b.nitems < BUFFSIZE)
    && (s.c == CHoldsFetch || s.c.CHoldsAdvance? || s.c == CHoldsCount ==> b.nitems > 0)
    && b.nextput == Around(b.nextget + Stored(s), BUFFSIZE)
    && |s.produced| == |s.consumed| + Stored(s) <= NLOOP
    && (s.p == PDone <==> |s.produced| == NLOOP && s.p != PHoldsCount && s.p != PHoldsSignal && s.p != PHoldsUnlock)
    && (s.c == CDone <==> |s.consumed| == NLOOP && s.c != CHoldsCount && s.c != CHoldsSignal && s.c != CHoldsUnlock)
    && (s.p == PWaits ==> b.nitems == BUFFSIZE || s.c == CHoldsSignal)
    && (s.c == CWaits ==> b.nitems == 0 || s.p == PHoldsSignal)
  }

  /** What the buffer holds. */
  ghost predicate DataInv(s: System)
    requires ControlInv(s)
  {
    && (s.p == PHoldsAdvance ==> s.b.buf[s.b.nextput] == |s.produced|)
    && (s.c.CHoldsAdvance? ==> s.c.val == s.b.buf[s.b.nextget])
    && s.produced == s.consumed + Slots(s.b.buf, s.b.nextget, Stored(s))
    && forall i | 0 <= i < |s.produced| :: s.produced[i] == i
  }

  ghost predicate Inv(s: System) { ControlInv(s) && DataInv(s) }

  lemma {:induction false} ControlStep(s: System, a: Step)
    requires ControlInv(s) && Enabled(s, a)
    ensures ControlInv(Next(s, a))
  {}

  lemma {:induction false} UseControl(s: System)
    requires ControlInv(s)
    ensures Sized(s.b) && 0 <= Stored(s) <= BUFFSIZE && s.b.nextput == Around(s.b.nextget + Stored(s), BUFFSIZE)
    ensures !(PHolds(s.p) && CHolds(s.c))
    ensures s.p == PHoldsStore || s.p == PHoldsAdvance ==> Stored(s) < BUFFSIZE
    ensures Around(s.b.nextget + 1, BUFFSIZE) < BUFFSIZE
    ensures s.c == CHoldsFetch || s.c.CHoldsAdvance? ==> Stored(s) > 0
  {}

  lemma {:induction false} ProducerPuts(s: System)
    requires Inv(s) && Enabled(s, Produce) && (s.p == PHoldsStore || s.p == PHoldsAdvance) && ControlInv(ProducerStep(s))
    ensures DataInv(ProducerStep(s))
  {
    hide Slots, ControlInv, Around;
    UseControl(s);
    var b := s.b;
    SlotsStored(b.buf, b.nextget, Stored(s), |s.produced|);
    SlotsSnoc(b.buf, b.nextget, Stored(s));
    var q := Slots(b.buf, b.nextget, Stored(s));
    assert (s.consumed + q) + [b.buf[b.nextput]] == s.consumed + (q + [b.buf[b.nextput]]);
  }

  lemma {:induction false} ProducerInv(s: System)
    requires Inv(s) && Enabled(s, Produce)
    ensures Inv(ProducerStep(s))
  {
    hide Slots, ControlInv, Around;
    ControlStep(s, Produce);
    UseControl(s);
    if s.p == PHoldsStore || s.p == PHoldsAdvance {
      ProducerPuts(s);
    } else {
      var t := ProducerStep(s);
      assert t.b.buf == s.b.buf && Stored(t) == Stored(s);
    }
  }

  lemma {:induction false} ConsumerTakes(s: System)
    requires Inv(s) && Enabled(s, Consume) && s.c.CHoldsAdvance? && ControlInv(ConsumerStep(s))
    ensures DataInv(ConsumerStep(s))
  {
    hide Slots, ControlInv, Around;
    UseControl(s);
    var b := s.b;
    SlotsFirst(b.buf, b.nextget, Stored(s));
    var q := Slots(b.buf, Around(b.nextget + 1, BUFFSIZE), Stored(s) - 1);
    assert s.consumed + ([s.c.val] + q) == (s.consumed + [s.c.val]) + q;
  }

  lemma {:induction false} ConsumerInv(s: System)
    requires Inv(s) && Enabled(s, Consume)
    ensures Inv(ConsumerStep(s))
  {
    hide Slots, ControlInv, Around;
    ControlStep(s, Consume);
    UseControl(s);
    if s.c.CHoldsAdvance? {
      ConsumerTakes(s);
    } else {
      var t := ConsumerStep(s);
      assert t.b.buf == s.b.buf && t.b.nextget == s.b.nextget && Stored(t) == Stored(s);
    }
  }

  // ---------------------------------------------------------------- runs

  ghost predicate IsRun(states: seq<System>) {
    && states != []
    && (exists buf :: |buf| == BUFFSIZE && states[0] == Initial(buf))
    && forall i | 0 <= i < |states| - 1 :: StepsTo(states[i], states[i + 1])
  }

  ghost predicate StepsTo(s: System, t: System) { exists a :: Sized(s.b) && Enabled(s, a) && t == Next(s, a) }

  lemma {:induction false} RunInv(states: seq<System>, i: nat)
    requires IsRun(states) && i < |states|
    ensures Inv(states[i])
  {
    if i == 0 {
      var buf :| |buf| == BUFFSIZE && states[0] == Initial(buf);
    } else {
      RunInv(states, i - 1);
      assert StepsTo(states[i - 1], states[i]);
      var a :| Enabled(states[i - 1], a) && states[i] == Next(states[i - 1], a);
      ControlStep(states[i - 1], a);
      match a {
        case Produce => ProducerInv(states[i - 1]);
        case Consume => ConsumerInv(states[i - 1]);
        case _ =>
      }
    }
  }

  /** What has been consumed is a prefix of what has been produced, which counts up from 0. */
  lemma {:induction false} ConsumedIsPrefix(states: seq<System>, i: nat)
    requires IsRun(states) && i < |states|
    ensures states[i].consumed <= states[i].produced
    ensures |states[i].produced| - |states[i].consumed| <= 10
    ensures forall k | 0 <= k < |states[i].produced| :: states[i].produced[k] == k
    ensures states[i].c == CDone ==> |states[i].consumed| == 50
  {
    RunInv(states, i);
  }

  /** The two threads never both wait unsignalled, and until both are done one of them can step. */
  lemma {:induction false} NeverBothWait(states: seq<System>, i: nat)
    requires IsRun(states) && i < |states|
    ensures !(states[i].p == PWaits && states[i].c == CWaits)
    ensures (states[i].p == PDone && states[i].c == CDone) || Enabled(states[i], Produce) || Enabled(states[i], Consume)
  {
    RunInv(states, i);
    var s := states[i];
    assert |s.produced| == |s.consumed| + Stored(s);
  }

  /** How far each thread is from waiting, or from putting or taking one value; on the way it may wake the other. */
  function ProducerRank(p: Producer): nat {
    match p
    case PDone => 0
    case PWaits => 0
    case PHoldsAdvance => 3
    case PHoldsStore => 4
    case PHoldsTest => 5
    case PLock => 6
    case PWoken => 6
    case PHoldsUnlock => 12
    case PHoldsSignal => 19
    case PHoldsCount => 20
  }

  function ConsumerRank(c: Consumer): nat {
    match c
    case CDone => 0
    case CWaits => 0
    case CHoldsAdvance(_) => 3
    case CHoldsFetch => 4
    case CHoldsTest => 5
    case CLock => 6
    case CWoken => 6
    case CHoldsUnlock => 12
    case CHoldsSignal => 19
    case CHoldsCount => 20
  }

  function ToDo(s: System): int {
    20 * (NLOOP - |s.produced|) + ProducerRank(s.p) + 20 * (NLOOP - |s.consumed|) + ConsumerRank(s.c)
  }

  /**
   * Each step of a thread leaves less to do, so that without spurious wake-ups both threads end; and when neither can
   * step, both are done, and all the values have been consumed.
   */
  lemma {:induction false} StepsRunOut(states: seq<System>, i: nat)
    requires IsRun(states) && i < |states|
    ensures Sized(states[i].b)
    ensures forall a | Enabled(states[i], a) && (a == Produce || a == Consume) ::
              0 <= ToDo(Next(states[i], a)) < ToDo(states[i])
    ensures !Enabled(states[i], Produce) && !Enabled(states[i], Consume) ==>
              states[i].p == PDone && states[i].c == CDone && states[i].consumed == states[i].produced && |states[i].produced| == 50
  {
    hide DataInv, Slots, ToDo;
    RunInv(states, i);
    NeverBothWait(states, i);
    ConsumedIsPrefix(states, i);
    var s := states[i];
    forall a | Enabled(s, a) && (a == Produce || a == Consume) ensures 0 <= ToDo(Next(s, a)) < ToDo(s) {
      StepRunsOut(s, a);
    }
  }

  lemma {:induction false} StepRunsOut(s: System, a: Step)
    requires ControlInv(s) && Enabled(s, a) && (a == Produce || a == Consume)
    ensures 0 <= ToDo(Next(s, a)) < ToDo(s)
  {
    hide ControlInv;
    LeftToDo(s);
    ControlStep(s, a);
    LeftToDo(Next(s, a));
  }

  lemma {:induction false} LeftToDo(s: System)
    requires ControlInv(s)
    ensures Sized(s.b) && |s.produced| <= NLOOP && |s.consumed| <= NLOOP && ToDo(s) >= 0
  {}
}
