/** sigio/dgecho01.c: a circular queue shared by a main loop and a SIGIO handler. */
module SigioEcho {
  import opened Circular

  const QSIZE := 8
  const MAXDG := 4096

  datatype Dgram = Dgram(data: seq<nat>, from: nat)

  /** What recvfrom stores: at most MAXDG bytes. */
  function Kept(d: Dgram): (k: Dgram)
    ensures k.from == d.from && k.data <= d.data
    ensures |k.data| == if |d.data| <= 4096 then |d.data| else 4096
  {
    if |d.data| <= MAXDG then d else d.(data := d.data[..MAXDG])
  }

  function KeptAll(ds: seq<Dgram>): (ks: seq<Dgram>)
    ensures |ks| == |ds|
  {
    seq(|ds|, i requires 0 <= i < |ds| => Kept(ds[i]))
  }

  /** The file's static variables. */
  datatype Vars = Vars(dg: seq<Dgram>, iget: nat, iput: nat, nqueue: nat, cntread: seq<nat>)

  predicate Sized(v: Vars) { |v.dg| == QSIZE && |v.cntread| == QSIZE + 1 && v.iput < QSIZE }

  // ---------------------------------------------------------------- the handler

  /** One datagram read by the handler. */
  function Store(v: Vars, d: Dgram): Vars
    requires Sized(v)
  {
    v.(dg := v.dg[v.iput := Kept(d)], nqueue := v.nqueue + 1, iput := if v.iput + 1 >= QSIZE then 0 else v.iput + 1)
  }

  /** All that the handler reads from the socket, in order. */
  function StoreAll(v: Vars, ds: seq<Dgram>): (w: Vars)
    requires Sized(v)
    ensures Sized(w) && w.nqueue == v.nqueue + |ds| && w.iget == v.iget && w.cntread == v.cntread
  {
    if ds == [] then v else Store(StoreAll(v, ds[..|ds| - 1]), ds[|ds| - 1])
  }

  /** How many datagrams the handler reads before it returns, or finds the queue full and exits. */
  function Room(v: Vars, waiting: nat): nat {
    if v.nqueue + waiting < QSIZE then waiting
    else if v.nqueue < QSIZE then QSIZE - v.nqueue
    else 0
  }

  predicate Overflows(v: Vars, waiting: nat) { v.nqueue + waiting >= QSIZE }

  function Counted(v: Vars, nread: nat): Vars
    requires Sized(v) && nread <= QSIZE
  {
    v.(cntread := v.cntread[nread := v.cntread[nread] + 1])
  }

  /** sig_io, with `ds` what recvfrom finds until it would block. */
  function Handler(v: Vars, ds: seq<Dgram>): (w: Vars)
    requires Sized(v)
    ensures Sized(w) && w.(cntread := v.cntread) == StoreAll(v, ds[..Room(v, |ds|)])
  {
    var n := Room(v, |ds|);
    var u := StoreAll(v, ds[..n]);
    if Overflows(v, |ds|) then u else Counted(u, n)
  }

  class EchoServer {
    const dg: array<Dgram>
    const cntread: array<nat>
    var iget: nat
    var iput: nat
    var nqueue: nat

    function View(): Vars
      reads this, dg, cntread
    {
      Vars(dg[..], iget, iput, nqueue, cntread[..])
    }

    ghost predicate Valid()
      reads this, dg, cntread
    {
      Sized(View())
    }

    constructor ()
      ensures Valid() && fresh(dg) && fresh(cntread)
      ensures View() == Vars(seq(QSIZE, _ => Dgram([], 0)), 0, 0, 0, seq(QSIZE + 1, _ => 0))
    {
      dg := new Dgram[QSIZE](_ => Dgram([], 0));
      cntread := new nat[QSIZE + 1](_ => 0);
      iget, iput, nqueue := 0, 0, 0;
      new;
      assert dg[..] == seq(QSIZE, _ => Dgram([], 0));
      assert cntread[..] == seq(QSIZE + 1, _ => 0);
    }

    /** sig_io; `overflow` is the "receive overflow" exit. */
    method SigIo(ds: seq<Dgram>) returns (overflow: bool, taken: nat)
      requires Valid()
      modifies this, dg, cntread
      ensures Valid() && View() == Handler(old(View()), ds)
      ensures overflow == Overflows(old(View()), |ds|)
      ensures taken == Room(old(View()), |ds|)
    {
      var nread := 0;
      ghost var v := View();
      while true
        invariant nread <= |ds| && nread <= Room(v, |ds|)
        invariant View() == StoreAll(v, ds[..nread])
        decreases |ds| - nread
      {
        if nqueue >= QSIZE {
          return true, nread;
        }
        if nread == |ds| {
          break;
        }
        ghost var u := View();
        assert ds[..nread + 1][..nread] == ds[..nread];
        dg[iput] := Kept(ds[nread]);
        nread := nread + 1;
        nqueue := nqueue + 1;
        iput := iput + 1;
        if iput >= QSIZE {
          iput := 0;
        }
        assert View() == Store(u, ds[nread - 1]);
      }
      ghost var w := View();
      cntread[nread] := cntread[nread] + 1;
      assert View() == Counted(w, nread);
      return false, nread;
    }

    /** The datagram that Sendto sends. */
    method Current() returns (d: Dgram)
      requires Valid() && iget < QSIZE
      ensures d == Sent(View())
    {
      d := dg[iget];
    }

    /** `++iget` of the main loop's wrap test. */
    method IncrementGet()
      requires Valid()
      modifies `iget
      ensures View() == MovedGet(old(View())) && Valid()
    {
      iget := iget + 1;
    }

    /** The wrap test's branch. */
    method WrapGet()
      requires Valid()
      modifies `iget
      ensures View() == WrappedGet(old(View())) && Valid()
    {
      if iget >= QSIZE {
        iget := 0;
      }
    }

    /** What is queued, the next to be sent first. */
    ghost function Queue(): seq<Dgram>
      reads this, dg, cntread
      requires Valid() && iget < QSIZE && nqueue <= QSIZE
    {
      Slots(dg[..], iget, nqueue)
    }

    /** The main loop from Sendto to the decrement, when no signal comes between: it takes the oldest datagram. */
    method EchoOne() returns (d: Dgram)
      requires Valid() && iget < QSIZE && 0 < nqueue <= QSIZE
      modifies `iget, `nqueue
      ensures Valid() && iget < QSIZE && nqueue == old(nqueue) - 1
      ensures [d] + Queue() == old(Queue())
    {
      SlotsFirst(dg[..], iget, nqueue);
      d := Current();
      IncrementGet();
      WrapGet();
      DropOne();
    }

    /** `nqueue--`, with SIGIO blocked again. */
    method DropOne()
      requires Valid() && nqueue > 0
      modifies `nqueue
      ensures View() == Dropped(old(View())) && Valid()
    {
      nqueue := nqueue - 1;
    }
  }

  // ---------------------------------------------------------------- the main loop

  function Sent(v: Vars): Dgram
    requires Sized(v) && v.iget < QSIZE
  {
    v.dg[v.iget]
  }

  function MovedGet(v: Vars): Vars { v.(iget := v.iget + 1) }

  function WrappedGet(v: Vars): Vars { if v.iget >= QSIZE then v.(iget := 0) else v }

  function Dropped(v: Vars): Vars
    requires v.nqueue > 0
  {
    v.(nqueue := v.nqueue - 1)
  }

  /** Where the main loop is; SIGIO is blocked at Testing and Dropping only. */
  datatype Phase = Testing | Suspended | Unblocked | InSendto | AfterSendto | Moved | Wrapped | Dropping

  predicate SignalsOpen(p: Phase) { p != Testing && p != Dropping }

  /** `sigio` is the pending signal; `arrived` and `sent` record the run, `waiting` is the socket's own queue. */
  datatype System = System(
    vars: Vars, phase: Phase, waiting: seq<Dgram>, sigio: bool, exited: bool,
    arrived: seq<Dgram>, sent: seq<Dgram>)

  /** An arrival, a run of the handler while `more` arrive, a wake-up by another signal, or the main loop. */
  datatype Step = Arrive(d: Dgram) | Signal(more: seq<Dgram>) | OtherSignal | Main

  predicate Enabled(s: System, a: Step) {
    && !s.exited
    && match a
       case Arrive(_) => true
       case Signal(_) => s.sigio && SignalsOpen(s.phase)
       case OtherSignal => s.phase == Suspended
       case Main => s.phase != Suspended
  }

  ghost predicate Runnable(s: System) {
    && Sized(s.vars)
    && (s.phase == InSendto ==> s.vars.iget < QSIZE)
    && (s.phase == Dropping ==> s.vars.nqueue > 0)
  }

  /** The next statement of the main loop. Sendto takes two steps, so that a signal may come inside it. */
  function MainStep(s: System): System
    requires Runnable(s) && s.phase != Suspended
  {
    match s.phase
    case Testing => s.(phase := if s.vars.nqueue == 0 then Suspended else Unblocked)
    case Unblocked => s.(phase := InSendto)
    case InSendto => s.(phase := AfterSendto, sent := s.sent + [Sent(s.vars)])
    case AfterSendto => s.(phase := Moved, vars := MovedGet(s.vars))
    case Moved => s.(phase := Wrapped, vars := WrappedGet(s.vars))
    case Wrapped => s.(phase := Dropping)
    case Dropping => s.(phase := Testing, vars := Dropped(s.vars))
  }

  function Next(s: System, a: Step): System
    requires Runnable(s) && Enabled(s, a)
  {
    match a
    case Arrive(d) => s.(waiting := s.waiting + [d], arrived := s.arrived + [d], sigio := true)
    case Signal(more) =>
      var ds := s.waiting + more;
      s.(vars := Handler(s.vars, ds), waiting := ds[Room(s.vars, |ds|)..], arrived := s.arrived + more,
         sigio := more != [], exited := Overflows(s.vars, |ds|),
         phase := if s.phase == Suspended then Testing else s.phase)
    case OtherSignal => s.(phase := Testing)
    case Main => MainStep(s)
  }

  /** After the buffers are set up, with SIGIO blocked for the first time. */
  function Initial(dg: seq<Dgram>, before: seq<Dgram>): System
    requires |dg| == QSIZE
  {
    System(Vars(dg, 0, 0, 0, seq(QSIZE + 1, _ => 0)), Testing, before, before != [], false, before, [])
  }

  // ---------------------------------------------------------------- invariant

  /** Between Sendto and `nqueue--` one datagram is counted that has been sent. */
  function SentButCounted(p: Phase): nat {
    if p == AfterSendto || p == Moved || p == Wrapped || p == Dropping then 1 else 0
  }

  /** Slots of the queue that are still to be sent: how many, and from where. */
  function Unsent(s: System): int { s.vars.nqueue - SentButCounted(s.phase) }

  function Head(s: System): nat {
    if s.phase == AfterSendto then Around(s.vars.iget + 1, QSIZE) else Around(s.vars.iget, QSIZE)
  }

  ghost predicate Inv(s: System) {
    var v := s.vars;
    && Sized(v)
    && v.nqueue <= QSIZE && (!s.exited ==> v.nqueue < QSIZE)
    && 0 <= Unsent(s) && Head(s) < QSIZE
    && (s.phase == Unblocked || s.phase == InSendto ==> v.nqueue > 0)
    && (if s.phase == Moved then 1 <= v.iget <= QSIZE else v.iget < QSIZE)
    && v.iput == Around(Head(s) + Unsent(s), QSIZE)
    && KeptAll(s.arrived) == s.sent + Slots(v.dg, Head(s), Unsent(s)) + KeptAll(s.waiting)
    && (!s.exited && s.waiting != [] ==> s.sigio)
    && (s.exited ==> v.nqueue == QSIZE)
  }

  lemma {:induction false} KeptAllAppend(xs: seq<Dgram>, ys: seq<Dgram>)
    ensures KeptAll(xs + ys) == KeptAll(xs) + KeptAll(ys)
  {}

  lemma {:induction false} StoreFills(v: Vars, d: Dgram, from: nat, n: nat)
    requires Sized(v) && from < QSIZE && n < QSIZE && v.iput == Around(from + n, QSIZE)
    ensures Store(v, d).iput == Around(from + n + 1, QSIZE)
    ensures Slots(Store(v, d).dg, from, n + 1) == Slots(v.dg, from, n) + [Kept(d)]
  {}

  /** The handler fills free slots, in order, and no other. */
  lemma {:induction false} StoreAllFills(v: Vars, ds: seq<Dgram>, from: nat, n: nat)
    requires Sized(v) && from < QSIZE && n + |ds| <= QSIZE && v.iput == Around(from + n, QSIZE)
    ensures var w := StoreAll(v, ds);
            && w.iput == Around(from + n + |ds|, QSIZE)
            && Slots(w.dg, from, n + |ds|) == Slots(v.dg, from, n) + KeptAll(ds)
  {
    if ds == [] {
      assert Slots(v.dg, from, n) + [] == Slots(v.dg, from, n);
    } else {
      var m := |ds| - 1;
      StoreAllFills(v, ds[..m], from, n);
      StoreFills(StoreAll(v, ds[..m]), ds[m], from, n + m);
      assert KeptAll(ds) == KeptAll(ds[..m]) + [Kept(ds[m])];
      assert (Slots(v.dg, from, n) + KeptAll(ds[..m])) + [Kept(ds[m])] == Slots(v.dg, from, n) + KeptAll(ds);
    }
  }

  lemma {:induction false} Regroup(a: seq<Dgram>, b: seq<Dgram>, c: seq<Dgram>, d: seq<Dgram>, x: seq<Dgram>, y: seq<Dgram>)
    requires c + d == x + y
    ensures (a + b + c) + d == a + (b + x) + y
  {
    assert (a + b + c) + d == a + b + (c + d);
    assert a + (b + x) + y == a + b + (x + y);
  }

  /** What a run of the handler does to the account of all datagrams. */
  lemma {:induction false} SignalAccount(s: System, more: seq<Dgram>, n: nat)
    requires Inv(s) && n <= |s.waiting + more| && Unsent(s) + n <= QSIZE
    ensures var ds := s.waiting + more;
            var w := StoreAll(s.vars, ds[..n]);
            && w.iput == Around(Head(s) + Unsent(s) + n, QSIZE)
            && KeptAll(s.arrived + more) == s.sent + Slots(w.dg, Head(s), Unsent(s) + n) + KeptAll(ds[n..])
  {
    hide KeptAll, Slots, StoreAll;
    var ds := s.waiting + more;
    StoreAllFills(s.vars, ds[..n], Head(s), Unsent(s));
    KeptAllAppend(s.arrived, more);
    KeptAllAppend(s.waiting, more);
    KeptAllAppend(ds[..n], ds[n..]);
    assert ds[..n] + ds[n..] == ds;
    Regroup(s.sent, Slots(s.vars.dg, Head(s), Unsent(s)), KeptAll(s.waiting), KeptAll(more), KeptAll(ds[..n]), KeptAll(ds[n..]));
  }

  lemma {:induction false} SignalStep(s: System, more: seq<Dgram>)
    requires Inv(s) && Runnable(s) && Enabled(s, Signal(more))
    ensures Inv(Next(s, Signal(more)))
  {
    hide KeptAll, Slots, StoreAll, Handler, Counted, Around;
    SignalAccount(s, more, Room(s.vars, |s.waiting + more|));
  }

  lemma {:induction false} Shift(a: seq<Dgram>, x: Dgram, b: seq<Dgram>, c: seq<Dgram>)
    ensures a + ([x] + b) + c == (a + [x]) + b + c
  {}

  /** Sendto moves the oldest queued datagram to those sent. */
  lemma {:induction false} SendInv(s: System)
    requires Inv(s) && Runnable(s) && Enabled(s, Main) && s.phase == InSendto
    ensures Inv(MainStep(s))
  {
    hide KeptAll, Slots;
    var t := MainStep(s);
    SlotsFirst(s.vars.dg, s.vars.iget, s.vars.nqueue);
    Shift(s.sent, Sent(s.vars), Slots(t.vars.dg, Head(t), Unsent(t)), KeptAll(s.waiting));
  }

  lemma {:induction false} MainInv(s: System)
    requires Inv(s) && Runnable(s) && Enabled(s, Main)
    ensures Inv(Next(s, Main))
  {
    hide KeptAll, Slots;
    if s.phase == InSendto {
      SendInv(s);
    } else {
      var t := MainStep(s);
      assert Head(t) == Head(s) && Unsent(t) == Unsent(s) && t.vars.dg == s.vars.dg;
    }
  }

  lemma {:induction false} InvStep(s: System, a: Step)
    requires Inv(s) && Runnable(s) && Enabled(s, a)
    ensures Inv(Next(s, a)) && Runnable(Next(s, a))
  {
    match a
    case Arrive(d) =>
      KeptAllAppend(s.arrived, [d]);
      KeptAllAppend(s.waiting, [d]);
    case Signal(more) => SignalStep(s, more);
    case OtherSignal =>
    case Main => MainInv(s);
  }

  /** The states of a run, one step apart. */
  ghost predicate IsRun(states: seq<System>) {
    && states != []
    && (exists dg, before :: |dg| == QSIZE && states[0] == Initial(dg, before))
    && forall i | 0 <= i < |states| - 1 :: StepsTo(states[i], states[i + 1])
  }

  ghost predicate StepsTo(s: System, t: System) {
    exists a :: Runnable(s) && Enabled(s, a) && t == Next(s, a)
  }

  lemma {:induction false} RunInv(states: seq<System>, i: nat)
    requires IsRun(states) && i < |states|
    ensures Inv(states[i]) && Runnable(states[i])
  {
    if i == 0 {
      var dg, before :| |dg| == QSIZE && states[0] == Initial(dg, before);
      assert [] + Slots(dg, 0, 0) + KeptAll(before) == KeptAll(before);
    } else {
      RunInv(states, i - 1);
      assert StepsTo(states[i - 1], states[i]);
      var a :| Enabled(states[i - 1], a) && states[i] == Next(states[i - 1], a);
      InvStep(states[i - 1], a);
    }
  }

  // ---------------------------------------------------------------- what a run guarantees

  /** Echoes go out in arrival order, none lost or repeated: the rest is in the queue or in the socket. */
  lemma {:induction false} EchoedInOrder(states: seq<System>, i: nat)
    requires IsRun(states) && i < |states|
    ensures var s := states[i];
            && 0 <= Unsent(s) <= QSIZE && Sized(s.vars) && Head(s) < QSIZE
            && KeptAll(s.arrived) == s.sent + Slots(s.vars.dg, Head(s), Unsent(s)) + KeptAll(s.waiting)
  {
    RunInv(states, i);
  }

  /** Each echo goes back to the sender of the datagram that arrived in its place, with that datagram's first 4096 bytes. */
  lemma {:induction false} EchoesWhatCame(states: seq<System>, i: nat, j: nat)
    requires IsRun(states) && i < |states| && j < |states[i].sent|
    ensures var sent, arrived := states[i].sent, states[i].arrived;
            && j < |arrived| && sent[j].from == arrived[j].from
            && sent[j].data <= arrived[j].data
            && |sent[j].data| == if |arrived[j].data| <= 4096 then |arrived[j].data| else 4096
  {
    hide Kept, Slots;
    EchoedInOrder(states, i);
    var s := states[i];
    assert KeptAll(s.arrived)[j] == s.sent[j];
    assert s.sent[j] == Kept(s.arrived[j]);
  }

  /** With something queued and no signal coming, seven steps of the main loop send the oldest datagram and no more. */
  lemma {:induction false} LoopTurn(s: System) returns (steps: seq<System>)
    requires Inv(s) && Runnable(s) && !s.exited && s.phase == Testing && s.vars.nqueue > 0
    ensures |steps| == 8 && steps[0] == s && forall i | 0 <= i < 7 :: StepsTo(steps[i], steps[i + 1])
    ensures var t := steps[7];
            && t.phase == Testing && t.sent == s.sent + [s.vars.dg[s.vars.iget]]
            && t.vars == s.vars.(iget := Around(s.vars.iget + 1, QSIZE), nqueue := s.vars.nqueue - 1)
            && t.waiting == s.waiting && t.arrived == s.arrived && !t.exited
  {
    hide KeptAll, Slots, Handler, StoreAll;
    steps := [s];
    for i := 0 to 7
      invariant |steps| == i + 1 && steps[0] == s && forall j | 0 <= j < i :: StepsTo(steps[j], steps[j + 1])
      invariant TurnAt(s, i, steps[i])
    {
      var t := steps[i];
      assert Runnable(t) && Enabled(t, Main);
      assert StepsTo(t, Next(t, Main));
      steps := steps + [Next(t, Main)];
    }
  }

  /** The state after `i` steps of an undisturbed turn of the main loop. */
  ghost predicate TurnAt(s: System, i: nat, t: System)
    requires Sized(s.vars) && s.vars.iget < QSIZE && s.vars.nqueue > 0
  {
    && t.phase == (match i case 0 => Testing case 1 => Unblocked case 2 => InSendto case 3 => AfterSendto
                   case 4 => Moved case 5 => Wrapped case 6 => Dropping case _ => Testing)
    && t == s.(phase := t.phase, vars := t.vars, sent := if i < 3 then s.sent else s.sent + [s.vars.dg[s.vars.iget]])
    && t.vars == s.vars.(
         iget := if i < 4 then s.vars.iget else if i == 4 then s.vars.iget + 1 else Around(s.vars.iget + 1, QSIZE),
         nqueue := if i < 7 then s.vars.nqueue else s.vars.nqueue - 1)
  }

  /** A signal that comes while a datagram is being sent leaves its slot alone. */
  lemma {:induction false} SlotBeingSentIsSafe(states: seq<System>, i: nat, more: seq<Dgram>)
    requires IsRun(states) && i < |states|
    requires states[i].phase == Unblocked || states[i].phase == InSendto
    requires Runnable(states[i]) && Enabled(states[i], Signal(more))
    ensures var s, t := states[i], Next(states[i], Signal(more));
            s.vars.iget == t.vars.iget < QSIZE && Sent(t.vars) == Sent(s.vars)
  {
    RunInv(states, i);
    var s := states[i];
    var ds := s.waiting + more;
    var n := Room(s.vars, |ds|);
    StoreAllFills(s.vars, ds[..n], Head(s), Unsent(s));
    var q := Slots(s.vars.dg, Head(s), Unsent(s));
    var r := Slots(StoreAll(s.vars, ds[..n]).dg, Head(s), Unsent(s) + n);
    assert r == q + KeptAll(ds[..n]);
    assert r[0] == q[0];
  }

  /** While the loop sleeps with no signal pending, everything that arrived has been echoed. */
  lemma {:induction false} AsleepMeansDone(states: seq<System>, i: nat)
    requires IsRun(states) && i < |states|
    requires states[i].phase == Suspended && !states[i].sigio && !states[i].exited
    ensures states[i].sent == KeptAll(states[i].arrived)
  {
    SuspendedIsEmpty(states, i);
    RunInv(states, i);
    var s := states[i];
    assert s.sent + [] + [] == s.sent;
  }

  /** The loop sleeps on an empty queue only. */
  lemma {:induction false} SuspendedIsEmpty(states: seq<System>, i: nat)
    requires IsRun(states) && i < |states| && states[i].phase == Suspended
    ensures states[i].vars.nqueue == 0
  {
    if i > 0 {
      RunInv(states, i - 1);
      assert StepsTo(states[i - 1], states[i]);
      if states[i - 1].phase == Suspended {
        SuspendedIsEmpty(states, i - 1);
      }
    }
  }

  /**
   * The server exits exactly when a signal finds seven or fewer queued datagrams and what the socket holds brings
   * them to eight: it gives up on the eighth datagram although that one was stored too, and nothing is lost.
   */
  lemma {:induction false} ExitsOnTheEighth(states: seq<System>, i: nat, more: seq<Dgram>)
    requires IsRun(states) && i < |states|
    requires Runnable(states[i]) && Enabled(states[i], Signal(more))
    ensures var s, t := states[i], Next(states[i], Signal(more));
            && s.vars.nqueue <= 7
            && (t.exited <==> s.vars.nqueue + |s.waiting| + |more| >= 8)
            && (t.exited ==> t.vars.nqueue == 8)
            && (!t.exited ==> t.waiting == [])
            && 0 <= Unsent(t) <= QSIZE && Sized(t.vars) && Head(t) < QSIZE
            && KeptAll(t.arrived) == t.sent + Slots(t.vars.dg, Head(t), Unsent(t)) + KeptAll(t.waiting)
  {
    RunInv(states, i);
    SignalStep(states[i], more);
  }

  /** Each count times the number of datagrams that it stands for, from index `i` on. */
  function Weighted(cntread: seq<nat>, i: nat): nat
    requires i <= |cntread|
    decreases |cntread| - i
  {
    if i == |cntread| then 0 else i * cntread[i] + Weighted(cntread, i + 1)
  }

  lemma {:induction false} WeightedUpdate(cntread: seq<nat>, n: nat, i: nat)
    requires n < |cntread| && i <= |cntread|
    ensures Weighted(cntread[n := cntread[n] + 1], i) == Weighted(cntread, i) + if i <= n then n else 0
    decreases |cntread| - i
  {
    if i < |cntread| {
      WeightedUpdate(cntread, n, i + 1);
      if i == n {
        assert i * (cntread[i] + 1) == i * cntread[i] + i;
      }
    }
  }

  lemma {:induction false} WeightedZero(n: nat, i: nat)
    requires i <= n
    ensures Weighted(seq(n, _ => 0), i) == 0
    decreases n - i
  {
    if i < n {
      WeightedZero(n, i + 1);
    }
  }

  /** The histogram accounts for what has been read, but for the handler run that ended the program. */
  ghost predicate HistogramInv(s: System) {
    && |s.vars.cntread| == QSIZE + 1 && s.vars.cntread[QSIZE] == 0
    && var uncounted := |s.arrived| - |s.waiting| - Weighted(s.vars.cntread, 0);
       if s.exited then 0 < uncounted <= QSIZE else uncounted == 0
  }

  lemma {:induction false} HistogramStep(s: System, a: Step)
    requires Inv(s) && HistogramInv(s) && Runnable(s) && Enabled(s, a)
    ensures HistogramInv(Next(s, a))
  {
    hide KeptAll, Slots, StoreAll, Weighted;
    if a.Signal? {
      var n := |s.waiting + a.more|;
      if !Overflows(s.vars, n) {
        WeightedUpdate(s.vars.cntread, n, 0);
      }
    }
  }

  /**
   * In every run the histogram's counts, each times its index, sum to the number of datagrams read, sent and queued
   * together; only those of a run of the handler that ended the program, eight at most, are not counted. The last
   * counter is never used.
   */
  lemma {:induction false} HistogramAccounts(states: seq<System>, i: nat)
    requires IsRun(states) && i < |states|
    ensures var s := states[i];
            && |s.vars.cntread| == 9 && s.vars.cntread[8] == 0
            && var uncounted := |s.sent| + Unsent(s) - Weighted(s.vars.cntread, 0);
               if s.exited then 0 < uncounted <= 8 else uncounted == 0
  {
    HistogramAlways(states, i);
    EchoedInOrder(states, i);
    var s := states[i];
    assert |KeptAll(s.arrived)| == |s.sent| + Unsent(s) + |KeptAll(s.waiting)|;
  }

  lemma {:induction false} HistogramAlways(states: seq<System>, i: nat)
    requires IsRun(states) && i < |states|
    ensures HistogramInv(states[i])
  {
    hide Weighted, Inv, Handler, MainStep, KeptAll, Slots;
    if i == 0 {
      WeightedZero(QSIZE + 1, 0);
    } else {
      HistogramAlways(states, i - 1);
      RunInv(states, i - 1);
      assert StepsTo(states[i - 1], states[i]);
      var a :| Enabled(states[i - 1], a) && states[i] == Next(states[i - 1], a);
      HistogramStep(states[i - 1], a);
    }
  }
}
