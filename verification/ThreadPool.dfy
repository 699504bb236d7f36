/** server/serv08.c and pthread08.c: one accepting thread, a ring of descriptors, a mutex and a condition. */
module ThreadPool {
  import opened Circular

  const MAXNCLI := 32

  /** The shared variables. */
  datatype Ring = Ring(clifd: seq<int>, iget: nat, iput: nat)

  predicate Sized(r: Ring) { |r.clifd| == MAXNCLI && r.iget < MAXNCLI && r.iput < MAXNCLI }

  function Stored(r: Ring, fd: int): Ring
    requires Sized(r)
  {
    r.(clifd := r.clifd[r.iput := fd])
  }

  function PutAdvanced(r: Ring): Ring { r.(iput := Around(r.iput + 1, MAXNCLI)) }

  function GetAdvanced(r: Ring): Ring { r.(iget := Around(r.iget + 1, MAXNCLI)) }

  /** How many slots lie from `i` up to `j`, going round. */
  function Gap(i: nat, j: nat): (n: nat)
    requires i < MAXNCLI && j < MAXNCLI
    ensures n < MAXNCLI && j == Around(i + n, MAXNCLI)
  {
    if i <= j then j - i else j + MAXNCLI - i
  }

  class Queue {
    const clifd: array<int>
    var iget: nat
    var iput: nat

    ghost function View(): Ring
      reads this, clifd
    {
      Ring(clifd[..], iget, iput)
    }

    constructor ()
      ensures fresh(clifd) && Sized(View()) && iget == iput == 0
    {
      clifd := new int[MAXNCLI];
      iget, iput := 0, 0;
    }

    method Store(fd: int)
      requires Sized(View())
      modifies clifd
      ensures View() == Stored(old(View()), fd)
    {
      clifd[iput] := fd;
    }

    /** `overflow` is the "iput = iget" exit. */
    method AdvancePut() returns (overflow: bool)
      requires Sized(View())
      modifies `iput
      ensures View() == PutAdvanced(old(View())) && Sized(View())
      ensures overflow == (PutAdvanced(old(View())).iput == old(View()).iget)
    {
      iput := iput + 1;
      if iput == MAXNCLI {
        iput := 0;
      }
      overflow := iput == iget;
    }

    method Fetch() returns (fd: int)
      requires Sized(View())
      ensures fd == View().clifd[View().iget]
    {
      fd := clifd[iget];
    }

    method AdvanceGet()
      requires Sized(View())
      modifies `iget
      ensures View() == GetAdvanced(old(View())) && Sized(View())
    {
      iget := iget + 1;
      if iget == MAXNCLI {
        iget := 0;
      }
    }

    /** The descriptors in the ring, the next to be served first. */
    ghost function Contents(): seq<int>
      reads this, clifd
      requires Sized(View())
    {
      Slots(clifd[..], iget, Gap(iget, iput))
    }

    /** main's part of the critical section: one more descriptor, unless it fills the last slot and ends the program. */
    method Put(fd: int) returns (overflow: bool)
      requires Sized(View())
      modifies `iput, clifd
      ensures Sized(View())
      ensures overflow <==> |old(Contents())| == MAXNCLI - 1
      ensures !overflow ==> Contents() == old(Contents()) + [fd]
    {
      ghost var was, n := clifd[..], Gap(iget, iput);
      SlotsStored(was, iget, n, fd);
      Store(fd);
      SlotsSnoc(clifd[..], iget, n);
      overflow := AdvancePut();
    }

    /** A worker's part, once it has seen that the ring is not empty: the oldest descriptor. */
    method Take() returns (fd: int)
      requires Sized(View()) && iget != iput
      modifies `iget
      ensures Sized(View())
      ensures [fd] + Contents() == old(Contents())
    {
      SlotsFirst(clifd[..], iget, Gap(iget, iput));
      fd := Fetch();
      AdvanceGet();
    }
  }

  // ---------------------------------------------------------------- threads

  /** main's loop: what it is about to do. `Holding...` states own the mutex. */
  datatype Main =
    | Accept
    | Lock(fd: int)
    | HoldingStore(fd: int)
    | HoldingAdvance(fd: int)
    | HoldingTest
    | HoldingSignal
    | HoldingUnlock
    | Quit

  /** thread_main's loop. A waiting thread has released the mutex; a woken one has yet to get it back. */
  datatype Worker =
    | WantsLock
    | HoldsTest
    | Waits
    | Woken
    | HoldsFetch
    | HoldsAdvance(fd: int)
    | HoldsUnlock(fd: int)
    | Serves(fd: int)

  datatype Owner = Nobody | MainThread | Thread(k: nat)

  datatype Take = Take(thread: nat, fd: int)

  /** `queued` is the number of descriptors between iget and iput; `accepted` and `taken` record the run. */
  datatype System = System(
    ring: Ring, owner: Owner, main: Main, workers: seq<Worker>, queued: nat,
    accepted: seq<int>, taken: seq<Take>)

  /** Main with what accept returns, and whom a signal wakes; a worker; a wake-up that nobody asked for. */
  datatype Step = MainAccepts(fd: int) | MainSignals(wake: nat) | MainSteps | WorkerSteps(k: nat) | Spurious(k: nat)

  ghost predicate SomeoneWaits(ws: seq<Worker>) { exists k :: 0 <= k < |ws| && ws[k] == Waits }

  ghost predicate Enabled(s: System, a: Step) {
    && s.main != Quit
    && match a
       case MainAccepts(_) => s.main == Accept
       case MainSignals(k) =>
         s.main == HoldingSignal && (SomeoneWaits(s.workers) ==> k < |s.workers| && s.workers[k] == Waits)
       case MainSteps =>
         s.main != Accept && s.main != HoldingSignal && (s.main.Lock? ==> s.owner == Nobody)
       case WorkerSteps(k) =>
         k < |s.workers| && s.workers[k] != Waits
         && (s.workers[k] == WantsLock || s.workers[k] == Woken ==> s.owner == Nobody)
       case Spurious(k) => k < |s.workers| && s.workers[k] == Waits
  }

  function MainStep(s: System): System
    requires Sized(s.ring)
  {
    match s.main
    case Lock(fd) => s.(owner := MainThread, main := HoldingStore(fd))
    case HoldingStore(fd) => s.(ring := Stored(s.ring, fd), main := HoldingAdvance(fd))
    case HoldingAdvance(_) => s.(ring := PutAdvanced(s.ring), main := HoldingTest, queued := s.queued + 1)
    case HoldingTest => s.(main := if s.ring.iput == s.ring.iget then Quit else HoldingSignal)
    case HoldingUnlock => s.(owner := Nobody, main := Accept)
    case _ => s
  }

  function WorkerStep(s: System, k: nat): System
    requires Sized(s.ring) && k < |s.workers| && (s.workers[k].HoldsAdvance? ==> s.queued > 0)
  {
    match s.workers[k]
    case WantsLock => s.(owner := Thread(k), workers := s.workers[k := HoldsTest])
    case Woken => s.(owner := Thread(k), workers := s.workers[k := HoldsTest])
    case HoldsTest =>
      if s.ring.iget == s.ring.iput then s.(owner := Nobody, workers := s.workers[k := Waits])
      else s.(workers := s.workers[k := HoldsFetch])
    case HoldsFetch => s.(workers := s.workers[k := HoldsAdvance(s.ring.clifd[s.ring.iget])])
    case HoldsAdvance(fd) =>
      s.(ring := GetAdvanced(s.ring), workers := s.workers[k := HoldsUnlock(fd)], queued := s.queued - 1,
         taken := s.taken + [Take(k, fd)])
    case HoldsUnlock(fd) => s.(owner := Nobody, workers := s.workers[k := Serves(fd)])
    case Serves(_) => s.(workers := s.workers[k := WantsLock])
    case Waits => s
  }

  ghost predicate Runnable(s: System) {
    Sized(s.ring) && forall k | 0 <= k < |s.workers| && s.workers[k].HoldsAdvance? :: s.queued > 0
  }

  ghost function Next(s: System, a: Step): System
    requires Runnable(s) && Enabled(s, a)
  {
    match a
    case MainAccepts(fd) => s.(main := Lock(fd), accepted := s.accepted + [fd])
    case MainSignals(k) =>
      s.(main := HoldingUnlock, workers := if SomeoneWaits(s.workers) then s.workers[k := Woken] else s.workers)
    case MainSteps => MainStep(s)
    case WorkerSteps(k) => WorkerStep(s, k)
    case Spurious(k) => s.(workers := s.workers[k := Woken])
  }

  function Initial(clifd: seq<int>, nthreads: nat): System
    requires |clifd| == MAXNCLI
  {
    System(Ring(clifd, 0, 0), Nobody, Accept, seq(nthreads, _ => WantsLock), 0, [], [])
  }

  // ---------------------------------------------------------------- invariant

  predicate MainHolds(m: Main) {
    m.HoldingStore? || m.HoldingAdvance? || m == HoldingTest || m == HoldingSignal || m == HoldingUnlock || m == Quit
  }

  predicate WorkerHolds(w: Worker) { w == HoldsTest || w == HoldsFetch || w.HoldsAdvance? || w.HoldsUnlock? }

  /** Mutual exclusion: whoever is in its critical section is the owner. */
  ghost predicate OwnerInv(s: System) {
    && (MainHolds(s.main) <==> s.owner == MainThread)
    && (s.owner.Thread? ==> s.owner.k < |s.workers|)
    && forall k | 0 <= k < |s.workers| :: WorkerHolds(s.workers[k]) <==> s.owner == Thread(k)
  }

  function Fds(taken: seq<Take>): (q: seq<int>)
    ensures |q| == |taken|
  {
    seq(|taken|, i requires 0 <= i < |taken| => taken[i].fd)
  }

  /** What main has accepted and not yet made visible. */
  function InHand(m: Main): seq<int> {
    if m.Lock? || m.HoldingStore? || m.HoldingAdvance? then [m.fd] else []
  }

  ghost predicate RingInv(s: System) {
    var r := s.ring;
    && Sized(r)
    && s.queued <= MAXNCLI && r.iput == Around(r.iget + s.queued, MAXNCLI)
    && (s.queued == MAXNCLI ==> s.main == HoldingTest || s.main == Quit)
    && (s.main == HoldingTest || s.main == Quit ==> s.queued > 0)
    && (s.main.HoldingAdvance? ==> r.clifd[r.iput] == s.main.fd)
    && s.accepted == Fds(s.taken) + Slots(r.clifd, r.iget, s.queued) + InHand(s.main)
    && forall k | 0 <= k < |s.workers| ::
         && (s.workers[k] == HoldsFetch || s.workers[k].HoldsAdvance? ==> s.queued > 0)
         && (s.workers[k].HoldsAdvance? ==> s.workers[k].fd == r.clifd[r.iget])
  }

  /** A worker that will look at the queue before it can wait again, or take from it. */
  predicate Claims(w: Worker) { w == Woken || w == HoldsTest || w == HoldsFetch || w.HoldsAdvance? }

  function Claimants(ws: seq<Worker>): nat {
    if ws == [] then 0 else Claimants(ws[..|ws| - 1]) + if Claims(ws[|ws| - 1]) then 1 else 0
  }

  /** No wake-up is lost: while a worker waits, there is someone for every queued descriptor. */
  ghost predicate WakeInv(s: System) {
    SomeoneWaits(s.workers) ==>
      s.queued <= Claimants(s.workers) + if s.main == HoldingTest || s.main == HoldingSignal then 1 else 0
  }

  ghost predicate Inv(s: System) { OwnerInv(s) && RingInv(s) && (s.main != Quit ==> WakeInv(s)) }

  lemma {:induction false} ClaimantsUpdate(ws: seq<Worker>, k: nat, w: Worker)
    requires k < |ws|
    ensures Claimants(ws[k := w]) + (if Claims(ws[k]) then 1 else 0) == Claimants(ws) + (if Claims(w) then 1 else 0)
  {
    var n := |ws| - 1;
    if k == n {
      assert ws[k := w][..n] == ws[..n];
    } else {
      ClaimantsUpdate(ws[..n], k, w);
      assert ws[k := w][..n] == ws[..n][k := w];
    }
  }

  lemma {:induction false} OwnerStep(s: System, a: Step)
    requires OwnerInv(s) && Runnable(s) && Enabled(s, a)
    ensures OwnerInv(Next(s, a))
  {}

  lemma {:induction false} WakeStep(s: System, a: Step)
    requires Inv(s) && Runnable(s) && Enabled(s, a) && Next(s, a).main != Quit
    ensures WakeInv(Next(s, a))
  {
    hide Claimants, Slots, Fds, SomeoneWaits;
    var t := Next(s, a);
    match a
    case WorkerSteps(k) =>
      ClaimantsUpdate(s.workers, k, t.workers[k]);
      WaitersOnly(s.workers, k, t.workers[k]);
    case Spurious(k) =>
      ClaimantsUpdate(s.workers, k, Woken);
      WaitersOnly(s.workers, k, Woken);
    case MainSignals(k) =>
      if SomeoneWaits(s.workers) {
        ClaimantsUpdate(s.workers, k, Woken);
        WaitersOnly(s.workers, k, Woken);
      }
    case _ =>
  }

  lemma {:induction false} WaitersOnly(ws: seq<Worker>, k: nat, w: Worker)
    requires k < |ws|
    ensures SomeoneWaits(ws[k := w]) ==> SomeoneWaits(ws) || w == Waits
  {}

  lemma {:induction false} RingMain(s: System)
    requires Inv(s) && Enabled(s, MainSteps)
    ensures RingInv(MainStep(s))
  {
    hide Slots, Fds;
    var r := s.ring;
    match s.main
    case HoldingStore(fd) =>
      SlotsStored(r.clifd, r.iget, s.queued, fd);
    case HoldingAdvance(fd) =>
      SlotsSnoc(r.clifd, r.iget, s.queued);
      var q := Slots(r.clifd, r.iget, s.queued);
      assert Fds(s.taken) + q + [fd] == Fds(s.taken) + (q + [fd]) + [];
    case _ =>
  }

  lemma {:induction false} TakeAccount(taken: seq<Take>, k: nat, fd: int, q: seq<int>, h: seq<int>)
    ensures Fds(taken) + ([fd] + q) + h == Fds(taken + [Take(k, fd)]) + q + h
  {}

  /** A worker in its critical section is alone there. */
  lemma {:induction false} AloneInside(s: System, k: nat)
    requires OwnerInv(s) && k < |s.workers| && WorkerHolds(s.workers[k])
    ensures s.main != HoldingTest && s.main != Quit && !s.main.HoldingAdvance?
    ensures forall j | 0 <= j < |s.workers| && j != k :: !WorkerHolds(s.workers[j])
  {}

  lemma {:induction false} RingTakes(s: System, k: nat)
    requires Inv(s) && k < |s.workers| && s.workers[k].HoldsAdvance?
    ensures s.queued > 0 && RingInv(WorkerStep(s, k))
  {
    hide Slots, Fds, WakeInv, OwnerInv, InHand, Claimants;
    AloneInside(s, k);
    var r := s.ring;
    assert s.workers[k].fd == r.clifd[r.iget];
    SlotsFirst(r.clifd, r.iget, s.queued);
    TakeAccount(s.taken, k, s.workers[k].fd, Slots(r.clifd, Around(r.iget + 1, MAXNCLI), s.queued - 1), InHand(s.main));
  }

  lemma {:induction false} RingWorker(s: System, k: nat)
    requires Inv(s) && Runnable(s) && Enabled(s, WorkerSteps(k))
    ensures RingInv(WorkerStep(s, k))
  {
    hide Slots, Fds, WakeInv, OwnerInv, InHand, Claimants, SomeoneWaits;
    if s.workers[k].HoldsAdvance? {
      RingTakes(s, k);
    }
  }

  lemma {:induction false} InvStep(s: System, a: Step)
    requires Inv(s) && Runnable(s) && Enabled(s, a)
    ensures Inv(Next(s, a)) && Runnable(Next(s, a))
  {
    hide Slots, Fds, Claimants;
    OwnerStep(s, a);
    var t := Next(s, a);
    match a {
      case MainAccepts(fd) =>
        assert s.accepted + [fd] == Fds(s.taken) + Slots(s.ring.clifd, s.ring.iget, s.queued) + [fd];
      case MainSteps => RingMain(s);
      case WorkerSteps(k) => RingWorker(s, k);
      case _ =>
    }
    if t.main != Quit {
      WakeStep(s, a);
    }
  }

  // ---------------------------------------------------------------- runs

  ghost predicate IsRun(states: seq<System>) {
    && states != []
    && (exists clifd, n :: |clifd| == MAXNCLI && states[0] == Initial(clifd, n))
    && forall i | 0 <= i < |states| - 1 :: StepsTo(states[i], states[i + 1])
  }

  ghost predicate StepsTo(s: System, t: System) { exists a :: Runnable(s) && Enabled(s, a) && t == Next(s, a) }

  lemma {:induction false} RunInv(states: seq<System>, i: nat)
    requires IsRun(states) && i < |states|
    ensures Inv(states[i]) && Runnable(states[i])
  {
    if i == 0 {
      var clifd, n :| |clifd| == MAXNCLI && states[0] == Initial(clifd, n);
    } else {
      RunInv(states, i - 1);
      assert StepsTo(states[i - 1], states[i]);
      var a :| Enabled(states[i - 1], a) && states[i] == Next(states[i - 1], a);
      InvStep(states[i - 1], a);
    }
  }

  /** Descriptors are taken in the order they were accepted, each by one thread; the rest are queued or in main's hand. */
  lemma {:induction false} TakenInOrder(states: seq<System>, i: nat)
    requires IsRun(states) && i < |states|
    ensures var s := states[i];
            && Sized(s.ring) && s.queued <= MAXNCLI
            && s.accepted == Fds(s.taken) + Slots(s.ring.clifd, s.ring.iget, s.queued) + InHand(s.main)
  {
    RunInv(states, i);
  }

  /** The last take of worker `k` is the one at `j`. */
  ghost predicate LastTake(taken: seq<Take>, k: nat, j: nat) {
    j < |taken| && taken[j].thread == k && forall i | j < i < |taken| :: taken[i].thread != k
  }

  /** The worker serves the descriptor of its latest take. */
  ghost predicate ServesOwn(s: System, k: nat) {
    k < |s.workers| && (s.workers[k].Serves? || s.workers[k].HoldsUnlock?) ==>
      exists j: nat :: LastTake(s.taken, k, j) && s.taken[j].fd == s.workers[k].fd
  }

  lemma {:induction false} ServesStep(s: System, a: Step, k: nat)
    requires ServesOwn(s, k) && Runnable(s) && Enabled(s, a)
    ensures ServesOwn(Next(s, a), k)
  {
    hide Stored, PutAdvanced, GetAdvanced;
    var t := Next(s, a);
    if k < |t.workers| && (t.workers[k].Serves? || t.workers[k].HoldsUnlock?) {
      if a == WorkerSteps(k) && s.workers[k].HoldsAdvance? {
        assert LastTake(t.taken, k, |s.taken|);
      } else {
        var j: nat :| LastTake(s.taken, k, j) && s.taken[j].fd == s.workers[k].fd;
        assert LastTake(t.taken, k, j);
      }
    }
  }

  /** In every run a worker serves the descriptor that it took last. */
  lemma {:induction false} ServesWhatItTook(states: seq<System>, i: nat, k: nat)
    requires IsRun(states) && i < |states|
    ensures ServesOwn(states[i], k)
  {
    if i > 0 {
      ServesWhatItTook(states, i - 1, k);
      assert StepsTo(states[i - 1], states[i]);
      var a :| Runnable(states[i - 1]) && Enabled(states[i - 1], a) && states[i] == Next(states[i - 1], a);
      ServesStep(states[i - 1], a, k);
    }
  }

  /**
   * The ring never holds more than MAXNCLI - 1 descriptors while the program goes on, and main quits exactly when
   * the one it has just stored is the MAXNCLI-th.
   */
  lemma {:induction false} OccupancyBound(states: seq<System>, i: nat)
    requires IsRun(states) && i < |states|
    ensures var s := states[i];
            && Sized(s.ring)
            && (s.main != HoldingTest && s.main != Quit ==> s.queued <= 31)
            && (s.main == HoldingTest ==> (MainStep(s).main == Quit <==> s.queued == 32))
  {
    RunInv(states, i);
  }

  /**
   * No wake-up is lost: while a worker waits, and main has not quit, there are no more queued descriptors than workers
   * woken or looking at the queue, and one that main is about to signal for. With the mutex free, these are the woken.
   */
  lemma {:induction false} NoLostWakeup(states: seq<System>, i: nat)
    requires IsRun(states) && i < |states|
    requires states[i].main != Quit && SomeoneWaits(states[i].workers)
    ensures var s := states[i];
            && s.queued <= Claimants(s.workers) + (if s.main == HoldingTest || s.main == HoldingSignal then 1 else 0)
            && (s.owner == Nobody ==> s.queued <= WokenCount(s.workers))
  {
    RunInv(states, i);
    if states[i].owner == Nobody {
      WokenAreClaimants(states[i].workers);
    }
  }

  function WokenCount(ws: seq<Worker>): nat {
    if ws == [] then 0 else WokenCount(ws[..|ws| - 1]) + if ws[|ws| - 1] == Woken then 1 else 0
  }

  lemma {:induction false} WokenAreClaimants(ws: seq<Worker>)
    requires forall k | 0 <= k < |ws| :: !WorkerHolds(ws[k])
    ensures Claimants(ws) == WokenCount(ws)
  {
    if ws != [] {
      WokenAreClaimants(ws[..|ws| - 1]);
    }
  }

  lemma {:induction false} NoneWoken(ws: seq<Worker>)
    requires forall k | 0 <= k < |ws| :: ws[k] == Waits
    ensures WokenCount(ws) == 0
  {
    if ws != [] {
      NoneWoken(ws[..|ws| - 1]);
    }
  }

  /** A step of main or of a worker that needs no connection to come and no wake-up out of nowhere. */
  predicate IsOwnStep(a: Step) { a == MainSteps || a.MainSignals? || a.WorkerSteps? }

  /** With a worker at all, queued descriptors never wait for the outside: some thread can go on by itself. */
  lemma {:induction false} QueuedNeverStuck(states: seq<System>, i: nat)
    requires IsRun(states) && i < |states|
    requires states[i].main != Quit && states[i].queued > 0 && states[i].workers != []
    ensures exists a :: IsOwnStep(a) && Enabled(states[i], a)
  {
    RunInv(states, i);
    var s := states[i];
    match s.owner
    case MainThread =>
      if s.main == HoldingSignal {
        var k: nat :| SomeoneWaits(s.workers) ==> k < |s.workers| && s.workers[k] == Waits;
        assert Enabled(s, MainSignals(k));
      } else {
        assert Enabled(s, MainSteps);
      }
    case Thread(k) =>
      assert WorkerHolds(s.workers[k]);
      assert Enabled(s, WorkerSteps(k));
    case Nobody =>
      if forall k | 0 <= k < |s.workers| :: s.workers[k] == Waits {
        assert s.workers[0] == Waits;
        NoneWoken(s.workers);
        NoLostWakeup(states, i);
      } else {
        var k: nat :| k < |s.workers| && s.workers[k] != Waits;
        assert Enabled(s, WorkerSteps(k));
      }
  }

  /** How far a worker is from waiting, or from taking one descriptor. */
  function WorkerRank(w: Worker): nat {
    match w
    case Waits => 0
    case HoldsAdvance(_) => 2
    case HoldsFetch => 3
    case HoldsTest => 4
    case Woken => 5
    case WantsLock => 5
    case Serves(_) => 6
    case HoldsUnlock(_) => 7
  }

  /** How far main is from its next accept; on the way it queues a descriptor and wakes a worker. */
  function MainRank(m: Main): nat {
    match m
    case Accept => 0
    case Quit => 0
    case HoldingUnlock => 6
    case HoldingSignal => 12
    case HoldingTest => 13
    case HoldingAdvance(_) => 20
    case HoldingStore(_) => 21
    case Lock(_) => 22
  }

  function WorkersRank(ws: seq<Worker>): nat {
    if ws == [] then 0 else WorkersRank(ws[..|ws| - 1]) + WorkerRank(ws[|ws| - 1])
  }

  function ToDo(s: System): nat { MainRank(s.main) + WorkersRank(s.workers) + 6 * s.queued }

  lemma {:induction false} WorkersRankUpdate(ws: seq<Worker>, k: nat, w: Worker)
    requires k < |ws|
    ensures WorkersRank(ws[k := w]) == WorkersRank(ws) - WorkerRank(ws[k]) + WorkerRank(w)
  {
    var n := |ws| - 1;
    if k == n {
      assert ws[k := w][..n] == ws[..n];
    } else {
      WorkersRankUpdate(ws[..n], k, w);
      assert ws[k := w][..n] == ws[..n][k := w];
    }
  }

  /**
   * Each step of the threads' own leaves less to do. So without new connections and spurious wake-ups the threads come
   * to rest, and they do not rest while a descriptor is queued.
   */
  lemma {:induction false} OwnStepsRunOut(states: seq<System>, i: nat, a: Step)
    requires IsRun(states) && i < |states| && Runnable(states[i]) && Enabled(states[i], a) && IsOwnStep(a)
    ensures ToDo(Next(states[i], a)) < ToDo(states[i])
  {
    hide WorkersRank, Claimants, Slots, Fds, Stored, PutAdvanced, GetAdvanced;
    RunInv(states, i);
    var s, t := states[i], Next(states[i], a);
    match a
    case WorkerSteps(k) => WorkersRankUpdate(s.workers, k, t.workers[k]);
    case MainSignals(k) =>
      if SomeoneWaits(s.workers) {
        WorkersRankUpdate(s.workers, k, Woken);
      }
    case MainSteps =>
  }
}
