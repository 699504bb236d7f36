/** The whole preforked server: parent and children stepping in any order, a stream pipe between them. */
module Prefork {
  import opened Dispatcher

  /** child_main: waiting for a descriptor, serving it, or about to say that it is ready. */
  datatype Work = Receiving | Serving(conn: nat) | Replying

  /**
   * One child with its pipe: descriptors on their way to it, ready bytes the parent has not read; and how many
   * connections it has received.
   */
  datatype Child = Child(inbox: seq<nat>, work: Work, ready: nat, received: nat)

  /** The parent: in select, with a new connection to accept, scanning from child `i`, or gone. */
  datatype Spot =
    | InSelect
    | Accepting(readable: seq<bool>, nsel: int)
    | Scanning(i: nat, readable: seq<bool>, nsel: int)
    | NoAvailableChildren

  /** Connections are numbered as they are accepted; `closed` records those that a child has served. */
  datatype System = System(table: Table, kids: seq<Child>, spot: Spot, accepted: nat, closed: seq<nat>)

  datatype Step =
    | Select(connection: bool)
    | Parent
    | Receive(k: nat)
    | Serve(k: nat)
    | Reply(k: nat)

  function Readable(kids: seq<Child>): (r: seq<bool>)
    ensures |r| == |kids| && forall i | 0 <= i < |r| :: r[i] == (kids[i].ready > 0)
  {
    seq(|kids|, i requires 0 <= i < |kids| => kids[i].ready > 0)
  }

  /** How many descriptors are set from `i` on. */
  function Count(readable: seq<bool>, i: nat): nat
    requires i <= |readable|
    decreases |readable| - i
  {
    if i == |readable| then 0 else (if readable[i] then 1 else 0) + Count(readable, i + 1)
  }

  /** select reports the pipes that hold a byte, and a connection only while the listening socket is in its set. */
  ghost predicate Enabled(s: System, a: Step) {
    match a
    case Select(connection) =>
      && s.spot == InSelect
      && (connection ==> s.table.navail > 0)
      && (connection || Count(Readable(s.kids), 0) > 0)
    case Parent => s.spot.Accepting? || s.spot.Scanning?
    case Receive(k) => k < |s.kids| && s.kids[k].work == Receiving && s.kids[k].inbox != []
    case Serve(k) => k < |s.kids| && s.kids[k].work.Serving?
    case Reply(k) => k < |s.kids| && s.kids[k].work == Replying
  }

  /** What the types leave open: the tables and sets have one place a child, and no read of an empty pipe. */
  ghost predicate Runnable(s: System) {
    && |s.kids| == |s.table.status| == |s.table.count|
    && match s.spot
       case Accepting(readable, _) => |readable| == |s.kids|
       case Scanning(i, readable, _) =>
         && i <= |readable| == |s.kids|
         && forall j | i <= j < |readable| && readable[j] :: s.kids[j].ready > 0
       case _ => true
  }

  function AcceptStep(s: System): System
    requires s.spot.Accepting? && |s.kids| == |s.table.status| == |s.table.count|
  {
    var i := FirstFree(s.table.status, 0);
    if i == |s.kids| then
      s.(spot := NoAvailableChildren)
    else
      s.(table := Assigned(s.table, i),
         kids := s.kids[i := s.kids[i].(inbox := s.kids[i].inbox + [s.accepted])],
         accepted := s.accepted + 1,
         spot := if s.spot.nsel - 1 == 0 then InSelect else Scanning(0, s.spot.readable, s.spot.nsel - 1))
  }

  function ScanStep(s: System): System
    requires s.spot.Scanning? && |s.kids| == |s.table.status| && s.spot.i <= |s.spot.readable| == |s.kids|
    requires s.spot.i < |s.kids| && s.spot.readable[s.spot.i] ==> s.kids[s.spot.i].ready > 0
  {
    var Scanning(i, readable, nsel) := s.spot;
    if i == |s.kids| then s.(spot := InSelect)
    else if !readable[i] then s.(spot := Scanning(i + 1, readable, nsel))
    else
      s.(table := Freed(s.table, i), kids := s.kids[i := s.kids[i].(ready := s.kids[i].ready - 1)],
         spot := if nsel - 1 == 0 then InSelect else Scanning(i + 1, readable, nsel - 1))
  }

  ghost function Next(s: System, a: Step): System
    requires Runnable(s) && Enabled(s, a)
  {
    match a
    case Select(connection) =>
      var readable := Readable(s.kids);
      var n := Count(readable, 0);
      s.(spot := if connection then Accepting(readable, n + 1) else Scanning(0, readable, n))
    case Parent => if s.spot.Accepting? then AcceptStep(s) else ScanStep(s)
    case Receive(k) =>
      var c := s.kids[k];
      s.(kids := s.kids[k := c.(inbox := c.inbox[1..], work := Serving(c.inbox[0]), received := c.received + 1)])
    case Serve(k) =>
      s.(kids := s.kids[k := s.kids[k].(work := Replying)], closed := s.closed + [s.kids[k].work.conn])
    case Reply(k) =>
      s.(kids := s.kids[k := s.kids[k].(work := Receiving, ready := s.kids[k].ready + 1)])
  }

  function Initial(n: nat): System {
    System(Table(seq(n, _ => 0), seq(n, _ => 0), n), seq(n, _ => Child([], Receiving, 0, 0)), InSelect, 0, [])
  }

  // ---------------------------------------------------------------- invariant

  /** What keeps a child busy: a descriptor on its way, its work, a ready byte on the way back. */
  function Tokens(c: Child): nat { |c.inbox| + (if c.work == Receiving then 0 else 1) + c.ready }

  function Zeros(status: seq<nat>, i: nat): nat
    requires i <= |status|
    decreases |status| - i
  {
    if i == |status| then 0 else (if status[i] == 0 then 1 else 0) + Zeros(status, i + 1)
  }

  function Sum(xs: seq<nat>, i: nat): nat
    requires i <= |xs|
    decreases |xs| - i
  {
    if i == |xs| then 0 else xs[i] + Sum(xs, i + 1)
  }

  function Occurs(xs: seq<nat>, conn: nat): nat {
    if xs == [] then 0 else Occurs(xs[..|xs| - 1], conn) + if xs[|xs| - 1] == conn then 1 else 0
  }

  /** How often a child has, or will get, a connection. */
  function Has(c: Child, conn: nat): nat { Occurs(c.inbox, conn) + if c.work == Serving(conn) then 1 else 0 }

  function Held(kids: seq<Child>, conn: nat, i: nat): nat
    requires i <= |kids|
    decreases |kids| - i
  {
    if i == |kids| then 0 else Has(kids[i], conn) + Held(kids, conn, i + 1)
  }

  ghost predicate TableInv(s: System) {
    && |s.kids| == |s.table.status| == |s.table.count|
    && (forall k | 0 <= k < |s.kids| :: s.table.status[k] <= 1 && Tokens(s.kids[k]) == s.table.status[k])
    && (forall k | 0 <= k < |s.kids| :: s.table.count[k] == s.kids[k].received + |s.kids[k].inbox|)
    && s.table.navail == Zeros(s.table.status, 0)
    && Sum(s.table.count, 0) == s.accepted
  }

  ghost predicate SpotInv(s: System) {
    match s.spot
    case InSelect => true
    case Accepting(readable, nsel) =>
      && |readable| == |s.kids| && nsel == Count(readable, 0) + 1 && s.table.navail > 0
      && forall j | 0 <= j < |readable| && readable[j] :: s.kids[j].ready > 0
    case Scanning(i, readable, nsel) =>
      && i <= |readable| == |s.kids| && nsel == Count(readable, i) && nsel > 0
      && forall j | i <= j < |readable| && readable[j] :: s.kids[j].ready > 0
    case NoAvailableChildren => false
  }

  /** An accepted connection is in one place: with a child, on its way to one, or closed. */
  ghost predicate Conserved(s: System, conn: nat) {
    Held(s.kids, conn, 0) + Occurs(s.closed, conn) == if conn < s.accepted then 1 else 0
  }

  ghost predicate Inv(s: System) { TableInv(s) && SpotInv(s) }

  lemma {:induction false} ZerosUpdate(status: seq<nat>, k: nat, v: nat, i: nat)
    requires i <= |status| && k < |status|
    ensures Zeros(status[k := v], i) + (if i <= k && status[k] == 0 then 1 else 0)
         == Zeros(status, i) + (if i <= k && v == 0 then 1 else 0)
    decreases |status| - i
  {
    if i < |status| {
      ZerosUpdate(status, k, v, i + 1);
    }
  }

  lemma {:induction false} SumUpdate(xs: seq<nat>, k: nat, v: nat, i: nat)
    requires i <= |xs| && k < |xs|
    ensures Sum(xs[k := v], i) == Sum(xs, i) + if i <= k then v - xs[k] else 0
    decreases |xs| - i
  {
    if i < |xs| {
      SumUpdate(xs, k, v, i + 1);
    }
  }

  lemma {:induction false} HeldUpdate(kids: seq<Child>, k: nat, c: Child, conn: nat, i: nat)
    requires i <= |kids| && k < |kids|
    ensures Held(kids[k := c], conn, i) == Held(kids, conn, i) + if i <= k then Has(c, conn) - Has(kids[k], conn) else 0
    decreases |kids| - i
  {
    if i < |kids| {
      HeldUpdate(kids, k, c, conn, i + 1);
    }
  }

  lemma {:induction false} OccursSnoc(xs: seq<nat>, x: nat, conn: nat)
    ensures Occurs(xs + [x], conn) == Occurs(xs, conn) + if x == conn then 1 else 0
  {}

  lemma {:induction false} OccursFirst(xs: seq<nat>, conn: nat)
    requires xs != []
    ensures Occurs(xs, conn) == Occurs(xs[1..], conn) + if xs[0] == conn then 1 else 0
  {
    if |xs| > 1 {
      OccursFirst(xs[..|xs| - 1], conn);
      assert xs[..|xs| - 1][1..] == xs[1..][..|xs[1..]| - 1];
    }
  }

  lemma {:induction false} NoneFree(status: seq<nat>, i: nat)
    requires i <= |status| && forall j | i <= j < |status| :: status[j] != 0
    ensures Zeros(status, i) == 0
    decreases |status| - i
  {
    if i < |status| {
      NoneFree(status, i + 1);
    }
  }

  lemma {:induction false} AllFree(n: nat, i: nat)
    requires i <= n
    ensures Zeros(seq(n, _ => 0), i) == n - i && Sum(seq(n, _ => 0), i) == 0
    decreases n - i
  {
    if i < n {
      AllFree(n, i + 1);
    }
  }

  lemma {:induction false} NothingHeld(n: nat, i: nat, conn: nat)
    requires i <= n
    ensures Held(seq(n, _ => Child([], Receiving, 0, 0)), conn, i) == 0
    decreases n - i
  {
    if i < n {
      NothingHeld(n, i + 1, conn);
    }
  }

  lemma {:induction false} AcceptInv(s: System)
    requires Inv(s) && s.spot.Accepting?
    ensures Inv(AcceptStep(s))
  {
    var i := FirstFree(s.table.status, 0);
    if i == |s.kids| {
      NoneFree(s.table.status, 0);
    } else {
      ZerosUpdate(s.table.status, i, 1, 0);
      SumUpdate(s.table.count, i, s.table.count[i] + 1, 0);
    }
  }

  lemma {:induction false} ScanInv(s: System)
    requires Inv(s) && s.spot.Scanning?
    ensures Inv(ScanStep(s))
  {
    var i := s.spot.i;
    if i < |s.kids| && s.spot.readable[i] {
      ZerosUpdate(s.table.status, i, 0, 0);
    }
  }

  lemma {:induction false} ChildInv(s: System, a: Step)
    requires Inv(s) && Runnable(s) && Enabled(s, a) && (a.Receive? || a.Serve? || a.Reply?)
    ensures Inv(Next(s, a))
  {}

  lemma {:induction false} ConservedAccept(s: System, conn: nat)
    requires Inv(s) && Conserved(s, conn) && s.spot.Accepting?
    ensures Conserved(AcceptStep(s), conn)
  {
    hide Held, Occurs, Zeros, Sum, Tokens, Count;
    var k := FirstFree(s.table.status, 0);
    if k < |s.kids| {
      var c := s.kids[k].(inbox := s.kids[k].inbox + [s.accepted]);
      HeldUpdate(s.kids, k, c, conn, 0);
      OccursSnoc(s.kids[k].inbox, s.accepted, conn);
    }
  }

  lemma {:induction false} ConservedScan(s: System, conn: nat)
    requires Inv(s) && Conserved(s, conn) && s.spot.Scanning?
    ensures Conserved(ScanStep(s), conn)
  {
    hide Held, Occurs, Zeros, Sum, Tokens, Count;
    var k := s.spot.i;
    if k < |s.kids| && s.spot.readable[k] {
      HeldUpdate(s.kids, k, s.kids[k].(ready := s.kids[k].ready - 1), conn, 0);
    }
  }

  lemma {:induction false} ConservedChild(s: System, a: Step, conn: nat)
    requires Inv(s) && Conserved(s, conn) && Runnable(s) && Enabled(s, a) && (a.Receive? || a.Serve? || a.Reply?)
    ensures Conserved(Next(s, a), conn)
  {
    hide Held, Occurs, Zeros, Sum, Tokens, Count;
    var c := s.kids[a.k];
    HeldUpdate(s.kids, a.k, Next(s, a).kids[a.k], conn, 0);
    if a.Receive? {
      OccursFirst(c.inbox, conn);
    } else if a.Serve? {
      OccursSnoc(s.closed, c.work.conn, conn);
    }
  }

  /** No step loses a connection, or makes a second one of it. */
  lemma {:induction false} ConservedStep(s: System, a: Step, conn: nat)
    requires Inv(s) && Conserved(s, conn) && Runnable(s) && Enabled(s, a)
    ensures Conserved(Next(s, a), conn)
  {
    hide Held, Occurs;
    match a
    case Select(_) =>
    case Parent =>
      if s.spot.Accepting? {
        ConservedAccept(s, conn);
      } else {
        ConservedScan(s, conn);
      }
    case _ => ConservedChild(s, a, conn);
  }

  lemma {:induction false} InvStep(s: System, a: Step)
    requires Inv(s) && Runnable(s) && Enabled(s, a)
    ensures Inv(Next(s, a)) && Runnable(Next(s, a))
  {
    match a
    case Select(_) =>
    case Parent =>
      if s.spot.Accepting? {
        AcceptInv(s);
      } else {
        ScanInv(s);
      }
    case _ => ChildInv(s, a);
  }

  // ---------------------------------------------------------------- runs

  /** The states of a run from `n` idle children, one step apart. */
  ghost predicate IsRun(n: nat, states: seq<System>) {
    && states != [] && states[0] == Initial(n)
    && forall i | 0 <= i < |states| - 1 :: StepsTo(states[i], states[i + 1])
  }

  ghost predicate StepsTo(s: System, t: System) { exists a :: Runnable(s) && Enabled(s, a) && t == Next(s, a) }

  lemma {:induction false} RunInv(n: nat, states: seq<System>, i: nat)
    requires IsRun(n, states) && i < |states|
    ensures Inv(states[i]) && Runnable(states[i])
  {
    if i == 0 {
      AllFree(n, 0);
    } else {
      RunInv(n, states, i - 1);
      assert StepsTo(states[i - 1], states[i]);
      var a :| Enabled(states[i - 1], a) && states[i] == Next(states[i - 1], a);
      InvStep(states[i - 1], a);
    }
  }

  /**
   * Always: navail counts the children with status 0, each count is that of the connections sent to the child, they
   * add up to those accepted, and the error exit is not taken.
   */
  lemma {:induction false} AccountsAlwaysRight(n: nat, states: seq<System>, i: nat)
    requires IsRun(n, states) && i < |states|
    ensures states[i].table.navail == Zeros(states[i].table.status, 0)
    ensures |states[i].kids| == |states[i].table.count|
    ensures forall k | 0 <= k < |states[i].kids| ::
              states[i].table.count[k] == states[i].kids[k].received + |states[i].kids[k].inbox|
    ensures Sum(states[i].table.count, 0) == states[i].accepted
    ensures states[i].spot != NoAvailableChildren
  {
    RunInv(n, states, i);
  }

  /** Always: a busy child has exactly one of a descriptor on its way, work in hand, or an unread ready byte. */
  lemma {:induction false} BusyMeansOneToken(n: nat, states: seq<System>, i: nat, k: nat)
    requires IsRun(n, states) && i < |states| && k < |states[i].kids|
    ensures k < |states[i].table.status| && states[i].table.status[k] == Tokens(states[i].kids[k]) <= 1
    ensures |states[i].kids[k].inbox| <= 1 && (states[i].kids[k].work.Serving? ==> states[i].kids[k].inbox == [])
  {
    RunInv(n, states, i);
    assert states[i].table.status[k] <= 1 && Tokens(states[i].kids[k]) == states[i].table.status[k];
  }

  /** Always: each accepted connection is in exactly one place, and no other is anywhere. */
  lemma {:induction false} EachConnectionOnce(n: nat, states: seq<System>, i: nat, conn: nat)
    requires IsRun(n, states) && i < |states|
    ensures Conserved(states[i], conn)
  {
    if i == 0 {
      NothingHeld(n, 0, conn);
    } else {
      EachConnectionOnce(n, states, i - 1, conn);
      RunInv(n, states, i - 1);
      assert StepsTo(states[i - 1], states[i]);
      var a :| Enabled(states[i - 1], a) && states[i] == Next(states[i - 1], a);
      ConservedStep(states[i - 1], a, conn);
    }
  }

  /** Leaving the scan early skips no child that select reported. */
  lemma {:induction false} EarlyExitSkipsNobody(n: nat, states: seq<System>, i: nat, j: nat)
    requires IsRun(n, states) && i < |states| && states[i].spot.Scanning?
    requires Enabled(states[i], Parent) && Runnable(states[i]) && Next(states[i], Parent).spot == InSelect
    requires states[i].spot.i < j < |states[i].kids|
    ensures j < |states[i].spot.readable| && !states[i].spot.readable[j]
  {
    RunInv(n, states, i);
    var s := states[i];
    if s.spot.readable[j] {
      CountPositive(s.spot.readable, s.spot.i + 1, j);
    }
  }

  lemma {:induction false} CountPositive(readable: seq<bool>, i: nat, j: nat)
    requires i <= j < |readable| && readable[j]
    ensures Count(readable, i) > 0
    decreases j - i
  {
    if i < j {
      CountPositive(readable, i + 1, j);
    }
  }

  /** The scan frees the children reported from `i` on, and no other. */
  lemma {:induction false} ScannedFrees(t: Table, readable: seq<bool>, i: nat)
    requires |readable| == |t.status| && i <= |readable| && Count(readable, i) > 0
    ensures var u := Scanned(t, readable, i, Count(readable, i));
            && |u.status| == |t.status| && u.count == t.count
            && (forall j | 0 <= j < |readable| :: u.status[j] == if j >= i && readable[j] then 0 else t.status[j])
            && u.navail == t.navail + Count(readable, i)
    decreases |readable| - i
  {
    if i < |readable| {
      if readable[i] {
        if Count(readable, i + 1) > 0 {
          ScannedFrees(Freed(t, i), readable, i + 1);
        } else {
          NoneSet(readable, i + 1);
        }
      } else {
        ScannedFrees(t, readable, i + 1);
      }
    }
  }

  lemma {:induction false} NoneSet(readable: seq<bool>, i: nat)
    requires i <= |readable| && Count(readable, i) == 0
    ensures forall j | i <= j < |readable| :: !readable[j]
    decreases |readable| - i
  {
    if i < |readable| {
      NoneSet(readable, i + 1);
    }
  }

  /** While the parent scans, whatever the children do, the reported ones that it has passed stay free. */
  lemma {:induction false} ScanPasses(n: nat, states: seq<System>, i: nat, m: nat, k: nat)
    requires IsRun(n, states) && i <= m < |states| && forall j | i <= j <= m :: states[j].spot.Scanning?
    requires states[i].spot.i <= k < |states[i].kids| == |states[i].spot.readable| && states[i].spot.readable[k]
    ensures states[m].spot.readable == states[i].spot.readable && k < |states[m].table.status|
    ensures k < states[m].spot.i ==> states[m].table.status[k] == 0
  {
    hide Zeros, Sum, Count;
    RunInv(n, states, m);
    if i < m {
      ScanPasses(n, states, i, m - 1, k);
      RunInv(n, states, m - 1);
      assert StepsTo(states[m - 1], states[m]);
      var a :| Runnable(states[m - 1]) && Enabled(states[m - 1], a) && states[m] == Next(states[m - 1], a);
      ScanPassesStep(states[m - 1], a, k);
    }
  }

  lemma {:induction false} ScanPassesStep(s: System, a: Step, k: nat)
    requires Runnable(s) && Enabled(s, a) && s.spot.Scanning? && Next(s, a).spot.Scanning?
    requires k < |s.spot.readable| && s.spot.readable[k] && (k < s.spot.i ==> s.table.status[k] == 0)
    ensures var t := Next(s, a);
            && t.spot.readable == s.spot.readable && |t.table.status| == |s.table.status|
            && (k < t.spot.i ==> t.table.status[k] == 0)
  {}

  /** Back in select, the parent has read the ready byte of every child that was reported, and marked it free. */
  lemma {:induction false} ScanServesReported(n: nat, states: seq<System>, i: nat, m: nat, k: nat)
    requires IsRun(n, states) && i <= m < |states| - 1 && states[m + 1].spot == InSelect
    requires forall j | i <= j <= m :: states[j].spot.Scanning?
    requires states[i].spot.i <= k < |states[i].kids| == |states[i].spot.readable| && states[i].spot.readable[k]
    ensures states[i].kids[k].ready == 1
    ensures k < |states[m + 1].kids| == |states[m + 1].table.status|
    ensures states[m + 1].kids[k].ready == 0 && states[m + 1].table.status[k] == 0
  {
    RunInv(n, states, i);
    RunInv(n, states, m);
    RunInv(n, states, m + 1);
    ScanPasses(n, states, i, m, k);
    assert StepsTo(states[m], states[m + 1]);
    var s := states[m];
    if s.spot.i < k {
      EarlyExitSkipsNobody(n, states, m, k);
    }
    assert Tokens(states[i].kids[k]) <= 1;
    assert Tokens(states[m + 1].kids[k]) == states[m + 1].table.status[k];
  }

  /** The scan's steps come to what the loop computes at once: the table it will leave does not change on the way. */
  lemma {:induction false} ScanRefines(s: System)
    requires s.spot.Scanning? && Runnable(s)
    ensures var t := ScanStep(s);
            var all := Scanned(s.table, s.spot.readable, s.spot.i, s.spot.nsel);
            if t.spot == InSelect then t.table == all
            else t.spot.Scanning? && t.spot.i <= |t.spot.readable| == |t.table.status|
                 && Scanned(t.table, t.spot.readable, t.spot.i, t.spot.nsel) == all
  {}

  /** With children there is always something to go on with: the parent or a child can step, or a connection may come. */
  lemma {:induction false} NeverStuck(n: nat, states: seq<System>, i: nat)
    requires n > 0 && IsRun(n, states) && i < |states|
    ensures exists a :: Enabled(states[i], a)
  {
    RunInv(n, states, i);
    KidsStay(n, states, i);
    var s := states[i];
    if s.spot != InSelect {
      assert Enabled(s, Parent);
    } else if s.table.navail > 0 {
      assert Enabled(s, Select(true));
    } else {
      assert Zeros(s.table.status, 0) >= if s.table.status[0] == 0 then 1 else 0;
      var c := s.kids[0];
      assert Tokens(c) == 1;
      if c.ready > 0 {
        CountPositive(Readable(s.kids), 0, 0);
        assert Enabled(s, Select(false));
      } else if c.work == Receiving {
        assert Enabled(s, Receive(0));
      } else if c.work == Replying {
        assert Enabled(s, Reply(0));
      } else {
        assert Enabled(s, Serve(0));
      }
    }
  }

  lemma {:induction false} KidsStay(n: nat, states: seq<System>, i: nat)
    requires IsRun(n, states) && i < |states|
    ensures |states[i].kids| == n
  {
    if i > 0 {
      KidsStay(n, states, i - 1);
      assert StepsTo(states[i - 1], states[i]);
    }
  }

  // ---------------------------------------------------------------- progress

  /** How much a child has before it, all told; `n` is the number of children. */
  function KidWork(c: Child, n: nat): nat {
    if c.inbox != [] then n + 6
    else if c.work.Serving? then n + 5
    else if c.work == Replying then n + 4
    else if c.ready > 0 then n + 3
    else 0
  }

  function KidsWork(kids: seq<Child>, n: nat, i: nat): nat
    requires i <= |kids|
    decreases |kids| - i
  {
    if i == |kids| then 0 else KidWork(kids[i], n) + KidsWork(kids, n, i + 1)
  }

  function SpotWork(spot: Spot, n: nat): int {
    match spot
    case InSelect => n + 2
    case Accepting(_, _) => 2 * n + 9
    case Scanning(i, _, _) => n + 1 - i
    case NoAvailableChildren => 0
  }

  function ToDo(s: System): int { KidsWork(s.kids, |s.kids|, 0) + SpotWork(s.spot, |s.kids|) }

  lemma {:induction false} KidsWorkUpdate(kids: seq<Child>, k: nat, c: Child, n: nat, i: nat)
    requires i <= |kids| && k < |kids|
    ensures KidsWork(kids[k := c], n, i) == KidsWork(kids, n, i) + if i <= k then KidWork(c, n) - KidWork(kids[k], n) else 0
    decreases |kids| - i
  {
    if i < |kids| {
      KidsWorkUpdate(kids, k, c, n, i + 1);
    }
  }

  lemma {:induction false} ChildWorks(s: System, a: Step)
    requires Inv(s) && Runnable(s) && Enabled(s, a) && (a.Receive? || a.Serve? || a.Reply?)
    ensures ToDo(Next(s, a)) < ToDo(s)
  {
    hide KidsWork, Zeros, Sum, Count;
    assert Tokens(s.kids[a.k]) <= 1;
    KidsWorkUpdate(s.kids, a.k, Next(s, a).kids[a.k], |s.kids|, 0);
  }

  lemma {:induction false} ParentWorks(s: System)
    requires Inv(s) && Runnable(s) && Enabled(s, Parent)
    ensures ToDo(Next(s, Parent)) < ToDo(s)
  {
    hide KidsWork, Zeros, Sum;
    var t := Next(s, Parent);
    if s.spot.Accepting? {
      var i := FirstFree(s.table.status, 0);
      AcceptInv(s);
      if i < |s.kids| {
        assert Tokens(s.kids[i]) == 0;
        KidsWorkUpdate(s.kids, i, t.kids[i], |s.kids|, 0);
      }
    } else {
      var i := s.spot.i;
      if i < |s.kids| && s.spot.readable[i] {
        assert Tokens(s.kids[i]) <= 1;
        KidsWorkUpdate(s.kids, i, t.kids[i], |s.kids|, 0);
      }
    }
  }

  /** Every step but a new connection leaves less to do, so that without one the server comes to rest. */
  lemma {:induction false} WorkFalls(n: nat, states: seq<System>, i: nat, a: Step)
    requires IsRun(n, states) && i < |states| && Runnable(states[i]) && Enabled(states[i], a) && a != Select(true)
    ensures 0 <= ToDo(Next(states[i], a)) < ToDo(states[i])
  {
    hide KidsWork, Zeros, Sum;
    RunInv(n, states, i);
    var s := states[i];
    InvStep(s, a);
    match a
    case Select(_) =>
    case Parent => ParentWorks(s);
    case _ => ChildWorks(s, a);
  }

  /** And at rest every child is idle and free. */
  lemma {:induction false} RestMeansFree(n: nat, states: seq<System>, i: nat)
    requires IsRun(n, states) && i < |states| && forall a | Enabled(states[i], a) :: a == Select(true)
    ensures states[i].table.navail == n && |states[i].kids| == n && forall k | 0 <= k < n :: Tokens(states[i].kids[k]) == 0
  {
    RunInv(n, states, i);
    KidsStay(n, states, i);
    var s := states[i];
    assert !Enabled(s, Parent) && !Enabled(s, Select(false));
    forall k | 0 <= k < n ensures Tokens(s.kids[k]) == 0 {
      assert !Enabled(s, Receive(k)) && !Enabled(s, Serve(k)) && !Enabled(s, Reply(k));
      if s.kids[k].ready > 0 {
        CountPositive(Readable(s.kids), 0, k);
      }
    }
    AllZero(s.table.status, 0);
  }

  lemma {:induction false} AllZero(status: seq<nat>, i: nat)
    requires i <= |status| && forall j | i <= j < |status| :: status[j] == 0
    ensures Zeros(status, i) == |status| - i
    decreases |status| - i
  {
    if i < |status| {
      AllZero(status, i + 1);
    }
  }
}
