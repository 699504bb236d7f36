/** nonblock/web.c, start_connect.c and write_get_cmd.c: files fetched over several connections at once. */
module WebClient {

  /** f_flags, whose values exclude each other. */
  datatype Flag = Untouched | Connecting | Reading | Done

  predicate Active(f: Flag) { f == Connecting || f == Reading }

  function Rank(f: Flag): nat {
    match f
    case Untouched => 0
    case Connecting => 1
    case Reading => 2
    case Done => 3
  }

  /** The file table and the globals; `lost` is the "nothing found" exit. */
  datatype Vars = Vars(
    flags: seq<Flag>, fds: seq<nat>, nconn: int, nlefttoconn: int, nlefttoread: int,
    rset: set<nat>, wset: set<nat>, maxfd: int, lost: bool)

  predicate Sized(v: Vars) { |v.flags| == |v.fds| }

  /** A call of socket and connect: the descriptor, and whether the connection is still in progress. */
  datatype Attempt = Attempt(fd: nat, inProgress: bool)

  function Max(x: int, y: int): int { if y > x then y else x }

  /** write_get_cmd for file `k`. */
  function Asked(v: Vars, k: nat): Vars
    requires Sized(v) && k < |v.flags|
  {
    v.(flags := v.flags[k := Reading], rset := v.rset + {v.fds[k]}, maxfd := Max(v.maxfd, v.fds[k]))
  }

  /** start_connect for file `k`. */
  function Started(v: Vars, k: nat, a: Attempt): (w: Vars)
    requires Sized(v) && k < |v.flags|
    ensures Sized(w)
  {
    var u := v.(fds := v.fds[k := a.fd]);
    if a.inProgress then
      u.(flags := u.flags[k := Connecting], rset := u.rset + {a.fd}, wset := u.wset + {a.fd}, maxfd := Max(u.maxfd, a.fd))
    else
      Asked(u, k)
  }

  function FirstUntouched(flags: seq<Flag>, i: nat): (k: nat)
    requires i <= |flags|
    ensures i <= k <= |flags| && (k < |flags| ==> flags[k] == Untouched)
    ensures forall j | i <= j < k :: flags[j] != Untouched
    decreases |flags| - i
  {
    if i == |flags| || flags[i] == Untouched then i else FirstUntouched(flags, i + 1)
  }

  /** The loop that starts connections; attempt `n` is the one it makes next. */
  function Filled(v: Vars, maxnconn: int, attempts: seq<Attempt>, n: nat): (w: Vars)
    requires Sized(v) && n <= |attempts|
    ensures Sized(w)
    decreases |attempts| - n
  {
    if v.nconn >= maxnconn || v.nlefttoconn <= 0 || n == |attempts| then v
    else
      var k := FirstUntouched(v.flags, 0);
      if k == |v.flags| then v.(lost := true)
      else
        var u := Started(v, k, attempts[n]);
        Filled(u.(nconn := u.nconn + 1, nlefttoconn := u.nlefttoconn - 1), maxnconn, attempts, n + 1)
  }

  /** What select and the reads after it report. */
  datatype Ready = Ready(rs: set<nat>, ws: set<nat>, eofs: seq<bool>)

  /** File `i`'s turn in the loop after select. */
  function Looked(v: Vars, i: nat, r: Ready): (w: Vars)
    requires Sized(v) && i < |v.flags| == |r.eofs|
    ensures Sized(w) && |w.flags| == |v.flags|
  {
    var fd := v.fds[i];
    match v.flags[i]
    case Connecting => if fd in r.rs || fd in r.ws then Asked(v.(wset := v.wset - {fd}), i) else v
    case Reading =>
      if fd in r.rs && r.eofs[i] then
        v.(flags := v.flags[i := Done], rset := v.rset - {fd}, nconn := v.nconn - 1, nlefttoread := v.nlefttoread - 1)
      else v
    case _ => v
  }

  function LookedFrom(v: Vars, i: nat, r: Ready): (w: Vars)
    requires Sized(v) && i <= |v.flags| == |r.eofs|
    ensures Sized(w) && |w.flags| == |v.flags|
    decreases |v.flags| - i
  {
    if i == |v.flags| then v else LookedFrom(Looked(v, i, r), i + 1, r)
  }

  function Initial(n: nat): Vars { Vars(seq(n, _ => Untouched), seq(n, _ => 0), 0, n, n, {}, {}, -1, false) }

  class Web {
    const flags: array<Flag>
    const fds: array<nat>
    var nconn: int
    var nlefttoconn: int
    var nlefttoread: int
    var rset: set<nat>
    var wset: set<nat>
    var maxfd: int

    ghost function View(lost: bool): Vars
      reads this, flags, fds
    {
      Vars(flags[..], fds[..], nconn, nlefttoconn, nlefttoread, rset, wset, maxfd, lost)
    }

    ghost predicate Valid()
      reads this
    {
      flags.Length == fds.Length
    }

    constructor (nfiles: nat)
      ensures Valid() && fresh(flags) && fresh(fds) && View(false) == Initial(nfiles)
    {
      flags := new Flag[nfiles](_ => Untouched);
      fds := new nat[nfiles](_ => 0);
      nconn, nlefttoconn, nlefttoread := 0, nfiles, nfiles;
      rset, wset, maxfd := {}, {}, -1;
      new;
      assert flags[..] == seq(nfiles, _ => Untouched) && fds[..] == seq(nfiles, _ => 0);
    }

    method WriteGetCmd(k: nat)
      requires Valid() && k < flags.Length
      modifies this, flags
      ensures Valid() && View(false) == Asked(old(View(false)), k)
    {
      flags[k] := Reading;
      rset := rset + {fds[k]};
      if fds[k] > maxfd {
        maxfd := fds[k];
      }
    }

    method StartConnect(k: nat, a: Attempt)
      requires Valid() && k < flags.Length
      modifies this, flags, fds
      ensures Valid() && View(false) == Started(old(View(false)), k, a)
    {
      fds[k] := a.fd;
      if a.inProgress {
        flags[k] := Connecting;
        rset := rset + {a.fd};
        wset := wset + {a.fd};
        if a.fd > maxfd {
          maxfd := a.fd;
        }
      } else {
        WriteGetCmd(k);
      }
    }

    /** The inner loops before select; the run ends early if there are no more attempts to make. */
    method Fill(maxnconn: int, attempts: seq<Attempt>) returns (lost: bool)
      requires Valid()
      modifies this, flags, fds
      ensures Valid() && View(lost) == Filled(old(View(false)), maxnconn, attempts, 0)
    {
      hide Started;
      ghost var v := View(false);
      var n := 0;
      while nconn < maxnconn && nlefttoconn > 0 && n < |attempts|
        invariant Valid() && n <= |attempts|
        invariant Filled(View(false), maxnconn, attempts, n) == Filled(v, maxnconn, attempts, 0)
        decreases |attempts| - n
      {
        var i := 0;
        while i < flags.Length && flags[i] != Untouched
          invariant i <= flags.Length
          invariant FirstUntouched(flags[..], i) == FirstUntouched(flags[..], 0)
        {
          i := i + 1;
        }
        if i == flags.Length {
          return true;
        }
        StartConnect(i, attempts[n]);
        nconn := nconn + 1;
        nlefttoconn := nlefttoconn - 1;
        n := n + 1;
      }
      return false;
    }

    /** The loop over the files after select. */
    method LookAtFiles(r: Ready)
      requires Valid() && |r.eofs| == flags.Length
      modifies this, flags
      ensures Valid() && View(false) == LookedFrom(old(View(false)), 0, r)
    {
      ghost var v := View(false);
      var i := 0;
      while i < flags.Length
        invariant Valid() && i <= flags.Length
        invariant LookedFrom(View(false), i, r) == LookedFrom(v, 0, r)
      {
        ghost var u := View(false);
        var fd := fds[i];
        if flags[i] == Connecting && (fd in r.rs || fd in r.ws) {
          wset := wset - {fd};
          WriteGetCmd(i);
        } else if flags[i] == Reading && fd in r.rs {
          if r.eofs[i] {
            flags[i] := Done;
            rset := rset - {fd};
            nconn := nconn - 1;
            nlefttoread := nlefttoread - 1;
          }
        }
        assert View(false) == Looked(u, i, r);
        i := i + 1;
      }
    }
  }

  // ---------------------------------------------------------------- invariant

  function Count(flags: seq<Flag>, f: Flag, i: nat): nat
    requires i <= |flags|
    decreases |flags| - i
  {
    if i == |flags| then 0 else (if flags[i] == f then 1 else 0) + Count(flags, f, i + 1)
  }

  /** The descriptors of files in a state that `open` names. */
  ghost function Fds(flags: seq<Flag>, fds: seq<nat>, open: set<Flag>): set<nat>
    requires |flags| == |fds|
  {
    set i | 0 <= i < |flags| && flags[i] in open :: fds[i]
  }

  /** Counters, sets and the largest descriptor are those of the table; open files have descriptors of their own. */
  ghost predicate Inv(v: Vars) {
    && Sized(v) && !v.lost
    && v.nconn == Count(v.flags, Connecting, 0) + Count(v.flags, Reading, 0)
    && v.nlefttoconn == Count(v.flags, Untouched, 0)
    && v.nlefttoread + Count(v.flags, Done, 0) == |v.flags|
    && SetsInv(v)
  }

  ghost predicate SetsInv(v: Vars)
    requires Sized(v)
  {
    && v.rset == Fds(v.flags, v.fds, {Connecting, Reading})
    && v.wset == Fds(v.flags, v.fds, {Connecting})
    && (forall i, j | 0 <= i < j < |v.flags| && Active(v.flags[i]) && Active(v.flags[j]) :: v.fds[i] != v.fds[j])
    && forall i | 0 <= i < |v.flags| && Active(v.flags[i]) :: v.fds[i] <= v.maxfd
  }

  lemma {:induction false} CountUpdate(flags: seq<Flag>, k: nat, g: Flag, f: Flag, i: nat)
    requires i <= |flags| && k < |flags|
    ensures Count(flags[k := g], f, i) + (if i <= k && flags[k] == f then 1 else 0)
         == Count(flags, f, i) + (if i <= k && g == f then 1 else 0)
    decreases |flags| - i
  {
    if i < |flags| {
      CountUpdate(flags, k, g, f, i + 1);
    }
  }

  /** What a change of one file's flag does to the four counts. */
  lemma {:induction false} CountsUpdate(flags: seq<Flag>, k: nat, g: Flag)
    requires k < |flags|
    ensures forall f :: Count(flags[k := g], f, 0) == Count(flags, f, 0) + (if g == f then 1 else 0) - (if flags[k] == f then 1 else 0)
  {
    forall f ensures Count(flags[k := g], f, 0) == Count(flags, f, 0) + (if g == f then 1 else 0) - (if flags[k] == f then 1 else 0) {
      CountUpdate(flags, k, g, f, 0);
    }
  }

  lemma {:induction false} CountsAdd(flags: seq<Flag>, i: nat)
    requires i <= |flags|
    ensures Count(flags, Untouched, i) + Count(flags, Connecting, i) + Count(flags, Reading, i) + Count(flags, Done, i) == |flags| - i
    decreases |flags| - i
  {
    if i < |flags| {
      CountsAdd(flags, i + 1);
    }
  }

  lemma {:induction false} NoneLeft(flags: seq<Flag>, f: Flag, i: nat)
    requires i <= |flags|
    ensures Count(flags, f, i) == 0 <==> forall j | i <= j < |flags| :: flags[j] != f
    decreases |flags| - i
  {
    if i < |flags| {
      NoneLeft(flags, f, i + 1);
    }
  }

  lemma {:induction false} AllUntouched(n: nat, i: nat)
    requires i <= n
    ensures var fs := seq(n, _ => Untouched);
            Count(fs, Untouched, i) == n - i && Count(fs, Connecting, i) == Count(fs, Reading, i) == Count(fs, Done, i) == 0
    decreases n - i
  {
    if i < n {
      AllUntouched(n, i + 1);
    }
  }

  /** Changing one file leaves the descriptors of the others. */
  lemma {:induction false} FdsUpdate(v: Vars, w: Vars, k: nat, open: set<Flag>)
    requires Sized(v) && Sized(w) && |v.flags| == |w.flags| && k < |v.flags|
    requires w.flags == v.flags[k := w.flags[k]] && w.fds == v.fds[k := w.fds[k]]
    requires v.flags[k] in open ==> forall i | 0 <= i < |v.flags| && i != k && v.flags[i] in open :: v.fds[i] != v.fds[k]
    ensures Fds(w.flags, w.fds, open) == (if v.flags[k] in open then Fds(v.flags, v.fds, open) - {v.fds[k]} else Fds(v.flags, v.fds, open))
                          + (if w.flags[k] in open then {w.fds[k]} else {})
  {
    var gone, come := if v.flags[k] in open then {v.fds[k]} else {}, if w.flags[k] in open then {w.fds[k]} else {};
    forall d ensures d in Fds(w.flags, w.fds, open) <==> d in Fds(v.flags, v.fds, open) - gone + come {
      if d in Fds(w.flags, w.fds, open) {
        var i :| 0 <= i < |w.flags| && w.flags[i] in open && w.fds[i] == d;
        if i != k {
          assert v.flags[i] == w.flags[i] && v.fds[i] == w.fds[i];
        }
      }
      if d in Fds(v.flags, v.fds, open) && d !in gone {
        var i :| 0 <= i < |v.flags| && v.flags[i] in open && v.fds[i] == d;
        assert i != k && w.flags[i] == v.flags[i] && w.fds[i] == v.fds[i];
      }
    }
  }

  /** Open descriptors are in the read set. */
  lemma {:induction false} OpenIsRead(v: Vars, i: nat)
    requires Sized(v) && SetsInv(v) && i < |v.flags| && Active(v.flags[i])
    ensures v.fds[i] in v.rset
  {}

  ghost predicate Forward(v: Vars, w: Vars) {
    |v.flags| == |w.flags| && forall i | 0 <= i < |v.flags| :: Rank(v.flags[i]) <= Rank(w.flags[i])
  }

  /** socket returns a descriptor that no open file has. */
  lemma {:induction false} StartKeepsSets(v: Vars, k: nat, a: Attempt)
    requires Sized(v) && SetsInv(v) && k < |v.flags| && v.flags[k] == Untouched && a.fd !in v.rset
    ensures SetsInv(Started(v, k, a))
  {
    hide Fds;
    var w := Started(v, k, a);
    FdsUpdate(v, w, k, {Connecting, Reading});
    FdsUpdate(v, w, k, {Connecting});
    forall i | 0 <= i < |v.flags| && i != k && Active(v.flags[i]) ensures v.fds[i] != a.fd {
      OpenIsRead(v, i);
    }
  }

  /** A connection in progress is waited for in both sets, one already made is read from; no other file changes. */
  lemma {:induction false} StartedAs(v: Vars, k: nat, a: Attempt)
    requires Sized(v) && SetsInv(v) && k < |v.flags| && v.flags[k] == Untouched && a.fd !in v.rset
    ensures var w := Started(v, k, a);
            && w.flags == v.flags[k := if a.inProgress then Connecting else Reading] && w.fds == v.fds[k := a.fd]
            && w.rset == v.rset + {a.fd}
            && (a.inProgress ==> w.wset == v.wset + {a.fd}) && (!a.inProgress ==> w.wset == v.wset && a.fd !in w.wset)
            && w.maxfd == (if a.fd > v.maxfd then a.fd else v.maxfd)
  {}

  lemma {:induction false} StartInv(v: Vars, k: nat, a: Attempt)
    requires Inv(v) && k < |v.flags| && v.flags[k] == Untouched && a.fd !in v.rset
    ensures var u := Started(v, k, a);
            Inv(u.(nconn := u.nconn + 1, nlefttoconn := u.nlefttoconn - 1)) && Forward(v, u)
  {
    hide Fds, Count;
    StartKeepsSets(v, k, a);
    CountsUpdate(v.flags, k, Connecting);
    CountsUpdate(v.flags, k, Reading);
  }

  /** The kernel's new descriptors: not in use, and each of them once. */
  ghost predicate Fresh(v: Vars, attempts: seq<Attempt>, n: nat) {
    && (forall i | n <= i < |attempts| :: attempts[i].fd !in v.rset)
    && forall i, j | n <= i < j < |attempts| :: attempts[i].fd != attempts[j].fd
  }

  lemma {:induction false} FreshNext(v: Vars, k: nat, attempts: seq<Attempt>, n: nat)
    requires Sized(v) && k < |v.flags| && n < |attempts| && Fresh(v, attempts, n)
    ensures attempts[n].fd !in v.rset
    ensures var u := Started(v, k, attempts[n]);
            && Fresh(u.(nconn := u.nconn + 1, nlefttoconn := u.nlefttoconn - 1), attempts, n + 1)
            && u.nconn == v.nconn && u.nlefttoconn == v.nlefttoconn && u.nlefttoread == v.nlefttoread
  {}

  /** Connections are started until there are enough of them or no files without one; a file is always found. */
  lemma {:induction false} FilledInv(v: Vars, maxnconn: int, attempts: seq<Attempt>, n: nat)
    requires Inv(v) && n <= |attempts| && Fresh(v, attempts, n) && v.nlefttoconn <= |attempts| - n
    ensures var w := Filled(v, maxnconn, attempts, n);
            && Inv(w) && Forward(v, w) && w.nlefttoread == v.nlefttoread
            && (w.nconn >= maxnconn || w.nlefttoconn == 0)
            && (v.nconn <= maxnconn ==> w.nconn <= maxnconn)
            && (v.nconn >= maxnconn ==> w == v)
    decreases |attempts| - n
  {
    hide Fds, Count, SetsInv, Started, Fresh;
    if v.nconn < maxnconn && v.nlefttoconn > 0 {
      var k := FirstUntouched(v.flags, 0);
      NoneLeft(v.flags, Untouched, 0);
      FreshNext(v, k, attempts, n);
      StartInv(v, k, attempts[n]);
      var u := Started(v, k, attempts[n]);
      FilledInv(u.(nconn := u.nconn + 1, nlefttoconn := u.nlefttoconn - 1), maxnconn, attempts, n + 1);
    }
  }

  lemma {:induction false} LookKeepsSets(v: Vars, i: nat, r: Ready)
    requires Sized(v) && SetsInv(v) && i < |v.flags| == |r.eofs|
    ensures SetsInv(Looked(v, i, r))
  {
    hide Fds;
    var w := Looked(v, i, r);
    FdsUpdate(v, w, i, {Connecting, Reading});
    FdsUpdate(v, w, i, {Connecting});
    if Active(v.flags[i]) {
      OpenIsRead(v, i);
    }
  }

  lemma {:induction false} LookInv(v: Vars, i: nat, r: Ready)
    requires Inv(v) && i < |v.flags| == |r.eofs|
    ensures Inv(Looked(v, i, r))
  {
    hide Fds, Count;
    LookKeepsSets(v, i, r);
    CountsUpdate(v.flags, i, Looked(v, i, r).flags[i]);
  }

  /** What a file's turn makes of its flag. */
  function FlagAfter(f: Flag, fd: nat, r: Ready, eof: bool): Flag {
    if f == Connecting && (fd in r.rs || fd in r.ws) then Reading
    else if f == Reading && fd in r.rs && eof then Done
    else f
  }

  /** Every file that select reported has its turn, and no other changes. */
  lemma {:induction false} LookedFromInv(v: Vars, i: nat, r: Ready)
    requires Inv(v) && i <= |v.flags| == |r.eofs|
    ensures var w := LookedFrom(v, i, r);
            && Inv(w) && w.fds == v.fds
            && forall j | 0 <= j < |v.flags| ::
                 w.flags[j] == if j < i then v.flags[j] else FlagAfter(v.flags[j], v.fds[j], r, r.eofs[j])
    decreases |v.flags| - i
  {
    hide Inv;
    if i < |v.flags| {
      LookInv(v, i, r);
      LookedFromInv(Looked(v, i, r), i + 1, r);
    }
  }

  // ---------------------------------------------------------------- runs

  /** One turn of the outer loop: the connections it starts, and what select and the reads report. */
  datatype Turn = Turn(attempts: seq<Attempt>, ready: Ready)

  /** The kernel keeps its contracts: descriptors are new, and select returns some of those it was asked about. */
  ghost predicate Possible(v: Vars, maxnconn: int, t: Turn) {
    && Sized(v) && v.nlefttoread > 0 && !v.lost
    && Fresh(v, t.attempts, 0) && v.nlefttoconn <= |t.attempts|
    && |t.ready.eofs| == |v.flags|
    && var w := Filled(v, maxnconn, t.attempts, 0);
       t.ready.rs <= w.rset && t.ready.ws <= w.wset && t.ready.rs + t.ready.ws != {} && |w.flags| == |v.flags|
  }

  function After(v: Vars, maxnconn: int, t: Turn): Vars
    requires Sized(v) && |Filled(v, maxnconn, t.attempts, 0).flags| == |t.ready.eofs|
  {
    LookedFrom(Filled(v, maxnconn, t.attempts, 0), 0, t.ready)
  }

  /** The states at the heads of the outer loop. */
  ghost predicate IsRun(nfiles: nat, maxnconn: int, states: seq<Vars>, turns: seq<Turn>) {
    && |states| == |turns| + 1 && states[0] == Initial(nfiles)
    && forall i | 0 <= i < |turns| ::
         Possible(states[i], maxnconn, turns[i]) && states[i + 1] == After(states[i], maxnconn, turns[i])
  }

  lemma {:induction false} TurnInv(v: Vars, maxnconn: int, t: Turn)
    requires Inv(v) && v.nconn <= Max(0, maxnconn) && Possible(v, maxnconn, t)
    ensures var w := After(v, maxnconn, t);
            Inv(w) && w.nconn <= Max(0, maxnconn) && Forward(v, w)
  {
    hide Fds, SetsInv;
    var u := Filled(v, maxnconn, t.attempts, 0);
    FilledInv(v, maxnconn, t.attempts, 0);
    LookedFromInv(u, 0, t.ready);
    LookedNconn(u, 0, t.ready);
  }

  lemma {:induction false} LookedNconn(v: Vars, i: nat, r: Ready)
    requires Sized(v) && i <= |v.flags| == |r.eofs|
    ensures LookedFrom(v, i, r).nconn <= v.nconn
    decreases |v.flags| - i
  {
    if i < |v.flags| {
      LookedNconn(Looked(v, i, r), i + 1, r);
    }
  }

  lemma {:induction false} RunInv(nfiles: nat, maxnconn: int, states: seq<Vars>, turns: seq<Turn>, i: nat)
    requires IsRun(nfiles, maxnconn, states, turns) && i < |states|
    ensures Inv(states[i]) && states[i].nconn <= Max(0, maxnconn)
  {
    if i == 0 {
      AllUntouched(nfiles, 0);
    } else {
      RunInv(nfiles, maxnconn, states, turns, i - 1);
      TurnInv(states[i - 1], maxnconn, turns[i - 1]);
      assert states[i - 1 + 1] == After(states[i - 1], maxnconn, turns[i - 1]);
    }
  }

  /** Always: the counters are those of the file table, and the sets hold exactly the descriptors being waited for. */
  lemma {:induction false} CountersExact(nfiles: nat, maxnconn: int, states: seq<Vars>, turns: seq<Turn>, i: nat)
    requires IsRun(nfiles, maxnconn, states, turns) && i < |states|
    ensures var v := states[i];
            && Sized(v) && !v.lost
            && v.nconn == Count(v.flags, Connecting, 0) + Count(v.flags, Reading, 0) <= Max(0, maxnconn)
            && v.nlefttoconn == Count(v.flags, Untouched, 0)
            && v.nlefttoread == |v.flags| - Count(v.flags, Done, 0)
            && (forall d :: d in v.rset <==> exists k :: 0 <= k < |v.flags| && Active(v.flags[k]) && v.fds[k] == d)
            && (forall d :: d in v.wset <==> exists k :: 0 <= k < |v.flags| && v.flags[k] == Connecting && v.fds[k] == d)
            && (forall d | d in v.rset :: d <= v.maxfd)
  {
    hide Count;
    RunInv(nfiles, maxnconn, states, turns, i);
  }

  /** The loop ends with every file read to its end. */
  lemma {:induction false} EndsWhenAllDone(nfiles: nat, maxnconn: int, states: seq<Vars>, turns: seq<Turn>, i: nat)
    requires IsRun(nfiles, maxnconn, states, turns) && i < |states|
    ensures states[i].nlefttoread <= 0 <==> forall k | 0 <= k < |states[i].flags| :: states[i].flags[k] == Done
  {
    RunInv(nfiles, maxnconn, states, turns, i);
    var flags := states[i].flags;
    CountsAdd(flags, 0);
    NoneLeft(flags, Untouched, 0);
    NoneLeft(flags, Connecting, 0);
    NoneLeft(flags, Reading, 0);
  }

  lemma {:induction false} SomethingOpen(v: Vars)
    requires Inv(v)
    ensures v.rset != {} <==> v.nconn > 0
  {
    hide Count;
    NoneLeft(v.flags, Connecting, 0);
    NoneLeft(v.flags, Reading, 0);
    if v.nconn > 0 {
      var k :| 0 <= k < |v.flags| && Active(v.flags[k]);
      OpenIsRead(v, k);
    }
  }

  /**
   * Whatever the kernel's new descriptors are, the search for a file succeeds each time it is made, and then select
   * has a descriptor to wait for exactly when at least one connection is allowed.
   */
  lemma {:induction false} SelectHasWork(nfiles: nat, maxnconn: int, states: seq<Vars>, turns: seq<Turn>, i: nat, attempts: seq<Attempt>)
    requires IsRun(nfiles, maxnconn, states, turns) && i < |states| && states[i].nlefttoread > 0
    requires Fresh(states[i], attempts, 0) && states[i].nlefttoconn <= |attempts|
    ensures Sized(states[i])
    ensures var w := Filled(states[i], maxnconn, attempts, 0);
            !w.lost && (w.rset != {} <==> maxnconn >= 1)
  {
    hide Fds, SetsInv, Count;
    RunInv(nfiles, maxnconn, states, turns, i);
    var v := states[i];
    var w := Filled(v, maxnconn, attempts, 0);
    FilledInv(v, maxnconn, attempts, 0);
    SomethingOpen(w);
    CountsAdd(w.flags, 0);
  }

  /** No file ever goes back to an earlier state. */
  lemma {:induction false} OnlyForward(nfiles: nat, maxnconn: int, states: seq<Vars>, turns: seq<Turn>, i: nat, j: nat)
    requires IsRun(nfiles, maxnconn, states, turns) && i <= j < |states|
    ensures Forward(states[i], states[j])
  {
    if i < j {
      OnlyForward(nfiles, maxnconn, states, turns, i, j - 1);
      RunInv(nfiles, maxnconn, states, turns, j - 1);
      TurnInv(states[j - 1], maxnconn, turns[j - 1]);
      assert states[j - 1 + 1] == After(states[j - 1], maxnconn, turns[j - 1]);
    }
  }

  /** Each descriptor that select reports is one file's, and that file has its turn: it is asked for, read or closed. */
  lemma {:induction false} ReportsServed(nfiles: nat, maxnconn: int, states: seq<Vars>, turns: seq<Turn>, i: nat, d: nat)
    returns (k: nat)
    requires IsRun(nfiles, maxnconn, states, turns) && i < |turns|
    requires d in turns[i].ready.rs + turns[i].ready.ws
    ensures var u, t := Filled(states[i], maxnconn, turns[i].attempts, 0), turns[i].ready;
            && k < |u.flags| == |u.fds| == |t.eofs| && u.fds[k] == d && Active(u.flags[k])
            && (forall j | 0 <= j < |u.flags| && Active(u.flags[j]) && u.fds[j] == d :: j == k)
            && |states[i + 1].flags| == |u.flags|
            && states[i + 1].flags[k] ==
                 if u.flags[k] == Connecting then Reading
                 else if d in t.rs && t.eofs[k] then Done
                 else Reading
  {
    RunInv(nfiles, maxnconn, states, turns, i);
    hide Fds, SetsInv, Count;
    var t := turns[i].ready;
    var u := Filled(states[i], maxnconn, turns[i].attempts, 0);
    FilledInv(states[i], maxnconn, turns[i].attempts, 0);
    LookedFromInv(u, 0, t);
    k := Holder(u, d);
  }

  lemma {:induction false} Holder(v: Vars, d: nat) returns (k: nat)
    requires Sized(v) && SetsInv(v) && d in v.rset + v.wset
    ensures k < |v.flags| && Active(v.flags[k]) && v.fds[k] == d
    ensures d !in v.rset ==> v.flags[k] == Connecting
    ensures forall j | 0 <= j < |v.flags| && Active(v.flags[j]) && v.fds[j] == d :: j == k
  {
    k :| 0 <= k < |v.flags| && Active(v.flags[k]) && v.fds[k] == d;
  }
}
