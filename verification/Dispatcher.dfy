/** server/serv05.c and child05.c: a parent hands each connection to a free child over a stream pipe. */
module Dispatcher {

  /** The parent's tables: child_status, child_count and navail. */
  datatype Table = Table(status: seq<nat>, count: seq<nat>, navail: int)

  ghost predicate Sized(t: Table) { |t.status| == |t.count| }

  /** The first child with status 0, or the number of children. */
  function FirstFree(status: seq<nat>, i: nat): (k: nat)
    requires i <= |status|
    ensures i <= k <= |status| && (k < |status| ==> status[k] == 0)
    ensures forall j | i <= j < k :: status[j] != 0
    decreases |status| - i
  {
    if i == |status| || status[i] == 0 then i else FirstFree(status, i + 1)
  }

  /** A connection goes to child `i`. */
  function Assigned(t: Table, i: nat): Table
    requires i < |t.status| == |t.count|
  {
    Table(t.status[i := 1], t.count[i := t.count[i] + 1], t.navail - 1)
  }

  /** Child `i` has said that it is ready again. */
  function Freed(t: Table, i: nat): Table
    requires i < |t.status|
  {
    t.(status := t.status[i := 0], navail := t.navail + 1)
  }

  /** The scan for children that became available, from child `i` on, while descriptors are left. */
  function Scanned(t: Table, readable: seq<bool>, i: nat, nsel: int): Table
    requires |readable| == |t.status| && i <= |readable|
    decreases |readable| - i
  {
    if i == |readable| then t
    else if !readable[i] then Scanned(t, readable, i + 1, nsel)
    else if nsel - 1 == 0 then Freed(t, i)
    else Scanned(Freed(t, i), readable, i + 1, nsel - 1)
  }

  /** The arrays and the counter that the parent's loop updates. */
  class Parent {
    const status: array<nat>
    const count: array<nat>
    var navail: int

    ghost function View(): Table
      reads this, status, count
    {
      Table(status[..], count[..], navail)
    }

    ghost predicate Valid()
      reads this
    {
      status.Length == count.Length && status != count
    }

    constructor (nchildren: nat)
      ensures Valid() && fresh(status) && fresh(count)
      ensures View() == Table(seq(nchildren, _ => 0), seq(nchildren, _ => 0), nchildren)
    {
      status := new nat[nchildren](_ => 0);
      count := new nat[nchildren](_ => 0);
      navail := nchildren;
      new;
      assert status[..] == seq(nchildren, _ => 0) == count[..];
    }

    /** The accept branch up to Write_fd; `i` equal to the number of children is the error exit. */
    method Assign() returns (i: nat)
      requires Valid()
      modifies this, status, count
      ensures i == FirstFree(old(View()).status, 0)
      ensures View() == if i < status.Length then Assigned(old(View()), i) else old(View())
    {
      i := 0;
      while i < status.Length && status[i] != 0
        invariant i <= status.Length
        invariant FirstFree(status[..], 0) == FirstFree(status[..], i)
      {
        i := i + 1;
      }
      if i == status.Length {
        return;
      }
      status[i] := 1;
      count[i] := count[i] + 1;
      navail := navail - 1;
    }

    /** The second loop over the children. */
    method Scan(readable: seq<bool>, nsel0: int)
      requires Valid() && |readable| == status.Length
      modifies this, status
      ensures View() == Scanned(old(View()), readable, 0, nsel0)
    {
      var nsel := nsel0;
      var i := 0;
      while i < status.Length
        invariant i <= status.Length
        invariant Scanned(View(), readable, i, nsel) == Scanned(old(View()), readable, 0, nsel0)
      {
        if readable[i] {
          ghost var t := View();
          status[i] := 0;
          navail := navail + 1;
          nsel := nsel - 1;
          assert View() == Freed(t, i);
          if nsel == 0 {
            break;
          }
        }
        i := i + 1;
      }
    }
  }
}
