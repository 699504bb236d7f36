/** The addrinfo list in the heap: ga_aistruct, ga_clone, ga_port and ga_serv. */
module GaList {
  import opened Text
  import opened AddrList

  class SockAddr {
    const address: seq<nat>
    var port: nat

    constructor (address: seq<nat>, port: nat)
      ensures this.address == address && this.port == port
    {
      this.address, this.port := address, port;
    }
  }

  class AddrInfo {
    const clone: bool
    const family: Family
    const protocol: int
    const canonname: Option<string>
    const addr: SockAddr
    var socktype: int
    var next: AddrInfo?

    constructor (clone: bool, family: Family, protocol: int, canonname: Option<string>, addr: SockAddr, socktype: int, next: AddrInfo?)
      ensures this.clone == clone && this.family == family && this.protocol == protocol && this.canonname == canonname
      ensures this.addr == addr && this.socktype == socktype && this.next == next
    {
      this.clone, this.family, this.protocol, this.canonname := clone, family, protocol, canonname;
      this.addr, this.socktype, this.next := addr, socktype, next;
    }

    function View(): Entry
      reads this, addr
    {
      Entry(clone, family, socktype, protocol, canonname, addr.address, addr.port)
    }
  }

  /** The objects of a list: its nodes and their socket addresses. */
  ghost function Footprint(nodes: seq<AddrInfo>): set<object> {
    (set n | n in nodes) + (set n | n in nodes :: n.addr as object)
  }

  /** No node and no socket address occurs twice. */
  ghost predicate Separate(nodes: seq<AddrInfo>) {
    forall i, j | 0 <= i < j < |nodes| :: nodes[i] != nodes[j] && nodes[i].addr != nodes[j].addr
  }

  /** Each node's successor is the next one's, the last has none. */
  ghost predicate Linked(nodes: seq<AddrInfo>)
    reads set n | n in nodes
  {
    forall i | 0 <= i < |nodes| :: nodes[i].next == if i + 1 < |nodes| then nodes[i + 1] else null
  }

  lemma {:induction false} LinkAt(nodes: seq<AddrInfo>, i: nat)
    requires Linked(nodes) && i < |nodes|
    ensures nodes[i].next == if i + 1 < |nodes| then nodes[i + 1] else null
  {}

  ghost function Links(nodes: seq<AddrInfo>): (ls: seq<AddrInfo?>)
    reads set n | n in nodes
    ensures |ls| == |nodes| && forall i | 0 <= i < |ls| :: ls[i] == nodes[i].next
  {
    seq(|nodes|, i requires 0 <= i < |nodes| reads set n | n in nodes => nodes[i].next)
  }

  ghost predicate IsList(head: AddrInfo?, nodes: seq<AddrInfo>)
    reads set n | n in nodes
  {
    head == (if nodes == [] then null else nodes[0]) && Separate(nodes) && Linked(nodes)
  }

  ghost function Entries(nodes: seq<AddrInfo>): (es: seq<Entry>)
    reads Footprint(nodes)
    ensures |es| == |nodes|
  {
    seq(|nodes|, i requires 0 <= i < |nodes| reads Footprint(nodes) => nodes[i].View())
  }

  /** ga_clone: a deep copy, linked in behind the original. */
  method GaClone(ai: AddrInfo) returns (copy: AddrInfo)
    modifies ai`next
    ensures fresh(copy) && fresh(copy.addr)
    ensures copy.View() == Cloned(ai.View())
    ensures !copy.clone && copy.family == ai.family && copy.socktype == ai.socktype && copy.protocol == ai.protocol
    ensures copy.canonname == None && copy.addr.address == ai.addr.address && copy.addr.port == ai.addr.port
    ensures ai.next == copy && copy.next == old(ai.next)
  {
    var addr := new SockAddr(ai.addr.address, ai.addr.port);
    copy := new AddrInfo(false, ai.family, ai.protocol, None, addr, ai.socktype, ai.next);
    ai.next := copy;
  }

  /** The statements of ga_port's loop body after the entry to serve is found. */
  method Serve(ai: AddrInfo, port: nat, socktype: int) returns (found: nat)
    modifies ai`socktype, ai.addr`port
    ensures ai.View() == Served(old(ai.View()), Pass(port, socktype))
    ensures found == if HasPort(ai.View()) then 1 else 0
  {
    ai.socktype := socktype;
    found := 0;
    match ai.family
    case Inet =>
      ai.addr.port := port;
      found := 1;
    case Inet6 =>
      ai.addr.port := port;
      found := 1;
    case Local =>
  }

  /** Serving one entry of a list leaves the others, and the links, as they are. */
  method ServeAt(ghost nodes: seq<AddrInfo>, ghost i: nat, ai: AddrInfo, port: nat, socktype: int) returns (found: nat)
    requires i < |nodes| && nodes[i] == ai && Separate(nodes) && Linked(nodes)
    modifies ai`socktype, ai.addr`port
    ensures Linked(nodes)
    ensures var e := old(ai.View());
            && Entries(nodes) == old(Entries(nodes))[i := Served(e, Pass(port, socktype))]
            && found == if HasPort(e) then 1 else 0
  {
    ghost var was := Entries(nodes);
    found := Serve(ai, port, socktype);
    forall k | 0 <= k < |nodes| && k != i ensures nodes[k].View() == was[k] {
      assert nodes[k] != ai && nodes[k].addr != ai.addr;
    }
  }

  /** The list with a copy behind entry `i`. */
  method CloneAt(ghost nodes: seq<AddrInfo>, ghost i: nat, ai: AddrInfo) returns (ghost nodes': seq<AddrInfo>, copy: AddrInfo)
    requires i < |nodes| && nodes[i] == ai && Separate(nodes) && Linked(nodes)
    modifies ai`next
    ensures fresh(copy) && fresh(copy.addr)
    ensures nodes' == Inserted(nodes, i, copy)
    ensures Separate(nodes') && Linked(nodes')
    ensures var es := old(Entries(nodes));
            Entries(nodes') == es[..i + 1] + [Cloned(es[i])] + es[i + 1..]
  {
    ghost var links, was := Links(nodes), Entries(nodes);
    assert forall k | 0 <= k < |links| :: links[k] == if k + 1 < |nodes| then nodes[k + 1] else null;
    copy := GaClone(ai);
    nodes' := Inserted(nodes, i, copy);
    LinkedInsert(nodes, i, copy, links);
    SeparateInsert(nodes, i, copy);
    EntriesInsert(nodes, i, copy, was);
  }

  ghost function Inserted(nodes: seq<AddrInfo>, i: nat, copy: AddrInfo): seq<AddrInfo>
    requires i < |nodes|
  {
    nodes[..i + 1] + [copy] + nodes[i + 1..]
  }

  lemma {:induction false} LinkedInsert(nodes: seq<AddrInfo>, i: nat, copy: AddrInfo, links: seq<AddrInfo?>)
    requires i < |nodes| == |links|
    requires forall k | 0 <= k < |links| :: links[k] == if k + 1 < |nodes| then nodes[k + 1] else null
    requires forall k | 0 <= k < |nodes| && k != i :: nodes[k].next == links[k]
    requires nodes[i].next == copy && copy.next == links[i]
    ensures Linked(Inserted(nodes, i, copy))
  {}

  lemma {:induction false} EntriesInsert(nodes: seq<AddrInfo>, i: nat, copy: AddrInfo, was: seq<Entry>)
    requires i < |nodes| == |was|
    requires forall k | 0 <= k < |nodes| :: nodes[k].View() == was[k]
    ensures Entries(Inserted(nodes, i, copy)) == was[..i + 1] + [copy.View()] + was[i + 1..]
  {}

  lemma {:induction false} SeparateInsert(nodes: seq<AddrInfo>, i: nat, copy: AddrInfo)
    requires i < |nodes| && Separate(nodes)
    requires forall k | 0 <= k < |nodes| :: nodes[k] != copy && nodes[k].addr != copy.addr
    ensures Separate(Inserted(nodes, i, copy))
  {}

  lemma {:induction false} UpdateInserted(es: seq<Entry>, i: nat, x: Entry, y: Entry)
    requires i < |es|
    ensures (es[..i + 1] + [x] + es[i + 1..])[i + 1 := y] == es[..i] + [es[i], y] + es[i + 1..]
  {}

  /** What a turn of the loop leaves: the entries `now` in place of entry `i`, and the node to go on with. */
  twostate predicate Turned(nodes: seq<AddrInfo>, i: nat, new nodes': seq<AddrInfo>, now: seq<Entry>, new next: AddrInfo?)
    requires i < |nodes|
    reads Footprint(nodes), Footprint(nodes')
  {
    && Separate(nodes') && Linked(nodes')
    && |nodes'| == |nodes| - 1 + |now| && nodes' != [] && nodes'[0] == nodes[0]
    && next == (if i + |now| < |nodes'| then nodes'[i + |now|] else null)
    && Entries(nodes') == old(Entries(nodes))[..i] + now + old(Entries(nodes))[i + 1..]
  }

  /** The turn that clones. */
  method CloneAndServe(ghost nodes: seq<AddrInfo>, ghost i: nat, ai: AddrInfo, port: nat, socktype: int)
      returns (ghost nodes': seq<AddrInfo>, next: AddrInfo?, found: nat)
    requires i < |nodes| && nodes[i] == ai && Separate(nodes) && Linked(nodes)
    modifies Footprint(nodes)
    ensures var e := old(ai.View());
            Turned(nodes, i, nodes', [e, Served(Cloned(e), Pass(port, socktype))], next)
    ensures fresh(Footprint(nodes') - Footprint(nodes))
    ensures found == if HasPort(old(ai.View())) then 1 else 0
  {
    ghost var es := Entries(nodes);
    var copy;
    nodes', copy := CloneAt(nodes, i, ai);
    assert copy.View() == Entries(nodes')[i + 1] == Cloned(es[i]);
    found := ServeAt(nodes', i + 1, copy, port, socktype);
    UpdateInserted(es, i, Cloned(es[i]), Served(Cloned(es[i]), Pass(port, socktype)));
    assert nodes'[0] == nodes[0] && nodes'[i + 1] == copy;
    next := copy.next;
    LinkAt(nodes', i + 1);
  }

  /** One turn of ga_port's loop: entry `i`, and the copy put behind it if there is one. */
  method Visit(ghost nodes: seq<AddrInfo>, ghost i: nat, ai: AddrInfo, port: nat, socktype: int)
      returns (ghost nodes': seq<AddrInfo>, next: AddrInfo?, found: nat)
    requires i < |nodes| && nodes[i] == ai && Separate(nodes) && Linked(nodes)
    modifies Footprint(nodes)
    ensures Turned(nodes, i, nodes', Expand(old(ai.View()), Pass(port, socktype)), next)
    ensures fresh(Footprint(nodes') - Footprint(nodes))
    ensures found == Found(old(ai.View()), Pass(port, socktype))
  {
    hide Linked, Separate;
    ghost var es := Entries(nodes);
    assert es[i] == ai.View();
    if ai.clone {
      if ai.socktype != 0 {
        nodes', next, found := CloneAndServe(nodes, i, ai, port, socktype);
        return;
      }
    } else if ai.socktype != socktype {
      assert es == es[..i] + [es[i]] + es[i + 1..];
      nodes', next, found := nodes, ai.next, 0;
      LinkAt(nodes, i);
      return;
    }
    found := ServeAt(nodes, i, ai, port, socktype);
    assert Entries(nodes) == es[..i] + [Served(es[i], Pass(port, socktype))] + es[i + 1..];
    nodes', next := nodes, ai.next;
    LinkAt(nodes, i);
  }

  /** Entry `done` of the values becomes its expansion. */
  lemma {:induction false} ExpandNext(es: seq<Entry>, done: nat, p: Pass)
    requires done < |es|
    ensures ExpandAll(es[..done + 1], p) == ExpandAll(es[..done], p) + Expand(es[done], p) && Expand(es[done], p) != []
    ensures FoundIn(es[..done + 1], p) == FoundIn(es[..done], p) + Found(es[done], p)
    ensures var x := ExpandAll(es[..done], p);
            var all := x + es[done..];
            && all[|x|] == es[done]
            && all[..|x|] + Expand(es[done], p) + all[|x| + 1..] == ExpandAll(es[..done + 1], p) + es[done + 1..]
  {
    assert es[..done + 1][..done] == es[..done];
    var x := ExpandAll(es[..done], p);
    var all := x + es[done..];
    assert all[..|x|] == x && all[|x| + 1..] == es[done + 1..];
  }

  /** The walk has served the first `done` of the original entries `es` and goes on with `ai`. */
  ghost predicate Walked(head: AddrInfo?, nodes: seq<AddrInfo>, es: seq<Entry>, done: nat, p: Pass, ai: AddrInfo?)
    requires done <= |es|
    reads Footprint(nodes)
  {
    var i := |ExpandAll(es[..done], p)|;
    && IsList(head, nodes)
    && Entries(nodes) == ExpandAll(es[..done], p) + es[done..]
    && ai == if i < |nodes| then nodes[i] else null
  }

  /** The turn of the loop that serves entry `done`. */
  method WalkOn(ghost head: AddrInfo?, ghost nodes: seq<AddrInfo>, ghost es: seq<Entry>, ghost done: nat, ai: AddrInfo, port: nat, socktype: int)
      returns (ghost nodes': seq<AddrInfo>, next: AddrInfo?, found: nat)
    requires done < |es| && Walked(head, nodes, es, done, Pass(port, socktype), ai)
    modifies Footprint(nodes)
    ensures Walked(head, nodes', es, done + 1, Pass(port, socktype), next)
    ensures fresh(Footprint(nodes') - Footprint(nodes))
    ensures found == Found(es[done], Pass(port, socktype))
  {
    hide ExpandAll, Footprint, Separate, Linked, Expand, Found;
    ghost var p := Pass(port, socktype);
    ghost var i := |ExpandAll(es[..done], p)|;
    ExpandNext(es, done, p);
    assert ai.View() == Entries(nodes)[i] == es[done];
    nodes', next, found := Visit(nodes, i, ai, port, socktype);
  }

  lemma {:induction false} WalkStarts(head: AddrInfo?, nodes: seq<AddrInfo>, p: Pass)
    requires IsList(head, nodes)
    ensures Walked(head, nodes, Entries(nodes), 0, p, head) && FoundIn(Entries(nodes)[..0], p) == 0
  {}

  lemma {:induction false} WalkGoesOn(head: AddrInfo?, nodes: seq<AddrInfo>, es: seq<Entry>, done: nat, p: Pass, ai: AddrInfo?)
    requires done <= |es| && Walked(head, nodes, es, done, p, ai)
    ensures IsList(head, nodes) && (ai != null <==> done < |es|)
    ensures ai == null ==> Entries(nodes) == ExpandAll(es, p)
  {
    if done == |es| {
      assert es[..done] == es && es[done..] == [];
    }
  }

  /** ga_port: walks the list, which grows on the way, and returns how many entries got the port. */
  method GaPort(head: AddrInfo?, port: nat, socktype: int, ghost nodes: seq<AddrInfo>)
      returns (nfound: nat, ghost nodes': seq<AddrInfo>)
    requires IsList(head, nodes)
    modifies Footprint(nodes)
    ensures IsList(head, nodes') && fresh(Footprint(nodes') - Footprint(nodes))
    ensures Entries(nodes') == ExpandAll(old(Entries(nodes)), Pass(port, socktype))
    ensures nfound == FoundIn(old(Entries(nodes)), Pass(port, socktype))
  {
    hide *;
    ghost var p, es, done := Pass(port, socktype), Entries(nodes), 0;
    WalkStarts(head, nodes, p);
    nodes', nfound := nodes, 0;
    ghost var added: set<object> := {};
    var ai := head;
    while ai != null
      invariant done <= |es| && Walked(head, nodes', es, done, p, ai)
      invariant fresh(added) && Footprint(nodes') <= Footprint(nodes) + added
      invariant nfound == FoundIn(es[..done], p)
      decreases |es| - done
    {
      WalkGoesOn(head, nodes', es, done, p, ai);
      ExpandNext(es, done, p);
      ghost var before := nodes';
      var found;
      label L:
      nodes', ai, found := WalkOn(head, nodes', es, done, ai, port, socktype);
      ghost var more := Footprint(nodes') - Footprint(before);
      assert fresh@L(more);
      added := added + more;
      nfound := nfound + found;
      done := done + 1;
    }
    WalkGoesOn(head, nodes', es, done, p, ai);
    assert es[..done] == es;
  }

  /** ga_port after other passes, which added the objects `added` to those of the list `nodes`. */
  method NextPass(head: AddrInfo?, port: nat, socktype: int, ghost nodes: seq<AddrInfo>, ghost now: seq<AddrInfo>, ghost added: set<object>)
      returns (nfound: nat, ghost now': seq<AddrInfo>, ghost added': set<object>)
    requires IsList(head, now) && Footprint(now) <= Footprint(nodes) + added
    modifies Footprint(nodes), added
    ensures IsList(head, now') && Footprint(now') <= Footprint(nodes) + added'
    ensures added <= added' && fresh(added' - added)
    ensures Entries(now') == ExpandAll(old(Entries(now)), Pass(port, socktype))
    ensures nfound == FoundIn(old(Entries(now)), Pass(port, socktype))
  {
    hide *;
    nfound, now' := GaPort(head, port, socktype, now);
    ghost var more := Footprint(now') - Footprint(now);
    assert fresh(more);
    added' := added + more;
  }

  /** ga_serv: the passes that the service string asks for, and the code that their results make. */
  method GaServ(head: AddrInfo?, hint: int, serv: string, tcp: Option<nat>, udp: Option<nat>, ghost nodes: seq<AddrInfo>)
      returns (code: Code, ghost nodes': seq<AddrInfo>)
    requires IsList(head, nodes)
    modifies Footprint(nodes)
    ensures IsList(head, nodes') && fresh(Footprint(nodes') - Footprint(nodes))
    ensures var ps := Passes(hint, serv, tcp, udp);
            && Entries(nodes') == ApplyAll(old(Entries(nodes)), ps)
            && code == CodeOf(hint, FoundByAll(old(Entries(nodes)), ps))
  {
    hide IsList, Entries, ExpandAll, FoundIn, Footprint, ApplyAll, FoundByAll, Atoi;
    ghost var es := Entries(nodes);
    var nfound, rc := 0, 0;
    nodes' := nodes;
    ghost var added: set<object> := {};
    if serv != "" && IsDigit(serv[0]) {
      var port := Atoi(serv, 0, 0) % 0x1_0000;
      if hint != 0 {
        rc, nodes', added := NextPass(head, port, hint, nodes, nodes', added);
        nfound := nfound + rc;
        OneApplied(es, Pass(port, hint));
      } else {
        rc, nodes', added := NextPass(head, port, SOCK_STREAM, nodes, nodes', added);
        nfound := nfound + rc;
        rc, nodes', added := NextPass(head, port, SOCK_DGRAM, nodes, nodes', added);
        nfound := nfound + rc;
        TwoApplied(es, Pass(port, SOCK_STREAM), Pass(port, SOCK_DGRAM));
      }
    } else {
      if hint == 0 || hint == SOCK_STREAM {
        if tcp.Some? {
          rc, nodes', added := NextPass(head, tcp.value, SOCK_STREAM, nodes, nodes', added);
          nfound := nfound + rc;
        }
      }
      if hint == 0 || hint == SOCK_DGRAM {
        if udp.Some? {
          rc, nodes', added := NextPass(head, udp.value, SOCK_DGRAM, nodes, nodes', added);
          nfound := nfound + rc;
        }
      }
      NamedPasses(es, hint, serv, tcp, udp);
    }
    if nfound == 0 {
      code := if hint == 0 then EaiNoname else EaiService;
    } else {
      code := Ok;
    }
  }

  /** What the passes for a named service come to. */
  lemma {:induction false} NamedPasses(es: seq<Entry>, hint: int, serv: string, tcp: Option<nat>, udp: Option<nat>)
    requires !(serv != "" && IsDigit(serv[0]))
    ensures var ps := Passes(hint, serv, tcp, udp);
            var byTcp, byUdp := (hint == 0 || hint == SOCK_STREAM) && tcp.Some?, (hint == 0 || hint == SOCK_DGRAM) && udp.Some?;
            var mid := if byTcp then ExpandAll(es, Pass(tcp.value, SOCK_STREAM)) else es;
            && ApplyAll(es, ps) == (if byUdp then ExpandAll(mid, Pass(udp.value, SOCK_DGRAM)) else mid)
            && FoundByAll(es, ps) ==
                 (if byTcp then FoundIn(es, Pass(tcp.value, SOCK_STREAM)) else 0)
                 + (if byUdp then FoundIn(mid, Pass(udp.value, SOCK_DGRAM)) else 0)
  {
    NoneApplied(es);
    if tcp.Some? {
      OneApplied(es, Pass(tcp.value, SOCK_STREAM));
      if udp.Some? {
        TwoApplied(es, Pass(tcp.value, SOCK_STREAM), Pass(udp.value, SOCK_DGRAM));
      }
    }
    if udp.Some? {
      OneApplied(es, Pass(udp.value, SOCK_DGRAM));
    }
    var ps := Passes(hint, serv, tcp, udp);
    assert ps == [] || (|ps| == 1 && ps == [ps[0]]) || ps == [ps[0], ps[1]];
  }

  lemma {:induction false} NoneApplied(es: seq<Entry>)
    ensures ApplyAll(es, []) == es && FoundByAll(es, []) == 0
  {}

  lemma {:induction false} OneApplied(es: seq<Entry>, p: Pass)
    ensures ApplyAll(es, [p]) == ExpandAll(es, p) && FoundByAll(es, [p]) == FoundIn(es, p)
  {}

  lemma {:induction false} TwoApplied(es: seq<Entry>, p: Pass, q: Pass)
    ensures ApplyAll(es, [p, q]) == ExpandAll(ExpandAll(es, p), q)
    ensures FoundByAll(es, [p, q]) == FoundIn(es, p) + FoundIn(ExpandAll(es, p), q)
  {
    assert [p, q][..1] == [p];
    OneApplied(es, p);
  }

  // ---------------------------------------------------------------- building the list

  /** The list under construction: `last` stands for the pointer to the link that the next entry goes into. */
  class Builder {
    var head: AddrInfo?
    var last: AddrInfo?

    ghost predicate Builds(nodes: seq<AddrInfo>)
      reads this, set n | n in nodes
    {
      IsList(head, nodes) && last == if nodes == [] then null else nodes[|nodes| - 1]
    }

    constructor ()
      ensures Builds([])
    {
      head, last := null, null;
    }

    /** ga_aistruct, for an address, or a path that fits. */
    method GaAistruct(hint: int, protocol: int, family: Family, address: seq<nat>, ghost nodes: seq<AddrInfo>)
        returns (ghost nodes': seq<AddrInfo>)
      requires Builds(nodes)
      modifies this, last
      ensures Builds(nodes') && fresh(Footprint(nodes') - Footprint(nodes))
      ensures Entries(nodes') == old(Entries(nodes)) + [Entry(hint == 0, family, hint, protocol, None, address, 0)]
    {
      ghost var es := Entries(nodes);
      assert forall k | 0 <= k < |nodes| - 1 :: nodes[k].next == nodes[k + 1] && nodes[k] != last;
      var addr := new SockAddr(address, 0);
      var ai := new AddrInfo(hint == 0, family, protocol, None, addr, hint, null);
      if last == null {
        head := ai;
      } else {
        last.next := ai;
      }
      last := ai;
      nodes' := nodes + [ai];
      LinkedAppend(nodes, ai);
      assert forall k | 0 <= k < |nodes| :: nodes[k].View() == es[k];
      assert Entries(nodes') == es + [ai.View()];
    }
  }

  lemma {:induction false} LinkedAppend(nodes: seq<AddrInfo>, ai: AddrInfo)
    requires forall k | 0 <= k < |nodes| - 1 :: nodes[k].next == nodes[k + 1]
    requires nodes != [] ==> nodes[|nodes| - 1].next == ai
    requires ai.next == null
    ensures Linked(nodes + [ai])
  {}

  /** Entries built without a socket type are open for every service; with one they all have it. */
  lemma {:induction false} BuiltEntries(es: seq<Entry>, hint: int, protocol: int, family: Family, address: seq<nat>)
    requires if hint == 0 then AllOpen(es) else AllTyped(es, hint)
    ensures var now := es + [Entry(hint == 0, family, hint, protocol, None, address, 0)];
            if hint == 0 then AllOpen(now) else AllTyped(now, hint)
  {}
}
