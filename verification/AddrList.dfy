/** What getaddrinfo's list operations do, on the values of the list's entries. */
module AddrList {
  import opened Text

  datatype Family = Inet | Inet6 | Local

  const SOCK_STREAM := 1
  const SOCK_DGRAM := 2

  /** One addrinfo, with the part of its socket address that matters: the address and the port. */
  datatype Entry = Entry(
    clone: bool, family: Family, socktype: int, protocol: int, canonname: Option<string>,
    address: seq<nat>, port: nat)

  /** A pass of ga_port: a port for one socket type. */
  datatype Pass = Pass(port: nat, socktype: int)

  predicate HasPort(e: Entry) { e.family == Inet || e.family == Inet6 }

  /** The socket type is set on every entry reached, the port where the family has one. */
  function Served(e: Entry, p: Pass): Entry {
    if HasPort(e) then e.(socktype := p.socktype, port := p.port) else e.(socktype := p.socktype)
  }

  /** ga_clone: everything is copied but the flag and the canonical name. */
  function Cloned(e: Entry): Entry { e.(clone := false, canonname := None) }

  /** What one pass makes of one entry. */
  function Expand(e: Entry, p: Pass): seq<Entry> {
    if e.clone && e.socktype != 0 then [e, Served(Cloned(e), p)]
    else if e.clone || e.socktype == p.socktype then [Served(e, p)]
    else [e]
  }

  /** Whether a pass counts one entry. */
  function Found(e: Entry, p: Pass): nat {
    if (e.clone || e.socktype == p.socktype) && HasPort(e) then 1 else 0
  }

  function ExpandAll(es: seq<Entry>, p: Pass): seq<Entry> {
    if es == [] then [] else ExpandAll(es[..|es| - 1], p) + Expand(es[|es| - 1], p)
  }

  function FoundIn(es: seq<Entry>, p: Pass): nat {
    if es == [] then 0 else FoundIn(es[..|es| - 1], p) + Found(es[|es| - 1], p)
  }

  function ApplyAll(es: seq<Entry>, ps: seq<Pass>): seq<Entry> {
    if ps == [] then es else ExpandAll(ApplyAll(es, ps[..|ps| - 1]), ps[|ps| - 1])
  }

  function FoundByAll(es: seq<Entry>, ps: seq<Pass>): nat {
    if ps == [] then 0
    else FoundByAll(es, ps[..|ps| - 1]) + FoundIn(ApplyAll(es, ps[..|ps| - 1]), ps[|ps| - 1])
  }

  // ---------------------------------------------------------------- which passes a service string asks for

  /** atoi of a text that starts with a digit. */
  function Atoi(s: string, i: nat, acc: nat): nat
    requires i <= |s|
    decreases |s| - i
  {
    if i < |s| && IsDigit(s[i]) then Atoi(s, i + 1, acc * 10 + DigitValue(s[i])) else acc
  }

  /** The passes of ga_serv, `tcp` and `udp` being what getservbyname finds. */
  function Passes(hint: int, serv: string, tcp: Option<nat>, udp: Option<nat>): seq<Pass> {
    if serv != "" && IsDigit(serv[0]) then
      var port := Atoi(serv, 0, 0) % 0x1_0000;
      if hint != 0 then [Pass(port, hint)] else [Pass(port, SOCK_STREAM), Pass(port, SOCK_DGRAM)]
    else
      (if (hint == 0 || hint == SOCK_STREAM) && tcp.Some? then [Pass(tcp.value, SOCK_STREAM)] else [])
      + (if (hint == 0 || hint == SOCK_DGRAM) && udp.Some? then [Pass(udp.value, SOCK_DGRAM)] else [])
  }

  datatype Code = Ok | EaiNoname | EaiService

  function CodeOf(hint: int, nfound: nat): Code {
    if nfound > 0 then Ok else if hint == 0 then EaiNoname else EaiService
  }

  // ---------------------------------------------------------------- the list that results

  /** As ga_aistruct leaves an entry when the caller names no socket type. */
  predicate IsOpen(e: Entry) { e.clone && e.socktype == 0 }

  /** The entries that copies of `e`'s first service make for later passes, the latest first. */
  function Copies(e: Entry, ps: seq<Pass>): seq<Entry> {
    if |ps| <= 1 then [] else [Served(Cloned(Served(e, ps[0])), ps[|ps| - 1])] + Copies(e, ps[..|ps| - 1])
  }

  /** One address after the passes: its own entry, then a copy a further pass. */
  function Group(e: Entry, ps: seq<Pass>): seq<Entry> {
    if ps == [] then [e] else [Served(e, ps[0])] + Copies(e, ps)
  }

  function Groups(es: seq<Entry>, ps: seq<Pass>): seq<Entry> {
    if es == [] then [] else Groups(es[..|es| - 1], ps) + Group(es[|es| - 1], ps)
  }

  /** Socket types of their own, none zero. */
  ghost predicate Distinct(ps: seq<Pass>) {
    && (forall i | 0 <= i < |ps| :: ps[i].socktype != 0)
    && (forall i, j | 0 <= i < j < |ps| :: ps[i].socktype != ps[j].socktype)
  }

  lemma {:induction false} ExpandAllAppend(xs: seq<Entry>, ys: seq<Entry>, p: Pass)
    ensures ExpandAll(xs + ys, p) == ExpandAll(xs, p) + ExpandAll(ys, p)
    ensures FoundIn(xs + ys, p) == FoundIn(xs, p) + FoundIn(ys, p)
  {
    hide Expand, Found;
    if ys == [] {
      assert xs + ys == xs;
    } else {
      var n := |ys| - 1;
      assert (xs + ys)[..|xs + ys| - 1] == xs + ys[..n];
      ExpandAllAppend(xs, ys[..n], p);
    }
  }

  lemma {:induction false} ExpandAllOne(e: Entry, p: Pass)
    ensures ExpandAll([e], p) == Expand(e, p) && FoundIn([e], p) == Found(e, p)
  {}

  /** Copies are no originals, and have the types of the later passes. */
  lemma {:induction false} CopiesTypes(e: Entry, ps: seq<Pass>)
    ensures |Copies(e, ps)| == if |ps| <= 1 then 0 else |ps| - 1
    ensures forall k | 0 <= k < |Copies(e, ps)| ::
              !Copies(e, ps)[k].clone && exists j :: 0 < j < |ps| && Copies(e, ps)[k].socktype == ps[j].socktype
  {
    if |ps| > 1 {
      var n := |ps| - 1;
      CopiesTypes(e, ps[..n]);
      forall k | 0 <= k < |Copies(e, ps)|
        ensures !Copies(e, ps)[k].clone && exists j :: 0 < j < |ps| && Copies(e, ps)[k].socktype == ps[j].socktype
      {
        if k == 0 {
          assert Copies(e, ps)[0].socktype == ps[n].socktype;
        } else {
          var j :| 0 < j < n && Copies(e, ps[..n])[k - 1].socktype == ps[..n][j].socktype;
          assert Copies(e, ps)[k].socktype == ps[j].socktype;
        }
      }
    }
  }

  /** Entries of other socket types are left alone. */
  lemma {:induction false} OthersUntouched(es: seq<Entry>, p: Pass)
    requires forall k | 0 <= k < |es| :: !es[k].clone && es[k].socktype != p.socktype
    ensures ExpandAll(es, p) == es && FoundIn(es, p) == 0
  {
    if es != [] {
      OthersUntouched(es[..|es| - 1], p);
    }
  }

  lemma {:induction false} CopiesSnoc(e: Entry, ps: seq<Pass>, p: Pass)
    requires ps != []
    ensures Copies(e, ps + [p]) == [Served(Cloned(Served(e, ps[0])), p)] + Copies(e, ps)
  {}

  /** No copy is reached by a pass for a type of its own. */
  lemma {:induction false} CopiesUntouched(e: Entry, ps: seq<Pass>, p: Pass)
    requires Distinct(ps + [p])
    ensures ExpandAll(Copies(e, ps), p) == Copies(e, ps) && FoundIn(Copies(e, ps), p) == 0
  {
    var qs, rest := ps + [p], Copies(e, ps);
    CopiesTypes(e, ps);
    forall k | 0 <= k < |rest| ensures !rest[k].clone && rest[k].socktype != p.socktype {
      var j :| 0 < j < |ps| && rest[k].socktype == ps[j].socktype;
      assert qs[j] == ps[j] && qs[|ps|] == p;
    }
    OthersUntouched(rest, p);
  }

  /** A further pass adds one entry to the group, and changes none. */
  lemma {:induction false} GroupGrows(e: Entry, ps: seq<Pass>, p: Pass)
    requires IsOpen(e) && Distinct(ps + [p])
    ensures ExpandAll(Group(e, ps), p) == Group(e, ps + [p])
    ensures FoundIn(Group(e, ps), p) == if HasPort(e) then 1 else 0
  {
    hide Copies, ExpandAll, FoundIn;
    var qs := ps + [p];
    if ps == [] {
      ExpandAllOne(e, p);
      CopiesTypes(e, qs);
      assert Copies(e, qs) == [];
    } else {
      var first, rest := Served(e, ps[0]), Copies(e, ps);
      assert qs[0] == ps[0] && first.socktype != 0 && first.clone;
      ExpandAllOne(first, p);
      CopiesUntouched(e, ps, p);
      CopiesSnoc(e, ps, p);
      ExpandAllAppend([first], rest, p);
      assert [first, Served(Cloned(first), p)] + rest == [first] + ([Served(Cloned(first), p)] + rest);
    }
  }

  function Ports(es: seq<Entry>): nat {
    if es == [] then 0 else Ports(es[..|es| - 1]) + if HasPort(es[|es| - 1]) then 1 else 0
  }

  ghost predicate AllOpen(es: seq<Entry>) { forall k | 0 <= k < |es| :: IsOpen(es[k]) }

  lemma {:induction false} GroupsGrow(es: seq<Entry>, ps: seq<Pass>, p: Pass)
    requires AllOpen(es) && Distinct(ps + [p])
    ensures ExpandAll(Groups(es, ps), p) == Groups(es, ps + [p])
    ensures FoundIn(Groups(es, ps), p) == Ports(es)
  {
    if es != [] {
      var n := |es| - 1;
      GroupsGrow(es[..n], ps, p);
      GroupGrows(es[n], ps, p);
      ExpandAllAppend(Groups(es[..n], ps), Group(es[n], ps), p);
    }
  }

  lemma {:induction false} NoPass(es: seq<Entry>)
    ensures Groups(es, []) == es
  {
    if es != [] {
      NoPass(es[..|es| - 1]);
    }
  }

  /**
   * From entries without a socket type, passes with distinct types leave each address as a contiguous group, one
   * entry a type with that pass's port, addresses in their order; and each pass finds each entry with a port once.
   */
  lemma {:induction false} PassesMakeGroups(es: seq<Entry>, ps: seq<Pass>)
    requires AllOpen(es) && Distinct(ps)
    ensures ApplyAll(es, ps) == Groups(es, ps)
    ensures FoundByAll(es, ps) == |ps| * Ports(es)
  {
    hide Groups, ExpandAll, FoundIn, Ports;
    if ps == [] {
      NoPass(es);
    } else {
      var n := |ps| - 1;
      assert ps[..n] + [ps[n]] == ps;
      PassesMakeGroups(es, ps[..n]);
      GroupsGrow(es, ps[..n], ps[n]);
      assert |ps| * Ports(es) == n * Ports(es) + Ports(es);
    }
  }

  /** Each pass by itself returns the number of addresses that have ports. */
  lemma {:induction false} EachPassFindsAll(es: seq<Entry>, ps: seq<Pass>, k: nat)
    requires AllOpen(es) && Distinct(ps) && k < |ps|
    ensures FoundIn(ApplyAll(es, ps[..k]), ps[k]) == Ports(es)
  {
    hide Groups, ApplyAll, ExpandAll, FoundIn, Ports, AllOpen;
    PassesMakeGroups(es, ps[..k]);
    assert ps[..k] + [ps[k]] == ps[..k + 1];
    GroupsGrow(es, ps[..k], ps[k]);
  }

  /** The port that a pass leaves in an entry: local sockets have none. */
  function PortAfter(e: Entry, p: Pass): nat { if e.family == Local then e.port else p.port }

  /**
   * The group of one address: as many entries as passes. The address itself has the first pass's type and port, and
   * each later pass a clone with its own, the latest first: with the address, family and protocol of the original, but
   * neither its flag nor its canonical name.
   */
  lemma {:induction false} GroupMembers(e: Entry, ps: seq<Pass>)
    requires IsOpen(e) && ps != []
    ensures var g, n := Group(e, ps), |ps|;
            && |g| == n
            && g[0] == Entry(true, e.family, ps[0].socktype, e.protocol, e.canonname, e.address, PortAfter(e, ps[0]))
            && forall k | 1 <= k < n ::
                 g[k] == Entry(false, e.family, ps[n - k].socktype, e.protocol, None, e.address, PortAfter(e, ps[n - k]))
  {
    CopiesMembers(e, ps);
  }

  lemma {:induction false} CopiesMembers(e: Entry, ps: seq<Pass>)
    requires ps != []
    ensures |Copies(e, ps)| == |ps| - 1
    ensures forall k | 0 <= k < |Copies(e, ps)| ::
              var p := ps[|ps| - 1 - k];
              Copies(e, ps)[k] == Entry(false, e.family, p.socktype, e.protocol, None, e.address, PortAfter(e, p))
  {
    if |ps| > 1 {
      var n := |ps| - 1;
      CopiesMembers(e, ps[..n]);
      forall k | 0 <= k < |Copies(e, ps)|
        ensures var p := ps[n - k];
                Copies(e, ps)[k] == Entry(false, e.family, p.socktype, e.protocol, None, e.address, PortAfter(e, p))
      {
        if k > 0 {
          assert Copies(e, ps)[k] == Copies(e, ps[..n])[k - 1];
        }
      }
    }
  }

  /** The example in the comment of ga_port.c: two addresses and a service of TCP and UDP make four entries. */
  lemma {:induction false} TwoAddressesTwoServices(a: Entry, b: Entry, tcp: nat, udp: nat)
    requires IsOpen(a) && IsOpen(b) && a.family != Local && b.family != Local
    ensures ApplyAll([a, b], [Pass(tcp, SOCK_STREAM), Pass(udp, SOCK_DGRAM)]) ==
              [Entry(true, a.family, SOCK_STREAM, a.protocol, a.canonname, a.address, tcp),
               Entry(false, a.family, SOCK_DGRAM, a.protocol, None, a.address, udp),
               Entry(true, b.family, SOCK_STREAM, b.protocol, b.canonname, b.address, tcp),
               Entry(false, b.family, SOCK_DGRAM, b.protocol, None, b.address, udp)]
  {
    hide Group, ApplyAll, Copies, ExpandAll;
    var ps := [Pass(tcp, SOCK_STREAM), Pass(udp, SOCK_DGRAM)];
    PassesMakeGroups([a, b], ps);
    GroupMembers(a, ps);
    GroupMembers(b, ps);
    assert [a, b][..1] == [a] && [a][..0] == [];
    assert Groups([a], ps) == [] + Group(a, ps) == Group(a, ps);
    assert Groups([a, b], ps) == Group(a, ps) + Group(b, ps);
  }

  // ---------------------------------------------------------------- services

  lemma {:induction false} AtoiFrom(t: string, u: string, i: nat)
    requires AllDigits(t) && (u != "" ==> !IsDigit(u[0])) && i <= |t|
    ensures Atoi(t + u, i, DecValue(t[..i])) == DecValue(t)
    decreases |t| - i
  {
    if i == |t| {
      assert t[..i] == t;
    } else {
      assert t[..i + 1] == t[..i] + [t[i]];
      ValueSnoc(t[..i], t[i], 10);
      AtoiFrom(t, u, i + 1);
    }
  }

  /** A service that starts with digits is the port that they write, modulo 2^16: for the type asked for, or for both. */
  lemma {:induction false} NumericService(t: string, u: string, hint: int, tcp: Option<nat>, udp: Option<nat>)
    requires t != "" && AllDigits(t) && (u != "" ==> !IsDigit(u[0]))
    ensures var port := DecValue(t) % 0x1_0000;
            Passes(hint, t + u, tcp, udp) == if hint == 0 then [Pass(port, 1), Pass(port, 2)] else [Pass(port, hint)]
  {
    assert t[..0] == "";
    AtoiFrom(t, u, 0);
  }

  /** Any other is looked up, for TCP and then for UDP, as far as the type allows. */
  lemma {:induction false} NamedService(serv: string, hint: int, tcp: Option<nat>, udp: Option<nat>)
    requires serv == "" || !IsDigit(serv[0])
    ensures var ps := Passes(hint, serv, tcp, udp);
            && (tcp.Some? && udp.Some? && hint == 0 ==> ps == [Pass(tcp.value, 1), Pass(udp.value, 2)])
            && (tcp.Some? && (hint == 1 || (hint == 0 && udp.None?)) ==> ps == [Pass(tcp.value, 1)])
            && (udp.Some? && (hint == 2 || (hint == 0 && tcp.None?)) ==> ps == [Pass(udp.value, 2)])
            && (ps == [] <==> (tcp.None? || hint !in {0, 1}) && (udp.None? || hint !in {0, 2}))
  {}

  lemma {:induction false} HttpExample()
    ensures Passes(0, "80", None, None) == [Pass(80, 1), Pass(80, 2)]
  {
    assert "" + "8" == "8" && "8" + "0" == "80" == "80" + "";
    ValueSnoc("", '8', 10);
    ValueSnoc("8", '0', 10);
    NumericService("80", "", 0, None, None);
  }

  /** Whatever the service string, the passes it asks for have distinct, nonzero types. */
  lemma {:induction false} PassesDistinct(hint: int, serv: string, tcp: Option<nat>, udp: Option<nat>)
    ensures Distinct(Passes(hint, serv, tcp, udp))
    ensures hint != 0 ==> forall k | 0 <= k < |Passes(hint, serv, tcp, udp)| :: Passes(hint, serv, tcp, udp)[k].socktype == hint
    ensures hint != 0 ==> |Passes(hint, serv, tcp, udp)| <= 1
  {}

  lemma {:induction false} PortsPositive(es: seq<Entry>)
    ensures Ports(es) > 0 <==> exists k :: 0 <= k < |es| && HasPort(es[k])
  {
    if es != [] {
      var n := |es| - 1;
      PortsPositive(es[..n]);
      if k :| 0 <= k < n && HasPort(es[..n][k]) {
        assert HasPort(es[k]);
      }
      if k :| 0 <= k < |es| && HasPort(es[k]) {
        assert k < n ==> HasPort(es[..n][k]);
      }
    }
  }

  lemma {:induction false} PositiveProduct(m: nat, n: nat)
    ensures m * n > 0 <==> m > 0 && n > 0
  {}

  /**
   * Without a socket type, ga_serv succeeds exactly when the service is known and some address has a port; else the
   * name is unknown.
   */
  lemma {:induction false} OpenListServed(es: seq<Entry>, serv: string, tcp: Option<nat>, udp: Option<nat>)
    requires AllOpen(es)
    ensures var ps := Passes(0, serv, tcp, udp);
            && ApplyAll(es, ps) == Groups(es, ps)
            && CodeOf(0, FoundByAll(es, ps)) ==
                 if ps != [] && exists k :: 0 <= k < |es| && HasPort(es[k]) then Ok else EaiNoname
  {
    hide Passes, ApplyAll, Groups, FoundByAll, Ports, AllOpen, Distinct, HasPort;
    var ps := Passes(0, serv, tcp, udp);
    PassesDistinct(0, serv, tcp, udp);
    PassesMakeGroups(es, ps);
    PortsPositive(es);
    PositiveProduct(|ps|, Ports(es));
  }

  /** As ga_aistruct leaves entries when the caller names a socket type. */
  ghost predicate AllTyped(es: seq<Entry>, hint: int) {
    forall k | 0 <= k < |es| :: !es[k].clone && es[k].socktype == hint
  }

  function ServedAll(es: seq<Entry>, p: Pass): seq<Entry> {
    seq(|es|, i requires 0 <= i < |es| => Served(es[i], p))
  }

  lemma {:induction false} TypedPass(es: seq<Entry>, p: Pass)
    requires AllTyped(es, p.socktype)
    ensures ExpandAll(es, p) == ServedAll(es, p) && FoundIn(es, p) == Ports(es)
  {
    if es != [] {
      TypedPass(es[..|es| - 1], p);
    }
  }

  /** With a socket type the list keeps its length: the one pass for that type, if there is one, sets every port. */
  lemma {:induction false} TypedListServed(es: seq<Entry>, hint: int, serv: string, tcp: Option<nat>, udp: Option<nat>)
    requires hint != 0 && AllTyped(es, hint)
    ensures var ps := Passes(hint, serv, tcp, udp);
            && ApplyAll(es, ps) == (if ps == [] then es else ServedAll(es, ps[0]))
            && CodeOf(hint, FoundByAll(es, ps)) ==
                 if ps != [] && exists k :: 0 <= k < |es| && HasPort(es[k]) then Ok else EaiService
  {
    hide Passes, ExpandAll, FoundIn, Ports, HasPort, ServedAll;
    var ps := Passes(hint, serv, tcp, udp);
    PassesDistinct(hint, serv, tcp, udp);
    PortsPositive(es);
    if ps != [] {
      assert ps[..0] == [] && ps == [ps[0]];
      TypedPass(es, ps[0]);
      assert ApplyAll(es, []) == es && FoundByAll(es, []) == 0;
    }
  }
}
