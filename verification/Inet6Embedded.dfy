/** Which addresses inet_ntop6 prints with a dotted quad, said of their bytes, and how. */
module Inet6Embedded {
  import opened Text
  import opened Inet4
  import opened Inet6
  import opened Inet6Print
  import opened Inet6RoundTrip

  ghost predicate ZeroBytes(a: Address, from: nat, to: nat) { forall k | from <= k < to && k < 16 :: a[k] == 0 }

  /** Section 2.5.5.2 of RFC 4291: ten zero bytes and two of ones. */
  ghost predicate IsMapped(a: Address) { ZeroBytes(a, 0, 10) && a[10] == 0xff && a[11] == 0xff }

  /** Section 2.5.5.1 of RFC 4291, but for addresses whose bytes 12 and 13 are zero too. */
  ghost predicate IsCompatible(a: Address) { ZeroBytes(a, 0, 12) && !ZeroBytes(a, 12, 14) }

  // ---------------------------------------------------------------- bytes and groups

  lemma {:induction false} ZeroWord(a: Address, k: nat)
    requires k < 8
    ensures Words(a)[k] == 0 <==> a[2 * k] == 0 && a[2 * k + 1] == 0
  {}

  lemma {:induction false} ZeroWords(a: Address, n: nat)
    requires n <= 8
    ensures (forall k | 0 <= k < n :: Words(a)[k] == 0) <==> ZeroBytes(a, 0, 2 * n)
  {
    hide Words;
    forall k | 0 <= k < 8 ensures Words(a)[k] == 0 <==> a[2 * k] == 0 && a[2 * k + 1] == 0 {
      ZeroWord(a, k);
    }
    if forall k | 0 <= k < n :: Words(a)[k] == 0 {
      forall j | 0 <= j < 2 * n ensures a[j] == 0 {
        assert Words(a)[j / 2] == 0;
      }
    }
  }

  lemma {:induction false} RunIs(w: seq<word>, i: nat, n: nat)
    requires i + n <= |w| && (forall k | i <= k < i + n :: w[k] == 0) && (i + n < |w| ==> w[i + n] != 0)
    ensures RunFrom(w, i) == n
  {}

  /** A run of five or six groups at the start is the longest. */
  lemma {:induction false} LeadingRun(w: seq<word>, n: nat)
    requires |w| == 8 && 5 <= n <= 6 && (forall k | 0 <= k < n :: w[k] == 0) && w[n] != 0
    ensures BestRun(w) == Some(Run(0, n))
  {
    RunIs(w, 0, n);
    forall j | 0 <= j < 8 ensures RunFrom(w, j) <= n {
      if j <= n {
        RunIs(w, j, n - j);
      }
    }
    BestRunUnique(w, Run(0, n));
  }

  /** The printer's test, in terms of groups. */
  lemma {:induction false} EmbeddedGroups(w: seq<word>)
    requires |w| == 8
    ensures BestRun(w).Some? && Embedded(w, BestRun(w).value) <==>
              && (forall k | 0 <= k < 5 :: w[k] == 0)
              && (w[5] == 0xffff || (w[5] == 0 && w[6] != 0))
    ensures BestRun(w).Some? && Embedded(w, BestRun(w).value) ==> BestRun(w) == Some(Run(0, if w[5] == 0 then 6 else 5))
  {
    if forall k | 0 <= k < 5 :: w[k] == 0 {
      if w[5] == 0 && w[6] != 0 {
        LeadingRun(w, 6);
      } else if w[5] != 0 {
        LeadingRun(w, 5);
      }
    }
  }

  lemma {:induction false} OnesWord(a: Address)
    ensures Words(a)[5] == 0xffff <==> a[10] == 0xff && a[11] == 0xff
  {}

  /** The printer's test, in terms of bytes. */
  lemma {:induction false} EmbeddedBytes(a: Address)
    ensures var best := BestRun(Words(a));
            && (best.Some? && Embedded(Words(a), best.value) <==> IsMapped(a) || IsCompatible(a))
            && (IsMapped(a) ==> best == Some(Run(0, 5)))
            && (IsCompatible(a) ==> best == Some(Run(0, 6)))
  {
    hide Words, Embedded, BestRun;
    EmbeddedGroups(Words(a));
    ZeroWords(a, 5);
    ZeroWord(a, 5);
    ZeroWord(a, 6);
    OnesWord(a);
  }

  // ---------------------------------------------------------------- the text

  lemma {:induction false} OnesPrint()
    ensures Hex(0xffff) == "ffff"
  {
    assert Hex(0xf) == "f";
    assert Hex(0xff) == Hex(0xf) + "f" == "ff";
    assert Hex(0xfff) == Hex(0xff) + "f" == "fff";
  }

  lemma {:induction false} NoLead()
    ensures Lead([], ':') == ""
  {}

  lemma {:induction false} TwoEmpty()
    ensures Lead(["", ""], ':') == "::" && Lead(["", "", "ffff"], ':') == "::ffff:"
  {
    hide Lead;
    NoLead();
    assert [""] == [] + [""] && ["", ""] == [""] + [""] && ["", "", "ffff"] == ["", ""] + ["ffff"];
    LeadSnoc([], "", ':');
    LeadSnoc([""], "", ':');
    LeadSnoc(["", ""], "ffff", ':');
  }

  lemma {:induction false} EmbeddedText(a: Address)
    ensures IsMapped(a) ==> Text6(a) == "::ffff:" + QuadText(a[12..])
    ensures IsCompatible(a) ==> Text6(a) == "::" + QuadText(a[12..])
  {
    hide BestRun, QuadText, Lead, Hex;
    EmbeddedBytes(a);
    TwoEmpty();
    OnesPrint();
    OnesWord(a);
    var w := Words(a);
    assert Hexes(w, 6, 6) == [];
    assert Hexes(w, 5, 6) == [] + [Hex(w[5])] == [Hex(w[5])];
    if IsMapped(a) {
      assert [""] + [""] + ["ffff"] == ["", "", "ffff"];
      assert ShownFields(a).done == ["", "", "ffff"];
    } else if IsCompatible(a) {
      assert [""] + [""] + [] == ["", ""];
      assert ShownFields(a).done == ["", ""];
    }
  }

  lemma {:induction false} LeadWithout(done: seq<string>, sep: char, c: char)
    requires c != sep && forall k | 0 <= k < |done| :: c !in done[k]
    ensures c !in Lead(done, sep)
  {
    if done != [] {
      LeadWithout(done[..|done| - 1], sep, c);
    }
  }

  lemma {:induction false} CanonicalHasNoDot(t: string)
    requires IsCanonicalGroup(t)
    ensures '.' !in t
  {}

  /** Without a dotted quad no dot is printed. */
  lemma {:induction false} NoDots(a: Address)
    requires !IsMapped(a) && !IsCompatible(a)
    ensures '.' !in Text6(a)
  {
    hide Text6, ShownFields, BestRun, IsCanonicalGroup, QuadText, Hex, Lead;
    EmbeddedBytes(a);
    GroupsCanonical(a);
    LastPlain(a);
    var f := ShownFields(a);
    forall k | 0 <= k < |f.done| ensures '.' !in f.done[k] {
      if f.done[k] != "" {
        CanonicalHasNoDot(f.done[k]);
      }
    }
    LeadWithout(f.done, ':', '.');
    TextIs(a);
  }

  lemma {:induction false} TextIs(a: Address)
    ensures Text6(a) == Lead(ShownFields(a).done, ':') + ShownFields(a).last
  {}

  lemma {:induction false} LastPlain(a: Address)
    requires var best := BestRun(Words(a)); !(best.Some? && Embedded(Words(a), best.value))
    ensures '.' !in ShownFields(a).last
  {
    hide BestRun, Hex, QuadText;
    HexIsCanonical(Words(a)[7]);
  }

  lemma {:induction false} InSuffix(c: char, p: string, q: string)
    requires c in q
    ensures c in p + q
  {
    var k :| 0 <= k < |q| && q[k] == c;
    assert (p + q)[|p| + k] == c;
  }

  /**
   * A dotted quad ends the text of an address exactly when it is an IPv4-mapped one, or an IPv4-compatible one with
   * bytes 12 and 13 not both zero; and then the text is "::ffff:" or "::", and the quad of the last four bytes.
   */
  lemma {:induction false} QuadWhen(a: Address)
    ensures IsMapped(a) ==> Text6(a) == "::ffff:" + QuadText(a[12..])
    ensures IsCompatible(a) ==> Text6(a) == "::" + QuadText(a[12..])
    ensures (exists p :: Text6(a) == p + QuadText(a[12..])) <==> IsMapped(a) || IsCompatible(a)
  {
    hide Text6, QuadText, IsQuad;
    EmbeddedText(a);
    QuadToken(a[12..]);
    QuadHasDots(QuadText(a[12..]));
    if !IsMapped(a) && !IsCompatible(a) {
      NoDots(a);
      forall p ensures Text6(a) != p + QuadText(a[12..]) {
        InSuffix('.', p, QuadText(a[12..]));
      }
    }
  }

  /** The mapped form of 1.2.3.4. */
  lemma {:induction false} MappedExample()
    ensures Text6([0, 0, 0, 0, 0, 0, 0, 0, 0, 0, 0xff, 0xff, 1, 2, 3, 4]) == "::ffff:1.2.3.4"
  {
    hide Text6, QuadText;
    var a: Address := [0, 0, 0, 0, 0, 0, 0, 0, 0, 0, 0xff, 0xff, 1, 2, 3, 4];
    assert a[12..] == [1, 2, 3, 4];
    EmbeddedText(a);
    TerminatorExample();
  }
}
