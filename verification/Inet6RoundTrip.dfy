/** inet_pton6 reads back every address that inet_ntop6 prints, and what is printed is canonical. */
module Inet6RoundTrip {
  import opened Text
  import opened Inet4
  import opened Inet6
  import opened Inet6Print
  import opened Rfc4291

  // ---------------------------------------------------------------- the fields that are printed

  /** Lower case and no leading zero. */
  predicate IsCanonicalGroup(t: string) {
    && 1 <= |t| <= 4
    && (forall k | 0 <= k < |t| :: IsDigit(t[k]) || 'a' <= t[k] <= 'f')
    && (t[0] == '0' ==> |t| == 1)
  }

  lemma {:induction false} HexIsCanonical(n: word)
    ensures IsCanonicalGroup(Hex(n))
  {
    HexReads(n);
  }

  predicate AllGroups(ts: seq<string>) { forall k | 0 <= k < |ts| :: IsCanonicalGroup(ts[k]) }

  lemma {:induction false} HexesCanonical(w: seq<word>, i: nat, j: nat)
    requires i <= j <= |w|
    ensures |Hexes(w, i, j)| == j - i && AllGroups(Hexes(w, i, j))
  {
    if i < j {
      HexesCanonical(w, i, j - 1);
      HexIsCanonical(w[j - 1]);
    }
  }

  /** The fields before the gap, and after it. */
  ghost function Before(a: Address): seq<string>
    requires BestRun(Words(a)).Some?
  {
    Hexes(Words(a), 0, BestRun(Words(a)).value.base)
  }

  ghost function After(a: Address): seq<string>
    requires BestRun(Words(a)).Some?
  {
    var w := Words(a);
    var r := BestRun(w).value;
    if Embedded(w, r) then Hexes(w, r.len, 6)
    else if r.base + r.len == 8 then []
    else Hexes(w, r.base + r.len, 7)
  }

  ghost function First(a: Address): seq<string>
    requires BestRun(Words(a)).Some?
  {
    if BestRun(Words(a)).value.base == 0 then [""] else []
  }

  /** With a run to shorten: the groups before it, an empty field, the groups after it. */
  lemma {:induction false} ShownParts(a: Address)
    requires BestRun(Words(a)).Some?
    ensures ShownFields(a).done == First(a) + Before(a) + [""] + After(a)
    ensures AllGroups(Before(a)) && AllGroups(After(a)) && (First(a) == [] <==> Before(a) != [])
  {
    hide Hex, Hexes, QuadText, BestRun, IsCanonicalGroup;
    var w := Words(a);
    var r := BestRun(w).value;
    HexesCanonical(w, 0, r.base);
    if Embedded(w, r) {
      HexesCanonical(w, r.len, 6);
    } else if r.base + r.len < 8 {
      HexesCanonical(w, r.base + r.len, 7);
    }
    assert Head(w, r) == First(a) + Before(a);
    assert Head(w, r) + [""] + [] == Head(w, r) + [""];
  }

  /** Every field shown is empty, a canonical group, or the closing dotted quad. */
  lemma {:induction false} GroupsCanonical(a: Address)
    ensures var f := ShownFields(a);
            && (forall k | 0 <= k < |f.done| :: f.done[k] == "" || IsCanonicalGroup(f.done[k]))
            && (f.last == "" || IsCanonicalGroup(f.last) || f.last == QuadText(a[12..]))
  {
    var w := Words(a);
    HexIsCanonical(w[7]);
    if BestRun(w) == None {
      HexesCanonical(w, 0, 7);
    } else {
      ShownParts(a);
    }
  }

  lemma {:induction false} ShownFieldsPlain(a: Address)
    ensures var f := ShownFields(a);
            ':' !in f.last && forall k | 0 <= k < |f.done| :: ':' !in f.done[k]
  {
    GroupsCanonical(a);
    QuadTextShape(a[12..]);
    var f := ShownFields(a);
    forall k | 0 <= k < |f.done| ensures ':' !in f.done[k] {
      assert f.done[k] == "" || IsCanonicalGroup(f.done[k]);
    }
  }

  // ---------------------------------------------------------------- what they stand for

  function WordBytes(w: seq<word>, i: nat, j: nat): seq<byte>
    requires i <= j <= |w|
  {
    if i == j then [] else WordBytes(w, i, j - 1) + [w[j - 1] / 0x100, w[j - 1] % 0x100]
  }

  lemma {:induction false} WordParts(a: Address, k: nat)
    requires k < 8
    ensures Words(a)[k] / 0x100 == a[2 * k] && Words(a)[k] % 0x100 == a[2 * k + 1]
  {}

  lemma {:induction false} WordBytesOf(a: Address, i: nat, j: nat)
    requires i <= j <= 8
    ensures WordBytes(Words(a), i, j) == a[2 * i..2 * j]
  {
    if i < j {
      WordBytesOf(a, i, j - 1);
      var k := j - 1;
      WordParts(a, k);
      assert a[2 * i..2 * j] == a[2 * i..2 * k] + [a[2 * k], a[2 * k + 1]];
    }
  }

  lemma {:induction false} HexToken(n: word)
    ensures IsGroup(Hex(n)) && TokenBytes(Hex(n)) == [n / 0x100, n % 0x100]
  {
    HexReads(n);
  }

  lemma {:induction false} HexesBytes(w: seq<word>, i: nat, j: nat)
    requires i <= j <= |w|
    ensures Bytes(Hexes(w, i, j)) == WordBytes(w, i, j)
    ensures forall k | 0 <= k < |Hexes(w, i, j)| :: IsGroup(Hexes(w, i, j)[k])
  {
    hide TokenBytes, IsGroup, Hex;
    if i < j {
      HexesBytes(w, i, j - 1);
      HexToken(w[j - 1]);
      BytesSnoc(Hexes(w, i, j - 1), Hex(w[j - 1]));
    }
  }

  /** Printed groups stand for their bytes. */
  lemma {:induction false} HexesRead(ts: seq<string>, a: Address, i: nat, j: nat)
    requires i <= j <= 8 && DoneOk(ts)
    ensures var us := ts + Hexes(Words(a), i, j);
            DoneOk(us) && GapAt(us) == GapAt(ts) && Bytes(us) == Bytes(ts) + a[2 * i..2 * j]
  {
    var h := Hexes(Words(a), i, j);
    HexesBytes(Words(a), i, j);
    WordBytesOf(a, i, j);
    BytesAppend(ts, h);
    GroupsAppend(ts, h);
  }

  lemma {:induction false} LastGroup(a: Address)
    ensures IsGroup(Hex(Words(a)[7])) && TokenBytes(Hex(Words(a)[7])) == a[14..]
  {
    hide TokenBytes, IsGroup, Hex, Words;
    HexToken(Words(a)[7]);
    WordParts(a, 7);
    assert a[14..] == [a[14], a[15]];
  }

  /** The gap puts back the zeros that were left out. */
  lemma {:induction false} GapReads(a: Address, base: nat, len: nat, b: seq<byte>)
    requires 0 < len && base + len <= 8 && (forall k | base <= k < base + len :: Words(a)[k] == 0)
    requires b == a[..2 * base] + a[2 * (base + len)..]
    ensures Widen(b, Some(2 * base)) == Some(a)
  {
    forall k | 2 * base <= k < 2 * (base + len) ensures a[k] == 0 {
      assert Words(a)[k / 2] == 0;
    }
    assert b[..2 * base] == a[..2 * base] && b[2 * base..] == a[2 * (base + len)..];
    assert a == a[..2 * base] + Zeros(2 * len) + a[2 * (base + len)..];
  }

  /** The fields as the parser meets them: the empty one in front of a leading "::" is gone. */
  ghost function ReadFields(a: Address): Fields
    requires BestRun(Words(a)).Some?
  {
    Fields(Before(a) + [""] + After(a), ShownFields(a).last)
  }

  lemma {:induction false} NoRunReads(a: Address)
    requires BestRun(Words(a)) == None
    ensures ParseFields(ShownFields(a)) == Some(a)
  {
    hide TokenBytes, Hexes, GapAt, Bytes, QuadText, BestRun, Hex, DoneOk;
    NoTokens();
    GroupTail([], a, 0);
    var h := Hexes(Words(a), 0, 7);
    assert [] + h == h && [] + a[0..] == a;
    assert ShownFields(a) == Fields([] + h, Hex(Words(a)[7]));
  }

  lemma {:induction false} GapFields(a: Address, base: nat)
    requires base <= 8
    ensures var done := Hexes(Words(a), 0, base) + [""];
            DoneOk(done) && GapAt(done) == Some(2 * base) && Bytes(done) == a[..2 * base]
  {
    hide TokenBytes, IsGroup, Hexes;
    var h := Hexes(Words(a), 0, base);
    HexesRead([], a, 0, base);
    assert [] + h == h;
    BytesSnoc(h, "");
    EmptyToken();
    assert [] + a[0..2 * base] + [] == a[..2 * base];
  }

  lemma {:induction false} QuadToken(b: seq<byte>)
    requires |b| == 4
    ensures IsQuad(QuadText(b)) && TokenBytes(QuadText(b)) == b
  {
    QuadRoundTrip(b);
    QuadHasDots(QuadText(b));
  }

  lemma {:induction false} Rejoin(b: seq<byte>, a: seq<byte>, i: nat, j: nat)
    requires i <= j <= |a|
    ensures (b + a[i..j]) + a[j..] == b + a[i..]
  {}

  lemma {:induction false} QuadTail(done: seq<string>, a: Address, len: nat)
    requires len <= 6 && DoneOk(done)
    ensures var f := Fields(done + Hexes(Words(a), len, 6), QuadText(a[12..]));
            WellFormed(f) && GapAt(f.done) == GapAt(done) && Bytes(f.done) + TokenBytes(f.last) == Bytes(done) + a[2 * len..]
  {
    hide TokenBytes, Hexes, GapAt, Bytes, QuadText, DoneOk, IsGroup, IsQuad, Words;
    HexesRead(done, a, len, 6);
    QuadToken(a[12..]);
    Rejoin(Bytes(done), a, 2 * len, 12);
  }

  lemma {:induction false} GroupTail(done: seq<string>, a: Address, end: nat)
    requires end <= 7 && DoneOk(done)
    ensures var f := Fields(done + Hexes(Words(a), end, 7), Hex(Words(a)[7]));
            WellFormed(f) && GapAt(f.done) == GapAt(done) && Bytes(f.done) + TokenBytes(f.last) == Bytes(done) + a[2 * end..]
  {
    hide TokenBytes, Hexes, GapAt, Bytes, QuadText, DoneOk, IsGroup, IsQuad, Words, Hex;
    HexesRead(done, a, end, 7);
    LastGroup(a);
    Rejoin(Bytes(done), a, 2 * end, 14);
  }

  lemma {:induction false} EmptyTail(done: seq<string>, a: Address)
    requires DoneOk(done)
    ensures WellFormed(Fields(done, "")) && Bytes(done) + TokenBytes("") == Bytes(done) + a[16..]
  {}

  /** What follows the gap: its bytes, and no second gap. */
  lemma {:induction false} TailReads(a: Address, r: Run)
    requires BestRun(Words(a)) == Some(r)
    ensures var f := ReadFields(a);
            && WellFormed(f) && GapAt(f.done) == Some(2 * r.base)
            && Bytes(f.done) + TokenBytes(f.last) == a[..2 * r.base] + a[2 * (r.base + r.len)..]
  {
    hide TokenBytes, Hexes, GapAt, Bytes, QuadText, BestRun, Hex, DoneOk;
    var done, end := Before(a) + [""], r.base + r.len;
    GapFields(a, r.base);
    if Embedded(Words(a), r) {
      QuadTail(done, a, r.len);
    } else if end == 8 {
      EmptyTail(done, a);
      assert done + [] == done;
    } else {
      GroupTail(done, a, end);
    }
  }

  lemma {:induction false} RunReads(a: Address)
    requires BestRun(Words(a)).Some?
    ensures ParseFields(ReadFields(a)) == Some(a)
  {
    var r := BestRun(Words(a)).value;
    TailReads(a, r);
    GapReads(a, r.base, r.len, a[..2 * r.base] + a[2 * (r.base + r.len)..]);
  }

  // ---------------------------------------------------------------- the text splits into those fields

  /** The printed text splits into the fields it was made of. */
  lemma {:induction false} TextSplits(a: Address)
    ensures FieldsOf(Text6(a), ':') == ShownFields(a)
  {
    ShownFieldsPlain(a);
    SplitJoin(ShownFields(a), ':');
  }

  /** What the parser reads of a printed address. */
  lemma {:induction false} PrintedFieldsRead(a: Address)
    ensures var s := Text6(a);
            && FieldsRead(s) == (if BestRun(Words(a)) == None then ShownFields(a) else ReadFields(a))
            && s != "" && (s[0] == ':' ==> IsPrefixed(s))
  {
    hide TokenBytes, Hexes, GapAt, Bytes, QuadText, BestRun, Hex, DoneOk, ShownFields, Before, After, Split, Join;
    var f := ShownFields(a);
    TextSplits(a);
    ShownFieldsPlain(a);
    if BestRun(Words(a)) == None {
      PlainStart(a);
    } else {
      ShownParts(a);
      var g := Before(a) + [""] + After(a);
      if First(a) == [""] {
        assert f.done == [""] + g;
        LeadingGap(f, g);
      } else {
        assert f.done == g;
        assert f.done[0] == Before(a)[0];
        StartsPlain(f);
      }
    }
  }

  /** Two leading colons: the first field is not read. */
  lemma {:induction false} LeadingGap(f: Fields, g: seq<string>)
    requires f.done == [""] + g && g != [] && g[0] == ""
    requires ':' !in f.last && forall k | 0 <= k < |f.done| :: ':' !in f.done[k]
    ensures IsPrefixed(Join(f, ':')) && FieldsRead(Join(f, ':')) == Fields(g, f.last)
  {
    hide Split, Join;
    DropFirst(f);
    assert f.done[1..] == g;
  }

  lemma {:induction false} PlainStart(a: Address)
    requires BestRun(Words(a)) == None
    ensures Text6(a) != "" && Text6(a)[0] != ':'
  {
    ShownFieldsPlain(a);
    HexesCanonical(Words(a), 0, 7);
    StartsPlain(ShownFields(a));
  }

  /** Parsing inverts printing on all 2^128 addresses. */
  lemma {:induction false} RoundTrip6(a: Address)
    ensures Parse6(Text6(a)) == Some(a)
  {
    hide Text6, ShownFields, BestRun, ParseFields;
    PrintedFieldsRead(a);
    if BestRun(Words(a)) == None {
      NoRunReads(a);
    } else {
      RunReads(a);
    }
  }

  /** What is printed is a text of the standard. */
  lemma {:induction false} PrintsStandardText(a: Address)
    ensures IsRfcText(Text6(a))
  {
    hide Text6, BestRun, TokenBytes, QuadText, Hexes, Hex, IsRfcText;
    PrintedFieldsRead(a);
    RoundTrip6(a);
    StandardUnlessQuirk(Text6(a));
    PrintedGroups(a);
    PrintedOctets(a);
    if BestRun(Words(a)) == None {
      NoRunGap(a);
    } else {
      var r := BestRun(Words(a)).value;
      TailReads(a, r);
      TrailingGap(a);
    }
  }

  /** No field that is printed is longer than four characters, unless it is the dotted quad, which is no group. */
  lemma {:induction false} PrintedGroups(a: Address)
    ensures !HasLongGroup(if BestRun(Words(a)) == None then ShownFields(a) else ReadFields(a))
  {
    hide Text6, BestRun, TokenBytes, Hexes, Hex, ShownFields, Before, After, First, QuadText, IsGroup, IsQuad, AllGroups;
    GroupsCanonical(a);
    QuadToken(a[12..]);
    QuadHasDots(QuadText(a[12..]));
    if BestRun(Words(a)).Some? {
      ShownParts(a);
      var g := ReadFields(a);
      forall k | 0 <= k < |g.done| ensures |g.done[k]| <= 4 {
        assert g.done[k] == ShownFields(a).done[|First(a)| + k];
      }
    }
  }

  /** No octet that is printed is longer than three. */
  lemma {:induction false} PrintedOctets(a: Address)
    ensures !HasLongOctet(ShownFields(a))
    ensures BestRun(Words(a)).Some? ==> !HasLongOctet(ReadFields(a))
  {
    hide ShownFields, BestRun, IsGroup, IsQuad, QuadText, LongOctet;
    GroupsCanonical(a);
    PrintedQuad(a[12..]);
    var t := ShownFields(a).last;
    if IsQuad(t) {
      QuadHasDots(t);
    }
  }

  lemma {:induction false} PrintedQuad(b: seq<byte>)
    requires |b| == 4
    ensures !LongOctet(QuadText(b))
  {
    hide Split;
    DecIsOctet(b[0]);
    DecIsOctet(b[1]);
    DecIsOctet(b[2]);
    DecIsOctet(b[3]);
    SplitJoin(Fields([Dec(b[0]), Dec(b[1]), Dec(b[2])], Dec(b[3])), '.');
  }

  lemma {:induction false} NoRunGap(a: Address)
    requires BestRun(Words(a)) == None
    ensures GapAt(ShownFields(a).done) == None && !HasTrailingColon(ShownFields(a))
  {
    HexesCanonical(Words(a), 0, 7);
    GapMeansEmpty(ShownFields(a).done);
    HexIsCanonical(Words(a)[7]);
  }

  /** A colon at the end is the second of the pair. */
  lemma {:induction false} TrailingGap(a: Address)
    requires BestRun(Words(a)).Some?
    ensures !HasTrailingColon(ReadFields(a))
  {
    var w, r := Words(a), BestRun(Words(a)).value;
    QuadTextShape(a[12..]);
    HexIsCanonical(w[7]);
    if ReadFields(a).last == "" {
      assert After(a) == [];
    }
  }

  /** Different addresses print differently. */
  lemma {:induction false} PrintingInjective(a: Address, b: Address)
    requires Text6(a) == Text6(b)
    ensures a == b
  {
    RoundTrip6(a);
    RoundTrip6(b);
  }

  /** Whatever text an address was parsed from, printing and parsing again gives that address. */
  lemma {:induction false} ParsedIsFixed(s: string)
    requires Parse6(s).Some?
    ensures Parse6(Text6(Parse6(s).value)) == Parse6(s)
  {
    RoundTrip6(Parse6(s).value);
  }

  // ---------------------------------------------------------------- canonical form

  /** A colon pair at `i`. */
  ghost predicate PairAt(s: string, i: nat) { i + 1 < |s| && s[i] == ':' && s[i + 1] == ':' }

  /** A colon pair is an empty field that is neither first nor last. */
  lemma {:induction false} PairIsEmptyField(s: string, i: nat)
    requires PairAt(s, i)
    ensures var n := |Split(s, i + 1, ':').done|;
            1 <= n < |FieldsOf(s, ':').done| && FieldsOf(s, ':').done[n] == ""
  {
    SplitPrefix(s, i + 2, |s|, ':');
    var n := |Split(s, i + 1, ':').done|;
    assert Split(s, i + 2, ':').done[n] == "";
  }

  /** The empty fields that are not first: only the gap. */
  lemma {:induction false} OnlyGapEmpty(a: Address, n: nat)
    requires 1 <= n < |ShownFields(a).done| && ShownFields(a).done[n] == ""
    ensures BestRun(Words(a)).Some? && n == |First(a) + Before(a)|
  {
    if BestRun(Words(a)) == None {
      HexesCanonical(Words(a), 0, 7);
    } else {
      ShownParts(a);
    }
  }

  /** "::" occurs at most once. */
  lemma {:induction false} OnePairAtMost(a: Address, i: nat, j: nat)
    requires PairAt(Text6(a), i) && PairAt(Text6(a), j)
    ensures i == j
  {
    hide Text6, First, Before, BestRun;
    var s := Text6(a);
    TextSplits(a);
    PairIsEmptyField(s, i);
    PairIsEmptyField(s, j);
    OnlyGapEmpty(a, |Split(s, i + 1, ':').done|);
    OnlyGapEmpty(a, |Split(s, j + 1, ':').done|);
    if i < j {
      SplitPrefix(s, i + 1, j, ':');
    } else if j < i {
      SplitPrefix(s, j + 1, i, ':');
    }
  }

  /** An empty field inside is a colon pair. */
  lemma {:induction false} EmptyFieldIsPair(h: seq<string>, rest: seq<string>, last: string)
    requires h != []
    ensures var at := |Lead(h, ':')|;
            at >= 1 && PairAt(Join(Fields(h + [""] + rest, last), ':'), at - 1)
  {
    LeadAppend(h + [""], rest, ':');
    LeadSnoc(h, "", ':');
  }

  /** The pair stands where the leftmost longest run of two or more zero groups was. */
  lemma {:induction false} PairOfRun(a: Address)
    requires BestRun(Words(a)).Some?
    ensures var at := |Lead(First(a) + Before(a), ':')|;
            at >= 1 && PairAt(Text6(a), at - 1)
  {
    ShownParts(a);
    EmptyFieldIsPair(First(a) + Before(a), After(a), ShownFields(a).last);
  }

  /** "::" occurs exactly when two neighbouring groups are zero. */
  lemma {:induction false} PairIffZeroRun(a: Address)
    ensures (exists i: nat :: PairAt(Text6(a), i)) <==> exists k :: 0 <= k < 7 && Words(a)[k] == 0 == Words(a)[k + 1]
  {
    var w := Words(a);
    if i: nat :| PairAt(Text6(a), i) {
      TextSplits(a);
      PairIsEmptyField(Text6(a), i);
      OnlyGapEmpty(a, |Split(Text6(a), i + 1, ':').done|);
      var r := BestRun(w).value;
      assert w[r.base] == 0 == w[r.base + 1];
    }
    if k :| 0 <= k < 7 && w[k] == 0 == w[k + 1] {
      assert RunFrom(w, k) == 1 + (1 + RunFrom(w, k + 2));
      assert BestRun(w).Some?;
      PairOfRun(a);
    }
  }

  lemma {:induction false} LeadLength(a: Address, i: nat, j: nat)
    requires i <= j <= 8
    ensures |Lead(Hexes(Words(a), i, j), ':')| <= 5 * (j - i)
  {
    if i < j {
      LeadLength(a, i, j - 1);
      HexReads(Words(a)[j - 1]);
      LeadSnoc(Hexes(Words(a), i, j - 1), Hex(Words(a)[j - 1]), ':');
    }
  }

  lemma {:induction false} HeadLength(a: Address, r: Run)
    requires r.base <= 8
    ensures |Lead(Head(Words(a), r), ':')| <= if r.base == 0 then 1 else 5 * r.base
  {
    if r.base == 0 {
      assert Lead([], ':') == "" && [""] == [] + [""];
      LeadSnoc([], "", ':');
    } else {
      LeadLength(a, 0, r.base);
    }
  }

  /** A buffer of INET6_ADDRSTRLEN (46) bytes always suffices, terminator included. */
  lemma {:induction false} TextFits(a: Address)
    ensures |Text6(a)| + 1 <= 46
  {
    hide Hexes, Hex, QuadText, BestRun, Lead;
    var w := Words(a);
    LeadLength(a, 0, 7);
    HexReads(w[7]);
    match BestRun(w) {
      case None =>
      case Some(r) =>
        HeadLength(a, r);
        LeadSnoc(Head(w, r), "", ':');
        if Embedded(w, r) {
          LeadLength(a, r.len, 6);
          LeadAppend(Head(w, r) + [""], Hexes(w, r.len, 6), ':');
          QuadTextShape(a[12..]);
        } else if r.base + r.len < 8 {
          LeadLength(a, r.base + r.len, 7);
          LeadAppend(Head(w, r) + [""], Hexes(w, r.base + r.len, 7), ':');
        }
    }
  }
}
