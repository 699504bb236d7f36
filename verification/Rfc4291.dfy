/** Section 2.2 of RFC 4291, and how far inet_pton6 accepts exactly its texts. */
module Rfc4291 {
  import opened Text
  import opened Inet4
  import opened Inet6

  /** One to four hexadecimal digits. */
  predicate IsH16(t: string) { 1 <= |t| <= 4 && AllHex(t) }

  /** A decimal number of one to three digits, leading zeros included, that is a byte. */
  predicate IsDecOctet(t: string) { 1 <= |t| <= 3 && AllDigits(t) && DecValue(t) <= 255 }

  /** Four of those, with dots between them. */
  ghost predicate IsDottedQuad(t: string) {
    exists a, b, c, d :: IsDecOctet(a) && IsDecOctet(b) && IsDecOctet(c) && IsDecOctet(d) && t == Dotted(a, b, c, d)
  }

  function Dotted(a: string, b: string, c: string, d: string): string { a + "." + b + "." + c + "." + d }

  /** Pieces between single colons: 16-bit values, of which a dotted quad may stand for the last two. */
  ghost predicate IsBody(ts: seq<string>) {
    forall k | 0 <= k < |ts| :: IsH16(ts[k]) || (k == |ts| - 1 && IsDottedQuad(ts[k]))
  }

  ghost predicate AllH16(ts: seq<string>) { forall k | 0 <= k < |ts| :: IsH16(ts[k]) }

  function AllButLast(ts: seq<string>): seq<string> { if ts == [] then [] else ts[..|ts| - 1] }

  function Last(ts: seq<string>): string { if ts == [] then "" else ts[|ts| - 1] }

  function Colons(ts: seq<string>): string { Join(Fields(AllButLast(ts), Last(ts)), ':') }

  /** All eight values are written out. */
  ghost predicate IsFull(s: string, ts: seq<string>) { IsBody(ts) && |Bytes(ts)| == 16 && s == Colons(ts) }

  /** "::" stands for one or more zero values. */
  ghost predicate IsShort(s: string, head: seq<string>, tail: seq<string>) {
    AllH16(head) && IsBody(tail) && |Bytes(head) + Bytes(tail)| <= 14 && s == Colons(head) + "::" + Colons(tail)
  }

  ghost predicate IsRfcText(s: string) {
    (exists ts :: IsFull(s, ts)) || (exists head, tail :: IsShort(s, head, tail))
  }

  // ---------------------------------------------------------------- dotted quads

  /** An octet padded with zeros beyond three digits. */
  ghost predicate LongOctet(t: string) {
    var f := FieldsOf(t, '.');
    |f.last| > 3 || exists k :: 0 <= k < |f.done| && |f.done[k]| > 3
  }

  lemma {:induction false} DottedFields(a: string, b: string, c: string, d: string)
    requires '.' !in a && '.' !in b && '.' !in c && '.' !in d
    ensures FieldsOf(Dotted(a, b, c, d), '.') == Fields([a, b, c], d)
  {
    LeadOfThree(a, b, c);
    SplitJoin(Fields([a, b, c], d), '.');
  }

  /** The standard's dotted quads are those that the parser takes, but for padding. */
  lemma {:induction false} DottedQuads(t: string)
    ensures IsDottedQuad(t) <==> IsQuad(t) && !LongOctet(t)
  {
    hide Split;
    if a, b, c, d :| IsDecOctet(a) && IsDecOctet(b) && IsDecOctet(c) && IsDecOctet(d) && t == Dotted(a, b, c, d) {
      DottedFields(a, b, c, d);
    }
    if IsQuad(t) && !LongOctet(t) {
      var f := FieldsOf(t, '.');
      var a, b, c, d := f.done[0], f.done[1], f.done[2], f.last;
      LeadOfThree(a, b, c);
      JoinSplit(t, |t|, '.');
      assert t[..|t|] == t && f.done == [a, b, c];
      assert t == Dotted(a, b, c, d);
    }
  }

  // ---------------------------------------------------------------- every text of the standard is accepted

  lemma {:induction false} ValueBelow(s: string)
    requires AllHex(s)
    ensures |s| <= 1 ==> HexValue(s) < 0x10
    ensures |s| <= 2 ==> HexValue(s) < 0x100
    ensures |s| <= 3 ==> HexValue(s) < 0x1000
    ensures |s| <= 4 ==> HexValue(s) < 0x1_0000
  {
    if s != "" {
      ValueBelow(s[..|s| - 1]);
    }
  }

  lemma {:induction false} H16IsGroup(t: string)
    requires IsH16(t)
    ensures IsGroup(t) && ':' !in t && t != ""
  {
    ValueBelow(t);
  }

  lemma {:induction false} BodyPlain(ts: seq<string>)
    requires IsBody(ts)
    ensures forall k | 0 <= k < |ts| :: ts[k] != "" && ':' !in ts[k]
    ensures forall k | 0 <= k < |AllButLast(ts)| :: IsGroup(AllButLast(ts)[k])
    ensures Last(ts) == "" || IsGroup(Last(ts)) || IsQuad(Last(ts))
  {
    hide IsQuad, IsGroup, IsDottedQuad;
    forall k | 0 <= k < |ts|
      ensures ts[k] != "" && ':' !in ts[k] && if IsH16(ts[k]) then IsGroup(ts[k]) else IsQuad(ts[k])
    {
      if IsH16(ts[k]) {
        H16IsGroup(ts[k]);
      } else {
        DottedQuads(ts[k]);
        QuadHasDots(ts[k]);
      }
    }
  }

  lemma {:induction false} BytesOfBody(ts: seq<string>)
    ensures Bytes(ts) == Bytes(AllButLast(ts)) + TokenBytes(Last(ts))
  {}

  /** All eight values: the address is those. */
  lemma {:induction false} FullAccepted(s: string, ts: seq<string>)
    requires IsFull(s, ts)
    ensures Parse6(s) == Some(Bytes(ts))
  {
    hide TokenBytes, IsGroup, IsQuad, IsBody, Split, Lead;
    var f := Fields(AllButLast(ts), Last(ts));
    BodyPlain(ts);
    BytesOfBody(ts);
    SplitJoin(f, ':');
    NoTokens();
    GroupsAppend([], f.done);
    assert [] + f.done == f.done;
    if f.done == [] {
      EmptyToken();
      TokenShort(Last(ts));
    }
    assert f.done[0] == ts[0];
    StartsPlain(f);
  }

  lemma {:induction false} TokenShort(t: string)
    ensures |TokenBytes(t)| == 0 || |TokenBytes(t)| == 2 || |TokenBytes(t)| == 4
  {}

  /** The fields of a shortened text, without the empty one in front of a leading "::". */
  function ShortFields(head: seq<string>, tail: seq<string>): Fields {
    Fields(head + [""] + AllButLast(tail), Last(tail))
  }

  lemma {:induction false} ShortText(head: seq<string>, tail: seq<string>)
    requires AllH16(head)
    ensures var f := ShortFields(head, tail);
            Colons(head) + "::" + Colons(tail) == if head == [] then ":" + Join(f, ':') else Join(f, ':')
  {
    hide Lead, AllH16;
    var rest, last := AllButLast(tail), Last(tail);
    LeadSnoc(head, "", ':');
    LeadAppend(head + [""], rest, ':');
    HeadLead(head);
    var c := Colons(head);
    if head == [] {
      assert ":" + ((":" + Lead(rest, ':')) + last) == c + "::" + (Lead(rest, ':') + last);
    } else {
      assert ((c + ":") + "" + [':'] + Lead(rest, ':')) + last == c + "::" + (Lead(rest, ':') + last);
    }
  }

  lemma {:induction false} HeadLead(head: seq<string>)
    ensures if head == [] then Lead(head, ':') == "" == Colons(head) else Lead(head, ':') == Colons(head) + ":"
  {}

  /** What the parser makes of the fields of a shortened text. */
  lemma {:induction false} ShortFieldsRead(head: seq<string>, tail: seq<string>)
    requires AllH16(head) && IsBody(tail)
    ensures ParseFields(ShortFields(head, tail)) == Widen(Bytes(head) + Bytes(tail), Some(|Bytes(head)|))
  {
    hide TokenBytes, GapAt, DoneOk, Bytes, IsGroup, IsBody, AllH16;
    var f, rest := ShortFields(head, tail), AllButLast(tail);
    HeadRead(head);
    BodyPlain(tail);
    BytesOfBody(tail);
    GroupsAppend(head + [""], rest);
    BytesAppend(head + [""], rest);
    assert (Bytes(head) + Bytes(rest)) + TokenBytes(Last(tail)) == Bytes(head) + Bytes(tail);
  }

  lemma {:induction false} HeadRead(head: seq<string>)
    requires AllH16(head)
    ensures DoneOk(head + [""]) && GapAt(head + [""]) == Some(|Bytes(head)|) && Bytes(head + [""]) == Bytes(head)
  {
    hide TokenBytes, IsH16, IsGroup;
    forall k | 0 <= k < |head| ensures IsGroup(head[k]) {
      H16IsGroup(head[k]);
    }
    NoTokens();
    GroupsAppend([], head);
    assert [] + head == head;
    BytesSnoc(head, "");
    EmptyToken();
    assert Bytes(head) + [] == Bytes(head);
  }

  lemma {:induction false} GapText(s: string, head: seq<string>, tail: seq<string>)
    requires AllH16(head) && IsBody(tail) && s == Colons(head) + "::" + Colons(tail)
    ensures Parse6(s) == Widen(Bytes(head) + Bytes(tail), Some(|Bytes(head)|))
  {
    var f := ShortFields(head, tail);
    ShortText(head, tail);
    ShortFieldsRead(head, tail);
    ShortPlain(head, tail);
    SplitJoin(f, ':');
    if head == [] {
      assert s[1..] == Join(f, ':');
      assert s == "" + "::" + Colons(tail);
    } else {
      H16IsGroup(head[0]);
      assert f.done[0] == head[0];
      StartsPlain(f);
    }
  }

  /** The shortened form: the address has zeros for the "::". */
  lemma {:induction false} ShortAccepted(s: string, head: seq<string>, tail: seq<string>)
    requires IsShort(s, head, tail)
    ensures Parse6(s) == Some(Bytes(head) + Zeros(16 - |Bytes(head) + Bytes(tail)|) + Bytes(tail))
  {
    GapText(s, head, tail);
    assert (Bytes(head) + Bytes(tail))[..|Bytes(head)|] == Bytes(head);
    assert (Bytes(head) + Bytes(tail))[|Bytes(head)|..] == Bytes(tail);
  }

  lemma {:induction false} ShortPlain(head: seq<string>, tail: seq<string>)
    requires AllH16(head) && IsBody(tail)
    ensures var f := ShortFields(head, tail);
            ':' !in f.last && forall k | 0 <= k < |f.done| :: ':' !in f.done[k]
  {
    BodyPlain(tail);
    var f := ShortFields(head, tail);
    forall k | 0 <= k < |f.done| ensures ':' !in f.done[k] {
      if k < |head| {
        H16IsGroup(head[k]);
      }
    }
  }

  /** Whatever the standard allows is accepted. */
  lemma {:induction false} AcceptsStandard(s: string)
    requires IsRfcText(s)
    ensures Parse6(s).Some?
  {
    hide Parse6, IsFull, IsShort;
    if ts :| IsFull(s, ts) {
      FullAccepted(s, ts);
    } else {
      var head, tail :| IsShort(s, head, tail);
      ShortAccepted(s, head, tail);
    }
  }

  // ---------------------------------------------------------------- and what else is

  predicate IsPrefixed(s: string) { |s| > 1 && s[0] == ':' && s[1] == ':' }

  /** The fields that the parser reads: after the first of two leading colons, if there are two. */
  function FieldsRead(s: string): Fields { if IsPrefixed(s) then FieldsOf(s[1..], ':') else FieldsOf(s, ':') }

  /** A group padded with zeros beyond four digits. */
  ghost predicate HasLongGroup(f: Fields) {
    (exists k :: 0 <= k < |f.done| && |f.done[k]| > 4) || (IsGroup(f.last) && |f.last| > 4)
  }

  /** An octet of the closing dotted quad padded with zeros beyond three digits. */
  ghost predicate HasLongOctet(f: Fields) { IsQuad(f.last) && LongOctet(f.last) }

  /** A single colon at the end. */
  predicate HasTrailingColon(f: Fields) { f.last == "" && f.done != [] && f.done[|f.done| - 1] != "" }

  /** A "::" although all sixteen bytes are written out. */
  predicate HasFullGap(f: Fields) { GapAt(f.done).Some? && |Bytes(f.done) + TokenBytes(f.last)| == 16 }

  ghost predicate IsQuirk(f: Fields) { HasLongGroup(f) || HasLongOctet(f) || HasTrailingColon(f) || HasFullGap(f) }

  lemma {:induction false} BytesEven(ts: seq<string>)
    ensures |Bytes(ts)| % 2 == 0
  {
    hide TokenBytes;
    if ts != [] {
      BytesEven(ts[..|ts| - 1]);
      TokenShort(ts[|ts| - 1]);
    }
  }

  /** Groups of at most four digits are the standard's values. */
  lemma {:induction false} ShortGroups(ts: seq<string>)
    requires forall k | 0 <= k < |ts| :: IsGroup(ts[k]) && |ts[k]| <= 4
    ensures AllH16(ts)
  {}

  lemma {:induction false} BodyOf(ts: seq<string>, last: string)
    requires forall k | 0 <= k < |ts| :: IsGroup(ts[k]) && |ts[k]| <= 4
    requires IsDottedQuad(last) || (IsGroup(last) && |last| <= 4)
    ensures IsBody(ts + [last]) && AllButLast(ts + [last]) == ts && Last(ts + [last]) == last
  {}

  /** Where the text stands in relation to the fields. */
  lemma {:induction false} TextOfFields(s: string)
    requires Parse6(s).Some?
    ensures var f := FieldsRead(s);
            && ParseFields(f) == Parse6(s)
            && s == (if IsPrefixed(s) then ":" + Join(f, ':') else Join(f, ':'))
            && (IsPrefixed(s) <==> f.done != [] && f.done[0] == "")
  {
    if IsPrefixed(s) {
      JoinSplit(s[1..], |s| - 1, ':');
      assert s == ":" + s[1..] && s[1..][..|s| - 1] == s[1..];
      FirstField(s[1..]);
    } else {
      JoinSplit(s, |s|, ':');
      assert s[..|s|] == s;
      FirstField(s);
    }
  }

  /** The first field is empty, and ended, exactly when the text starts with the separator. */
  lemma {:induction false} FirstField(s: string)
    ensures var f := FieldsOf(s, ':');
            f.done != [] && f.done[0] == "" <==> s != "" && s[0] == ':'
  {
    var f := FieldsOf(s, ':');
    if s != "" {
      assert Split(s, 1, ':') == Push(Split(s, 0, ':'), s[0], ':');
      SplitPrefix(s, 1, |s|, ':');
      if s[0] == ':' {
        assert Split(s, 1, ':').done[0] == "";
      } else {
        assert |Split(s, 1, ':').last| == 1;
      }
    }
  }

  /** No gap and no quirk: all eight values written out. */
  lemma {:induction false} FullFromFields(s: string)
    requires Parse6(s).Some? && !IsQuirk(FieldsRead(s)) && GapAt(FieldsRead(s).done) == None
    ensures IsRfcText(s)
  {
    var f := FieldsRead(s);
    TextOfFields(s);
    GapMeansEmpty(f.done);
    DoneOkMeans(f.done);
    EmptyToken();
    var ts := f.done + [f.last];
    DottedQuads(f.last);
    BodyOf(f.done, f.last);
    BytesSnoc(f.done, f.last);
    assert IsFull(s, ts);
  }

  /** The fields on the two sides of the gap. */
  lemma {:induction false} SplitAtGap(f: Fields, k: nat) returns (head: seq<string>, tail: seq<string>)
    requires WellFormed(f) && !HasLongGroup(f) && !HasLongOctet(f) && !HasTrailingColon(f)
    requires k < |f.done| && f.done[k] == ""
    ensures AllH16(head) && IsBody(tail) && f == ShortFields(head, tail)
  {
    hide TokenBytes, GapAt, Bytes, IsQuad, IsDottedQuad, LongOctet;
    DoneOkMeans(f.done);
    head := f.done[..k];
    var rest := f.done[k + 1..];
    forall j | 0 <= j < |f.done| && j != k ensures IsGroup(f.done[j]) && |f.done[j]| <= 4 {
      assert f.done[j] != "";
    }
    forall j | 0 <= j < |rest| ensures IsGroup(rest[j]) && |rest[j]| <= 4 {
      assert rest[j] == f.done[k + 1 + j];
    }
    ShortGroups(head);
    assert f.done == head + [""] + rest;
    if f.last == "" {
      tail := [];
      assert k == |f.done| - 1;
      assert rest == [];
    } else {
      tail := rest + [f.last];
      DottedQuads(f.last);
      BodyOf(rest, f.last);
    }
  }

  /** A gap and no quirk: the shortened form. */
  lemma {:induction false} ShortFromFields(s: string, k: nat)
    requires Parse6(s).Some? && !IsQuirk(FieldsRead(s))
    requires k < |FieldsRead(s).done| && FieldsRead(s).done[k] == ""
    ensures IsRfcText(s)
  {
    hide TokenBytes, Bytes, IsGroup, IsQuad, FieldsRead, Parse6, IsBody, AllH16, Colons, DoneOk;
    var f := FieldsRead(s);
    TextOfFields(s);
    GapMeansEmpty(f.done);
    var head, tail := SplitAtGap(f, k);
    ShortText(head, tail);
    GapIsFirst(f, head, tail);
    ShortBytes(f, head, tail, AllButLast(tail));
    assert IsShort(s, head, tail);
  }

  lemma {:induction false} GapIsFirst(f: Fields, head: seq<string>, tail: seq<string>)
    requires f == ShortFields(head, tail) && AllH16(head)
    ensures f.done[0] == "" <==> head == []
  {}

  lemma {:induction false} ShortBytes(f: Fields, head: seq<string>, tail: seq<string>, rest: seq<string>)
    requires AllH16(head) && f == ShortFields(head, tail) && rest == AllButLast(tail)
    requires |Bytes(f.done) + TokenBytes(f.last)| < 16
    ensures |Bytes(head) + Bytes(tail)| <= 14
  {
    hide TokenBytes, AllH16;
    HeadRead(head);
    BytesAppend(head + [""], rest);
    BytesOfBody(tail);
    BytesEven(head);
    BytesEven(tail);
  }

  /** A text of the standard has none of the quirks. */
  lemma {:induction false} StandardHasNoQuirk(s: string)
    requires IsRfcText(s)
    ensures !IsQuirk(FieldsRead(s))
  {
    if ts :| IsFull(s, ts) {
      FullFields(s, ts);
    } else {
      var head, tail :| IsShort(s, head, tail);
      ShortFieldsNoQuirk(s, head, tail);
    }
  }

  lemma {:induction false} FullFields(s: string, ts: seq<string>)
    requires IsFull(s, ts)
    ensures !IsQuirk(FieldsRead(s))
  {
    var f := Fields(AllButLast(ts), Last(ts));
    FullAccepted(s, ts);
    BodyPlain(ts);
    SplitJoin(f, ':');
    FirstField(s);
    assert f.done != [] ==> f.done[0] == ts[0];
    assert FieldsRead(s) == f;
    GapMeansEmpty(f.done);
    BodyLengths(ts);
  }

  lemma {:induction false} BodyLengths(ts: seq<string>)
    requires IsBody(ts)
    ensures forall k | 0 <= k < |AllButLast(ts)| :: |AllButLast(ts)[k]| <= 4 && AllButLast(ts)[k] != ""
    ensures IsGroup(Last(ts)) ==> |Last(ts)| <= 4
    ensures IsQuad(Last(ts)) ==> !LongOctet(Last(ts))
    ensures ts != [] ==> Last(ts) != ""
  {
    hide IsQuad, IsDottedQuad, LongOctet, IsGroup;
    EmptyToken();
    DottedQuads(Last(ts));
    if IsQuad(Last(ts)) {
      QuadHasDots(Last(ts));
    }
    if IsH16(Last(ts)) {
      H16IsGroup(Last(ts));
    }
  }

  lemma {:induction false} ShortFieldsNoQuirk(s: string, head: seq<string>, tail: seq<string>)
    requires IsShort(s, head, tail)
    ensures !IsQuirk(FieldsRead(s))
  {
    hide TokenBytes, Bytes, GapAt, IsGroup, IsQuad, LongOctet, Split, Lead, Colons, FieldsRead;
    var f, rest := ShortFields(head, tail), AllButLast(tail);
    ShortText(head, tail);
    ShortPlain(head, tail);
    SplitJoin(f, ':');
    ReadShort(s, head, tail);
    BodyLengths(tail);
    forall k | 0 <= k < |f.done| ensures |f.done[k]| <= 4 {
      assert f.done[k] == if k < |head| then head[k] else if k == |head| then "" else rest[k - |head| - 1];
    }
    GroupsOfTail(head, tail);
  }

  lemma {:induction false} ReadShort(s: string, head: seq<string>, tail: seq<string>)
    requires AllH16(head) && IsBody(tail) && s == Colons(head) + "::" + Colons(tail)
    requires FieldsOf(Join(ShortFields(head, tail), ':'), ':') == ShortFields(head, tail)
    ensures FieldsRead(s) == ShortFields(head, tail)
  {
    var f := ShortFields(head, tail);
    ShortText(head, tail);
    if head == [] {
      assert s[1..] == Join(f, ':');
      assert s == "" + "::" + Colons(tail);
    } else {
      FirstField(s);
      assert f.done[0] == head[0];
    }
  }

  /**
   * inet_pton6 accepts exactly the standard's texts but for four liberties: a group with more than four digits, an
   * octet with more than three, one colon at the end, and a "::" in a full address.
   */
  lemma {:induction false} StandardUnlessQuirk(s: string)
    ensures IsRfcText(s) <==> Parse6(s).Some? && !IsQuirk(FieldsRead(s))
  {
    if IsRfcText(s) {
      AcceptsStandard(s);
      StandardHasNoQuirk(s);
    }
    if Parse6(s).Some? && !IsQuirk(FieldsRead(s)) {
      var f := FieldsRead(s);
      if GapAt(f.done) == None {
        FullFromFields(s);
      } else {
        GapMeansEmpty(f.done);
        var k: nat :| k < |f.done| && f.done[k] == "";
        ShortFromFields(s, k);
      }
    }
  }

  // ---------------------------------------------------------------- the liberties

  /** A "::" in a full address is not ignored: whatever is written after it is read as zeros. */
  lemma {:induction false} FullGapClearsTail(s: string, head: seq<string>, tail: seq<string>)
    requires AllH16(head) && IsBody(tail) && s == Colons(head) + "::" + Colons(tail)
    requires |Bytes(head) + Bytes(tail)| == 16
    ensures Parse6(s) == Some(Bytes(head) + Zeros(|Bytes(tail)|)) && !IsRfcText(s)
  {
    hide TokenBytes, Bytes, GapAt, IsRfcText, IsBody, AllH16;
    GapText(s, head, tail);
    TakeHead(Bytes(head), Bytes(tail));
    ShortText(head, tail);
    ShortPlain(head, tail);
    SplitJoin(ShortFields(head, tail), ':');
    ReadShort(s, head, tail);
    HeadRead(head);
    GroupsOfTail(head, tail);
    StandardUnlessQuirk(s);
  }

  lemma {:induction false} TakeHead<T>(b: seq<T>, c: seq<T>)
    ensures (b + c)[..|b|] == b && (b + c)[|b|..] == c
  {}

  lemma {:induction false} GroupsOfTail(head: seq<string>, tail: seq<string>)
    requires AllH16(head) && IsBody(tail)
    ensures var f := ShortFields(head, tail);
            GapAt(f.done).Some? && Bytes(f.done) + TokenBytes(f.last) == Bytes(head) + Bytes(tail)
  {
    hide TokenBytes, Bytes, GapAt, IsBody, AllH16, DoneOk;
    var rest := AllButLast(tail);
    HeadRead(head);
    BodyPlain(tail);
    BytesOfBody(tail);
    GroupsAppend(head + [""], rest);
    BytesAppend(head + [""], rest);
    assert (Bytes(head) + Bytes(rest)) + TokenBytes(Last(tail)) == Bytes(head) + Bytes(tail);
  }

  /** A colon after the last of eight groups is ignored. */
  lemma {:induction false} TrailingColonIgnored(s: string, ts: seq<string>)
    requires IsFull(s, ts) && AllH16(ts)
    ensures Parse6(s + ":") == Parse6(s) == Some(Bytes(ts)) && !IsRfcText(s + ":")
  {
    hide TokenBytes, Bytes, IsBody, IsRfcText, Split, Lead, IsGroup, DoneOk, GapAt;
    var f, g := Fields(AllButLast(ts), Last(ts)), Fields(ts, "");
    FullAccepted(s, ts);
    NoTokens();
    assert ts != [];
    forall k | 0 <= k < |ts| ensures IsGroup(ts[k]) && ':' !in ts[k] && ts[k] != "" {
      H16IsGroup(ts[k]);
    }
    assert ts == f.done + [f.last];
    LeadSnoc(f.done, f.last, ':');
    assert s + ":" == Lead(ts, ':') + "" == Join(g, ':');
    SplitJoin(g, ':');
    StartsPlain(g);
    GroupsAppend([], ts);
    assert [] + ts == ts;
    EmptyToken();
    Assoc(Bytes(ts), [], []);
    StandardUnlessQuirk(s + ":");
  }

  /** The closing quad may be padded as one likes. */
  lemma {:induction false} PaddedQuadTaken(q: string)
    requires IsQuad(q)
    ensures Parse6("::" + q) == Some(Zeros(12) + ParseQuad(q).value)
    ensures IsRfcText("::" + q) <==> !LongOctet(q)
  {
    hide Split, IsQuad, ParseQuad, IsRfcText, LongOctet;
    var s, g := "::" + q, Fields([""], q);
    QuadHasDots(q);
    TakeHead(":", ":" + q);
    assert s == ":" + (":" + q);
    LeadSnoc([], "", ':');
    assert [] + [""] == [""];
    assert s[1..] == Join(g, ':');
    SplitJoin(g, ':');
    NoTokens();
    BytesSnoc([], "");
    EmptyToken();
    QuadBytes(q);
    assert [] + TokenBytes(q) == TokenBytes(q);
    assert [] + Zeros(12) + TokenBytes(q) == Zeros(12) + TokenBytes(q);
    StandardUnlessQuirk(s);
  }

  lemma {:induction false} QuadBytes(q: string)
    requires IsQuad(q)
    ensures TokenBytes(q) == ParseQuad(q).value && |TokenBytes(q)| == 4
  {
    QuadHasDots(q);
  }

  /** And so may a group. */
  lemma {:induction false} PaddedGroupTaken(t: string)
    requires IsGroup(t)
    ensures Parse6(t + "::") == Some(TokenBytes(t) + Zeros(14))
    ensures IsRfcText(t + "::") <==> |t| <= 4
  {
    hide Split, IsRfcText;
    var s, g := t + "::", Fields([t, ""], "");
    LeadSnoc([], t, ':');
    LeadSnoc([t], "", ':');
    assert [] + [t] == [t] && [t] + [""] == [t, ""];
    assert s == Join(g, ':');
    GroupCharacters(t);
    SplitJoin(g, ':');
    StartsPlain(g);
    NoTokens();
    EmptyToken();
    BytesSnoc([], t);
    BytesSnoc([t], "");
    assert [] + TokenBytes(t) == TokenBytes(t);
    assert (TokenBytes(t) + []) + [] == TokenBytes(t);
    assert TokenBytes(t)[..2] + Zeros(14) + TokenBytes(t)[2..] == TokenBytes(t) + Zeros(14);
    StandardUnlessQuirk(s);
  }

  lemma {:induction false} GroupCharacters(t: string)
    requires IsGroup(t)
    ensures ':' !in t && !IsQuad("") && |TokenBytes(t)| == 2
  {
    EmptyToken();
  }

  // ---------------------------------------------------------------- one text for each

  lemma {:induction false} OneDigit(c: char)
    requires IsHexDigit(c)
    ensures IsH16([c]) && IsGroup([c]) && TokenBytes([c]) == [0, DigitValue(c)] && ':' !in [c] && '.' !in [c]
    ensures IsDigit(c) ==> IsOctet([c]) && DecValue([c]) == DigitValue(c)
  {
    hide ParseQuad, IsQuad;
    assert "" + [c] == [c];
    ValueSnoc("", c, 16);
    ValueSnoc("", c, 10);
  }

  lemma {:induction false} NoValue(radix: nat)
    ensures ValueIn("", radix) == 0
  {}

  /** A zero in front does not change the value. */
  lemma {:induction false} ZeroInFront(t: string, radix: nat)
    requires AllHex(t)
    ensures AllHex("0" + t) && ValueIn("0" + t, radix) == ValueIn(t, radix)
  {
    NoValue(radix);
    hide ValueIn;
    if t == "" {
      assert "" + ['0'] == "0" + t;
      ValueSnoc("", '0', radix);
      assert 0 * radix == 0;
    } else {
      var u, c := t[..|t| - 1], t[|t| - 1];
      ZeroInFront(u, radix);
      assert u + [c] == t && ("0" + u) + [c] == "0" + t;
      ValueSnoc(u, c, radix);
      ValueSnoc("0" + u, c, radix);
    }
  }

  function Four(a: char, b: char, c: char, d: char): seq<string> { [[a], [b], [c], [d]] }

  lemma {:induction false} DigitSnoc(ts: seq<string>, d: char)
    requires AllH16(ts) && IsBody(ts) && IsHexDigit(d)
    ensures AllH16(ts + [[d]]) && IsBody(ts + [[d]])
    ensures Bytes(ts + [[d]]) == Bytes(ts) + [0, DigitValue(d)]
    ensures Lead(ts + [[d]], ':') == Lead(ts, ':') + [d, ':']
  {
    hide IsGroup, TokenBytes, IsQuad, IsDottedQuad, IsH16, DigitValue, Lead, Bytes;
    OneDigit(d);
    LeadSnoc(ts, [d], ':');
    BytesSnoc(ts, [d]);
    assert Lead(ts, ':') + [d] + [':'] == Lead(ts, ':') + [d, ':'];
  }

  lemma {:induction false} FourDigits(a: char, b: char, c: char, d: char)
    requires IsHexDigit(a) && IsHexDigit(b) && IsHexDigit(c) && IsHexDigit(d)
    ensures AllH16(Four(a, b, c, d)) && IsBody(Four(a, b, c, d))
    ensures Bytes(Four(a, b, c, d)) == [0, DigitValue(a), 0, DigitValue(b), 0, DigitValue(c), 0, DigitValue(d)]
    ensures Lead(Four(a, b, c, d), ':') == [a, ':', b, ':', c, ':', d, ':']
  {
    NoTokens();
    assert Lead([], ':') == "" && AllH16([]) && IsBody([]);
    hide IsGroup, TokenBytes, IsQuad, IsDottedQuad, IsH16, DigitValue, Lead, Bytes, AllH16, IsBody;
    assert [[a], [b], [c]] + [[d]] == Four(a, b, c, d) && [[a], [b]] + [[c]] == [[a], [b], [c]];
    assert [[a]] + [[b]] == [[a], [b]] && [] + [[a]] == [[a]];
    DigitSnoc([], a);
    DigitSnoc([[a]], b);
    DigitSnoc([[a], [b]], c);
    DigitSnoc([[a], [b], [c]], d);
  }

  /** The digits 1 to 8, in two halves. */
  lemma {:induction false} OneToEight()
    ensures var head, tail := Four('1', '2', '3', '4'), Four('5', '6', '7', '8');
            && AllH16(head) && AllH16(tail) && IsBody(tail)
            && Bytes(head) == [0, 1, 0, 2, 0, 3, 0, 4] && Bytes(tail) == [0, 5, 0, 6, 0, 7, 0, 8]
            && Colons(head) == "1:2:3:4" && Colons(tail) == "5:6:7:8"
            && IsFull("1:2:3:4:5:6:7:8", head + tail) && AllH16(head + tail)
  {
    hide IsQuad, IsDottedQuad, Bytes, Lead;
    var head, tail := Four('1', '2', '3', '4'), Four('5', '6', '7', '8');
    FourDigits('1', '2', '3', '4');
    FourDigits('5', '6', '7', '8');
    HeadLead(head);
    HeadLead(tail);
    HeadLead(head + tail);
    LeadAppend(head, tail, ':');
    BytesAppend(head, tail);
    Unended(Colons(head), "1:2:3:4");
    Unended(Colons(tail), "5:6:7:8");
    Unended(Colons(head + tail), "1:2:3:4:5:6:7:8");
  }

  lemma {:induction false} Unended(x: string, y: string)
    requires x + ":" == y + ":"
    ensures x == y
  {
    assert x == (x + ":")[..|x|] && y == (y + ":")[..|y|];
  }

  lemma {:induction false} TrailingColonExample()
    ensures Parse6("1:2:3:4:5:6:7:8:") == Some([0, 1, 0, 2, 0, 3, 0, 4, 0, 5, 0, 6, 0, 7, 0, 8])
    ensures !IsRfcText("1:2:3:4:5:6:7:8:")
  {
    hide IsRfcText, Parse6, Bytes, IsFull, Four;
    OneToEight();
    var head, tail := Four('1', '2', '3', '4'), Four('5', '6', '7', '8');
    TrailingColonIgnored("1:2:3:4:5:6:7:8", head + tail);
    BytesAppend(head, tail);
    var b: seq<byte> := [0, 1, 0, 2, 0, 3, 0, 4] + [0, 5, 0, 6, 0, 7, 0, 8];
    assert Bytes(head + tail) == b == [0, 1, 0, 2, 0, 3, 0, 4, 0, 5, 0, 6, 0, 7, 0, 8];
    assert "1:2:3:4:5:6:7:8" + ":" == "1:2:3:4:5:6:7:8:";
  }

  lemma {:induction false} FullGapExample()
    ensures Parse6("1:2:3:4::5:6:7:8") == Some([0, 1, 0, 2, 0, 3, 0, 4, 0, 0, 0, 0, 0, 0, 0, 0])
    ensures !IsRfcText("1:2:3:4::5:6:7:8")
  {
    hide IsRfcText, Parse6, Bytes, Colons, Four, IsBody, AllH16;
    OneToEight();
    var head, b: seq<byte> := Four('1', '2', '3', '4'), [0, 1, 0, 2, 0, 3, 0, 4];
    assert |Bytes(head) + Bytes(Four('5', '6', '7', '8'))| == 16;
    assert b + Zeros(8) == [0, 1, 0, 2, 0, 3, 0, 4, 0, 0, 0, 0, 0, 0, 0, 0];
    assert "1:2:3:4" + "::" + "5:6:7:8" == "1:2:3:4::5:6:7:8";
    FullGapClearsTail("1:2:3:4::5:6:7:8", head, Four('5', '6', '7', '8'));
  }

  lemma {:induction false} PaddedGroupExample()
    ensures Parse6("00001::") == Some([0, 1] + Zeros(14)) && !IsRfcText("00001::")
  {
    hide IsRfcText, Parse6;
    Padded1(16);
    assert IsGroup("00001");
    PaddedGroupTaken("00001");
    assert "00001" + "::" == "00001::";
  }

  lemma {:induction false} Padded1(radix: nat)
    ensures AllHex("00001") && ValueIn("00001", radix) == 1 && AllHex("0001") && ValueIn("0001", radix) == 1
  {
    assert "" + "1" == "1";
    ValueSnoc("", '1', radix);
    ZeroInFront("1", radix);
    ZeroInFront("01", radix);
    ZeroInFront("001", radix);
    ZeroInFront("0001", radix);
    assert "0" + "1" == "01" && "0" + "01" == "001" && "0" + "001" == "0001" && "0" + "0001" == "00001";
  }

  lemma {:induction false} PaddedQuadExample()
    ensures Parse6("::0001.2.3.4") == Some(Zeros(12) + [1, 2, 3, 4]) && !IsRfcText("::0001.2.3.4")
  {
    hide IsRfcText, Parse6, Split;
    Padded1(10);
    OneDigit('2');
    OneDigit('3');
    OneDigit('4');
    var q := Dotted("0001", "2", "3", "4");
    DottedFields("0001", "2", "3", "4");
    assert FieldsOf(q, '.') == Fields(["0001", "2", "3"], "4");
    assert |FieldsOf(q, '.').done[0]| > 3;
    PaddedQuadTaken(q);
    assert q == "0001.2.3.4" && "::" + q == "::0001.2.3.4";
  }
}
