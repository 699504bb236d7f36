/** inet_pton6: a byte-by-byte parser with one backward look, and an in-place shift. */
module Inet6Parse {
  import opened Text
  import opened Inet4
  import opened Inet6

  /** What the parser knows at the head of its loop. */
  predicate Reading6(f: Fields) {
    DoneOk(f.done) && |Bytes(f.done)| <= 16 && AllHex(f.last) && HexValue(f.last) <= 0xffff
  }

  /** One token that is no token rules the whole text out. */
  lemma {:induction false} BadToken(g: Fields, n: nat, t: string)
    requires n <= |g.done| && t == if n == |g.done| then g.last else g.done[n]
    requires t != "" && !IsGroup(t) && (n == |g.done| ==> !IsQuad(t))
    ensures ParseFields(g) == None
  {
    DoneOkMeans(g.done);
  }

  /** The token being read, and what is known of it. */
  lemma {:induction false} CurrentToken(src: string, i: nat) returns (t: string)
    requires i <= |src|
    ensures var f, g := Split(src, i, ':'), FieldsOf(src, ':');
            && |f.done| <= |g.done|
            && t == (if |f.done| == |g.done| then g.last else g.done[|f.done|])
            && |f.last| <= |t| && t[..|f.last|] == f.last
  {
    SplitPrefix(src, i, |src|, ':');
    var f, g := Split(src, i, ':'), FieldsOf(src, ':');
    t := if |f.done| == |g.done| then g.last else g.done[|f.done|];
  }

  /** A number above 0xffff spoils the text: a dotted quad never reads that high. */
  lemma {:induction false} TooHigh(src: string, i: nat)
    requires i <= |src| && AllHex(Split(src, i, ':').last) && HexValue(Split(src, i, ':').last) > 0xffff
    ensures ParseFields(FieldsOf(src, ':')) == None
  {
    var p := Split(src, i, ':').last;
    var t := CurrentToken(src, i);
    if IsGroup(t) {
      ValueGrows(t, |p|, 16);
    }
    if IsQuad(t) {
      QuadStartAsHex(t, |p|);
    }
    BadToken(FieldsOf(src, ':'), |Split(src, i, ':').done|, t);
  }

  /** So does a character that is no digit, colon or dot. */
  lemma {:induction false} BadCharacter(src: string, i: nat)
    requires i < |src| && !IsHexDigit(src[i]) && src[i] != ':' && src[i] != '.'
    ensures ParseFields(FieldsOf(src, ':')) == None
  {
    var n := |Split(src, i, ':').last|;
    var t := CurrentToken(src, i + 1);
    assert t[..n + 1][n] == src[i];
    if IsQuad(t) {
      QuadCharacters(t, n);
    }
    BadToken(FieldsOf(src, ':'), |Split(src, i, ':').done|, t);
  }

  /** So does a dot, unless a dotted quad runs from the current token to the end. */
  lemma {:induction false} BadDot(src: string, i: nat)
    requires i < |src| && src[i] == '.'
    requires var start := |Lead(Split(src, i, ':').done, ':')|;
             start <= |src| && !IsQuad(src[start..])
    ensures ParseFields(FieldsOf(src, ':')) == None
  {
    var f, g := Split(src, i, ':'), FieldsOf(src, ':');
    var t := CurrentToken(src, i + 1);
    assert t[..|f.last| + 1][|f.last|] == '.';
    if |f.done| == |g.done| {
      SplitPrefix(src, i, |src|, ':');
      JoinSplit(src, |src|, ':');
      assert g.done == f.done;
      assert src == Lead(f.done, ':') + t;
    }
    BadToken(g, |f.done|, t);
  }

  /** A dotted quad from the current token to the end is the last token. */
  lemma {:induction false} QuadIsLast(src: string, i: nat)
    requires i <= |src|
    requires var start := |Lead(Split(src, i, ':').done, ':')|;
             start <= |src| && IsQuad(src[start..])
    ensures var f := Split(src, i, ':');
            FieldsOf(src, ':') == Fields(f.done, src[|Lead(f.done, ':')|..])
    ensures IsQuad(FieldsOf(src, ':').last) && |TokenBytes(FieldsOf(src, ':').last)| == 4
  {
    hide Split, Lead, IsQuad, ParseQuad;
    var f := Split(src, i, ':');
    var start := |Lead(f.done, ':')|;
    var t := src[start..];
    TokenStart(src, i);
    QuadHasDots(t);
    QuadTokenSize(t);
    forall k | start <= k < |src| ensures src[k] != ':' { assert src[k] == t[k - start]; }
    SplitExtend(src, start, |src|, ':');
    assert "" + t == t;
  }

  lemma {:induction false} QuadTokenSize(t: string)
    requires IsQuad(t)
    ensures |TokenBytes(t)| == 4
  {
    QuadHasDots(t);
  }

  /** A colon after a token ends a group that fits, or spoils the text. */
  lemma {:induction false} AtGroupEnd(src: string, i: nat, f: Fields, g: Fields)
    requires i < |src| && src[i] == ':' && f == Split(src, i, ':') && g == Split(src, i + 1, ':')
    requires Reading6(f) && f.last != ""
    ensures IsGroup(f.last) && g.last == "" && GapAt(g.done) == GapAt(f.done)
    ensures Bytes(g.done) == Bytes(f.done) + TokenBytes(f.last)
    ensures if |Bytes(f.done)| <= 14 then Reading6(g) else ParseFields(FieldsOf(src, ':')) == None
  {
    BytesSnoc(f.done, f.last);
    SplitPrefix(src, i + 1, |src|, ':');
    BytesPrefix(g.done, FieldsOf(src, ':').done);
  }

  /** A colon after a colon opens the only gap, or spoils the text. */
  lemma {:induction false} AtGap(src: string, i: nat, f: Fields, g: Fields)
    requires i < |src| && src[i] == ':' && f == Split(src, i, ':') && g == Split(src, i + 1, ':')
    requires Reading6(f) && f.last == ""
    ensures g.last == "" && Bytes(g.done) == Bytes(f.done)
    ensures if GapAt(f.done) == None then Reading6(g) && GapAt(g.done) == Some(|Bytes(f.done)|)
            else ParseFields(FieldsOf(src, ':')) == None
  {
    EmptyToken();
    assert Bytes(f.done) + [] == Bytes(f.done);
    assert g == Fields(f.done + [""], "");
    BytesSnoc(f.done, "");
    SplitPrefix(src, i + 1, |src|, ':');
    BytesPrefix(g.done, FieldsOf(src, ':').done);
  }

  /** A digit extends the token, or takes it past 0xffff. */
  lemma {:induction false} AtDigit(src: string, i: nat, f: Fields, g: Fields)
    requires i < |src| && IsHexDigit(src[i]) && f == Split(src, i, ':') && g == Split(src, i + 1, ':')
    requires Reading6(f)
    ensures g == Fields(f.done, f.last + [src[i]])
    ensures AllHex(g.last) && HexValue(g.last) == HexValue(f.last) * 16 + DigitValue(src[i])
    ensures if HexValue(g.last) <= 0xffff then Reading6(g) else ParseFields(FieldsOf(src, ':')) == None
  {
    ValueSnoc(f.last, src[i], 16);
    if HexValue(g.last) > 0xffff {
      TooHigh(src, i + 1);
    }
  }

  /** The current token starts right after the tokens that colons ended. */
  lemma {:induction false} TokenStart(src: string, i: nat)
    requires i <= |src|
    ensures var f := Split(src, i, ':');
            var start := |Lead(f.done, ':')|;
            && start + |f.last| == i
            && src[..start] == Lead(f.done, ':')
            && Split(src, start, ':') == Fields(f.done, "")
  {
    var f := Split(src, i, ':');
    JoinSplit(src, i, ':');
    SplitFields(src, i, ':');
    SplitLead(f.done, ':');
    var start := |Lead(f.done, ':')|;
    assert src[..i][..start] == src[..start];
    SplitSame(src, Lead(f.done, ':'), start, ':');
  }

  /** What widening leaves, byte by byte. */
  lemma {:induction false} ShiftIsWiden(b: seq<byte>, at: nat, m: seq<byte>)
    requires at <= |b| <= 16 == |m|
    requires forall p | 0 <= p < at :: m[p] == b[p]
    requires forall p | at <= p < at + 16 - |b| :: m[p] == 0
    requires forall p | at + 16 - |b| <= p < 16 :: m[p] == if |b| == 16 then 0 else b[p - (16 - |b|)]
    ensures Widen(b, Some(at)) == Some(m)
  {
    assert |b| < 16 ==> m == b[..at] + Zeros(16 - |b|) + b[at..];
    assert |b| == 16 ==> m == b[..at] + Zeros(16 - at);
  }

  /** memset-and-shift by hand: moves `tmp[at..tp]` to the end and clears what it leaves. */
  method ShiftTail(tmp: array<byte>, tp: nat, at: nat)
    requires tmp.Length == 16 && at <= tp <= 16
    requires forall k | tp <= k < 16 :: tmp[k] == 0
    modifies tmp
    ensures Widen(old(tmp[..tp]), Some(at)) == Some(tmp[..])
  {
    hide Widen, Zeros;
    var n := tp - at;
    var i := 1;
    ghost var was := tmp[..];
    ghost var gap := 16 - tp;
    while i <= n
      invariant 1 <= i <= n + 1
      invariant forall p | 0 <= p < tp - (i - 1) :: tmp[p] == was[p]
      invariant forall p | tp - (i - 1) <= p < 16 - (i - 1) :: tmp[p] == 0
      invariant forall p | 16 - (i - 1) <= p < 16 :: tmp[p] == if gap == 0 then 0 else was[p - gap]
    {
      tmp[16 - i] := tmp[at + n - i];
      tmp[at + n - i] := 0;
      i := i + 1;
    }
    ShiftIsWiden(was[..tp], at, tmp[..]);
  }

  /** The parser's sixteen bytes once `b` has been written. */
  function Padded(b: seq<byte>): (p: seq<byte>)
    requires |b| <= 16
    ensures |p| == 16
  {
    b + Zeros(16 - |b|)
  }

  lemma {:induction false} PaddedWrite(b: seq<byte>, c: seq<byte>)
    requires |b + c| <= 16
    ensures Padded(b)[..|b|] + c + Padded(b)[|b| + |c|..] == Padded(b + c)
  {}

  /** Writes the two bytes of a group after `b`. */
  method PutGroup(tmp: array<byte>, tp: nat, val: nat, ghost b: seq<byte>, ghost t: string)
    requires tmp.Length == 16 && |b| == tp <= 14 && tmp[..] == Padded(b)
    requires IsGroup(t) && val == HexValue(t)
    modifies tmp
    ensures tmp[..] == Padded(b + TokenBytes(t))
  {
    tmp[tp] := val / 0x100;
    tmp[tp + 1] := val % 0x100;
    PaddedWrite(b, TokenBytes(t));
  }

  /** Writes the four bytes of a dotted quad after `b`. */
  method PutQuad(src: string, tmp: array<byte>, tp: nat, ghost b: seq<byte>) returns (ok: bool)
    requires tmp.Length == 16 && |b| == tp <= 12 && tmp[..] == Padded(b)
    modifies tmp
    ensures ok <==> IsQuad(src)
    ensures ok ==> tmp[..] == Padded(b + TokenBytes(src)) && |TokenBytes(src)| == 4
  {
    ok := InetPton4(src, tmp, tp);
    if ok {
      QuadHasDots(src);
      PaddedWrite(b, TokenBytes(src));
    }
  }

  /** Reads `src` into `dst`; touches `dst` only on success. */
  method InetPton6(src: string, dst: array<byte>) returns (ok: bool)
    requires dst.Length == 16
    modifies dst
    ensures ok <==> Parse6(src).Some?
    ensures dst[..] == if ok then Parse6(src).value else old(dst[..])
  {
    var tmp := new byte[16](_ => 0);
    if src != "" && src[0] == ':' {
      if |src| == 1 || src[1] != ':' {
        return false;
      }
      ok := Tokens(src[1..], tmp);
    } else {
      ok := Tokens(src, tmp);
    }
    if ok {
      CopyBytes(tmp, dst, 0);
      assert dst[..] == tmp[..];
    }
  }

  /** The parser's variables after the fields `f`, between characters. */
  ghost predicate State(f: Fields, m: seq<byte>, tp: nat, colonp: Option<nat>, sawXdigit: bool, val: nat) {
    && Reading6(f)
    && tp == |Bytes(f.done)| && m == Padded(Bytes(f.done))
    && colonp == GapAt(f.done)
    && sawXdigit == (f.last != "") && val == HexValue(f.last)
  }

  /** The colon branch of the loop. */
  method Colon(ghost src: string, ghost i: nat, tmp: array<byte>, tp: nat, colonp: Option<nat>, sawXdigit: bool, val: nat)
      returns (ok: bool, tp': nat, colonp': Option<nat>)
    requires i < |src| && src[i] == ':' && tmp.Length == 16
    requires State(Split(src, i, ':'), tmp[..], tp, colonp, sawXdigit, val)
    modifies tmp
    ensures if ok then Split(src, i + 1, ':').last == "" && State(Split(src, i + 1, ':'), tmp[..], tp', colonp', false, 0)
            else ParseFields(FieldsOf(src, ':')) == None
  {
    ghost var f, g := Split(src, i, ':'), Split(src, i + 1, ':');
    tp', colonp' := tp, colonp;
    if !sawXdigit {
      AtGap(src, i, f, g);
      if colonp.Some? {
        return false, tp, colonp;
      }
      colonp' := Some(tp);
    } else {
      AtGroupEnd(src, i, f, g);
      if tp + 2 > 16 {
        return false, tp, colonp;
      }
      PutGroup(tmp, tp, val, Bytes(f.done), f.last);
      tp' := tp + 2;
    }
    ok := true;
  }

  /** The dot branch: a dotted quad must run from the current token to the end. */
  method Dot(src: string, curtok: nat, ghost i: nat, tmp: array<byte>, tp: nat, ghost colonp: Option<nat>, ghost saw: bool, ghost val: nat)
      returns (ok: bool, tp': nat)
    requires i < |src| && src[i] == '.' && curtok == i - |Split(src, i, ':').last| && tmp.Length == 16
    requires State(Split(src, i, ':'), tmp[..], tp, colonp, saw, val)
    modifies tmp
    ensures if ok then Written(FieldsOf(src, ':'), tmp[..], tp', colonp) else ParseFields(FieldsOf(src, ':')) == None
  {
    hide Split, Lead, TokenBytes, IsQuad, DoneOk, GapAt, Bytes, IsGroup;
    ghost var f := Split(src, i, ':');
    TokenStart(src, i);
    if IsQuad(src[curtok..]) {
      QuadIsLast(src, i);
    } else {
      BadDot(src, i);
    }
    if tp + 4 > 16 {
      return false, tp;
    }
    ok := PutQuad(src[curtok..], tmp, tp, Bytes(f.done));
    tp' := tp + 4;
  }

  /** All tokens are read and their bytes stand in `m`. */
  ghost predicate Written(f: Fields, m: seq<byte>, tp: nat, colonp: Option<nat>) {
    var b := Bytes(f.done) + TokenBytes(f.last);
    WellFormed(f) && colonp == GapAt(f.done) && tp == |b| <= 16 && m == Padded(b)
  }

  /** inet_pton6 from `curtok = src` on, down to the test that sixteen bytes are there. */
  method Tokens(src: string, tmp: array<byte>) returns (ok: bool)
    requires tmp.Length == 16 && tmp[..] == Padded([])
    modifies tmp
    ensures ok <==> ParseFields(FieldsOf(src, ':')).Some?
    ensures ok ==> tmp[..] == ParseFields(FieldsOf(src, ':')).value
  {
    var tp := 0;
    var colonp: Option<nat> := None;
    var curtok, i := 0, 0;
    var sawXdigit := false;
    var val: nat := 0;
    while i < |src|
      invariant i <= |src|
      invariant curtok == i - |Split(src, i, ':').last|
      invariant State(Split(src, i, ':'), tmp[..], tp, colonp, sawXdigit, val)
    {
      var ch := src[i];
      if IsHexDigit(ch) {
        AtDigit(src, i, Split(src, i, ':'), Split(src, i + 1, ':'));
        val := val * 16 + DigitValue(ch);
        if val > 0xffff {
          return false;
        }
        sawXdigit := true;
      } else if ch == ':' {
        curtok := i + 1;
        ok, tp, colonp := Colon(src, i, tmp, tp, colonp, sawXdigit, val);
        if !ok {
          return;
        }
        sawXdigit, val := false, 0;
      } else if ch == '.' {
        ok, tp := Dot(src, curtok, i, tmp, tp, colonp, sawXdigit, val);
        if ok {
          ok := Finish(tmp, tp, colonp, FieldsOf(src, ':'));
        }
        return;
      } else {
        BadCharacter(src, i);
        return false;
      }
      i := i + 1;
    }
    ok, tp := LastToken(FieldsOf(src, ':'), tmp, tp, colonp, sawXdigit, val);
    if ok {
      ok := Finish(tmp, tp, colonp, FieldsOf(src, ':'));
    }
  }

  /** The terminator ends the last token. */
  method LastToken(ghost f: Fields, tmp: array<byte>, tp: nat, ghost colonp: Option<nat>, sawXdigit: bool, val: nat)
      returns (ok: bool, tp': nat)
    requires tmp.Length == 16 && State(f, tmp[..], tp, colonp, sawXdigit, val)
    modifies tmp
    ensures if ok then Written(f, tmp[..], tp', colonp) else ParseFields(f) == None
  {
    ok, tp' := true, tp;
    if sawXdigit {
      if tp + 2 > 16 {
        return false, tp;
      }
      PutGroup(tmp, tp, val, Bytes(f.done), f.last);
      tp' := tp + 2;
    } else {
      EmptyToken();
      assert Bytes(f.done) + [] == Bytes(f.done);
    }
  }

  /** After the loop: widen the gap, and accept exactly sixteen bytes. */
  method Finish(tmp: array<byte>, tp: nat, colonp: Option<nat>, ghost f: Fields) returns (ok: bool)
    requires tmp.Length == 16 && Written(f, tmp[..], tp, colonp)
    modifies tmp
    ensures ok <==> ParseFields(f).Some?
    ensures ok ==> tmp[..] == ParseFields(f).value
  {
    GapInside(f.done);
    ghost var b := Bytes(f.done) + TokenBytes(f.last);
    var end := tp;
    assert tmp[..tp] == b;
    if colonp.Some? {
      ShiftTail(tmp, tp, colonp.value);
      end := 16;
    }
    assert ParseFields(f) == Widen(b, colonp);
    ok := end == 16;
    assert ok && colonp == None ==> tmp[..] == b;
  }
}
