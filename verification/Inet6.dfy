/** What IPv6 text denotes, token by token: the reference that inet_pton6 is proved against. */
module Inet6 {
  import opened Text
  import opened Inet4

  predicate IsGroup(t: string) { t != "" && AllHex(t) && HexValue(t) <= 0xffff }

  /** The bytes that one token between colons stands for. */
  function TokenBytes(t: string): seq<byte> {
    if IsGroup(t) then [HexValue(t) / 0x100, HexValue(t) % 0x100]
    else if IsQuad(t) then ParseQuad(t).value
    else []
  }

  function Bytes(ts: seq<string>): seq<byte> {
    if ts == [] then [] else Bytes(ts[..|ts| - 1]) + TokenBytes(ts[|ts| - 1])
  }

  /** Where, in bytes, the first empty token stands. */
  function GapAt(ts: seq<string>): Option<nat> {
    if ts == [] then None
    else if GapAt(ts[..|ts| - 1]).Some? then GapAt(ts[..|ts| - 1])
    else if ts[|ts| - 1] == "" then Some(|Bytes(ts[..|ts| - 1])|)
    else None
  }

  /** Tokens that a colon ended: groups, and at most one empty token. */
  predicate DoneOk(ts: seq<string>) {
    ts == [] ||
    var before, t := ts[..|ts| - 1], ts[|ts| - 1];
    DoneOk(before) && (IsGroup(t) || (t == "" && GapAt(before) == None))
  }

  /** The final token may also be a dotted quad. */
  predicate WellFormed(f: Fields) {
    DoneOk(f.done) && (f.last == "" || IsGroup(f.last) || IsQuad(f.last))
  }

  function Zeros(n: nat): (z: seq<byte>)
    ensures |z| == n && forall k | 0 <= k < n :: z[k] == 0
  {
    seq(n, _ => 0)
  }

  /** The address, where zeros widen the gap to sixteen bytes. A gap in a full address clears what follows it. */
  function Widen(b: seq<byte>, gap: Option<nat>): (r: Option<seq<byte>>)
    requires gap.Some? ==> gap.value <= |b|
    ensures r.Some? ==> |r.value| == 16
  {
    if |b| > 16 then None
    else if gap == None then (if |b| == 16 then Some(b) else None)
    else if |b| < 16 then Some(b[..gap.value] + Zeros(16 - |b|) + b[gap.value..])
    else Some(b[..gap.value] + Zeros(16 - gap.value))
  }

  ghost function ParseFields(f: Fields): Option<seq<byte>> {
    GapInside(f.done);
    if WellFormed(f) then Widen(Bytes(f.done) + TokenBytes(f.last), GapAt(f.done)) else None
  }

  lemma {:induction false} GapInside(ts: seq<string>)
    ensures GapAt(ts).Some? ==> GapAt(ts).value <= |Bytes(ts)|
  {
    if ts != [] {
      GapInside(ts[..|ts| - 1]);
    }
  }

  /** The address that a text denotes: a leading colon must be one of a pair. */
  ghost function Parse6(s: string): (r: Option<seq<byte>>)
    ensures r.Some? ==> |r.value| == 16
  {
    if s != "" && s[0] == ':' then
      if |s| > 1 && s[1] == ':' then ParseFields(FieldsOf(s[1..], ':')) else None
    else
      ParseFields(FieldsOf(s, ':'))
  }

  /** A second colon pair is "silently ignored" in a full address only when zeros, or nothing, follow it. */
  lemma {:induction false} GapInFullAddress(f: Fields)
    requires WellFormed(f) && GapAt(f.done).Some? && |Bytes(f.done) + TokenBytes(f.last)| == 16
    ensures var b := Bytes(f.done) + TokenBytes(f.last);
            ParseFields(f) == Some(b) <==> forall k | GapAt(f.done).value <= k < 16 :: b[k] == 0
  {
    GapInside(f.done);
    var b, o := Bytes(f.done) + TokenBytes(f.last), GapAt(f.done).value;
    var w := b[..o] + Zeros(16 - o);
    assert ParseFields(f) == Some(w);
    if forall k | o <= k < 16 :: b[k] == 0 {
      assert w == b;
    } else {
      var k :| o <= k < 16 && b[k] != 0;
      assert w[k] == 0;
    }
  }

  // ---------------------------------------------------------------- snoc forms

  lemma {:induction false} EmptyToken()
    ensures TokenBytes("") == [] && !IsGroup("") && !IsQuad("")
  {}

  lemma {:induction false} BytesSnoc(ts: seq<string>, t: string)
    ensures Bytes(ts + [t]) == Bytes(ts) + TokenBytes(t)
    ensures DoneOk(ts + [t]) <==> DoneOk(ts) && (IsGroup(t) || (t == "" && GapAt(ts) == None))
    ensures GapAt(ts + [t]) == if GapAt(ts).Some? then GapAt(ts) else if t == "" then Some(|Bytes(ts)|) else None
  {}

  lemma {:induction false} BytesPrefix(ts: seq<string>, us: seq<string>)
    requires ts <= us
    ensures Bytes(ts) <= Bytes(us) && (DoneOk(us) ==> DoneOk(ts))
  {
    if ts != us {
      var n := |us| - 1;
      assert us[..n] + [us[n]] == us;
      BytesSnoc(us[..n], us[n]);
      BytesPrefix(ts, us[..n]);
    }
  }

  lemma {:induction false} GapMeansEmpty(ts: seq<string>)
    ensures GapAt(ts).Some? <==> exists k :: 0 <= k < |ts| && ts[k] == ""
  {
    if ts != [] {
      var n := |ts| - 1;
      GapMeansEmpty(ts[..n]);
      if k :| 0 <= k < |ts| && ts[k] == "" {
        assert k < n ==> ts[..n][k] == "";
      }
      if GapAt(ts[..n]).Some? {
        var k :| 0 <= k < n && ts[..n][k] == "";
        assert ts[k] == "";
      }
    }
  }

  /** Every ended token is a group, but for one empty token at most. */
  lemma {:induction false} DoneOkMeans(ts: seq<string>)
    ensures DoneOk(ts) <==>
              && (forall k | 0 <= k < |ts| :: ts[k] == "" || IsGroup(ts[k]))
              && (forall j, k | 0 <= j < k < |ts| :: ts[j] != "" || ts[k] != "")
  {
    if ts != [] {
      var n := |ts| - 1;
      var before := ts[..n];
      DoneOkMeans(before);
      GapMeansEmpty(before);
      assert forall k | 0 <= k < n :: before[k] == ts[k];
      if DoneOk(ts) {
        forall j, k | 0 <= j < k < |ts| ensures ts[j] != "" || ts[k] != "" {
          assert before[j] == ts[j];
          assert k < n ==> before[k] == ts[k];
        }
      }
    }
  }

  /** A dotted quad has dots, so it is no group; a group and an empty token have none. */
  lemma {:induction false} QuadHasDots(t: string)
    requires IsQuad(t)
    ensures '.' in t && !IsGroup(t) && t != "" && ':' !in t
  {
    if '.' !in t {
      SplitExtend(t, 0, |t|, '.');
    }
    var k :| 0 <= k < |t| && t[k] == '.';
    assert !IsHexDigit(t[k]);
    if ':' in t {
      var j :| 0 <= j < |t| && t[j] == ':';
      QuadCharacters(t, j);
    }
  }

  lemma {:induction false} NoTokens()
    ensures DoneOk([]) && GapAt([]) == None && Bytes([]) == []
  {}

  lemma {:induction false} Assoc(x: seq<byte>, y: seq<byte>, z: seq<byte>)
    ensures (x + y) + z == x + (y + z) && x + [] == x
  {}

  lemma {:induction false} BytesAppend(ts: seq<string>, us: seq<string>)
    ensures Bytes(ts + us) == Bytes(ts) + Bytes(us)
  {
    hide *;
    if us == [] {
      assert ts + us == ts;
      NoTokens();
      Assoc(Bytes(ts), [], []);
    } else {
      var n := |us| - 1;
      var before := us[..n];
      assert us == before + [us[n]] && ts + us == (ts + before) + [us[n]];
      BytesAppend(ts, before);
      BytesSnoc(before, us[n]);
      BytesSnoc(ts + before, us[n]);
      Assoc(Bytes(ts), Bytes(before), TokenBytes(us[n]));
    }
  }

  /** Groups add no gap. */
  lemma {:induction false} GroupsAppend(ts: seq<string>, us: seq<string>)
    requires DoneOk(ts) && forall k | 0 <= k < |us| :: IsGroup(us[k])
    ensures DoneOk(ts + us) && GapAt(ts + us) == GapAt(ts)
  {
    if us == [] {
      assert ts + us == ts;
    } else {
      var n := |us| - 1;
      GroupsAppend(ts, us[..n]);
      assert ts + us == (ts + us[..n]) + [us[n]];
      BytesSnoc(ts + us[..n], us[n]);
    }
  }

  /** Dropping the first of two leading colons drops the first, empty, field. */
  lemma {:induction false} DropFirst(f: Fields)
    requires |f.done| >= 2 && f.done[0] == "" && f.done[1] == ""
    requires ':' !in f.last && forall k | 0 <= k < |f.done| :: ':' !in f.done[k]
    ensures var s := Join(f, ':');
            |s| >= 2 && s[0] == ':' && s[1] == ':' && FieldsOf(s[1..], ':') == Fields(f.done[1..], f.last)
  {
    var s, g := Join(f, ':'), Fields(f.done[1..], f.last);
    assert f.done == [""] + g.done && g.done == [""] + g.done[1..];
    assert [""] == [] + [""];
    LeadSnoc([], "", ':');
    assert Lead([""], ':') == ":";
    LeadAppend([""], g.done, ':');
    LeadAppend([""], g.done[1..], ':');
    assert s == ":" + Join(g, ':');
    assert s[1..] == Join(g, ':');
    SplitJoin(g, ':');
  }

  /** A text whose first field is not empty does not start with a colon. */
  lemma {:induction false} StartsPlain(f: Fields)
    requires f.done != [] && f.done[0] != "" && ':' !in f.done[0]
    ensures var s := Join(f, ':');
            s != "" && s[0] != ':'
  {
    assert f.done == [f.done[0]] + f.done[1..];
    assert [f.done[0]] == [] + [f.done[0]];
    LeadSnoc([], f.done[0], ':');
    LeadAppend([f.done[0]], f.done[1..], ':');
    assert Join(f, ':')[0] == f.done[0][0];
  }
}
