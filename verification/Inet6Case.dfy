/** Upper and lower case in IPv6 text: inet_pton6 looks a digit up in either. */
module Inet6Case {
  import opened Text
  import opened Inet4
  import opened Inet6
  import opened Rfc4291

  /** The value of every hexadecimal digit, and that there are no others. */
  lemma {:induction false} DigitValues()
    ensures DigitValue('0') == 0 && DigitValue('1') == 1 && DigitValue('2') == 2 && DigitValue('3') == 3
    ensures DigitValue('4') == 4 && DigitValue('5') == 5 && DigitValue('6') == 6 && DigitValue('7') == 7
    ensures DigitValue('8') == 8 && DigitValue('9') == 9
    ensures DigitValue('a') == 10 && DigitValue('b') == 11 && DigitValue('c') == 12
    ensures DigitValue('d') == 13 && DigitValue('e') == 14 && DigitValue('f') == 15
    ensures DigitValue('A') == 10 && DigitValue('B') == 11 && DigitValue('C') == 12
    ensures DigitValue('D') == 13 && DigitValue('E') == 14 && DigitValue('F') == 15
    ensures forall c :: IsHexDigit(c) <==> c in "0123456789abcdefABCDEF"
  {
    forall c ensures IsHexDigit(c) <==> c in "0123456789abcdefABCDEF" {
      var digits := "0123456789abcdefABCDEF";
      if IsHexDigit(c) {
        var k := if IsDigit(c) then c as int - '0' as int
                 else if 'a' <= c then c as int - 'a' as int + 10
                 else c as int - 'A' as int + 16;
        assert digits[k] == c;
      }
    }
  }

  /** A letter from A to Z as lower case. */
  function Lower(c: char): char { if 'A' <= c <= 'Z' then (c as int + 32) as char else c }

  ghost predicate SameButCase(s: string, t: string) {
    |s| == |t| && forall k | 0 <= k < |s| :: Lower(s[k]) == Lower(t[k])
  }

  ghost predicate SameTokens(ts: seq<string>, us: seq<string>) {
    |ts| == |us| && forall k | 0 <= k < |ts| :: SameButCase(ts[k], us[k])
  }

  lemma {:induction false} CharacterCase(c: char, d: char)
    requires Lower(c) == Lower(d)
    ensures IsHexDigit(c) <==> IsHexDigit(d)
    ensures IsHexDigit(c) ==> DigitValue(c) == DigitValue(d)
    ensures (c == ':' <==> d == ':') && (IsDigit(c) || c == '.' ==> c == d)
  {}

  lemma {:induction false} SplitCase(s: string, t: string, i: nat)
    requires SameButCase(s, t) && i <= |s|
    ensures SameTokens(Split(s, i, ':').done, Split(t, i, ':').done)
    ensures SameButCase(Split(s, i, ':').last, Split(t, i, ':').last)
  {
    if i > 0 {
      SplitCase(s, t, i - 1);
      CharacterCase(s[i - 1], t[i - 1]);
    }
  }

  lemma {:induction false} ValueCase(s: string, t: string)
    requires SameButCase(s, t)
    ensures AllHex(s) <==> AllHex(t)
    ensures AllHex(s) ==> HexValue(s) == HexValue(t)
  {
    forall k | 0 <= k < |s| ensures IsHexDigit(s[k]) <==> IsHexDigit(t[k]) {
      CharacterCase(s[k], t[k]);
    }
    if s != "" && AllHex(s) {
      var n := |s| - 1;
      ValueCase(s[..n], t[..n]);
      CharacterCase(s[n], t[n]);
    }
  }

  lemma {:induction false} QuadCase(s: string, t: string)
    requires SameButCase(s, t) && IsQuad(s)
    ensures s == t
  {
    hide IsQuad;
    forall k | 0 <= k < |s| ensures s[k] == t[k] {
      QuadCharacters(s, k);
      CharacterCase(s[k], t[k]);
    }
  }

  lemma {:induction false} TokenCase(s: string, t: string)
    requires SameButCase(s, t)
    ensures (IsGroup(s) <==> IsGroup(t)) && (IsQuad(s) <==> IsQuad(t)) && (s == "" <==> t == "")
    ensures TokenBytes(s) == TokenBytes(t)
  {
    hide IsQuad, ParseQuad;
    ValueCase(s, t);
    if IsQuad(s) {
      QuadCase(s, t);
    } else if IsQuad(t) {
      QuadCase(t, s);
    }
  }

  lemma {:induction false} TokensCase(ts: seq<string>, us: seq<string>)
    requires SameTokens(ts, us)
    ensures Bytes(ts) == Bytes(us) && GapAt(ts) == GapAt(us) && (DoneOk(ts) <==> DoneOk(us))
  {
    hide TokenBytes, IsGroup, SameButCase;
    if ts != [] {
      var n := |ts| - 1;
      TokensCase(ts[..n], us[..n]);
      TokenCase(ts[n], us[n]);
    }
  }

  lemma {:induction false} FieldsCase(s: string, t: string)
    requires SameButCase(s, t)
    ensures ParseFields(FieldsOf(s, ':')) == ParseFields(FieldsOf(t, ':'))
  {
    hide TokenBytes, IsGroup, IsQuad, DoneOk, Bytes, GapAt, SameButCase, Split;
    SplitLengths(s, t);
    SplitCase(s, t, |s|);
    TokensCase(FieldsOf(s, ':').done, FieldsOf(t, ':').done);
    TokenCase(FieldsOf(s, ':').last, FieldsOf(t, ':').last);
  }

  lemma {:induction false} SplitLengths(s: string, t: string)
    requires SameButCase(s, t)
    ensures |s| == |t|
  {}

  /** The case of letters makes no difference to what a text denotes. */
  lemma {:induction false} CaseIsIgnored(s: string, t: string)
    requires SameButCase(s, t)
    ensures Parse6(s) == Parse6(t)
  {
    hide ParseFields, Split;
    if s != "" {
      CharacterCase(s[0], t[0]);
      if |s| > 1 {
        CharacterCase(s[1], t[1]);
      }
      assert SameButCase(s[1..], t[1..]);
      FieldsCase(s[1..], t[1..]);
    }
    FieldsCase(s, t);
  }

  lemma {:induction false} Nibbles(a: nat, b: nat, c: nat, d: nat)
    requires a < 16 && b < 16 && c < 16 && d < 16
    ensures var v := ((a * 16 + b) * 16 + c) * 16 + d;
            v <= 0xffff && v / 0x100 == a * 16 + b && v % 0x100 == c * 16 + d
  {
    assert ((a * 16 + b) * 16 + c) * 16 + d == (a * 16 + b) * 0x100 + (c * 16 + d);
  }

  lemma {:induction false} FourHex(a: char, b: char, c: char, d: char)
    requires IsHexDigit(a) && IsHexDigit(b) && IsHexDigit(c) && IsHexDigit(d)
    ensures var t := [a, b, c, d];
            && IsH16(t) && IsGroup(t)
            && TokenBytes(t) == [DigitValue(a) * 16 + DigitValue(b), DigitValue(c) * 16 + DigitValue(d)]
  {
    hide ParseQuad, IsQuad, ValueIn;
    NoValue(16);
    assert "" + [a] == [a] && [a] + [b] == [a, b] && [a, b] + [c] == [a, b, c] && [a, b, c] + [d] == [a, b, c, d];
    ValueSnoc("", a, 16);
    ValueSnoc([a], b, 16);
    ValueSnoc([a, b], c, 16);
    ValueSnoc([a, b, c], d, 16);
    Nibbles(DigitValue(a), DigitValue(b), DigitValue(c), DigitValue(d));
  }

  lemma {:induction false} OneToken(t: string)
    ensures Colons([t]) == t && Bytes([t]) == TokenBytes(t)
  {
    hide TokenBytes;
    assert [t][..0] == [] && [t] == [] + [t];
    NoTokens();
    BytesSnoc([], t);
    assert [] + TokenBytes(t) == TokenBytes(t);
  }

  lemma {:induction false} UpperCaseGroups()
    ensures IsH16("ABCD") && IsH16("EF09") && TokenBytes("ABCD") == [0xab, 0xcd] && TokenBytes("EF09") == [0xef, 0x09]
  {
    hide TokenBytes, IsGroup, DigitValue;
    DigitValues();
    FourHex('A', 'B', 'C', 'D');
    FourHex('E', 'F', '0', '9');
  }

  lemma {:induction false} LowerCaseText()
    ensures SameButCase("abcd::ef09", "ABCD::EF09")
  {}

  /** The upper-case letters, and the same text in lower case. */
  lemma {:induction false} UpperCaseExample()
    ensures Parse6("ABCD::EF09") == Some([0xab, 0xcd] + Zeros(12) + [0xef, 0x09])
    ensures Parse6("abcd::ef09") == Parse6("ABCD::EF09")
  {
    hide *;
    UpperCaseGroups();
    IsShortText("ABCD", "EF09", "ABCD::EF09");
    ShortAccepted("ABCD::EF09", ["ABCD"], ["EF09"]);
    LowerCaseText();
    CaseIsIgnored("abcd::ef09", "ABCD::EF09");
  }

  lemma {:induction false} IsShortText(t: string, u: string, s: string)
    requires IsH16(t) && IsH16(u) && |TokenBytes(t)| == |TokenBytes(u)| == 2 && s == t + "::" + u
    ensures IsShort(s, [t], [u]) && Bytes([t]) == TokenBytes(t) && Bytes([u]) == TokenBytes(u)
    ensures 16 - |Bytes([t]) + Bytes([u])| == 12
  {
    hide TokenBytes, Bytes, Colons, IsH16;
    OneToken(t);
    OneToken(u);
  }
}
