/** Dotted-quad text: inet_ntop4 and inet_pton4. */
module Inet4 {
  import opened Text

  /** A field that may stand for one address byte: leading zeros are allowed, emptiness is not. */
  predicate IsOctet(t: string) { t != "" && AllDigits(t) && DecValue(t) <= 255 }

  /** The bytes of a dotted quad: exactly four dot-separated octets. */
  function ParseQuad(s: string): Option<seq<byte>> {
    var f := FieldsOf(s, '.');
    if |f.done| == 3 && IsOctet(f.done[0]) && IsOctet(f.done[1]) && IsOctet(f.done[2]) && IsOctet(f.last) then
      Some([DecValue(f.done[0]), DecValue(f.done[1]), DecValue(f.done[2]), DecValue(f.last)])
    else
      None
  }

  predicate IsQuad(s: string) { ParseQuad(s).Some? }

  /** What four bytes print as. */
  function QuadText(b: seq<byte>): string
    requires |b| == 4
  {
    Join(Fields([Dec(b[0]), Dec(b[1]), Dec(b[2])], Dec(b[3])), '.')
  }

  /** What the parser knows once it has read text whose fields are `f`. */
  ghost predicate Reading(f: Fields) {
    && |f.done| <= 3
    && (forall k | 0 <= k < |f.done| :: IsOctet(f.done[k]) && AllDigits(f.done[k]))
    && AllDigits(f.last) && DecValue(f.last) <= 255
  }

  /** Once the fields read so far are ruled out, no continuation is a dotted quad. */
  lemma {:induction false} NoQuad(src: string, i: nat)
    requires i <= |src| && !Reading(Split(src, i, '.'))
    ensures ParseQuad(src) == None
  {
    hide Split, ValueIn;
    SplitPrefix(src, i, |src|, '.');
    var f, g := Split(src, i, '.'), FieldsOf(src, '.');
    if ParseQuad(src).Some? {
      var t := if |f.done| == |g.done| then g.last else g.done[|f.done|];
      assert IsOctet(t);
      ValueGrows(t, |f.last|, 10);
      assert f.last == t[..|f.last|];
      forall k | 0 <= k < |f.done| ensures IsOctet(f.done[k]) { assert f.done[k] == g.done[k]; }
      assert false;
    }
  }

  /** What one more character does: it keeps the text readable, or rules it out for good. */
  lemma {:induction false} AtCharacter(src: string, i: nat)
    requires i < |src| && Reading(Split(src, i, '.'))
    ensures var f, c := Split(src, i, '.'), src[i];
            var g := Split(src, i + 1, '.');
            && g == Push(f, c, '.')
            && if (if IsDigit(c) then DecValue(f.last) * 10 + DigitValue(c) <= 255 else c == '.' && f.last != "" && |f.done| < 3) then
                 Reading(g) && DecValue(g.last) == if IsDigit(c) then DecValue(f.last) * 10 + DigitValue(c) else 0
               else
                 ParseQuad(src) == None
  {
    hide ParseQuad, ValueIn;
    var f, c := Split(src, i, '.'), src[i];
    var g := Split(src, i + 1, '.');
    QuadStart(src);
    if IsDigit(c) {
      ValueSnoc(f.last, c, 10);
    } else if c == '.' {
      assert forall k | 0 <= k < |f.done| :: g.done[k] == f.done[k];
      assert g.done[|f.done|] == f.last;
    } else {
      assert g.last[|f.last|] == c;
    }
    if !Reading(g) {
      NoQuad(src, i + 1);
    }
  }

  lemma {:induction false} QuadStart(src: string)
    ensures Split(src, 0, '.') == Fields([], "") && Reading(Split(src, 0, '.')) && DecValue("") == 0
  {}

  /** A text that is readable to its end is a dotted quad if it has four fields, the last not empty. */
  lemma {:induction false} QuadEnd(src: string)
    requires Reading(FieldsOf(src, '.'))
    ensures var f := FieldsOf(src, '.');
            if |f.done| == 3 && f.last != "" then
              ParseQuad(src) == Some([DecValue(f.done[0]), DecValue(f.done[1]), DecValue(f.done[2]), DecValue(f.last)])
            else
              ParseQuad(src) == None
  {}

  /** memcpy. */
  method CopyBytes(src: array<byte>, dst: array<byte>, at: nat)
    requires at + src.Length <= dst.Length && src != dst
    modifies dst
    ensures dst[..] == old(dst[..at]) + src[..] + old(dst[at + src.Length..])
  {
    forall k | 0 <= k < src.Length {
      dst[at + k] := src[k];
    }
  }

  /** Reads a dotted quad into `dst` at offset `at`; touches `dst` only on success. */
  method InetPton4(src: string, dst: array<byte>, at: nat) returns (ok: bool)
    requires at + 4 <= dst.Length
    modifies dst
    ensures ok <==> ParseQuad(src).Some?
    ensures dst[..] == if ok then old(dst[..at]) + ParseQuad(src).value + old(dst[at + 4..]) else old(dst[..])
  {
    var tmp := new byte[4](_ => 0);
    ok := Octets(src, tmp);
    if ok {
      CopyBytes(tmp, dst, at);
    }
  }

  /** The loop of inet_pton4 and the test after it. */
  method Octets(src: string, tmp: array<byte>) returns (ok: bool)
    requires tmp.Length == 4 && tmp[0] == 0
    modifies tmp
    ensures ok <==> ParseQuad(src).Some?
    ensures ok ==> tmp[..] == ParseQuad(src).value
  {
    hide Split, ParseQuad, IsOctet;
    QuadStart(src);
    var sawDigit := false;
    var octets := 0;
    var tp := 0;
    var i := 0;
    ghost var f := Split(src, 0, '.');
    while i < |src|
      invariant i <= |src|
      invariant f == Split(src, i, '.') && Reading(f)
      invariant tp == |f.done|
      invariant sawDigit == (f.last != "")
      invariant octets == if sawDigit then tp + 1 else tp
      invariant forall k | 0 <= k < tp :: tmp[k] == DecValue(f.done[k])
      invariant tmp[tp] == DecValue(f.last)
    {
      var ch := src[i];
      AtCharacter(src, i);
      if IsDigit(ch) {
        var value := tmp[tp] * 10 + DigitValue(ch);
        if value > 255 {
          return false;
        }
        tmp[tp] := value;
        if !sawDigit {
          octets := octets + 1;
          if octets > 4 {
            return false;
          }
          sawDigit := true;
        }
      } else if ch == '.' && sawDigit {
        if octets == 4 {
          return false;
        }
        tp := tp + 1;
        tmp[tp] := 0;
        sawDigit := false;
      } else {
        return false;
      }
      i := i + 1;
      f := Split(src, i, '.');
    }
    QuadEnd(src);
    return octets >= 4;
  }

  /** What strcpy stores of a text: its characters and the terminator. */
  function Stored(t: string): (s: string)
    ensures |s| == |t| + 1 && s[..|t|] == t && s[|t|] == '\0'
  {
    t + ['\0']
  }

  /** What is stored at `dst`, or None for ENOSPC. The size is compared with the text without its terminator. */
  method InetNtop4(src: seq<byte>, size: nat) returns (r: Option<string>)
    requires |src| == 4
    ensures r == if |QuadText(src)| > size then None else Some(Stored(QuadText(src)))
    ensures r.Some? ==> (|r.value| <= size <==> size != |QuadText(src)|)
  {
    var tmp := Dec(src[0]) + "." + Dec(src[1]) + "." + Dec(src[2]) + "." + Dec(src[3]);
    QuadTextUnfolds(src);
    if |tmp| > size {
      return None;
    }
    return Some(Stored(tmp));
  }

  lemma {:induction false} QuadTextUnfolds(b: seq<byte>)
    requires |b| == 4
    ensures QuadText(b) == Dec(b[0]) + "." + Dec(b[1]) + "." + Dec(b[2]) + "." + Dec(b[3])
  {
    LeadOfThree(Dec(b[0]), Dec(b[1]), Dec(b[2]));
  }

  lemma {:induction false} LeadOfThree(x: string, y: string, z: string)
    ensures Lead([x, y, z], '.') == x + "." + y + "." + z + "."
  {
    assert [x, y, z] == [x, y] + [z] && [x, y] == [x] + [y] && [x] == [] + [x];
    LeadSnoc([x, y], z, '.');
    LeadSnoc([x], y, '.');
    LeadSnoc([], x, '.');
  }

  /** "1.2.3.4" is taken for short enough by a caller's seven bytes, and eight are stored. */
  lemma {:induction false} TerminatorExample()
    ensures QuadText([1, 2, 3, 4]) == "1.2.3.4" && |"1.2.3.4"| <= 7 < |Stored("1.2.3.4")|
  {
    QuadTextUnfolds([1, 2, 3, 4]);
    assert Dec(1) == "1" && Dec(2) == "2" && Dec(3) == "3" && Dec(4) == "4";
  }

  lemma {:induction false} DecIsOctet(n: byte)
    ensures IsOctet(Dec(n)) && DecValue(Dec(n)) == n && '.' !in Dec(n) && ':' !in Dec(n)
    ensures |Dec(n)| <= 3
  {
    DecReads(n);
  }

  /** Parsing inverts printing on every four-byte address. */
  lemma {:induction false} QuadRoundTrip(b: seq<byte>)
    requires |b| == 4
    ensures ParseQuad(QuadText(b)) == Some(b)
  {
    DecIsOctet(b[0]);
    DecIsOctet(b[1]);
    DecIsOctet(b[2]);
    DecIsOctet(b[3]);
    SplitJoin(Fields([Dec(b[0]), Dec(b[1]), Dec(b[2])], Dec(b[3])), '.');
    assert b == [b[0], b[1], b[2], b[3]];
  }

  lemma {:induction false} QuadTextShape(b: seq<byte>)
    requires |b| == 4
    ensures 7 <= |QuadText(b)| <= 15 && ':' !in QuadText(b)
  {
    DecIsOctet(b[0]);
    DecIsOctet(b[1]);
    DecIsOctet(b[2]);
    DecIsOctet(b[3]);
    QuadTextUnfolds(b);
  }

  /** A dotted quad holds only digits and dots. */
  lemma {:induction false} QuadCharacters(s: string, i: nat)
    requires IsQuad(s) && i < |s|
    ensures IsDigit(s[i]) || s[i] == '.'
  {
    if !IsDigit(s[i]) && s[i] != '.' {
      var f := Split(s, i + 1, '.');
      assert f.last[|f.last| - 1] == s[i];
      NoQuad(s, i + 1);
    }
  }

  /** The digits before the first dot of a quad, misread as hexadecimal, stay below 0x10000. */
  lemma {:induction false} QuadStartAsHex(s: string, i: nat)
    requires IsQuad(s) && i <= |s| && AllHex(s[..i])
    ensures HexValue(s[..i]) <= 0xffff
  {
    forall k | 0 <= k < i ensures IsDigit(s[k]) {
      QuadCharacters(s, k);
      assert IsHexDigit(s[..i][k]);
    }
    SplitExtend(s, 0, i, '.');
    assert "" + s[0..i] == s[..i];
    if !Reading(Split(s, i, '.')) {
      NoQuad(s, i);
    }
    DecimalReadAsHex(s[..i]);
  }
}
