/** inet_aton: one to four dot-separated decimal fields, read with C's wrapping arithmetic. */
module InetAton {
  import opened Text
  import opened Inet4

  /** A C string: the terminator is not part of the text. */
  type CString = s: string | '\0' !in s

  /** The number of values of an unsigned long: 32 bits, or 64 on LP64 systems. */
  type UlongRange = m: int | m == 0x1_0000_0000 || m == 0x1_0000_0000_0000_0000 witness 0x1_0000_0000

  /** `v` as an unsigned long. */
  function Wrapped(v: nat, m: UlongRange): (w: nat)
    ensures w < m && (v < m ==> w == v)
  {
    v % m
  }

  /** What a field adds to the address: its wrapped value, or 0x100, which no byte equals. */
  function LaxValue(t: string, m: UlongRange): nat {
    if AllDigits(t) then Wrapped(DecValue(t), m) else 0x100
  }

  /** A field whose value, wrapped to an unsigned long, is a byte; it may be empty. */
  predicate IsLaxOctet(t: string, m: UlongRange) { LaxValue(t, m) <= 255 }

  function LaxAddress(done: seq<string>, m: UlongRange): nat {
    if done == [] then 0 else LaxAddress(done[..|done| - 1], m) * 256 + LaxValue(done[|done| - 1], m)
  }

  /** `addr` shifted left by whole bytes. */
  function Shifted(addr: nat, bytes: nat): nat
    decreases bytes
  {
    if bytes == 0 then addr else Shifted(addr * 256, bytes - 1)
  }

  /** The address of a text, as a number: missing trailing fields are zero bytes. */
  function ParseLax(s: string, m: UlongRange): Option<nat> {
    var f := FieldsOf(s, '.');
    if |f.done| <= 3 && (forall k | 0 <= k < |f.done| :: IsLaxOctet(f.done[k], m)) && IsLaxOctet(f.last, m) then
      Some(Shifted(LaxAddress(f.done, m) * 256 + LaxValue(f.last, m), 3 - |f.done|))
    else
      None
  }

  ghost predicate LaxReading(f: Fields, m: UlongRange) {
    && |f.done| <= 3
    && (forall k | 0 <= k < |f.done| :: IsLaxOctet(f.done[k], m))
    && AllDigits(f.last)
  }

  lemma {:induction false} NoLax(src: string, i: nat, m: UlongRange)
    requires i <= |src| && !LaxReading(Split(src, i, '.'), m)
    ensures ParseLax(src, m) == None
  {
    SplitPrefix(src, i, |src|, '.');
    var f, g := Split(src, i, '.'), FieldsOf(src, '.');
    if ParseLax(src, m).Some? {
      var t := if |f.done| == |g.done| then g.last else g.done[|f.done|];
      assert IsLaxOctet(t, m);
      assert f.last <= t;
      forall k | 0 <= k < |f.done| ensures IsLaxOctet(f.done[k], m) { assert f.done[k] == g.done[k]; }
      assert false;
    }
  }

  /** What one more character does: it keeps the text readable, or rules it out for good. */
  lemma {:induction false} LaxStep(s: string, i: nat, m: UlongRange)
    requires i < |s| && LaxReading(Split(s, i, '.'), m)
    ensures var f := Split(s, i, '.');
            var g := Split(s, i + 1, '.');
            && g == Push(f, s[i], '.')
            && if IsDigit(s[i]) || (s[i] == '.' && LaxValue(f.last, m) <= 255 && |f.done| < 3) then
                 LaxReading(g, m)
               else
                 ParseLax(s, m) == None
  {
    var c, f, g := s[i], Split(s, i, '.'), Split(s, i + 1, '.');
    if IsDigit(c) {
      assert forall k | 0 <= k < |g.last| :: IsDigit(g.last[k]);
    } else if c == '.' {
      assert forall k | 0 <= k < |f.done| :: g.done[k] == f.done[k];
      assert g.done[|f.done|] == f.last;
    } else {
      assert g.last[|f.last|] == c;
    }
    if !LaxReading(g, m) {
      NoLax(s, i + 1, m);
    }
  }

  lemma {:induction false} LaxAddressSnoc(done: seq<string>, t: string, m: UlongRange)
    ensures LaxAddress(done + [t], m) == LaxAddress(done, m) * 256 + LaxValue(t, m)
  {}

  lemma {:induction false} WrapStep(v: nat, d: nat, m: UlongRange)
    ensures Wrapped(Wrapped(v, m) * 10 + d, m) == Wrapped(v * 10 + d, m)
  {
    var q := v / m;
    assert v * 10 + d == ((v % m) * 10 + d) + m * (q * 10);
    WrapAgain((v % m) * 10 + d, q * 10, m);
  }

  lemma {:induction false} WrapAgain(x: nat, k: nat, m: UlongRange)
    ensures (x + m * k) % m == x % m
  {}

  lemma {:induction false} SplitStart(s: string, m: UlongRange)
    ensures Split(s, 0, '.') == Fields([], "") && LaxReading(Split(s, 0, '.'), m) && LaxValue("", m) == 0
  {}

  /** One more digit, in wrapping arithmetic. */
  lemma {:induction false} LaxDigit(t: string, c: char, m: UlongRange)
    requires AllDigits(t) && IsDigit(c)
    ensures LaxValue(t + [c], m) == Wrapped(LaxValue(t, m) * 10 + DigitValue(c), m)
  {
    hide Wrapped;
    ValueSnoc(t, c, 10);
    WrapStep(DecValue(t), DigitValue(c), m);
  }

  /** Reads a text as inet_aton does; `Some(a)` is a return of 1 with `*ap` holding `a`, in host order. */
  method InetAton(cp: CString, m: UlongRange) returns (r: Option<nat>)
    ensures r == ParseLax(cp, m)
  {
    hide Wrapped, LaxValue, Split;
    SplitStart(cp, m);
    var dots: nat, acc: nat := 0, 0;
    var addr: nat := 0;
    var i := 0;
    ghost var f := Split(cp, 0, '.');
    while i < |cp|
      invariant i <= |cp|
      invariant f == Split(cp, i, '.') && LaxReading(f, m)
      invariant dots == |f.done|
      invariant acc == LaxValue(f.last, m)
      invariant addr == LaxAddress(f.done, m)
    {
      var cc := cp[i];
      LaxStep(cp, i, m);
      if IsDigit(cc) {
        LaxDigit(f.last, cc, m);
        acc := Wrapped(acc * 10 + DigitValue(cc), m);
      } else if cc == '.' {
        dots := dots + 1;
        if dots > 3 || acc > 255 {
          return None;
        }
        LaxAddressSnoc(f.done, f.last, m);
        addr := addr * 256 + acc;
        acc := 0;
      } else {
        return None;
      }
      f := Push(f, cc, '.');
      i := i + 1;
    }
    // the terminator ends the last field
    if acc > 255 {
      return None;
    }
    addr := addr * 256 + acc;
    if dots < 3 {
      addr := Shifted(addr, 3 - dots);
    }
    return Some(addr);
  }

  function Address(b: seq<byte>): nat
    requires |b| == 4
  {
    b[0] as int * 0x100_0000 + b[1] as int * 0x1_0000 + b[2] as int * 0x100 + b[3] as int
  }

  /** Every dotted quad is accepted, with the same address. */
  lemma {:induction false} LaxAcceptsQuads(s: string, m: UlongRange)
    requires IsQuad(s)
    ensures ParseLax(s, m) == Some(Address(ParseQuad(s).value))
  {
    hide Split, Wrapped, ValueIn;
    var f := FieldsOf(s, '.');
    var x, y, z := f.done[0], f.done[1], f.done[2];
    assert LaxValue(x, m) == DecValue(x) && LaxValue(y, m) == DecValue(y);
    assert LaxValue(z, m) == DecValue(z) && LaxValue(f.last, m) == DecValue(f.last);
    assert f.done == [x, y] + [z] && [x, y] == [x] + [y] && [x] == [] + [x];
    LaxAddressSnoc([x, y], z, m);
    LaxAddressSnoc([x], y, m);
    LaxAddressSnoc([], x, m);
  }

  /** A text with a further field at its end. */
  lemma {:induction false} SplitAnother(s: string, t: string)
    requires '.' !in t
    ensures var f := FieldsOf(s, '.');
            FieldsOf(s + "." + t, '.') == Fields(f.done + [f.last], t)
  {
    var f, u := FieldsOf(s, '.'), s + "." + t;
    SplitSame(u, s, |s|, '.');
    assert Split(u, |s| + 1, '.') == Push(f, '.', '.') == Fields(f.done + [f.last], "");
    assert u[|s| + 1..] == t;
    forall k | |s| + 1 <= k < |u| ensures u[k] != '.' {
      assert u[k] == t[k - (|s| + 1)];
    }
    SplitExtend(u, |s| + 1, |u|, '.');
    assert "" + t == t;
  }

  lemma {:induction false} LaxFieldsSnoc(done: seq<string>, t: string, m: UlongRange)
    ensures var all := done + [t];
            (forall k | 0 <= k < |all| :: IsLaxOctet(all[k], m)) <==>
              (forall k | 0 <= k < |done| :: IsLaxOctet(done[k], m)) && IsLaxOctet(t, m)
  {
    hide IsLaxOctet;
    var all := done + [t];
    assert forall k | 0 <= k < |done| :: all[k] == done[k];
    assert all[|done|] == t;
  }

  lemma {:induction false} ZeroField(m: UlongRange)
    ensures LaxValue("0", m) == 0
  {}

  /** Fewer than four fields mean the same as with ".0" after them: what is missing is at the low end. */
  lemma {:induction false} MissingFieldsAreZero(s: string, m: UlongRange)
    requires |FieldsOf(s, '.').done| < 3
    ensures ParseLax(s + ".0", m) == ParseLax(s, m)
  {
    hide Split, Wrapped, LaxValue, LaxAddress;
    var f := FieldsOf(s, '.');
    var g := Fields(f.done + [f.last], "0");
    SplitAnother(s, "0");
    ZeroField(m);
    assert s + "." + "0" == s + ".0";
    LaxAddressSnoc(f.done, f.last, m);
    assert FieldsOf(s + ".0", '.') == g && LaxValue("0", m) == 0;
    LaxFieldsSnoc(f.done, f.last, m);
    var x := LaxAddress(f.done, m) * 256 + LaxValue(f.last, m);
    assert LaxAddress(g.done, m) == x;
    assert Shifted(x, 3 - |f.done|) == Shifted(x * 256, 2 - |f.done|);
  }

  /** A nonempty field that does not wrap. */
  predicate IsExact(t: string, m: UlongRange) { t != "" && AllDigits(t) && DecValue(t) < m }

  lemma {:induction false} OctetsAgree(t: string, m: UlongRange)
    ensures IsOctet(t) <==> IsLaxOctet(t, m) && IsExact(t, m)
  {}

  /** With three dots the two parsers differ exactly on empty fields and on fields that wrap to a byte. */
  lemma {:induction false} LaxMeetsStrict(s: string, m: UlongRange)
    requires |FieldsOf(s, '.').done| == 3
    ensures var f := FieldsOf(s, '.');
            IsQuad(s) <==>
              && ParseLax(s, m).Some?
              && IsExact(f.done[0], m) && IsExact(f.done[1], m) && IsExact(f.done[2], m) && IsExact(f.last, m)
  {
    var f := FieldsOf(s, '.');
    OctetsAgree(f.done[0], m);
    OctetsAgree(f.done[1], m);
    OctetsAgree(f.done[2], m);
    OctetsAgree(f.last, m);
  }

  /** The four fields of a text with three dots. */
  lemma {:induction false} FourFields(a: string, b: string, c: string, d: string)
    requires '.' !in a && '.' !in b && '.' !in c && '.' !in d
    ensures FieldsOf(a + "." + b + "." + c + "." + d, '.') == Fields([a, b, c], d)
  {
    LeadOfThree(a, b, c);
    SplitJoin(Fields([a, b, c], d), '.');
  }

  lemma {:induction false} LaxFour(a: string, b: string, c: string, d: string, m: UlongRange)
    requires '.' !in a && '.' !in b && '.' !in c && '.' !in d
    requires IsLaxOctet(a, m) && IsLaxOctet(b, m) && IsLaxOctet(c, m) && IsLaxOctet(d, m)
    ensures ParseLax(a + "." + b + "." + c + "." + d, m) ==
              Some(((LaxValue(a, m) * 256 + LaxValue(b, m)) * 256 + LaxValue(c, m)) * 256 + LaxValue(d, m))
  {
    hide LaxValue, Split;
    FourFields(a, b, c, d);
    assert [a, b, c] == [a, b] + [c] && [a, b] == [a] + [b] && [a] == [] + [a];
    LaxAddressSnoc([a, b], c, m);
    LaxAddressSnoc([a], b, m);
    LaxAddressSnoc([], a, m);
  }

  lemma {:induction false} LaxOfDigit(c: char, m: UlongRange)
    requires IsDigit(c)
    ensures LaxValue([c], m) == DigitValue(c) && '.' !in [c]
  {
    SplitStart("", m);
    LaxDigit("", c, m);
    assert "" + [c] == [c];
  }

  /** An empty field is taken for a zero byte. */
  lemma {:induction false} EmptyFieldExample(m: UlongRange)
    ensures ParseLax("1..2.3", m) == Some(0x100_0203) && !IsQuad("1..2.3")
  {
    hide Split, IsQuad, LaxValue;
    LaxOfDigit('1', m);
    LaxOfDigit('2', m);
    LaxOfDigit('3', m);
    SplitStart("", m);
    LaxFour("1", "", "2", "3", m);
    FourFields("1", "", "2", "3");
    assert "1" + "." + "" + "." + "2" + "." + "3" == "1..2.3";
    assert FieldsOf("1..2.3", '.').done[1] == "";
    LaxMeetsStrict("1..2.3", m);
  }

  /** The number m + 1 wraps around to 1, and is taken for that byte. */
  lemma {:induction false} WrappingFieldExample(m: UlongRange)
    ensures var s := Dec(m + 1) + ".0.0.1";
            ParseLax(s, m) == Some(0x100_0001) && !IsQuad(s)
  {
    hide Split, IsQuad;
    var t := Dec(m + 1);
    DecReads(m + 1);
    assert LaxValue(t, m) == 1;
    assert '.' !in t;
    LaxOfDigit('0', m);
    LaxOfDigit('1', m);
    LaxFour(t, "0", "0", "1", m);
    FourFields(t, "0", "0", "1");
    assert t + "." + "0" + "." + "0" + "." + "1" == t + ".0.0.1";
    assert FieldsOf(t + ".0.0.1", '.').done[0] == t;
    LaxMeetsStrict(t + ".0.0.1", m);
  }
}
