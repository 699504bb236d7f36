/** Text cut into fields at a separator, and digit strings in base ten and sixteen. */
module Text {

  datatype Option<+T> = None | Some(value: T)

  type byte = x: int | 0 <= x < 0x100

  type word = x: int | 0 <= x < 0x1_0000

  // ---------------------------------------------------------------- fields

  /** Text cut at a separator: the fields that a separator ended, and what follows the last one. */
  datatype Fields = Fields(done: seq<string>, last: string)

  function Split(s: string, i: nat, sep: char): Fields
    requires i <= |s|
  {
    if i == 0 then Fields([], "") else Push(Split(s, i - 1, sep), s[i - 1], sep)
  }

  /** The fields after one more character. */
  function Push(f: Fields, c: char, sep: char): Fields {
    if c == sep then Fields(f.done + [f.last], "") else Fields(f.done, f.last + [c])
  }

  /** The fields of a whole text. */
  function FieldsOf(s: string, sep: char): Fields { Split(s, |s|, sep) }

  /** Each field followed by a separator. */
  function Lead(done: seq<string>, sep: char): string {
    if done == [] then "" else Lead(done[..|done| - 1], sep) + done[|done| - 1] + [sep]
  }

  function Join(f: Fields, sep: char): string { Lead(f.done, sep) + f.last }

  lemma {:induction false} LeadSnoc(done: seq<string>, f: string, sep: char)
    ensures Lead(done + [f], sep) == Lead(done, sep) + f + [sep]
  {}

  /** No field holds the separator. */
  lemma {:induction false} SplitFields(s: string, i: nat, sep: char)
    requires i <= |s|
    ensures sep !in Split(s, i, sep).last
    ensures forall k | 0 <= k < |Split(s, i, sep).done| :: sep !in Split(s, i, sep).done[k]
  {
    if i > 0 {
      SplitFields(s, i - 1, sep);
    }
  }

  /** Joining undoes splitting. */
  lemma {:induction false} JoinSplit(s: string, i: nat, sep: char)
    requires i <= |s|
    ensures Join(Split(s, i, sep), sep) == s[..i]
  {
    if i > 0 {
      JoinSplit(s, i - 1, sep);
      var f, c := Split(s, i - 1, sep), s[i - 1];
      assert s[..i] == s[..i - 1] + [c];
      if c == sep {
        LeadSnoc(f.done, f.last, sep);
      } else {
        assert Lead(f.done, sep) + (f.last + [c]) == s[..i - 1] + [c];
      }
    }
  }

  /** Only the characters read so far matter. */
  lemma {:induction false} SplitSame(s: string, t: string, i: nat, sep: char)
    requires i <= |s| && i <= |t| && forall k | 0 <= k < i :: s[k] == t[k]
    ensures Split(s, i, sep) == Split(t, i, sep)
  {
    if i > 0 {
      SplitSame(s, t, i - 1, sep);
    }
  }

  /** Text without a separator extends the last field only. */
  lemma {:induction false} SplitExtend(s: string, i: nat, j: nat, sep: char)
    requires i <= j <= |s| && forall k | i <= k < j :: s[k] != sep
    ensures Split(s, j, sep) == Fields(Split(s, i, sep).done, Split(s, i, sep).last + s[i..j])
  {
    var f := Split(s, i, sep);
    if i == j {
      assert f.last + s[i..j] == f.last;
    } else {
      SplitExtend(s, i, j - 1, sep);
      assert (f.last + s[i..j - 1]) + [s[j - 1]] == f.last + s[i..j];
    }
  }

  /** Splitting undoes joining. */
  lemma {:induction false} SplitJoin(f: Fields, sep: char)
    requires sep !in f.last && forall k | 0 <= k < |f.done| :: sep !in f.done[k]
    ensures FieldsOf(Join(f, sep), sep) == f
  {
    var s, n := Join(f, sep), |Lead(f.done, sep)|;
    SplitLead(f.done, sep);
    SplitSame(s, Lead(f.done, sep), n, sep);
    SplitExtend(s, n, |s|, sep);
    assert "" + s[n..] == f.last;
  }

  lemma {:induction false} SplitLead(done: seq<string>, sep: char)
    requires forall k | 0 <= k < |done| :: sep !in done[k]
    ensures FieldsOf(Lead(done, sep), sep) == Fields(done, "")
  {
    if done != [] {
      var m := |done| - 1;
      var s, head := Lead(done, sep), Lead(done[..m], sep);
      var n := |head|;
      SplitLead(done[..m], sep);
      SplitSame(s, head, n, sep);
      assert s[n..|s| - 1] == done[m];
      SplitExtend(s, n, |s| - 1, sep);
      assert "" + done[m] == done[m];
      assert done[..m] + [done[m]] == done;
    }
  }

  /** `f` is how `g` looks before its text is complete. */
  predicate Begins(f: Fields, g: Fields) {
    && f.done <= g.done
    && (if |f.done| == |g.done| then f.last <= g.last else f.last <= g.done[|f.done|])
  }

  lemma {:induction false} SplitPrefix(s: string, i: nat, j: nat, sep: char)
    requires i <= j <= |s|
    ensures Begins(Split(s, i, sep), Split(s, j, sep))
  {
    if i < j {
      SplitPrefix(s, i, j - 1, sep);
    }
  }

  /** Leading fields are joined first. */
  lemma {:induction false} LeadAppend(ds: seq<string>, es: seq<string>, sep: char)
    ensures Lead(ds + es, sep) == Lead(ds, sep) + Lead(es, sep)
  {
    if es == [] {
      assert ds + es == ds;
    } else {
      var n := |es| - 1;
      assert ds + es == (ds + es[..n]) + [es[n]];
      LeadSnoc(ds + es[..n], es[n], sep);
      LeadAppend(ds, es[..n], sep);
    }
  }

  // ---------------------------------------------------------------- digits

  predicate IsDigit(c: char) { '0' <= c <= '9' }

  predicate IsHexDigit(c: char) { IsDigit(c) || 'a' <= c <= 'f' || 'A' <= c <= 'F' }

  function DigitValue(c: char): nat
    requires IsHexDigit(c)
  {
    if IsDigit(c) then c as int - '0' as int
    else if 'a' <= c then c as int - 'a' as int + 10
    else c as int - 'A' as int + 10
  }

  predicate AllDigits(s: string) { forall k | 0 <= k < |s| :: IsDigit(s[k]) }

  predicate AllHex(s: string) { forall k | 0 <= k < |s| :: IsHexDigit(s[k]) }

  function ValueIn(s: string, radix: nat): nat
    requires AllHex(s)
  {
    if s == "" then 0 else ValueIn(s[..|s| - 1], radix) * radix + DigitValue(s[|s| - 1])
  }

  function DecValue(s: string): nat
    requires AllDigits(s)
  {
    ValueIn(s, 10)
  }

  function HexValue(s: string): nat
    requires AllHex(s)
  {
    ValueIn(s, 16)
  }

  lemma {:induction false} ValueSnoc(s: string, c: char, radix: nat)
    requires AllHex(s) && IsHexDigit(c)
    ensures AllHex(s + [c]) && ValueIn(s + [c], radix) == ValueIn(s, radix) * radix + DigitValue(c)
  {}

  /** Further digits never lower the number read so far. */
  lemma {:induction false} ValueGrows(s: string, i: nat, radix: nat)
    requires AllHex(s) && i <= |s| && radix > 0
    ensures ValueIn(s[..i], radix) <= ValueIn(s, radix)
  {
    if i == |s| {
      assert s[..i] == s;
    } else {
      var u := s[..|s| - 1];
      ValueGrows(u, i, radix);
      assert u[..i] == s[..i];
      Grows(ValueIn(u, radix), radix);
    }
  }

  lemma {:induction false} Grows(v: nat, radix: nat)
    requires radix > 0
    ensures v <= v * radix
  {}

  /** A numeral of value at most 255, read in base sixteen instead, stays far below 0xffff. */
  lemma {:induction false} DecimalReadAsHex(s: string)
    requires AllDigits(s)
    ensures DecValue(s) == 0 ==> HexValue(s) == 0
    ensures DecValue(s) <= 2 ==> HexValue(s) <= 9
    ensures DecValue(s) <= 25 ==> HexValue(s) <= 153
    ensures DecValue(s) <= 255 ==> HexValue(s) <= 2457
  {
    if s != "" {
      DecimalReadAsHex(s[..|s| - 1]);
    }
  }

  // ---------------------------------------------------------------- printing numbers

  function DigitChar(d: nat): (c: char)
    requires d < 16
    ensures IsHexDigit(c) && DigitValue(c) == d && (d < 10 <==> IsDigit(c)) && (IsDigit(c) || 'a' <= c <= 'f')
  {
    if d < 10 then '0' + d as char else 'a' + (d - 10) as char
  }

  /** The numeral of `n`, lower case and without padding (C's %u and %x). */
  function Dec(n: nat): string {
    if n < 10 then [DigitChar(n)] else Dec(n / 10) + [DigitChar(n % 10)]
  }

  function Hex(n: nat): string {
    if n < 16 then [DigitChar(n)] else Hex(n / 16) + [DigitChar(n % 16)]
  }

  /** A decimal numeral reads back as its number and has no leading zero. */
  lemma {:induction false} DecReads(n: nat)
    ensures Dec(n) != "" && AllDigits(Dec(n)) && DecValue(Dec(n)) == n
    ensures Dec(n)[0] == '0' ==> n == 0
    ensures n < 10 ==> |Dec(n)| == 1
    ensures n < 100 ==> |Dec(n)| <= 2
    ensures n < 1000 ==> |Dec(n)| <= 3
  {
    if n >= 10 {
      DecReads(n / 10);
      ValueSnoc(Dec(n / 10), DigitChar(n % 10), 10);
    } else {
      ValueSnoc("", DigitChar(n), 10);
      assert "" + [DigitChar(n)] == [DigitChar(n)];
    }
  }

  /** A hexadecimal numeral reads back as its number, in lower case, without a leading zero. */
  lemma {:induction false} HexReads(n: nat)
    ensures Hex(n) != "" && AllHex(Hex(n)) && HexValue(Hex(n)) == n
    ensures forall k | 0 <= k < |Hex(n)| :: IsDigit(Hex(n)[k]) || 'a' <= Hex(n)[k] <= 'f'
    ensures Hex(n)[0] == '0' ==> n == 0
    ensures n < 0x10 ==> |Hex(n)| == 1
    ensures n < 0x100 ==> |Hex(n)| <= 2
    ensures n < 0x1000 ==> |Hex(n)| <= 3
    ensures n < 0x1_0000 ==> |Hex(n)| <= 4
  {
    if n >= 16 {
      HexReads(n / 16);
      ValueSnoc(Hex(n / 16), DigitChar(n % 16), 16);
    } else {
      ValueSnoc("", DigitChar(n), 16);
      assert "" + [DigitChar(n)] == [DigitChar(n)];
    }
  }
}
