/** inet_ntop6: the run of zeros to shorten, and the printing loop. */
module Inet6Print {
  import opened Text
  import opened Inet4
  import opened Inet6

  type Address = a: seq<byte> | |a| == 16 witness Zeros(16)

  function Word(a: Address, k: nat): word
    requires k < 8
  {
    a[2 * k] as int * 0x100 + a[2 * k + 1] as int
  }

  /** The eight 16-bit groups of an address. */
  function Words(a: Address): (w: seq<word>)
    ensures |w| == 8 && forall k | 0 <= k < 8 :: w[k] == Word(a, k)
  {
    seq(8, k requires 0 <= k < 8 => Word(a, k))
  }

  // ---------------------------------------------------------------- the run of zeros to shorten

  datatype Run = Run(base: nat, len: nat)

  /** How many zero groups follow from `i` on. */
  function RunFrom(w: seq<word>, i: nat): (n: nat)
    requires i <= |w|
    ensures i + n <= |w| && forall k | i <= k < i + n :: w[k] == 0
    ensures i + n < |w| ==> w[i + n] != 0
    decreases |w| - i
  {
    if i == |w| || w[i] != 0 then 0 else 1 + RunFrom(w, i + 1)
  }

  /** No run is longer, and those to the left are shorter. */
  ghost predicate IsLeftmostLongest(w: seq<word>, r: Run) {
    && r.base < |w| && r.len == RunFrom(w, r.base)
    && (forall j | 0 <= j < |w| :: RunFrom(w, j) <= r.len)
    && (forall j | 0 <= j < r.base :: RunFrom(w, j) < r.len)
  }

  function LongestFrom(w: seq<word>, i: nat): (r: Run)
    requires i < |w|
    ensures i <= r.base < |w| && r.len == RunFrom(w, r.base)
    ensures forall j | i <= j < |w| :: RunFrom(w, j) <= r.len
    ensures forall j | i <= j < r.base :: RunFrom(w, j) < r.len
    decreases |w| - i
  {
    if i == |w| - 1 then Run(i, RunFrom(w, i))
    else
      var r := LongestFrom(w, i + 1);
      if RunFrom(w, i) >= r.len then Run(i, RunFrom(w, i)) else r
  }

  /** The run that "::" stands for: the leftmost longest, if it has two groups at least. */
  function BestRun(w: seq<word>): (best: Option<Run>)
    requires |w| == 8
    ensures best.Some? ==> IsLeftmostLongest(w, best.value) && best.value.len >= 2
    ensures best.None? ==> forall j | 0 <= j < 8 :: RunFrom(w, j) <= 1
  {
    var r := LongestFrom(w, 0);
    if r.len >= 2 then Some(r) else None
  }

  lemma {:induction false} BestRunUnique(w: seq<word>, r: Run)
    requires |w| == 8 && IsLeftmostLongest(w, r)
    ensures BestRun(w) == if r.len >= 2 then Some(r) else None
  {}

  /** What is known of the best run once all runs that start before `start` have ended. */
  ghost predicate BestSoFar(w: seq<word>, start: nat, base: int, len: nat) {
    start <= |w| &&
    if base == -1 then
      forall j | 0 <= j < start :: RunFrom(w, j) == 0
    else
      && 0 <= base < start && len == RunFrom(w, base) >= 1
      && (forall j | 0 <= j < start :: RunFrom(w, j) <= len)
      && (forall j | 0 <= j < base :: RunFrom(w, j) < len)
  }

  /** The end of a run that starts at `start`. */
  lemma {:induction false} RunEnds(w: seq<word>, start: nat, i: nat, base: int, len: nat)
    requires BestSoFar(w, start, base, len) && start < i <= |w|
    requires (forall k | start <= k < i :: w[k] == 0) && (i < |w| ==> w[i] != 0)
    ensures if base == -1 || i - start > len then BestSoFar(w, i, start, i - start) else BestSoFar(w, i, base, len)
  {}

  /** Keeps the longer of the run that just ended and the best one before it. */
  method Longer(ghost words: seq<word>, curBase: int, curLen: nat, bestBase: int, bestLen: nat)
      returns (base: int, len: nat)
    requires curBase >= 0 && curLen > 0 && curBase + curLen <= |words|
    requires BestSoFar(words, curBase, bestBase, bestLen)
    requires forall k | curBase <= k < curBase + curLen :: words[k] == 0
    requires curBase + curLen < |words| ==> words[curBase + curLen] != 0
    ensures BestSoFar(words, curBase + curLen, base, len)
  {
    RunEnds(words, curBase, curBase + curLen, bestBase, bestLen);
    base, len := bestBase, bestLen;
    if bestBase == -1 || curLen > bestLen {
      base, len := curBase, curLen;
    }
  }

  /** The search for the run to shorten; -1 stands for none. */
  method FindRun(words: seq<word>) returns (base: int, len: nat)
    requires |words| == 8
    ensures base >= -1
    ensures BestRun(words) == if base == -1 then None else Some(Run(base, len))
  {
    base, len := -1, 0;
    var curBase, curLen := -1, 0;
    var i := 0;
    while i < 8
      invariant i <= 8 && -1 <= curBase < i
      invariant curBase != -1 ==> curLen == i - curBase && forall k | curBase <= k < i :: words[k] == 0
      invariant BestSoFar(words, if curBase == -1 then i else curBase, base, len)
    {
      if words[i] == 0 {
        if curBase == -1 {
          curBase, curLen := i, 1;
        } else {
          curLen := curLen + 1;
        }
      } else {
        if curBase != -1 {
          base, len := Longer(words, curBase, curLen, base, len);
          curBase := -1;
        }
      }
      i := i + 1;
    }
    if curBase != -1 {
      base, len := Longer(words, curBase, curLen, base, len);
    }
    if base == -1 {
      assert RunFrom(words, LongestFrom(words, 0).base) == 0;
    } else {
      BestRunUnique(words, Run(base, len));
      if len < 2 {
        base := -1;
      }
    }
  }

  // ---------------------------------------------------------------- the text

  /** The groups from `i` up to `j`, printed. */
  function Hexes(w: seq<word>, i: nat, j: nat): seq<string>
    requires i <= j <= |w|
  {
    if i == j then [] else Hexes(w, i, j - 1) + [Hex(w[j - 1])]
  }

  /** An IPv4-compatible or IPv4-mapped address: its last four bytes print as a dotted quad. */
  predicate Embedded(w: seq<word>, r: Run)
    requires |w| == 8
  {
    r.base == 0 && (r.len == 6 || (r.len == 5 && w[5] == 0xffff))
  }

  /** What stands before "::"; nothing, printed as an empty field, when the run comes first. */
  function Head(w: seq<word>, r: Run): seq<string>
    requires r.base <= |w|
  {
    if r.base == 0 then [""] else Hexes(w, 0, r.base)
  }

  /** `best` is a run within the eight groups `w`. */
  ghost predicate Within(w: seq<word>, best: Option<Run>) {
    |w| == 8 && (best.Some? ==> best.value.len > 0 && best.value.base + best.value.len <= 8)
  }

  /** The colon-separated fields that groups print as, `quad` being the text of their last two. */
  ghost function Shown(w: seq<word>, best: Option<Run>, quad: string): Fields
    requires Within(w, best)
  {
    match best
    case None => Fields(Hexes(w, 0, 7), Hex(w[7]))
    case Some(r) =>
      var done := Head(w, r) + [""];
      if Embedded(w, r) then Fields(done + Hexes(w, r.len, 6), quad)
      else if r.base + r.len == 8 then Fields(done, "")
      else Fields(done + Hexes(w, r.base + r.len, 7), Hex(w[7]))
  }

  ghost function ShownFields(a: Address): Fields { Shown(Words(a), BestRun(Words(a)), QuadText(a[12..])) }

  /** The text of an address. */
  ghost function Text6(a: Address): string { Join(ShownFields(a), ':') }

  /** The fields that the first `i` groups complete. */
  ghost function DoneUpTo(w: seq<word>, best: Option<Run>, i: nat): seq<string>
    requires i <= 8 && Within(w, best)
  {
    if best == None || i <= best.value.base then Hexes(w, 0, i)
    else
      var end := best.value.base + best.value.len;
      Head(w, best.value) + [""] + (if i <= end then [] else Hexes(w, end, i))
  }

  /** sprintf at `tp`, with its terminator. */
  method Put(tmp: array<char>, tp: nat, s: string)
    requires tp + |s| < tmp.Length
    modifies tmp
    ensures tmp[..tp + |s|] == old(tmp[..tp]) + s
  {
    forall k | 0 <= k < |s| {
      tmp[tp + k] := s[k];
    }
    tmp[tp + |s|] := '\0';
  }

  /** The text before group `i` is printed: one colon short of the completed fields, and at most 5 characters a group. */
  ghost predicate Printed(w: seq<word>, best: Option<Run>, i: nat, text: string)
    requires i <= 8 && Within(w, best)
  {
    if i == 0 then text == ""
    else text + [':'] == Lead(DoneUpTo(w, best, i), ':') && |text| + 1 <= 5 * i
  }

  lemma {:induction false} PrintNothing(w: seq<word>, best: Option<Run>)
    requires Within(w, best)
    ensures Printed(w, best, 0, "")
    ensures forall i: nat, text | 0 < i <= 8 && Printed(w, best, i, text) :: |text| < 5 * i
  {}

  /** The groups of the run after its first print nothing. */
  lemma {:induction false} PrintInside(w: seq<word>, best: Option<Run>, i: nat, text: string)
    requires i < 8 && Within(w, best) && best.Some? && best.value.base < i < best.value.base + best.value.len
    requires Printed(w, best, i, text)
    ensures Printed(w, best, i + 1, text)
  {}

  /** One more group, outside the run. */
  lemma {:induction false} PrintGroup(w: seq<word>, best: Option<Run>, i: nat, text: string)
    requires i < 8 && Within(w, best)
    requires best == None || i < best.value.base || best.value.base + best.value.len <= i
    requires Printed(w, best, i, text)
    ensures Printed(w, best, i + 1, (if i == 0 then "" else text + [':']) + Hex(w[i]))
  {
    var d := DoneUpTo(w, best, i);
    if best == None || i < best.value.base {
      assert DoneUpTo(w, best, i + 1) == d + [Hex(w[i])];
    } else {
      var end := best.value.base + best.value.len;
      var h := Head(w, best.value) + [""];
      assert d == h + (if i <= end then [] else Hexes(w, end, i));
      assert DoneUpTo(w, best, i + 1) == h + Hexes(w, end, i + 1) == d + [Hex(w[i])];
    }
    LeadSnoc(d, Hex(w[i]), ':');
    HexReads(w[i]);
    if i == 0 {
      assert d == [];
      assert "" + Hex(w[0]) == Hex(w[0]) && Lead([], ':') + Hex(w[0]) == Hex(w[0]);
    }
  }

  /** The first group of the run prints a colon. */
  lemma {:induction false} PrintGap(w: seq<word>, r: Run, text: string)
    requires Within(w, Some(r)) && Printed(w, Some(r), r.base, text)
    ensures Printed(w, Some(r), r.base + 1, text + [':'])
  {
    assert DoneUpTo(w, Some(r), r.base + 1) == Head(w, r) + [""];
    LeadSnoc(Head(w, r), "", ':');
    if r.base == 0 {
      assert [""] == [] + [""];
      LeadSnoc([], "", ':');
      assert text + [':'] == Lead([""], ':');
    }
    assert Lead(Head(w, r), ':') + "" == Lead(Head(w, r), ':');
  }

  /** The finished text, when the run is not the last thing printed. */
  lemma {:induction false} PrintEnd(w: seq<word>, best: Option<Run>, quad: string, text: string)
    requires Within(w, best) && Printed(w, best, 8, text)
    requires best.Some? ==> !Embedded(w, best.value) && best.value.base + best.value.len < 8
    ensures text == Join(Shown(w, best, quad), ':')
  {
    var f := Shown(w, best, quad);
    if best.Some? {
      var end := best.value.base + best.value.len;
      var h := Head(w, best.value) + [""];
      assert h + (Hexes(w, end, 7) + [Hex(w[7])]) == (h + Hexes(w, end, 7)) + [Hex(w[7])];
    }
    assert DoneUpTo(w, best, 8) == f.done + [f.last];
    LeadSnoc(f.done, f.last, ':');
    assert text == (text + [':'])[..|text|] == (Join(f, ':') + [':'])[..|text|];
  }

  /** The finished text, when it is. */
  lemma {:induction false} PrintTrailingGap(w: seq<word>, r: Run, quad: string, text: string)
    requires Within(w, Some(r)) && Printed(w, Some(r), 8, text)
    requires !Embedded(w, r) && r.base + r.len == 8
    ensures text + [':'] == Join(Shown(w, Some(r), quad), ':')
  {
    var f := Shown(w, Some(r), quad);
    assert DoneUpTo(w, Some(r), 8) == f.done;
    assert Lead(f.done, ':') + "" == Lead(f.done, ':');
  }

  /** The finished text, when a dotted quad ends it. */
  lemma {:induction false} PrintQuad(w: seq<word>, r: Run, quad: string, text: string)
    requires Within(w, Some(r)) && Embedded(w, r) && Printed(w, Some(r), 6, text)
    ensures text + [':'] + quad == Join(Shown(w, Some(r), quad), ':')
  {}

  /** The printing loop: `quad` says that it ended with the dotted quad of `src`'s last four bytes. */
  method PrintGroups(tmp: array<char>, words: seq<word>, base: int, len: nat, src: Address, ghost best: Option<Run>)
      returns (tp: nat, quad: bool)
    requires tmp.Length == 46 && base >= -1
    requires best == (if base == -1 then None else Some(Run(base, len))) && Within(words, best)
    modifies tmp
    ensures quad <==> best.Some? && Embedded(words, best.value)
    ensures if quad then tp < 46 && tmp[..tp] == Join(Shown(words, best, QuadText(src[12..])), ':')
            else tp < 45 && Printed(words, best, 8, tmp[..tp])
  {
    hide Printed, Shown, QuadText, Join;
    PrintNothing(words, best);
    tp, quad := 0, false;
    var i: nat := 0;
    while i < 8
      invariant i <= 8 && tp < 45
      invariant tp == 0 <==> i == 0
      invariant Printed(words, best, i, tmp[..tp])
      invariant best.Some? && Embedded(words, best.value) ==> i <= 6
    {
      ghost var text := tmp[..tp];
      if base != -1 && base <= i < base + len {
        if i == base {
          PrintGap(words, best.value, text);
          Put(tmp, tp, ":");
          tp := tp + 1;
        } else {
          PrintInside(words, best, i, text);
        }
      } else {
        if i != 0 {
          Put(tmp, tp, ":");
          tp := tp + 1;
        }
        if i == 6 && base == 0 && (len == 6 || (len == 5 && words[5] == 0xffff)) {
          tp := PutQuadText(tmp, tp, src);
          PrintQuad(words, best.value, QuadText(src[12..]), text);
          return tp, true;
        }
        tp := PutWord(tmp, tp, words, best, i, text);
      }
      i := i + 1;
    }
  }

  /** The sprintf of one group, after the colon that separates it from the text so far. */
  method PutWord(tmp: array<char>, tp: nat, words: seq<word>, ghost best: Option<Run>, i: nat, ghost text: string)
      returns (tp': nat)
    requires tmp.Length == 46 && tp <= 5 * i && i < 8
    requires Within(words, best) && Printed(words, best, i, text)
    requires best == None || i < best.value.base || best.value.base + best.value.len <= i
    requires tmp[..tp] == if i == 0 then "" else text + [':']
    modifies tmp
    ensures 0 < tp' < 45 && Printed(words, best, i + 1, tmp[..tp'])
  {
    PrintGroup(words, best, i, text);
    HexReads(words[i]);
    Put(tmp, tp, Hex(words[i]));
    tp' := tp + |Hex(words[i])|;
  }

  /** The call of inet_ntop4 on the last four bytes: there is always room for it. */
  method PutQuadText(tmp: array<char>, tp: nat, src: Address) returns (tp': nat)
    requires tmp.Length == 46 && tp <= 30
    modifies tmp
    ensures tp' < 46 && tmp[..tp'] == old(tmp[..tp]) + QuadText(src[12..])
  {
    QuadTextShape(src[12..]);
    var q := InetNtop4(src[12..], 46 - tp);
    var n := |q.value| - 1;
    Put(tmp, tp, q.value[..n]);
    tp' := tp + n;
  }

  /** What is stored at `dst`, or None for ENOSPC. */
  method InetNtop6(src: Address, size: nat) returns (r: Option<string>)
    ensures r == if |Stored(Text6(src))| > size then None else Some(Stored(Text6(src)))
  {
    hide Shown, Join, QuadText, BestRun, Printed, Words;
    var tmp := new char[46];
    var words := Words(src);
    var base, len := FindRun(words);
    ghost var best := BestRun(words);
    var tp, quad := PrintGroups(tmp, words, base, len, src, best);
    if base != -1 && base + len == 8 {
      PrintTrailingGap(words, best.value, QuadText(src[12..]), tmp[..tp]);
      Put(tmp, tp, ":");
      tp := tp + 1;
    } else if !quad {
      PrintEnd(words, best, QuadText(src[12..]), tmp[..tp]);
    }
    tmp[tp] := '\0';
    tp := tp + 1;
    if tp > size {
      return None;
    }
    assert tmp[..tp] == Stored(tmp[..tp - 1]);
    return Some(tmp[..tp]);
  }
}
