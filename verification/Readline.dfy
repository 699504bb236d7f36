/** server/readline.c, server/readline_r.c and lib/readline.c: a line from a stream, however read chops it up. */
module Readline {

  // ---------------------------------------------------------------- what a line is

  /** How many bytes the next line has: up to a newline, the end of the stream, or `limit`. */
  function LineLength(s: string, limit: nat): (k: nat)
    ensures k <= |s| && k <= limit
    ensures forall j | 0 <= j < k - 1 :: s[j] != '\n'
    ensures k > 0 || s == "" || limit == 0
    ensures k == |s| || k == limit || (k > 0 && s[k - 1] == '\n')
  {
    if limit == 0 || s == "" then 0
    else if s[0] == '\n' then 1
    else 1 + LineLength(s[1..], limit - 1)
  }

  /** The bytes stored and the stream that is left. */
  datatype Line = Line(stored: string, rest: string)

  function NextLine(s: string, maxlen: nat): Line {
    var k := LineLength(s, if maxlen == 0 then 0 else maxlen - 1);
    Line(s[..k], s[k..])
  }

  predicate EndsLine(t: string) { t != "" && t[|t| - 1] == '\n' }

  /** The value that readline and readline_r return: one more than stored when no newline ended the line. */
  function Returned(s: string, maxlen: nat): nat {
    var t := NextLine(s, maxlen).stored;
    if maxlen <= 1 then 1
    else if s == "" then 0
    else if EndsLine(t) then |t|
    else |t| + 1
  }

  /** The value that lib/readline.c returns: at end of file it counts the stored bytes. */
  function ReturnedByLib(s: string, maxlen: nat): nat {
    var t := NextLine(s, maxlen).stored;
    if maxlen <= 1 then 1
    else if EndsLine(t) then |t|
    else if |t| == maxlen - 1 then maxlen
    else |t|
  }

  /** The length is the only one with these properties. */
  lemma {:induction false} LineLengthIs(s: string, limit: nat, k: nat)
    requires k <= limit && k <= |s| && forall j | 0 <= j < k - 1 :: s[j] != '\n'
    requires k == |s| || k == limit || (k > 0 && s[k - 1] == '\n')
    requires k > 0 || s == "" || limit == 0
    ensures LineLength(s, limit) == k
  {}

  /** What the specification comes to once the line is known to have `k` bytes. */
  lemma {:induction false} LineIs(s: string, maxlen: nat, k: nat)
    requires k <= |s| && k <= (if maxlen == 0 then 0 else maxlen - 1) && forall j | 0 <= j < k - 1 :: s[j] != '\n'
    requires k == |s| || k + 1 >= maxlen || (k > 0 && s[k - 1] == '\n')
    requires k > 0 || s == "" || maxlen <= 1
    ensures NextLine(s, maxlen) == Line(s[..k], s[k..])
    ensures var newline := k > 0 && s[k - 1] == '\n';
            && Returned(s, maxlen) == (if maxlen > 1 && s == "" then 0 else if newline then k else k + 1)
            && ReturnedByLib(s, maxlen) == if newline || k + 1 < maxlen then k else k + 1
  {
    LineLengthIs(s, if maxlen == 0 then 0 else maxlen - 1, k);
  }

  /** A line is the start of the stream up to a newline, unless the buffer fills or the stream ends first. */
  lemma {:induction false} LineShape(s: string, maxlen: nat)
    requires maxlen >= 1
    ensures var l := NextLine(s, maxlen);
            && l.stored + l.rest == s && |l.stored| <= maxlen - 1
            && (forall j | 0 <= j < |l.stored| - 1 :: l.stored[j] != '\n')
            && (EndsLine(l.stored) || |l.stored| == maxlen - 1 || l.rest == "")
            && (maxlen >= 2 && s != "" ==> l.stored != "")
  {}

  /** A newline is among the next `n` bytes of the stream. */
  ghost predicate NewlineWithin(s: string, n: int) { exists j :: 0 <= j < |s| && j < n && s[j] == '\n' }

  /** The stored line ends with a newline exactly when the stream has one where the buffer has room for it. */
  lemma {:induction false} EndsLineWhen(s: string, maxlen: nat)
    ensures EndsLine(NextLine(s, maxlen).stored) <==> NewlineWithin(s, maxlen - 1)
  {
    var t := NextLine(s, maxlen).stored;
    if EndsLine(t) {
      assert s[|t| - 1] == '\n';
    }
  }

  /**
   * The value returned is the number of bytes stored exactly when a newline comes before the buffer is full, or the
   * stream has ended and there is room to find that out.
   */
  lemma {:induction false} ReturnedCounts(s: string, maxlen: nat)
    ensures Returned(s, maxlen) == |NextLine(s, maxlen).stored| <==> NewlineWithin(s, maxlen - 1) || (s == "" && maxlen >= 2)
    ensures Returned(s, maxlen) == 0 <==> s == "" && maxlen >= 2
  {
    EndsLineWhen(s, maxlen);
  }

  /**
   * The library's value also does when the stream ends before the buffer is full; there, and only there, the two
   * functions differ.
   */
  lemma {:induction false} LibCounts(s: string, maxlen: nat)
    ensures ReturnedByLib(s, maxlen) == |NextLine(s, maxlen).stored| <==> NewlineWithin(s, maxlen - 1) || |s| < maxlen - 1
    ensures ReturnedByLib(s, maxlen) == 0 <==> s == "" && maxlen >= 2
    ensures ReturnedByLib(s, maxlen) == Returned(s, maxlen) <==>
              NewlineWithin(s, maxlen - 1) || s == "" || |s| >= maxlen - 1
  {
    EndsLineWhen(s, maxlen);
  }

  /** The lines that calls until end of file deliver. */
  function AllLines(s: string, maxlen: nat): seq<string>
    requires maxlen >= 2
    decreases |s|
  {
    if s == "" then [] else
    var l := NextLine(s, maxlen);
    [l.stored] + AllLines(l.rest, maxlen)
  }

  function Concat(ts: seq<string>): string { if ts == [] then "" else ts[0] + Concat(ts[1..]) }

  /** Put together, they are the stream; and every one but the last fills the buffer or ends with a newline. */
  lemma {:induction false} LinesMakeStream(s: string, maxlen: nat)
    requires maxlen >= 2
    ensures var ts := AllLines(s, maxlen);
            && Concat(ts) == s
            && forall k | 0 <= k < |ts| - 1 :: EndsLine(ts[k]) || |ts[k]| == maxlen - 1
    decreases |s|
  {
    if s != "" {
      var l := NextLine(s, maxlen);
      LineShape(s, maxlen);
      LinesMakeStream(l.rest, maxlen);
      var ts, us := AllLines(s, maxlen), AllLines(l.rest, maxlen);
      assert ts[1..] == us;
      forall k | 0 <= k < |ts| - 1 ensures EndsLine(ts[k]) || |ts[k]| == maxlen - 1 {
        if k > 0 {
          assert ts[k] == us[k - 1];
        }
      }
    }
  }

  /**
   * What a call leaves that started at byte `from` of the stream `data`: the next line in `buf`, with a terminator
   * unless nothing was read, the stream from byte `to` on, and the value returned.
   */
  ghost predicate Delivered(data: string, from: nat, to: nat, maxlen: nat, lib: bool, n: int, buf: string)
    requires from <= |data|
  {
    var s := data[from..];
    var line := NextLine(s, maxlen);
    && n == (if lib then ReturnedByLib(s, maxlen) else Returned(s, maxlen))
    && to <= |data| && data[to..] == line.rest && line.stored <= buf
    && (n != 0 || lib ==> |line.stored| < |buf| && buf[|line.stored|] == '\0')
  }

  lemma {:induction false} SameStart(s: string, t: string, k: nat)
    requires k <= |s| && k <= |t| && forall j | 0 <= j < k :: s[j] == t[j]
    ensures s[..k] <= t
  {}

  /** The line is known to have `k` bytes, and they are stored. */
  lemma {:induction false} Delivers(data: string, from: nat, k: nat, maxlen: nat, lib: bool, n: int, buf: string)
    requires from + k <= |data| && k <= if maxlen == 0 then 0 else maxlen - 1
    requires k <= |buf| && forall j | 0 <= j < k :: buf[j] == data[from + j] && (j < k - 1 ==> buf[j] != '\n')
    requires var newline := k > 0 && buf[k - 1] == '\n';
             && (from + k == |data| || k + 1 >= maxlen || newline)
             && n == if newline || (lib && k + 1 < maxlen) || (!lib && maxlen > 1 && from == |data|) then k else k + 1
    requires k > 0 || from == |data| || maxlen <= 1
    requires n != 0 || lib ==> k < |buf| && buf[k] == '\0'
    ensures Delivered(data, from, from + k, maxlen, lib, n, buf)
  {
    hide NextLine, Returned, ReturnedByLib;
    var s := data[from..];
    forall j | 0 <= j < k ensures s[j] == buf[j] {
      assert s[j] == data[from + j];
    }
    SameStart(s, buf, k);
    LineIs(s, maxlen, k);
    assert s[k..] == data[from + k..];
  }

  // ---------------------------------------------------------------- the descriptor

  /** What a call of read may do besides delivering all that is asked for. */
  datatype Event = Chunk(size: nat) | Interrupted | Fault

  /** A descriptor: its bytes and how many have been read, what the next reads will do, and how many have gone wrong. */
  class File {
    const data: string
    var pos: nat
    var script: seq<Event>
    var faults: nat
    var interrupts: nat

    ghost predicate Valid()
      reads this
    {
      pos <= |data|
    }

    constructor (data: string, script: seq<Event>)
      ensures Valid() && this.data == data && pos == 0 && this.script == script && faults == interrupts == 0
    {
      this.data, pos, this.script, faults, interrupts := data, 0, script, 0, 0;
    }

    /** read(2): at most `n` bytes into `buf`, any positive number if there are any; -1 for an error. */
    method Read(buf: array<char>, n: nat) returns (count: int, eintr: bool)
      requires Valid() && 0 < n <= buf.Length
      modifies this, buf
      ensures Valid()
      ensures count == -1 ==> pos == old(pos) && |script| < |old(script)|
      ensures faults == old(faults) + (if count == -1 && !eintr then 1 else 0)
      ensures interrupts == old(interrupts) + (if count == -1 && eintr then 1 else 0)
      ensures count != -1 ==>
        && 0 <= count <= n && pos == old(pos) + count && (count == 0 <==> old(pos) == |data|)
        && forall k | 0 <= k < count :: buf[k] == data[old(pos) + k]
    {
      var size := n;
      if script != [] {
        var e := script[0];
        script := script[1..];
        if e.Interrupted? {
          interrupts := interrupts + 1;
          return -1, true;
        } else if e.Fault? {
          faults := faults + 1;
          return -1, false;
        }
        size := e.size;
      }
      count := if size == 0 then 1 else if size > n then n else size;
      if count > |data| - pos {
        count := |data| - pos;
      }
      forall k | 0 <= k < count {
        buf[k] := data[pos + k];
      }
      pos := pos + count;
      eintr := false;
    }
  }

  // ---------------------------------------------------------------- one byte at a time

  /** server/readline.c. */
  method ReadlineUnbuffered(fd: File, ptr: array<char>, maxlen: nat) returns (n: int)
    requires fd.Valid() && ptr.Length > 0 && maxlen <= ptr.Length
    modifies fd, ptr
    ensures fd.Valid()
    ensures fd.faults + fd.interrupts == old(fd.faults + fd.interrupts) + if n == -1 then 1 else 0
    ensures n != -1 ==> Delivered(fd.data, old(fd.pos), fd.pos, maxlen, false, n, ptr[..])
  {
    hide Delivered;
    ghost var from := fd.pos;
    var c := new char[1];
    var k := 0;
    n := 1;
    while n < maxlen
      invariant fd.Valid() && k == n - 1 <= (if maxlen == 0 then 0 else maxlen - 1) && k < ptr.Length
      invariant fd.pos == from + k && forall j | 0 <= j < k :: ptr[j] == fd.data[from + j] && ptr[j] != '\n'
      invariant fd.faults == old(fd.faults) && fd.interrupts == old(fd.interrupts)
      decreases maxlen - n
    {
      var rc, _ := fd.Read(c, 1);
      if rc == 1 {
        ptr[k] := c[0];
        k := k + 1;
        if c[0] == '\n' {
          break;
        }
      } else if rc == 0 {
        if n == 1 {
          Delivers(fd.data, from, 0, maxlen, false, 0, ptr[..]);
          return 0;
        } else {
          break;
        }
      } else {
        return -1;
      }
      n := n + 1;
    }
    ptr[k] := '\0';
    Delivers(fd.data, from, k, maxlen, false, n, ptr[..]);
  }

  // ---------------------------------------------------------------- through a buffer

  const MAXLINE := 4096

  /** Rline, and the static variables of lib/readline.c: a buffer in front of a descriptor. */
  class Reader {
    const fd: File
    const buf: array<char>
    var cnt: int
    var bufptr: nat

    /** What is buffered are the last bytes read. */
    ghost predicate Valid()
      reads this, fd, buf
    {
      && fd.Valid() && buf.Length == MAXLINE
      && (cnt > 0 ==>
            && bufptr + cnt <= MAXLINE && cnt <= fd.pos
            && forall i | fd.pos - cnt <= i < fd.pos :: buf[bufptr + (i - (fd.pos - cnt))] == fd.data[i])
    }

    /** The byte of the stream that the next call delivers: first those buffered, then those not yet read. */
    ghost function Position(): nat
      reads this, fd, buf
      requires Valid()
    {
      if cnt > 0 then fd.pos - cnt else fd.pos
    }

    /** readline_rinit. */
    constructor (fd: File)
      requires fd.Valid()
      ensures Valid() && this.fd == fd && fresh(buf) && Position() == fd.pos
    {
      this.fd := fd;
      buf := new char[MAXLINE];
      cnt, bufptr := 0, 0;
    }

    /** The read of my_read_r and my_read, taken again after an interruption. */
    method Refill() returns (rc: int)
      requires Valid() && cnt <= 0
      modifies this, buf, fd
      ensures Valid() && Position() == old(Position())
      ensures rc == 1 || rc == 0 || rc == -1
      ensures fd.faults == old(fd.faults) + if rc == -1 then 1 else 0
      ensures rc == 1 <==> cnt > 0
      ensures rc == 0 ==> fd.pos == |fd.data|
    {
      while true
        invariant fd.Valid() && fd.pos == old(fd.pos) && fd.faults == old(fd.faults)
        decreases |fd.script|
      {
        var eintr;
        cnt, eintr := fd.Read(buf, MAXLINE);
        if cnt < 0 {
          if !eintr {
            return -1;
          }
        } else if cnt == 0 {
          return 0;
        } else {
          break;
        }
      }
      bufptr := 0;
      return 1;
    }

    /** my_read_r and my_read: 1 and a byte, 0 at end of file, -1 on an error other than an interruption. */
    method MyRead() returns (rc: int, c: char)
      requires Valid()
      modifies this, buf, fd
      ensures Valid()
      ensures rc == 1 || rc == 0 || rc == -1
      ensures fd.faults == old(fd.faults) + if rc == -1 then 1 else 0
      ensures rc == 1 ==> old(Position()) < |fd.data| && c == fd.data[old(Position())] && Position() == old(Position()) + 1
      ensures rc == 0 ==> Position() == old(Position()) == |fd.data|
      ensures rc == -1 ==> Position() == old(Position())
    {
      c := '\0';
      if cnt <= 0 {
        rc := Refill();
        if rc != 1 {
          return;
        }
      }
      assert buf[bufptr] == fd.data[fd.pos - cnt];
      cnt := cnt - 1;
      c := buf[bufptr];
      bufptr := bufptr + 1;
      rc := 1;
    }

    /** readline_r, and with `lib` set readline of lib/readline.c. */
    method ReadLine(ptr: array<char>, maxlen: nat, lib: bool) returns (n: int)
      requires Valid() && ptr.Length > 0 && maxlen <= ptr.Length && ptr != buf
      modifies this, buf, fd, ptr
      ensures Valid()
      ensures fd.faults == old(fd.faults) + if n == -1 then 1 else 0
      ensures n != -1 ==> Delivered(fd.data, old(Position()), Position(), maxlen, lib, n, ptr[..])
    {
      hide Delivered, Position, Valid;
      PositionInside();
      ghost var from := Position();
      var k := 0;
      n := 1;
      while n < maxlen
        invariant Valid() && k == n - 1 <= (if maxlen == 0 then 0 else maxlen - 1) && k < ptr.Length
        invariant Position() == from + k <= |fd.data|
        invariant forall j | 0 <= j < k :: ptr[j] == fd.data[from + j] && ptr[j] != '\n'
        invariant fd.faults == old(fd.faults)
        decreases maxlen - n
      {
        var rc, c := MyRead();
        if rc == 1 {
          ptr[k] := c;
          k := k + 1;
          if c == '\n' {
            break;
          }
        } else if rc == 0 {
          if lib {
            ptr[k] := '\0';
            Delivers(fd.data, from, k, maxlen, true, n - 1, ptr[..]);
            return n - 1;
          }
          if n == 1 {
            Delivers(fd.data, from, 0, maxlen, false, 0, ptr[..]);
            return 0;
          } else {
            break;
          }
        } else {
          return -1;
        }
        n := n + 1;
      }
      ptr[k] := '\0';
      Delivers(fd.data, from, k, maxlen, lib, n, ptr[..]);
    }

    lemma {:induction false} PositionInside()
      requires Valid()
      ensures Position() <= |fd.data|
    {}
  }
}
